/** The fixed operation table of core/scientific_registry.py, with the sets of operations
    that core/scientific_validation.py spells out. */
module Registry {
  import opened NodeFields
  import opened ScientificIr
  import opened Tables
  import opened Wrappers

  type Ports = seq<(string, Shape)>

  datatype OperationSpec = OperationSpec(
    name: string, inputs: Ports, outputs: Ports, diagnostics: seq<string>, sourceAllowed: bool, takes: Profile)

  const ANALYSIS_SPECS: seq<OperationSpec> := [
    OperationSpec("descriptive_stats", [("values", Vector)], [("summary", ObjectShape)], [], true, ONE_COLUMN),
    OperationSpec("correlation_matrix", [("values", Matrix)], [("matrix", Matrix)], [], true, MANY_COLUMNS),
    OperationSpec("bootstrap_mean_ci", [("values", Vector)], [("interval", ObjectShape)], ["seed"], true, RESAMPLING),
    OperationSpec("matrix_multiply", [("matrix_a", Matrix), ("matrix_b", Matrix)], [("matrix", Matrix)], [], false, PLAIN),
    OperationSpec("monte_carlo_normal", [], [("summary", ObjectShape)], ["seed"], false, SAMPLING),
    OperationSpec("evaluate_expression", [], [("value", Scalar)], [], false, ALGEBRAIC),
    OperationSpec("substitute_expression", [], [("expression", ExpressionShape)], [], false, ALGEBRAIC),
    OperationSpec("differentiate", [], [("expression", ExpressionShape)], [], false, CALCULUS),
    OperationSpec("simplify_expression", [], [("expression", ExpressionShape)], [], false, ALGEBRAIC),
    OperationSpec("integrate", [], [("expression", ExpressionShape)], [], false, CALCULUS),
    OperationSpec("solve_linear_system", [("matrix", Matrix), ("rhs", Vector)], [("solution", Vector)],
                  ["residual", "condition"], false, PLAIN),
    OperationSpec("least_squares", [("matrix", Matrix), ("rhs", Vector)],
                  [("solution", Vector), ("residuals", Vector)], ["rank", "residual"], false, PLAIN),
    OperationSpec("matrix_rank", [("matrix", Matrix)], [("rank", Scalar)], [], false, PLAIN),
    OperationSpec("determinant", [("matrix", Matrix)], [("value", Scalar)], [], false, PLAIN),
    OperationSpec("pseudoinverse", [("matrix", Matrix)], [("matrix", Matrix)], ["residual"], false, PLAIN)
  ]

  const SOLVER_SPECS: seq<OperationSpec> := [
    OperationSpec("linear_regression", [("matrix", Matrix), ("rhs", Vector)],
                  [("coefficients", Vector), ("residuals", Vector)], ["rank", "residual"], false, PLAIN),
    OperationSpec("covariance_matrix", [("values", Matrix)], [("matrix", Matrix)], [], false, PLAIN),
    OperationSpec("find_root", [], [("root", Scalar)], ["convergence", "iterations", "residual"], false, SOLVER),
    OperationSpec("numerical_integral", [], [("value", Scalar)], ["error_estimate"], false, SOLVER),
    OperationSpec("minimize_scalar", [], [("minimum", Scalar)], ["convergence", "iterations"], false, SOLVER),
    OperationSpec("solve_ode_ivp", [], [("times", Vector), ("states", Matrix)], ["convergence", "evaluations"], false, EQUATIONS),
    OperationSpec("unit_convert", [("value", Scalar)], [("value", Scalar)], ["dimensions"], false, UNITS),
    OperationSpec("dimensional_check", [], [("compatible", BooleanShape)], ["dimensions"], false, UNITS),
    OperationSpec("quantity_arithmetic", [("left", Scalar), ("right", Scalar)], [("value", Scalar)],
                  ["dimensions"], false, QUANTITIES),
    OperationSpec("linear_program",
                  [("cost", Vector), ("matrix", Matrix), ("rhs", Vector), ("lower", Vector), ("upper", Vector)],
                  [("solution", Vector), ("objective", Scalar)], ["convergence", "constraint"], false, LINEAR),
    OperationSpec("mixed_integer_linear_program",
                  [("cost", Vector), ("matrix", Matrix), ("rhs", Vector), ("lower", Vector), ("upper", Vector),
                   ("integrality", Vector)],
                  [("solution", Vector), ("objective", Scalar)], ["convergence", "constraint"], false, MIXED)
  ]

  /** The table in the order of its entries. */
  const SPECS := ANALYSIS_SPECS + SOLVER_SPECS

  /** No operation declares an input or an output port twice. */
  ghost predicate WellFormedSpecs(specs: seq<OperationSpec>) {
    forall k :: 0 <= k < |specs| ==> DistinctKeys(specs[k].inputs) && DistinctKeys(specs[k].outputs)
  }

  /** The dictionary lookup; a later entry of the same name would win. */
  function Lookup(specs: seq<OperationSpec>, name: string): (r: Option<OperationSpec>)
    ensures r.Some? ==> r.value in specs && r.value.name == name
    ensures r.None? ==> forall k :: 0 <= k < |specs| ==> specs[k].name != name
  {
    if specs == [] then None
    else if specs[|specs| - 1].name == name then Some(specs[|specs| - 1])
    else Lookup(specs[..|specs| - 1], name)
  }

  lemma {:induction false} AnalysisSpecsAreWellFormed()
    ensures WellFormedSpecs(ANALYSIS_SPECS)
  {
    assert "matrix_a"[7] == 'a' && "matrix_b"[7] == 'b';
  }

  lemma {:induction false} SolverSpecsAreWellFormed()
    ensures WellFormedSpecs(SOLVER_SPECS)
  {
    assert "lower"[0] == 'l' && "upper"[0] == 'u';
  }

  /** The fixed table declares every port of an operation once. */
  lemma {:induction false} SpecsAreWellFormed()
    ensures WellFormedSpecs(SPECS)
  {
    AnalysisSpecsAreWellFormed();
    SolverSpecsAreWellFormed();
    assert forall k :: 0 <= k < |SPECS| ==>
        SPECS[k] == if k < |ANALYSIS_SPECS| then ANALYSIS_SPECS[k] else SOLVER_SPECS[k - |ANALYSIS_SPECS|];
  }
}
