/** The optional fields of a node: which operations take them, and what they have to
    look like (the per-operation checks of `validate_scientific_workflow`). */
module NodeFields {
  import opened ScientificIr
  import opened Tables
  import opened Wrappers

  const DEFAULT_OUTPUT_POINTS := 101
  const MAX_STATES := 8
  const DIMENSIONLESS := "dimensionless"

  datatype Error =
    | VariableUndeclared | VariableUnsupported | BoundsUnsupported | TimeRangeUnsupported
    | OutputPointsUnsupported | UnitsUnsupported | ArithmeticUnsupported
    | RelationsUnsupported | ObjectiveUnsupported | InitialConditionsMismatch | ExpressionUnsupported
    | UnitSyntaxInvalid | BoundsInvalid | TimeRangeInvalid
    | ExpressionRequired | VariableRequired | BoundsRequired | InitialConditionsRequired
    | StateEquationsInvalid | StateEquationsIncomplete | UnitsRequired
    | ColumnsInvalid | ColumnRequired | ColumnsRequired | ArithmeticRequired | SeedRequired

  // ------------------------------------------------------------------- texts

  predicate IsLetter(c: char) {
    'A' <= c <= 'Z' || 'a' <= c <= 'z'
  }

  predicate IsDigit(c: char) {
    '0' <= c <= '9'
  }

  /** A letter and at most `more` further characters that `other` admits. */
  predicate IsName(text: string, other: char -> bool, more: nat) {
    1 <= |text| <= 1 + more && IsLetter(text[0]) && forall i :: 1 <= i < |text| ==> other(text[i])
  }

  predicate IsUnitChar(c: char) {
    || IsLetter(c) || IsDigit(c) || c == '_' || c == '*' || c == '/' || c == '^' || c == ' ' || c == '.' || c == '%'
    || c == '-'
  }

  predicate IsColumnChar(c: char) {
    IsLetter(c) || IsDigit(c) || c == '_' || c == ' ' || c == '.' || c == '-'
  }

  predicate Doubles(text: string, c: char) {
    exists i :: 0 <= i < |text| - 1 && text[i] == c == text[i + 1]
  }

  /** `_check_unit` does not raise. */
  predicate UnitOk(unit: Option<string>) {
    unit.Some? && unit.value != DIMENSIONLESS ==>
      IsName(unit.value, IsUnitChar, 47) && !Doubles(unit.value, '.') && !Doubles(unit.value, '/')
  }

  predicate ColumnOk(column: string) {
    IsName(column, IsColumnChar, 63)
  }

  /** A letter, a digit or one of the marks. */
  ghost predicate Admits(marks: string, c: char) {
    'A' <= c <= 'Z' || 'a' <= c <= 'z' || '0' <= c <= '9' || c in marks
  }

  /** A text that begins with a letter, has at most `length` characters and nothing but
      letters, digits and the marks. */
  ghost predicate Spells(text: string, length: nat, marks: string) {
    && 1 <= |text| <= length && ('A' <= text[0] <= 'Z' || 'a' <= text[0] <= 'z')
    && forall c :: c in text ==> Admits(marks, c)
  }

  /** A unit has no dot or slash twice in a row. */
  ghost predicate IsUnit(text: string) {
    || text == DIMENSIONLESS
    || (Spells(text, 48, "_*/^ .%-")
        && forall i, j :: 0 <= i < j < |text| && j == i + 1 && text[i] == text[j] ==> text[i] != '.' && text[i] != '/')
  }

  ghost predicate IsColumn(text: string) {
    Spells(text, 64, "_ .-")
  }

  lemma {:induction false} MarksExact(c: char)
    ensures IsUnitChar(c) <==> Admits("_*/^ .%-", c)
    ensures IsColumnChar(c) <==> Admits("_ .-", c)
  {
  }

  lemma {:induction false} NameSpells(text: string, other: char -> bool, more: nat, marks: string)
    requires forall c :: other(c) <==> Admits(marks, c)
    ensures IsName(text, other, more) <==> Spells(text, 1 + more, marks)
  {
    if IsName(text, other, more) {
      forall c | c in text
        ensures Admits(marks, c)
      {
        var i :| 0 <= i < |text| && text[i] == c;
      }
    }
  }

  lemma {:induction false} UnitExact(text: string)
    ensures UnitOk(Some(text)) <==> IsUnit(text)
  {
    forall c
      ensures IsUnitChar(c) <==> Admits("_*/^ .%-", c)
    {
      MarksExact(c);
    }
    NameSpells(text, IsUnitChar, 47, "_*/^ .%-");
  }

  lemma {:induction false} ColumnExact(column: string)
    ensures ColumnOk(column) <==> IsColumn(column)
  {
    forall c
      ensures IsColumnChar(c) <==> Admits("_ .-", c)
    {
      MarksExact(c);
    }
    NameSpells(column, IsColumnChar, 63, "_ .-");
  }

  /** The text is there and not empty. */
  predicate Given(text: Option<string>) {
    text.Some? && text.value != ""
  }

  // -------------------------------------------------------------- operations

  /** The validator's sets of operations that an operation belongs to: which fields it
      takes, and whether its inputs form a linear program. */
  datatype Profile = Profile(
    variable: bool, bounds: bool, expression: bool, equations: bool, units: bool, arithmetic: bool,
    columns: bool, oneColumn: bool, manyColumns: bool, seed: bool, linear: bool, mixed: bool)

  const PLAIN := Profile(false, false, false, false, false, false, false, false, false, false, false, false)
  const ALGEBRAIC := PLAIN.(expression := true)
  const CALCULUS := ALGEBRAIC.(variable := true)
  const SOLVER := CALCULUS.(bounds := true)
  const EQUATIONS := PLAIN.(variable := true, equations := true)
  const UNITS := PLAIN.(units := true)
  const QUANTITIES := UNITS.(arithmetic := true)
  const ONE_COLUMN := PLAIN.(columns := true, oneColumn := true)
  const MANY_COLUMNS := PLAIN.(columns := true, manyColumns := true)
  const RESAMPLING := ONE_COLUMN.(seed := true)
  const SAMPLING := PLAIN.(seed := true)
  const LINEAR := PLAIN.(linear := true)
  const MIXED := LINEAR.(mixed := true)

  predicate ReadsSource(inputs: seq<(string, Input)>) {
    exists k :: 0 <= k < |inputs| && inputs[k].1.SourceInput?
  }

  // ------------------------------------------------- the checks in source order

  /** Fields given to an operation that does not take them, checked before the expressions. */
  function MisplacedField(node: Node, takes: Profile, names: set<string>): Option<Error> {
    if node.variable.Some? && node.variable.value !in names then Some(VariableUndeclared)
    else if node.variable.Some? && !takes.variable then Some(VariableUnsupported)
    else if node.bounds.Some? && !takes.bounds then Some(BoundsUnsupported)
    else if node.timeRange.Some? && !takes.equations then Some(TimeRangeUnsupported)
    else if node.outputPoints != DEFAULT_OUTPUT_POINTS && !takes.equations then Some(OutputPointsUnsupported)
    else if (node.unit.Some? || node.targetUnit.Some?) && !takes.units then Some(UnitsUnsupported)
    else if node.arithmetic.Some? && !takes.arithmetic then Some(ArithmeticUnsupported)
    else None
  }

  /** The same for expressions, checked after they have been counted. */
  function MisplacedExpression(node: Node, takes: Profile): Option<Error> {
    if node.relations != [] && !takes.equations then Some(RelationsUnsupported)
    else if node.objective.Some? then Some(ObjectiveUnsupported)
    else if node.initialConditions != [] && !takes.equations then Some(InitialConditionsMismatch)
    else if node.expression.Some? && !takes.expression then Some(ExpressionUnsupported)
    else None
  }

  function States(node: Node): set<string> {
    set k | 0 <= k < |node.initialConditions| :: node.initialConditions[k].0
  }

  predicate IsStateEquation(r: Relation, states: set<string>) {
    r.relation.Equal? && r.left.kind.SymbolKind? && r.left.symbol.Some? && r.left.symbol.value in states
  }

  function LeftSymbols(relations: seq<Relation>): set<Option<string>> {
    set k | 0 <= k < |relations| :: relations[k].left.symbol
  }

  function EquationsError(node: Node): Option<Error> {
    var states := States(node);
    if states == {} || |states| > MAX_STATES || node.timeRange.None? || node.relations == [] then
      Some(InitialConditionsRequired)
    else if exists k :: 0 <= k < |node.relations| && !IsStateEquation(node.relations[k], states) then
      Some(StateEquationsInvalid)
    else if LeftSymbols(node.relations) != (set s | s in states :: Some(s)) || |node.relations| != |states| then
      Some(StateEquationsIncomplete)
    else None
  }

  function ColumnsError(node: Node, takes: Profile): Option<Error> {
    if node.columns != [] && (!takes.columns || exists k :: 0 <= k < |node.columns| && !ColumnOk(node.columns[k])) then
      Some(ColumnsInvalid)
    else if takes.oneColumn && ReadsSource(node.inputs) && |node.columns| != 1 then Some(ColumnRequired)
    else if takes.manyColumns && ReadsSource(node.inputs) && !(2 <= |node.columns| <= 16) then Some(ColumnsRequired)
    else if takes.arithmetic && node.arithmetic.None? then Some(ArithmeticRequired)
    else if takes.seed && node.seed.None? then Some(SeedRequired)
    else None
  }

  /** Malformed fields, and fields that an operation needs and does not have. */
  function MissingField(node: Node, takes: Profile): Option<Error> {
    if !UnitOk(node.unit) || !UnitOk(node.targetUnit) then Some(UnitSyntaxInvalid)
    else if node.bounds.Some? && node.bounds.value.0 >= node.bounds.value.1 then Some(BoundsInvalid)
    else if node.timeRange.Some? && node.timeRange.value.0 >= node.timeRange.value.1 then Some(TimeRangeInvalid)
    else if takes.expression && node.expression.None? then Some(ExpressionRequired)
    else if takes.variable && !Given(node.variable) then Some(VariableRequired)
    else if takes.bounds && node.bounds.None? then Some(BoundsRequired)
    else if takes.equations && EquationsError(node).Some? then EquationsError(node)
    else if takes.units && (!Given(node.unit) || !Given(node.targetUnit)) then Some(UnitsRequired)
    else ColumnsError(node, takes)
  }

  // ------------------------------------------------------- declarative reading

  /** One equation for every state, and nothing else. */
  ghost predicate IsSystem(relations: seq<Relation>, states: set<string>) {
    && (forall r :: r in relations ==>
          r.relation.Equal? && r.left.kind.SymbolKind? && r.left.symbol.Some? && r.left.symbol.value in states)
    && (forall s :: s in states ==> exists k :: 0 <= k < |relations| && relations[k].left.symbol == Some(s))
    && (forall j, k :: 0 <= j < k < |relations| ==> relations[j].left.symbol != relations[k].left.symbol)
  }

  /** Optional fields are given exactly to the operations that take them. */
  ghost predicate FieldsMatch(node: Node, takes: Profile) {
    && (node.variable.Some? <==> takes.variable)
    && (node.bounds.Some? <==> takes.bounds)
    && (node.expression.Some? <==> takes.expression)
    && (node.timeRange.Some? <==> takes.equations)
    && (node.relations != [] <==> takes.equations)
    && (node.initialConditions != [] <==> takes.equations)
    && (node.unit.Some? <==> takes.units) && (node.targetUnit.Some? <==> takes.units)
    && (node.arithmetic.Some? <==> takes.arithmetic)
    && (node.outputPoints != DEFAULT_OUTPUT_POINTS ==> takes.equations)
    && (node.columns != [] ==> takes.columns)
    && (takes.seed ==> node.seed.Some?)
    && node.objective.None?
  }

  ghost predicate TakesSource(node: Node) {
    exists entry :: entry in node.inputs && entry.1.SourceInput?
  }

  ghost predicate UnitWellFormed(unit: Option<string>) {
    unit.Some? ==> IsUnit(unit.value)
  }

  /** The node's texts are units and column names. */
  ghost predicate TextsWellFormed(node: Node) {
    && UnitWellFormed(node.unit) && UnitWellFormed(node.targetUnit)
    && forall c :: c in node.columns ==> IsColumn(c)
  }

  /** What is given is well formed. */
  ghost predicate FieldsWellFormed(node: Node, takes: Profile, names: set<string>) {
    && (node.variable.Some? ==> node.variable.value in names && node.variable.value != "")
    && TextsWellFormed(node)
    && (node.bounds.Some? ==> node.bounds.value.0 < node.bounds.value.1)
    && (node.timeRange.Some? ==> node.timeRange.value.0 < node.timeRange.value.1)
    && (takes.equations ==> |States(node)| <= MAX_STATES && IsSystem(node.relations, States(node)))
    && (takes.oneColumn && TakesSource(node) ==> |node.columns| == 1)
    && (takes.manyColumns && TakesSource(node) ==> 2 <= |node.columns| <= 16)
  }

  ghost predicate FieldsOk(node: Node, takes: Profile, names: set<string>) {
    FieldsMatch(node, takes) && FieldsWellFormed(node, takes, names)
  }

  /** The equations under the names they are for. */
  ghost function ByLeft(relations: seq<Relation>): seq<(string, nat)>
    requires forall k :: 0 <= k < |relations| ==> relations[k].left.symbol.Some?
  {
    seq(|relations|, k requires 0 <= k < |relations| => (relations[k].left.symbol.value, k))
  }

  lemma {:induction false} ByLeftKeys(relations: seq<Relation>, s: string)
    requires forall k :: 0 <= k < |relations| ==> relations[k].left.symbol.Some?
    ensures HasKey(ByLeft(relations), s) <==> Some(s) in LeftSymbols(relations)
  {
    var entries := ByLeft(relations);
    if k :| 0 <= k < |relations| && relations[k].left.symbol == Some(s) {
      assert entries[k].0 == s;
    }
    if k :| 0 <= k < |entries| && entries[k].0 == s {
      assert relations[k].left.symbol == Some(s);
    }
  }

  lemma {:induction false} ByLeftDistinct(relations: seq<Relation>)
    requires forall k :: 0 <= k < |relations| ==> relations[k].left.symbol.Some?
    ensures DistinctKeys(ByLeft(relations)) <==>
              forall j, k :: 0 <= j < k < |relations| ==> relations[j].left.symbol != relations[k].left.symbol
  {
    var entries := ByLeft(relations);
    if DistinctKeys(entries) {
      forall j, k | 0 <= j < k < |relations|
        ensures relations[j].left.symbol != relations[k].left.symbol
      {
        assert entries[j].0 != entries[k].0;
      }
    }
  }

  lemma {:induction false} LeftsAreStates(relations: seq<Relation>, states: set<string>, lefts: set<string>)
    requires forall s: string :: s in lefts <==> Some(s) in LeftSymbols(relations)
    requires forall k :: 0 <= k < |relations| ==> IsStateEquation(relations[k], states)
    ensures lefts <= states
    ensures LeftSymbols(relations) == (set s | s in states :: Some(s)) <==> lefts == states
    ensures lefts == states <==>
              forall s :: s in states ==> exists k :: 0 <= k < |relations| && relations[k].left.symbol == Some(s)
  {
    forall s | s in lefts
      ensures s in states
    {
      var k :| 0 <= k < |relations| && relations[k].left.symbol == Some(s);
      assert IsStateEquation(relations[k], states);
    }
    if lefts == states {
      forall o
        ensures o in LeftSymbols(relations) <==> o in (set s | s in states :: Some(s))
      {
        if k :| 0 <= k < |relations| && relations[k].left.symbol == o {
          assert IsStateEquation(relations[k], states);
        }
      }
    }
    if LeftSymbols(relations) == (set s | s in states :: Some(s)) {
      forall s | s in states
        ensures s in lefts
      {
        assert Some(s) in LeftSymbols(relations);
      }
    }
    forall s | s in states
      ensures s in lefts <==> exists k :: 0 <= k < |relations| && relations[k].left.symbol == Some(s)
    {
    }
  }

  /** With the states covered, there are as many equations as states exactly when no
      equation repeats one. */
  lemma {:induction false} OneEquationEach(relations: seq<Relation>, states: set<string>)
    requires forall k :: 0 <= k < |relations| ==> IsStateEquation(relations[k], states)
    ensures LeftSymbols(relations) == (set s | s in states :: Some(s)) && |relations| == |states| <==>
              IsSystem(relations, states)
  {
    var table := Table(ByLeft(relations));
    TableSize(ByLeft(relations));
    TableKeys(ByLeft(relations));
    ByLeftDistinct(relations);
    forall s: string
      ensures s in table.Keys <==> Some(s) in LeftSymbols(relations)
    {
      ByLeftKeys(relations, s);
    }
    LeftsAreStates(relations, states, table.Keys);
    assert |table.Keys| == |table|;
  }

  lemma {:induction false} EquationsExact(node: Node)
    ensures EquationsError(node).None? <==>
              && States(node) != {} && |States(node)| <= MAX_STATES && node.timeRange.Some? && node.relations != []
              && IsSystem(node.relations, States(node))
  {
    if forall k :: 0 <= k < |node.relations| ==> IsStateEquation(node.relations[k], States(node)) {
      OneEquationEach(node.relations, States(node));
    }
  }

  lemma {:induction false} NoStates(node: Node)
    ensures States(node) == {} <==> node.initialConditions == []
  {
    if node.initialConditions != [] {
      assert node.initialConditions[0].0 in States(node);
    }
  }

  lemma {:induction false} ColumnsExact(node: Node, takes: Profile)
    ensures ColumnsError(node, takes).None? <==>
              && (node.columns != [] ==> takes.columns) && (forall c :: c in node.columns ==> ColumnOk(c))
              && (takes.oneColumn && ReadsSource(node.inputs) ==> |node.columns| == 1)
              && (takes.manyColumns && ReadsSource(node.inputs) ==> 2 <= |node.columns| <= 16)
              && (takes.arithmetic ==> node.arithmetic.Some?) && (takes.seed ==> node.seed.Some?)
  {
  }

  lemma {:induction false} MisplacedExact(node: Node, takes: Profile, names: set<string>)
    ensures MisplacedField(node, takes, names).None? && MisplacedExpression(node, takes).None? <==>
              && (node.variable.Some? ==> node.variable.value in names && takes.variable)
              && (node.bounds.Some? ==> takes.bounds) && (node.timeRange.Some? ==> takes.equations)
              && (node.outputPoints != DEFAULT_OUTPUT_POINTS ==> takes.equations)
              && (node.unit.Some? ==> takes.units) && (node.targetUnit.Some? ==> takes.units)
              && (node.arithmetic.Some? ==> takes.arithmetic) && (node.relations != [] ==> takes.equations)
              && node.objective.None? && (node.initialConditions != [] ==> takes.equations)
              && (node.expression.Some? ==> takes.expression)
  {
  }

  lemma {:induction false} MissingExact(node: Node, takes: Profile)
    ensures MissingField(node, takes).None? <==>
              && UnitOk(node.unit) && UnitOk(node.targetUnit)
              && (node.bounds.Some? ==> node.bounds.value.0 < node.bounds.value.1)
              && (node.timeRange.Some? ==> node.timeRange.value.0 < node.timeRange.value.1)
              && (takes.expression ==> node.expression.Some?) && (takes.variable ==> Given(node.variable))
              && (takes.bounds ==> node.bounds.Some?) && (takes.equations ==> EquationsError(node).None?)
              && (takes.units ==> Given(node.unit) && Given(node.targetUnit))
              && ColumnsError(node, takes).None?
  {
  }

  /** An empty text is no unit. */
  lemma {:induction false} OkIsGiven(unit: Option<string>)
    requires UnitOk(unit)
    ensures Given(unit) <==> unit.Some?
  {
  }

  lemma {:induction false} TextsExact(node: Node)
    ensures UnitOk(node.unit) <==> UnitWellFormed(node.unit)
    ensures UnitOk(node.targetUnit) <==> UnitWellFormed(node.targetUnit)
    ensures (forall c :: c in node.columns ==> ColumnOk(c)) <==> forall c :: c in node.columns ==> IsColumn(c)
    ensures ReadsSource(node.inputs) <==> TakesSource(node)
  {
    if node.unit.Some? {
      UnitExact(node.unit.value);
    }
    if node.targetUnit.Some? {
      UnitExact(node.targetUnit.value);
    }
    forall c | c in node.columns
      ensures ColumnOk(c) <==> IsColumn(c)
    {
      ColumnExact(c);
    }
  }

  /** The checks on the optional fields pass exactly when every field is given to an
      operation that takes it and only there, and is well formed. */
  lemma {:induction false} FieldsExact(node: Node, takes: Profile, names: set<string>)
    ensures FieldsOk(node, takes, names) <==>
              && MisplacedField(node, takes, names).None? && MisplacedExpression(node, takes).None?
              && MissingField(node, takes).None?
  {
    MisplacedExact(node, takes, names);
    MissingExact(node, takes);
    EquationsExact(node);
    NoStates(node);
    ColumnsExact(node, takes);
    TextsExact(node);
    if UnitOk(node.unit) && UnitOk(node.targetUnit) {
      OkIsGiven(node.unit);
      OkIsGiven(node.targetUnit);
    }
  }

  // ------------------------------------------------------------ named faults

  /** What is wrong with the equations of a node. */
  ghost predicate EquationsFault(node: Node, error: Error) {
    match error
    case InitialConditionsRequired =>
      node.initialConditions == [] || |States(node)| > MAX_STATES || node.timeRange.None? || node.relations == []
    case StateEquationsInvalid =>
      exists r :: r in node.relations
                  && (|| !r.relation.Equal? || !r.left.kind.SymbolKind? || r.left.symbol.None?
                      || r.left.symbol.value !in States(node))
    case StateEquationsIncomplete => !IsSystem(node.relations, States(node))
    case _ => false
  }

  /** A field given to an operation that does not take it. */
  ghost predicate Misplaced(node: Node, takes: Profile, names: set<string>, error: Error) {
    match error
    case VariableUndeclared => node.variable.Some? && node.variable.value !in names
    case VariableUnsupported => node.variable.Some? && !takes.variable
    case BoundsUnsupported => node.bounds.Some? && !takes.bounds
    case TimeRangeUnsupported => node.timeRange.Some? && !takes.equations
    case OutputPointsUnsupported => node.outputPoints != DEFAULT_OUTPUT_POINTS && !takes.equations
    case UnitsUnsupported => (node.unit.Some? || node.targetUnit.Some?) && !takes.units
    case ArithmeticUnsupported => node.arithmetic.Some? && !takes.arithmetic
    case RelationsUnsupported => node.relations != [] && !takes.equations
    case ObjectiveUnsupported => node.objective.Some?
    case InitialConditionsMismatch => node.initialConditions != [] && !takes.equations
    case ExpressionUnsupported => node.expression.Some? && !takes.expression
    case _ => false
  }

  /** A field that is malformed, or that an operation needs and does not have. */
  ghost predicate Malformed(node: Node, takes: Profile, error: Error) {
    match error
    case UnitSyntaxInvalid => !UnitWellFormed(node.unit) || !UnitWellFormed(node.targetUnit)
    case BoundsInvalid => node.bounds.Some? && node.bounds.value.0 >= node.bounds.value.1
    case TimeRangeInvalid => node.timeRange.Some? && node.timeRange.value.0 >= node.timeRange.value.1
    case ExpressionRequired => takes.expression && node.expression.None?
    case VariableRequired => takes.variable && (node.variable.None? || node.variable.value == "")
    case BoundsRequired => takes.bounds && node.bounds.None?
    case UnitsRequired => takes.units && (node.unit.None? || node.targetUnit.None?)
    case ColumnsInvalid => node.columns != [] && (!takes.columns || exists c :: c in node.columns && !IsColumn(c))
    case ColumnRequired => takes.oneColumn && TakesSource(node) && |node.columns| != 1
    case ColumnsRequired => takes.manyColumns && TakesSource(node) && !(2 <= |node.columns| <= 16)
    case ArithmeticRequired => takes.arithmetic && node.arithmetic.None?
    case SeedRequired => takes.seed && node.seed.None?
    case _ => takes.equations && EquationsFault(node, error)
  }

  lemma {:induction false} MisplacedNamesFault(node: Node, takes: Profile, names: set<string>)
    ensures var error := MisplacedField(node, takes, names);
            error.Some? ==> Misplaced(node, takes, names, error.value)
    ensures var error := MisplacedExpression(node, takes);
            error.Some? ==> Misplaced(node, takes, names, error.value)
  {
  }

  lemma {:induction false} EquationsNameFault(node: Node)
    requires EquationsError(node).Some?
    ensures EquationsFault(node, EquationsError(node).value)
    ensures var error := EquationsError(node).value;
            error.InitialConditionsRequired? || error.StateEquationsInvalid? || error.StateEquationsIncomplete?
  {
    NoStates(node);
    EquationsExact(node);
  }

  lemma {:induction false} ColumnsNameFault(node: Node, takes: Profile)
    requires ColumnsError(node, takes).Some?
    ensures Malformed(node, takes, ColumnsError(node, takes).value)
  {
    TextsExact(node);
  }

  /** The error of a malformed field is a fault of the node. */
  lemma {:induction false} MissingNamesFault(node: Node, takes: Profile)
    requires MissingField(node, takes).Some?
    ensures Malformed(node, takes, MissingField(node, takes).value)
  {
    TextsExact(node);
    if EquationsError(node).Some? {
      EquationsNameFault(node);
    }
    if ColumnsError(node, takes).Some? {
      ColumnsNameFault(node, takes);
    }
    if UnitOk(node.unit) && UnitOk(node.targetUnit) {
      OkIsGiven(node.unit);
      OkIsGiven(node.targetUnit);
    }
  }
}
