/** The data contract of app/api/schemas/scientific_ir.py, as far as validation reads it. */
module ScientificIr {
  import opened Wrappers

  /** A JSON number; a real stands for the decimal text that Python prints for it. */
  datatype Number = IntNum(i: int) | RealNum(r: real) | NonFinite {
    function AsReal(): real {
      match this
      case IntNum(i) => i as real
      case RealNum(r) => r
      case NonFinite => 0.0
    }
  }

  datatype Value = BoolValue(b: bool) | NumValue(n: Number) | ListValue(items: seq<Value>)

  predicate FiniteNumber(v: Value) {
    v.NumValue? && !v.n.NonFinite?
  }

  datatype Kind =
    | NumberKind | RationalKind | SymbolKind
    | Negate | Sin | Cos | Exp | Log | Sqrt
    | Add | Subtract | Multiply | Divide | Power

  datatype Expression = Expression(
    kind: Kind, value: Option<Number>, numerator: Option<int>, denominator: Option<int>,
    symbol: Option<string>, args: seq<Expression>)

  datatype Comparison = Equal | LessEqual | GreaterEqual

  datatype Relation = Relation(relation: Comparison, left: Expression, right: Expression)

  datatype Provenance = User | SelectedSource | TrustedConstant | Assumption

  datatype Shape = Scalar | Vector | Matrix | ObjectShape | ExpressionShape | BooleanShape

  datatype Symbol = Symbol(
    name: string, shape: Shape, unit: string, value: Option<Value>, provenance: Option<Provenance>,
    lower: Option<real>, upper: Option<real>)

  datatype Source = Source(sourceId: string, fileId: string)

  datatype Input =
    | Literal(value: Value, provenance: Option<Provenance>)
    | SymbolInput(symbol: string)
    | NodeInput(nodeId: string, port: string)
    | SourceInput(sourceId: string)

  datatype Arithmetic = Sum | Difference | Product | Quotient

  /** `inputs` and `initialConditions` are dictionaries in insertion order; `seed` is
      that of the solver controls. */
  datatype Node = Node(
    nodeId: string, operation: string, inputs: seq<(string, Input)>, columns: seq<string>,
    expression: Option<Expression>, variable: Option<string>, relations: seq<Relation>,
    objective: Option<Expression>, initialConditions: seq<(string, real)>, bounds: Option<(real, real)>,
    timeRange: Option<(real, real)>, outputPoints: int, unit: Option<string>, targetUnit: Option<string>,
    arithmetic: Option<Arithmetic>, seed: Option<nat>, verification: seq<string>)

  datatype Output = Output(nodeId: string, port: string, unit: Option<string>)

  datatype Workflow = Workflow(
    symbols: seq<Symbol>, sources: seq<Source>, assumptions: seq<string>, nodes: seq<Node>, outputs: seq<Output>)
}
