/** The structural part of `validate_scientific_workflow` in core/scientific_validation.py:
    symbols, sources, references, ports, shapes, per-operation fields, expression
    budget, linear programs and outputs. */
module WorkflowCheck {
  import opened Folds
  import opened Registry
  import opened ScientificIr
  import opened Tables
  import opened Wrappers
  import ExpressionCheck
  import Fields = NodeFields
  import LinearInputs
  import Linear = LinearContract

  const MAX_WORKFLOW_NODES := 12
  const MAX_EXPRESSION_TOTAL := 2048
  const MAX_VECTOR := 100_000
  const MAX_SIDE := 64

  datatype Error =
    | NodeLimitExceeded | DuplicateSymbolOrSource | SourceNotAuthorized
    | SymbolShapeMismatch | SymbolBoundsInvalid | SymbolProvenanceRequired
    | DuplicateNode | UnsupportedOperation | VerificationUnsupported | InputPortsInvalid
    | SymbolValueRequired | SourcePortNotAllowed | ForwardOrInvalidReference | PortShapeMismatch
    | BooleanRejected | VectorLengthExceeded | MatrixDimensionsExceeded | MatrixInvalid | NumericInputInvalid
    | ExpressionInvalid(why: ExpressionCheck.Error) | ExpressionLimitExceeded | RequestedOutputInvalid
    | UnitSyntaxInvalid | FieldInvalid(field: Fields.Error) | LinearInputsInvalid(linear: LinearInputs.Error)

  // ------------------------------------------------------------------ shapes

  predicate RowOk(row: Value, width: nat)
    requires row.ListValue?
  {
    |row.items| == width && forall j :: 0 <= j < |row.items| ==> FiniteNumber(row.items[j])
  }

  /** `_shape` */
  function ShapeOf(v: Value): Result<Shape, Error> {
    if v.BoolValue? then Failure(BooleanRejected)
    else if v.NumValue? then if FiniteNumber(v) then Success(Scalar) else Failure(NumericInputInvalid)
    else if v.items == [] then Failure(NumericInputInvalid)
    else if forall i :: 0 <= i < |v.items| ==> FiniteNumber(v.items[i]) then
      if |v.items| > MAX_VECTOR then Failure(VectorLengthExceeded) else Success(Vector)
    else if forall i :: 0 <= i < |v.items| ==> v.items[i].ListValue? then
      var width := |v.items[0].items|;
      if !(1 <= |v.items| <= MAX_SIDE) || !(1 <= width <= MAX_SIDE) then Failure(MatrixDimensionsExceeded)
      else if exists i :: 0 <= i < |v.items| && !RowOk(v.items[i], width) then Failure(MatrixInvalid)
      else Success(Matrix)
    else Failure(NumericInputInvalid)
  }

  ghost predicate IsFinite(v: Value) {
    v.NumValue? && (v.n.IntNum? || v.n.RealNum?)
  }

  ghost predicate AllFinite(vs: seq<Value>) {
    forall v :: v in vs ==> IsFinite(v)
  }

  /** A list of as many finite numbers. */
  ghost predicate IsRow(v: Value, width: nat) {
    v.ListValue? && |v.items| == width && AllFinite(v.items)
  }

  ghost predicate AllRows(rows: seq<Value>, width: nat) {
    forall row :: row in rows ==> IsRow(row, width)
  }

  /** A scalar is a finite number, a vector a list of them, and a matrix a list of rows of
      one length; nothing else has a shape. */
  ghost predicate HasShape(v: Value, shape: Shape) {
    match shape
    case Scalar => IsFinite(v)
    case Vector => v.ListValue? && 1 <= |v.items| <= MAX_VECTOR && AllFinite(v.items)
    case Matrix =>
      && v.ListValue? && 1 <= |v.items| <= MAX_SIDE
      && exists width :: 1 <= width <= MAX_SIDE && AllRows(v.items, width)
    case _ => false
  }

  /** Why a value has no shape. */
  ghost predicate ShapeFault(v: Value, error: Error) {
    match error
    case BooleanRejected => v.BoolValue?
    case VectorLengthExceeded => v.ListValue? && |v.items| > MAX_VECTOR && AllFinite(v.items)
    case MatrixDimensionsExceeded =>
      && v.ListValue? && v.items != [] && (forall row :: row in v.items ==> row.ListValue?)
      && (|v.items| > MAX_SIDE || v.items[0].items == [] || |v.items[0].items| > MAX_SIDE)
    case MatrixInvalid =>
      && v.ListValue? && v.items != [] && (forall row :: row in v.items ==> row.ListValue?)
      && exists row :: row in v.items && !IsRow(row, |v.items[0].items|)
    case NumericInputInvalid =>
      || (v.NumValue? && v.n.NonFinite?)
      || (v.ListValue? && !AllFinite(v.items) && exists row :: row in v.items && !row.ListValue?)
      || (v.ListValue? && v.items == [])
    case _ => false
  }

  lemma {:induction false} FiniteExact(vs: seq<Value>)
    ensures (forall i :: 0 <= i < |vs| ==> FiniteNumber(vs[i])) <==> AllFinite(vs)
  {
    if forall i :: 0 <= i < |vs| ==> FiniteNumber(vs[i]) {
      forall v | v in vs
        ensures IsFinite(v)
      {
        var i :| 0 <= i < |vs| && vs[i] == v;
      }
    }
    if AllFinite(vs) {
      forall i | 0 <= i < |vs|
        ensures FiniteNumber(vs[i])
      {
        assert vs[i] in vs && IsFinite(vs[i]);
      }
    }
  }

  lemma {:induction false} RowExact(row: Value, width: nat)
    requires row.ListValue?
    ensures RowOk(row, width) <==> IsRow(row, width)
  {
    FiniteExact(row.items);
  }

  lemma {:induction false} RowsExact(rows: seq<Value>, width: nat)
    requires forall i :: 0 <= i < |rows| ==> rows[i].ListValue?
    ensures (forall i :: 0 <= i < |rows| ==> RowOk(rows[i], width)) <==> AllRows(rows, width)
  {
    forall i | 0 <= i < |rows|
      ensures RowOk(rows[i], width) <==> IsRow(rows[i], width)
    {
      RowExact(rows[i], width);
    }
  }

  /** The rows of a matrix are as long as its first one. */
  lemma {:induction false} MatrixWidth(v: Value)
    requires v.ListValue? && v.items != []
    ensures HasShape(v, Matrix) <==>
              && |v.items| <= MAX_SIDE && v.items[0].ListValue? && 1 <= |v.items[0].items| <= MAX_SIDE
              && AllRows(v.items, |v.items[0].items|)
  {
    if HasShape(v, Matrix) {
      var width :| 1 <= width <= MAX_SIDE && AllRows(v.items, width);
      assert IsRow(v.items[0], width);
    }
  }

  lemma {:induction false} ListShape(v: Value)
    requires v.ListValue? && v.items != [] && !AllFinite(v.items)
    ensures ShapeOf(v) == Success(Matrix) <==> HasShape(v, Matrix)
    ensures ShapeOf(v).Success? ==> ShapeOf(v).value == Matrix
    ensures ShapeOf(v).Failure? ==> ShapeFault(v, ShapeOf(v).error)
  {
    FiniteExact(v.items);
    MatrixWidth(v);
    if forall i :: 0 <= i < |v.items| ==> v.items[i].ListValue? {
      RowsExact(v.items, |v.items[0].items|);
    } else {
      var i :| 0 <= i < |v.items| && !v.items[i].ListValue?;
      assert v.items[i] in v.items;
    }
  }

  /** `_shape` finds exactly the shape that a value has, and otherwise names why it has none. */
  lemma {:induction false} ShapeExact(v: Value, shape: Shape)
    ensures ShapeOf(v) == Success(shape) <==> HasShape(v, shape)
    ensures ShapeOf(v).Failure? ==> ShapeFault(v, ShapeOf(v).error)
  {
    if v.ListValue? {
      FiniteExact(v.items);
      if v.items != [] {
        if AllFinite(v.items) {
          MatrixWidth(v);
          assert IsFinite(v.items[0]);
        } else {
          ListShape(v);
        }
      }
    }
  }

  // ----------------------------------------------------------- one item each

  function SymbolTable(symbols: seq<Symbol>): map<string, Symbol> {
    Table(seq(|symbols|, i requires 0 <= i < |symbols| => (symbols[i].name, symbols[i])))
  }

  function SourceTable(sources: seq<Source>): map<string, Source> {
    Table(seq(|sources|, i requires 0 <= i < |sources| => (sources[i].sourceId, sources[i])))
  }

  type Seen = map<string, map<string, Shape>>

  function SymbolError(s: Symbol): Option<Error> {
    if !Fields.UnitOk(Some(s.unit)) then Some(UnitSyntaxInvalid)
    else if s.value.Some? && ShapeOf(s.value.value).Failure? then Some(ShapeOf(s.value.value).error)
    else if s.value.Some? && ShapeOf(s.value.value).value != s.shape then Some(SymbolShapeMismatch)
    else if s.lower.Some? && s.upper.Some? && s.lower.value > s.upper.value then Some(SymbolBoundsInvalid)
    else if s.value.Some? && s.provenance.None? then Some(SymbolProvenanceRequired)
    else None
  }

  /** The shape that an input supplies to a port of shape `shape`; the unit of a symbol
      has been checked with the symbol. */
  function ActualShape(item: Input, shape: Shape, spec: OperationSpec, symbols: map<string, Symbol>,
                       sources: map<string, Source>, seen: Seen): Result<Shape, Error>
  {
    match item
    case Literal(value, _) => ShapeOf(value)
    case SymbolInput(name) =>
      if name !in symbols || symbols[name].value.None? then Failure(SymbolValueRequired)
      else Success(symbols[name].shape)
    case SourceInput(id) =>
      if !spec.sourceAllowed || id !in sources then Failure(SourcePortNotAllowed) else Success(shape)
    case NodeInput(id, port) =>
      if id !in seen || port !in seen[id] then Failure(ForwardOrInvalidReference) else Success(seen[id][port])
  }

  function PortError(entry: (string, Input), spec: OperationSpec, symbols: map<string, Symbol>,
                     sources: map<string, Source>, seen: Seen): Option<Error>
    requires entry.0 in Table(spec.inputs)
  {
    var shape := Table(spec.inputs)[entry.0];
    var actual := ActualShape(entry.1, shape, spec, symbols, sources, seen);
    if actual.Failure? then Some(actual.error)
    else if actual.value != shape then Some(PortShapeMismatch)
    else None
  }

  function InputPorts(inputs: seq<(string, Input)>): set<string> {
    set i | 0 <= i < |inputs| :: inputs[i].0
  }

  /** The checks on a node before its ports are visited. */
  function HeaderError(node: Node, specs: seq<OperationSpec>, seen: Seen): Option<Error> {
    if node.nodeId in seen then Some(DuplicateNode)
    else
      var spec := Lookup(specs, node.operation);
      if spec.None? then Some(UnsupportedOperation)
      else if exists i :: 0 <= i < |node.verification| && node.verification[i] != "finite"
                          && node.verification[i] !in spec.value.diagnostics then Some(VerificationUnsupported)
      else if InputPorts(node.inputs) != Table(spec.value.inputs).Keys then Some(InputPortsInvalid)
      else None
  }

  function RelationSides(relations: seq<Relation>): seq<Expression> {
    if relations == [] then []
    else RelationSides(relations[..|relations| - 1]) + [relations[|relations| - 1].left, relations[|relations| - 1].right]
  }

  /** The expressions of a node in the order in which they are counted. */
  function Expressions(node: Node): seq<Expression> {
    (if node.expression.Some? then [node.expression.value] else [])
    + (if node.objective.Some? then [node.objective.value] else [])
    + RelationSides(node.relations)
  }

  // ------------------------------------------------ specification of the loops

  /** The first error among the first `n` symbols. */
  function SymbolsError(symbols: seq<Symbol>, n: nat): Option<Error>
    requires n <= |symbols|
  {
    if n == 0 then None
    else
      var before := SymbolsError(symbols, n - 1);
      if before.Some? then before else SymbolError(symbols[n - 1])
  }

  /** The first error among the first `n` inputs. */
  function PortsError(inputs: seq<(string, Input)>, spec: OperationSpec, symbols: map<string, Symbol>,
                      sources: map<string, Source>, seen: Seen, n: nat): Option<Error>
    requires n <= |inputs| && forall k :: 0 <= k < |inputs| ==> inputs[k].0 in Table(spec.inputs)
  {
    if n == 0 then None
    else
      var before := PortsError(inputs, spec, symbols, sources, seen, n - 1);
      if before.Some? then before else PortError(inputs[n - 1], spec, symbols, sources, seen)
  }

  /** Adds the sizes of the first `n` expressions to `count`, or raises the first error. */
  function CountExpressions(es: seq<Expression>, names: set<string>, count: nat, n: nat): Result<nat, Error>
    requires n <= |es|
  {
    if n == 0 then Success(count)
    else
      var before :- CountExpressions(es, names, count, n - 1);
      match ExpressionCheck.Check(es[n - 1], names, 1)
      case Success(size) => Success(before + size)
      case Failure(why) => Failure(ExpressionInvalid(why))
  }

  /** What the node loop carries: declared outputs so far and the expression count. */
  datatype Progress = Progress(seen: Seen, count: nat)

  /** What every node is checked against. */
  datatype Context = Context(symbols: map<string, Symbol>, sources: map<string, Source>, specs: seq<OperationSpec>)

  function ContextOf(w: Workflow, specs: seq<OperationSpec>): Context {
    Context(SymbolTable(w.symbols), SourceTable(w.sources), specs)
  }

  /** What a port supplies when no other node has to run first. Every port has been
      checked to supply something; only a source, which no linear program takes, has
      no value yet. */
  function ConcreteValue(item: Input, symbols: map<string, Symbol>): Value {
    if item.Literal? then item.value
    else if item.SymbolInput? && item.symbol in symbols && symbols[item.symbol].value.Some? then
      symbols[item.symbol].value.value
    else ListValue([])
  }

  function Concrete(inputs: seq<(string, Input)>, symbols: map<string, Symbol>): LinearInputs.Values {
    Table(seq(|inputs|, k requires 0 <= k < |inputs| => (inputs[k].0, ConcreteValue(inputs[k].1, symbols))))
  }

  predicate IsConcreteLinear(node: Node, takes: Fields.Profile) {
    takes.linear && forall k :: 0 <= k < |node.inputs| ==> !node.inputs[k].1.NodeInput?
  }

  function LinearError(node: Node, takes: Fields.Profile, symbols: map<string, Symbol>): Option<LinearInputs.Error> {
    if !IsConcreteLinear(node, takes) then None
    else LinearInputs.InputsError(Concrete(node.inputs, symbols), takes.mixed)
  }

  /** The checks on a node once its expressions have been counted. */
  function DetailsError(node: Node, takes: Fields.Profile, symbols: map<string, Symbol>, count: nat): Option<Error> {
    var misplaced, missing := Fields.MisplacedExpression(node, takes), Fields.MissingField(node, takes);
    var linear := LinearError(node, takes, symbols);
    if misplaced.Some? then Some(FieldInvalid(misplaced.value))
    else if count > MAX_EXPRESSION_TOTAL then Some(ExpressionLimitExceeded)
    else if missing.Some? then Some(FieldInvalid(missing.value))
    else if linear.Some? then Some(LinearInputsInvalid(linear.value))
    else None
  }

  lemma {:induction false} KeysAreInputPorts(inputs: seq<(string, Input)>)
    ensures forall k :: 0 <= k < |inputs| ==> inputs[k].0 in InputPorts(inputs)
  {
  }

  function NodeStep(ctx: Context, node: Node, p: Progress): Result<Progress, Error> {
    var header := HeaderError(node, ctx.specs, p.seen);
    if header.Some? then Failure(header.value)
    else
      var spec := Lookup(ctx.specs, node.operation).value;
      KeysAreInputPorts(node.inputs);
      var ports := PortsError(node.inputs, spec, ctx.symbols, ctx.sources, p.seen, |node.inputs|);
      var misplaced := Fields.MisplacedField(node, spec.takes, ctx.symbols.Keys);
      if ports.Some? then Failure(ports.value)
      else if misplaced.Some? then Failure(FieldInvalid(misplaced.value))
      else
        var count :- CountExpressions(Expressions(node), ctx.symbols.Keys, p.count, |Expressions(node)|);
        var details := DetailsError(node, spec.takes, ctx.symbols, count);
        if details.Some? then Failure(details.value)
        else Success(Progress(p.seen[node.nodeId := Table(spec.outputs)], count))
  }

  function Stepper(ctx: Context): (Progress, Node) -> Result<Progress, Error> {
    (p: Progress, node: Node) => NodeStep(ctx, node, p)
  }

  /** The state after the first `i` nodes. */
  function NodesUpTo(ctx: Context, nodes: seq<Node>, i: nat): Result<Progress, Error>
    requires i <= |nodes|
  {
    Fold(Stepper(ctx), Progress(map[], 0), nodes, i)
  }

  predicate OutputKnown(o: Output, seen: Seen) {
    o.nodeId in seen && o.port in seen[o.nodeId]
  }

  function OutputError(o: Output, seen: Seen): Option<Error> {
    if !OutputKnown(o, seen) then Some(RequestedOutputInvalid)
    else if !Fields.UnitOk(o.unit) then Some(UnitSyntaxInvalid)
    else None
  }

  /** The first error among the first `n` requested outputs. */
  function OutputsError(outputs: seq<Output>, seen: Seen, n: nat): Option<Error>
    requires n <= |outputs|
  {
    if n == 0 then None
    else
      var before := OutputsError(outputs, seen, n - 1);
      if before.Some? then before else OutputError(outputs[n - 1], seen)
  }

  function Validate(w: Workflow, specs: seq<OperationSpec>, allowedFiles: set<string>): Result<nat, Error> {
    if |w.nodes| > MAX_WORKFLOW_NODES then Failure(NodeLimitExceeded)
    else if |SymbolTable(w.symbols)| != |w.symbols| || |SourceTable(w.sources)| != |w.sources| then
      Failure(DuplicateSymbolOrSource)
    else if exists k :: 0 <= k < |w.sources| && w.sources[k].fileId !in allowedFiles then Failure(SourceNotAuthorized)
    else if SymbolsError(w.symbols, |w.symbols|).Some? then Failure(SymbolsError(w.symbols, |w.symbols|).value)
    else
      var p :- NodesUpTo(ContextOf(w, specs), w.nodes, |w.nodes|);
      var error := OutputsError(w.outputs, p.seen, |w.outputs|);
      if error.Some? then Failure(error.value) else Success(p.count)
  }

  // ------------------------------------------------------- declarative reading

  /** No two entries share a key. */
  ghost predicate DistinctSymbols(symbols: seq<Symbol>) {
    forall i, j :: 0 <= i < j < |symbols| ==> symbols[i].name != symbols[j].name
  }

  ghost predicate DistinctSources(sources: seq<Source>) {
    forall i, j :: 0 <= i < j < |sources| ==> sources[i].sourceId != sources[j].sourceId
  }

  ghost predicate SymbolOk(s: Symbol) {
    && Fields.IsUnit(s.unit)
    && (s.value.Some? ==> HasShape(s.value.value, s.shape) && s.provenance.Some?)
    && (s.lower.Some? && s.upper.Some? ==> s.lower.value <= s.upper.value)
  }

  /** Node `j` declares an output `port` of shape `shape`. */
  ghost predicate Produces(w: Workflow, specs: seq<OperationSpec>, j: nat, id: string, port: string, shape: Shape)
    requires j < |w.nodes|
  {
    && w.nodes[j].nodeId == id
    && Lookup(specs, w.nodes[j].operation).Some?
    && (port, shape) in Lookup(specs, w.nodes[j].operation).value.outputs
  }

  /** The input supplies a value of shape `shape` to node `i`: a literal, a symbol
      with a value, a permitted source, or an output of a strictly earlier node. */
  ghost predicate Supplies(w: Workflow, specs: seq<OperationSpec>, i: nat, item: Input, shape: Shape)
    requires i < |w.nodes|
  {
    match item
    case Literal(value, _) => HasShape(value, shape)
    case SymbolInput(name) =>
      exists k :: 0 <= k < |w.symbols| && w.symbols[k].name == name && w.symbols[k].value.Some?
                  && w.symbols[k].shape == shape
    case SourceInput(id) =>
      && Lookup(specs, w.nodes[i].operation).Some?
      && Lookup(specs, w.nodes[i].operation).value.sourceAllowed
      && exists k :: 0 <= k < |w.sources| && w.sources[k].sourceId == id
    case NodeInput(id, port) => exists j :: 0 <= j < i && Produces(w, specs, j, id, port, shape)
  }

  ghost predicate HeaderTyped(w: Workflow, specs: seq<OperationSpec>, i: nat)
    requires i < |w.nodes|
  {
    var node := w.nodes[i];
    && (forall j :: 0 <= j < i ==> w.nodes[j].nodeId != node.nodeId)
    && Lookup(specs, node.operation).Some?
    && var spec := Lookup(specs, node.operation).value;
    && (forall c :: c in node.verification ==> c == "finite" || c in spec.diagnostics)
    && InputPorts(node.inputs) == (set k | 0 <= k < |spec.inputs| :: spec.inputs[k].0)
  }

  /** Every input supplies the shape registered for its port. */
  ghost predicate PortsTyped(w: Workflow, specs: seq<OperationSpec>, i: nat)
    requires i < |w.nodes| && Lookup(specs, w.nodes[i].operation).Some?
  {
    var node := w.nodes[i];
    var spec := Lookup(specs, node.operation).value;
    forall k, m :: 0 <= k < |node.inputs| && 0 <= m < |spec.inputs| && node.inputs[k].0 == spec.inputs[m].0 ==>
      Supplies(w, specs, i, node.inputs[k].1, spec.inputs[m].1)
  }

  ghost predicate ExpressionsTyped(es: seq<Expression>, names: set<string>) {
    forall e :: e in es ==> ExpressionCheck.SubtermsOk(e, names, 1) && ExpressionCheck.Size(e) <= ExpressionCheck.MAX_NODES
  }

  /** A linear program that can be built before anything runs is acceptable. */
  ghost predicate LinearTyped(node: Node, takes: Fields.Profile, symbols: map<string, Symbol>) {
    takes.linear && (forall entry :: entry in node.inputs ==> !entry.1.NodeInput?) ==>
      LinearInputs.Acceptable(Concrete(node.inputs, symbols), takes.mixed)
  }

  /** The node's own fields, whatever its ports are connected to. */
  ghost predicate DetailsTyped(node: Node, takes: Fields.Profile, symbols: map<string, Symbol>) {
    && ExpressionsTyped(Expressions(node), symbols.Keys)
    && Fields.FieldsOk(node, takes, symbols.Keys)
    && LinearTyped(node, takes, symbols)
  }

  ghost predicate NodeTyped(w: Workflow, specs: seq<OperationSpec>, i: nat)
    requires i < |w.nodes|
  {
    && HeaderTyped(w, specs, i) && PortsTyped(w, specs, i)
    && DetailsTyped(w.nodes[i], Lookup(specs, w.nodes[i].operation).value.takes, SymbolTable(w.symbols))
  }

  /** Size of all expressions of the first `n` nodes. */
  function SizeUpTo(nodes: seq<Node>, n: nat): nat
    requires n <= |nodes|
  {
    if n == 0 then 0 else SizeUpTo(nodes, n - 1) + ExpressionCheck.SizeAll(Expressions(nodes[n - 1]))
  }

  function TotalSize(nodes: seq<Node>): nat {
    SizeUpTo(nodes, |nodes|)
  }

  ghost predicate NodesTyped(w: Workflow, specs: seq<OperationSpec>, i: nat)
    requires i <= |w.nodes|
  {
    forall k :: 0 <= k < i ==> NodeTyped(w, specs, k)
  }

  /** Some node declares the requested output. */
  ghost predicate Produced(w: Workflow, specs: seq<OperationSpec>, o: Output) {
    exists j, shape :: 0 <= j < |w.nodes| && Produces(w, specs, j, o.nodeId, o.port, shape)
  }

  /** Every requested output is declared by some node, in a unit that can be read. */
  ghost predicate OutputsProduced(w: Workflow, specs: seq<OperationSpec>) {
    forall k :: 0 <= k < |w.outputs| ==> Produced(w, specs, w.outputs[k]) && Fields.UnitWellFormed(w.outputs[k].unit)
  }

  /** The typing judgement of a workflow. */
  ghost predicate WellTyped(w: Workflow, specs: seq<OperationSpec>, allowedFiles: set<string>) {
    && |w.nodes| <= MAX_WORKFLOW_NODES
    && DistinctSymbols(w.symbols) && DistinctSources(w.sources)
    && (forall k :: 0 <= k < |w.sources| ==> w.sources[k].fileId in allowedFiles)
    && (forall k :: 0 <= k < |w.symbols| ==> SymbolOk(w.symbols[k]))
    && NodesTyped(w, specs, |w.nodes|)
    && TotalSize(w.nodes) <= MAX_EXPRESSION_TOTAL
    && OutputsProduced(w, specs)
  }

  // ------------------------------------------------------------ exactness

  ghost predicate HasSymbol(symbols: seq<Symbol>, name: string, s: Symbol) {
    s in symbols && s.name == name
  }

  lemma {:induction false} SymbolTableExact(symbols: seq<Symbol>)
    ensures |SymbolTable(symbols)| == |symbols| <==> DistinctSymbols(symbols)
    ensures DistinctSymbols(symbols) ==> forall name :: name in SymbolTable(symbols) ==>
              HasSymbol(symbols, name, SymbolTable(symbols)[name])
    ensures DistinctSymbols(symbols) ==> forall k :: 0 <= k < |symbols| ==>
              symbols[k].name in SymbolTable(symbols) && SymbolTable(symbols)[symbols[k].name] == symbols[k]
  {
    var entries := seq(|symbols|, i requires 0 <= i < |symbols| => (symbols[i].name, symbols[i]));
    TableSize(entries);
    TableEntries(entries);
    assert forall i :: 0 <= i < |symbols| ==> entries[i] == (symbols[i].name, symbols[i]);
    if DistinctSymbols(symbols) {
      forall k | 0 <= k < |symbols|
        ensures symbols[k].name in Table(entries) && Table(entries)[symbols[k].name] == symbols[k]
      {
        assert entries[k] in entries;
        TableLookup(entries, symbols[k].name, symbols[k]);
      }
    } else {
      var i, j :| 0 <= i < j < |symbols| && symbols[i].name == symbols[j].name;
      assert entries[i].0 == entries[j].0;
    }
  }

  lemma {:induction false} SourceTableExact(sources: seq<Source>)
    ensures |SourceTable(sources)| == |sources| <==> DistinctSources(sources)
    ensures forall id :: id in SourceTable(sources) <==> exists k :: 0 <= k < |sources| && sources[k].sourceId == id
  {
    var entries := seq(|sources|, i requires 0 <= i < |sources| => (sources[i].sourceId, sources[i]));
    TableSize(entries);
    TableEntries(entries);
    assert forall i :: 0 <= i < |sources| ==> entries[i] == (sources[i].sourceId, sources[i]);
    if !DistinctSources(sources) {
      var i, j :| 0 <= i < j < |sources| && sources[i].sourceId == sources[j].sourceId;
      assert entries[i].0 == entries[j].0;
    }
    forall id | id in Table(entries)
      ensures exists k :: 0 <= k < |sources| && sources[k].sourceId == id
    {
      var k :| 0 <= k < |entries| && entries[k] == (id, Table(entries)[id]);
      assert sources[k].sourceId == id;
    }
  }

  lemma {:induction false} SymbolExact(s: Symbol)
    ensures SymbolError(s).None? <==> SymbolOk(s)
  {
    Fields.UnitExact(s.unit);
    if s.value.Some? {
      ShapeExact(s.value.value, s.shape);
    }
  }

  lemma {:induction false} SymbolsErrorExact(symbols: seq<Symbol>, n: nat)
    requires n <= |symbols|
    ensures SymbolsError(symbols, n).None? <==> forall k :: 0 <= k < n ==> SymbolOk(symbols[k])
  {
    if n > 0 {
      SymbolsErrorExact(symbols, n - 1);
      SymbolExact(symbols[n - 1]);
    }
  }

  lemma {:induction false} PortsErrorExact(inputs: seq<(string, Input)>, spec: OperationSpec,
                                           symbols: map<string, Symbol>, sources: map<string, Source>, seen: Seen,
                                           n: nat)
    requires n <= |inputs| && forall k :: 0 <= k < |inputs| ==> inputs[k].0 in Table(spec.inputs)
    ensures PortsError(inputs, spec, symbols, sources, seen, n).None? <==>
              forall k :: 0 <= k < n ==> PortError(inputs[k], spec, symbols, sources, seen).None?
  {
    if n > 0 {
      PortsErrorExact(inputs, spec, symbols, sources, seen, n - 1);
    }
  }

  lemma {:induction false} SizeAllAppend(es: seq<Expression>, e: Expression)
    ensures ExpressionCheck.SizeAll(es + [e]) == ExpressionCheck.SizeAll(es) + ExpressionCheck.Size(e)
  {
    if es != [] {
      SizeAllAppend(es[1..], e);
      assert (es + [e])[1..] == es[1..] + [e];
    }
  }

  lemma {:induction false} CountExact(es: seq<Expression>, names: set<string>, count: nat, n: nat)
    requires n <= |es|
    ensures CountExpressions(es, names, count, n).Success? <==> ExpressionsTyped(es[..n], names)
    ensures CountExpressions(es, names, count, n).Success? ==>
              CountExpressions(es, names, count, n).value == count + ExpressionCheck.SizeAll(es[..n])
  {
    if n > 0 {
      CountExact(es, names, count, n - 1);
      ExpressionCheck.CheckExact(es[n - 1], names, 1);
      SizeAllAppend(es[..n - 1], es[n - 1]);
      assert es[..n] == es[..n - 1] + [es[n - 1]];
    }
  }

  lemma {:induction false} CountAllExact(es: seq<Expression>, names: set<string>, count: nat)
    ensures var r := CountExpressions(es, names, count, |es|);
            (r.Success? <==> ExpressionsTyped(es, names)) && (r.Success? ==> r.value == count + ExpressionCheck.SizeAll(es))
  {
    CountExact(es, names, count, |es|);
    assert es[..|es|] == es;
  }

  /** `seen` holds exactly the declared outputs of the first `i` nodes. */
  ghost predicate SeenExact(w: Workflow, specs: seq<OperationSpec>, i: nat, seen: Seen)
    requires i <= |w.nodes|
  {
    && (forall id :: id in seen ==> exists j :: 0 <= j < i && w.nodes[j].nodeId == id)
    && (forall j :: 0 <= j < i ==>
          && Lookup(specs, w.nodes[j].operation).Some?
          && w.nodes[j].nodeId in seen
          && seen[w.nodes[j].nodeId] == Table(Lookup(specs, w.nodes[j].operation).value.outputs))
  }

  lemma {:induction false} LookupWellFormed(specs: seq<OperationSpec>, name: string)
    requires WellFormedSpecs(specs) && Lookup(specs, name).Some?
    ensures DistinctKeys(Lookup(specs, name).value.inputs) && DistinctKeys(Lookup(specs, name).value.outputs)
  {
    var k :| 0 <= k < |specs| && specs[k] == Lookup(specs, name).value;
  }

  lemma {:induction false} SeenProduces(w: Workflow, specs: seq<OperationSpec>, i: nat, seen: Seen, id: string,
                                        port: string, shape: Shape)
    requires i <= |w.nodes| && WellFormedSpecs(specs) && SeenExact(w, specs, i, seen)
    ensures id in seen && port in seen[id] && seen[id][port] == shape <==>
            exists j :: 0 <= j < i && Produces(w, specs, j, id, port, shape)
  {
    if id in seen && port in seen[id] && seen[id][port] == shape {
      var j :| 0 <= j < i && w.nodes[j].nodeId == id;
      var ports := Lookup(specs, w.nodes[j].operation).value.outputs;
      LookupWellFormed(specs, w.nodes[j].operation);
      TableLookup(ports, port, shape);
      assert Produces(w, specs, j, id, port, shape);
    }
    if j :| 0 <= j < i && Produces(w, specs, j, id, port, shape) {
      LookupWellFormed(specs, w.nodes[j].operation);
      TableLookup(Lookup(specs, w.nodes[j].operation).value.outputs, port, shape);
    }
  }

  lemma {:induction false} SymbolPortExact(w: Workflow, specs: seq<OperationSpec>, i: nat, name: string, shape: Shape,
                                           ctx: Context, spec: OperationSpec, seen: Seen)
    requires i < |w.nodes| && DistinctSymbols(w.symbols) && ctx.symbols == SymbolTable(w.symbols)
    ensures ActualShape(SymbolInput(name), shape, spec, ctx.symbols, ctx.sources, seen) == Success(shape) <==>
            Supplies(w, specs, i, SymbolInput(name), shape)
  {
    SymbolTableExact(w.symbols);
    if name in ctx.symbols {
      var k :| 0 <= k < |w.symbols| && w.symbols[k] == ctx.symbols[name];
    }
  }

  lemma {:induction false} ActualShapeExact(w: Workflow, specs: seq<OperationSpec>, i: nat, seen: Seen, item: Input,
                                            shape: Shape)
    requires i < |w.nodes| && WellFormedSpecs(specs) && SeenExact(w, specs, i, seen) && DistinctSymbols(w.symbols)
    requires Lookup(specs, w.nodes[i].operation).Some?
    ensures var ctx := ContextOf(w, specs);
            var spec := Lookup(specs, w.nodes[i].operation).value;
            ActualShape(item, shape, spec, ctx.symbols, ctx.sources, seen) == Success(shape) <==>
            Supplies(w, specs, i, item, shape)
  {
    match item
    case Literal(value, _) =>
      ShapeExact(value, shape);
    case SymbolInput(name) =>
      SymbolPortExact(w, specs, i, name, shape, ContextOf(w, specs), Lookup(specs, w.nodes[i].operation).value, seen);
    case SourceInput(id) =>
      SourceTableExact(w.sources);
    case NodeInput(id, port) =>
      SeenProduces(w, specs, i, seen, id, port, shape);
  }

  /** One port is accepted exactly when its input supplies the registered shape. */
  lemma {:induction false} PortExact(w: Workflow, specs: seq<OperationSpec>, i: nat, seen: Seen, entry: (string, Input),
                                     shape: Shape)
    requires i < |w.nodes| && WellFormedSpecs(specs) && SeenExact(w, specs, i, seen) && DistinctSymbols(w.symbols)
    requires Lookup(specs, w.nodes[i].operation).Some?
    requires (entry.0, shape) in Lookup(specs, w.nodes[i].operation).value.inputs
    ensures var spec := Lookup(specs, w.nodes[i].operation).value;
            entry.0 in Table(spec.inputs) &&
            (PortError(entry, spec, SymbolTable(w.symbols), SourceTable(w.sources), seen).None? <==>
             Supplies(w, specs, i, entry.1, shape))
  {
    LookupWellFormed(specs, w.nodes[i].operation);
    TableLookup(Lookup(specs, w.nodes[i].operation).value.inputs, entry.0, shape);
    ActualShapeExact(w, specs, i, seen, entry.1, shape);
  }

  lemma {:induction false} TableKeySet(ports: Ports)
    ensures Table(ports).Keys == set k | 0 <= k < |ports| :: ports[k].0
  {
    TableKeys(ports);
    forall key | key in Table(ports)
      ensures key in set k | 0 <= k < |ports| :: ports[k].0
    {
      var k :| 0 <= k < |ports| && ports[k].0 == key;
    }
  }

  lemma {:induction false} HeaderExact(w: Workflow, specs: seq<OperationSpec>, i: nat, seen: Seen)
    requires i < |w.nodes| && SeenExact(w, specs, i, seen)
    ensures HeaderError(w.nodes[i], specs, seen).None? <==> HeaderTyped(w, specs, i)
  {
    var node := w.nodes[i];
    if Lookup(specs, node.operation).Some? {
      TableKeySet(Lookup(specs, node.operation).value.inputs);
    }
  }

  /** With every port declared, the ports are typed exactly when each one passes. */
  lemma {:induction false} EachPortExact(w: Workflow, specs: seq<OperationSpec>, i: nat, seen: Seen,
                                         spec: OperationSpec)
    requires i < |w.nodes| && WellFormedSpecs(specs) && SeenExact(w, specs, i, seen) && DistinctSymbols(w.symbols)
    requires Lookup(specs, w.nodes[i].operation) == Some(spec)
    requires forall k :: 0 <= k < |w.nodes[i].inputs| ==>
               exists m :: 0 <= m < |spec.inputs| && w.nodes[i].inputs[k].0 == spec.inputs[m].0
    requires forall k :: 0 <= k < |w.nodes[i].inputs| ==> w.nodes[i].inputs[k].0 in Table(spec.inputs)
    ensures PortsTyped(w, specs, i) <==>
              forall k :: 0 <= k < |w.nodes[i].inputs| ==>
                PortError(w.nodes[i].inputs[k], spec, SymbolTable(w.symbols), SourceTable(w.sources), seen).None?
  {
    var inputs := w.nodes[i].inputs;
    forall k, m | 0 <= k < |inputs| && 0 <= m < |spec.inputs| && inputs[k].0 == spec.inputs[m].0
      ensures PortError(inputs[k], spec, SymbolTable(w.symbols), SourceTable(w.sources), seen).None? <==>
              Supplies(w, specs, i, inputs[k].1, spec.inputs[m].1)
    {
      assert spec.inputs[m] == (inputs[k].0, spec.inputs[m].1);
      PortExact(w, specs, i, seen, inputs[k], spec.inputs[m].1);
    }
  }

  lemma {:induction false} NodePortsExact(w: Workflow, specs: seq<OperationSpec>, i: nat, seen: Seen)
    requires i < |w.nodes| && WellFormedSpecs(specs) && SeenExact(w, specs, i, seen) && DistinctSymbols(w.symbols)
    requires HeaderError(w.nodes[i], specs, seen).None?
    ensures var node := w.nodes[i];
            var spec := Lookup(specs, node.operation).value;
            && (forall k :: 0 <= k < |node.inputs| ==> node.inputs[k].0 in Table(spec.inputs))
            && (PortsTyped(w, specs, i) <==>
                PortsError(node.inputs, spec, SymbolTable(w.symbols), SourceTable(w.sources), seen, |node.inputs|).None?)
  {
    var node := w.nodes[i];
    var spec := Lookup(specs, node.operation).value;
    TableKeySet(spec.inputs);
    KeysAreInputPorts(node.inputs);
    forall k | 0 <= k < |node.inputs|
      ensures exists m :: 0 <= m < |spec.inputs| && node.inputs[k].0 == spec.inputs[m].0
    {
      assert node.inputs[k].0 in InputPorts(node.inputs);
    }
    PortsErrorExact(node.inputs, spec, SymbolTable(w.symbols), SourceTable(w.sources), seen, |node.inputs|);
    EachPortExact(w, specs, i, seen, spec);
  }

  /** What checking node `i` has to do with its typing. */
  ghost predicate StepExact(w: Workflow, specs: seq<OperationSpec>, i: nat, p: Progress, r: Result<Progress, Error>)
    requires i < |w.nodes|
  {
    var total := p.count + ExpressionCheck.SizeAll(Expressions(w.nodes[i]));
    && (r.Success? <==> NodeTyped(w, specs, i) && total <= MAX_EXPRESSION_TOTAL)
    && (r.Success? ==> SeenExact(w, specs, i + 1, r.value.seen) && r.value.count == total)
  }

  lemma {:induction false} SeenGrows(w: Workflow, specs: seq<OperationSpec>, i: nat, seen: Seen)
    requires i < |w.nodes| && SeenExact(w, specs, i, seen) && HeaderError(w.nodes[i], specs, seen).None?
    ensures var ports := Table(Lookup(specs, w.nodes[i].operation).value.outputs);
            SeenExact(w, specs, i + 1, seen[w.nodes[i].nodeId := ports])
  {
  }

  /** A linear program is checked on the values stated in it: a literal as it stands, a
      symbol by its value. */
  lemma {:induction false} ConcreteExact(inputs: seq<(string, Input)>, symbols: map<string, Symbol>, k: nat)
    requires DistinctKeys(inputs) && k < |inputs|
    ensures var values, item := Concrete(inputs, symbols), inputs[k].1;
            && (forall port :: port in values <==> HasKey(inputs, port))
            && inputs[k].0 in values
            && (item.Literal? ==> values[inputs[k].0] == item.value)
            && (item.SymbolInput? && item.symbol in symbols && symbols[item.symbol].value.Some? ==>
                  Some(values[inputs[k].0]) == symbols[item.symbol].value)
  {
    var entries := seq(|inputs|, i requires 0 <= i < |inputs| => (inputs[i].0, ConcreteValue(inputs[i].1, symbols)));
    TableKeys(entries);
    forall port
      ensures HasKey(entries, port) <==> HasKey(inputs, port)
    {
      if i :| 0 <= i < |inputs| && inputs[i].0 == port {
        assert entries[i].0 == port;
      }
    }
    assert entries[k] in entries && entries[k].0 == inputs[k].0;
    TableLookup(entries, inputs[k].0, entries[k].1);
  }

  lemma {:induction false} LinearErrorExact(node: Node, takes: Fields.Profile, symbols: map<string, Symbol>)
    ensures LinearError(node, takes, symbols).None? <==> LinearTyped(node, takes, symbols)
  {
    assert IsConcreteLinear(node, takes) <==> takes.linear && forall entry :: entry in node.inputs ==> !entry.1.NodeInput?;
    if IsConcreteLinear(node, takes) {
      LinearInputs.InputsExact(Concrete(node.inputs, symbols), takes.mixed);
    }
  }

  /** With its expressions counted as `count`, a node passes the checks on its own
      fields exactly when they are as they should be and the count within the limit. */
  lemma {:induction false} DetailsExact(node: Node, takes: Fields.Profile, symbols: map<string, Symbol>, count: nat)
    ensures Fields.MisplacedField(node, takes, symbols.Keys).None? && DetailsError(node, takes, symbols, count).None? <==>
              && Fields.FieldsOk(node, takes, symbols.Keys) && LinearTyped(node, takes, symbols)
              && count <= MAX_EXPRESSION_TOTAL
  {
    Fields.FieldsExact(node, takes, symbols.Keys);
    LinearErrorExact(node, takes, symbols);
  }

  /** Behind its header and ports, a node passes exactly when it is typed and the count
      stays within the limit. */
  lemma {:induction false} FieldsStepExact(ctx: Context, node: Node, p: Progress, spec: OperationSpec)
    requires HeaderError(node, ctx.specs, p.seen).None? && Lookup(ctx.specs, node.operation) == Some(spec)
    requires forall k :: 0 <= k < |node.inputs| ==> node.inputs[k].0 in Table(spec.inputs)
    requires PortsError(node.inputs, spec, ctx.symbols, ctx.sources, p.seen, |node.inputs|).None?
    ensures var r, total := NodeStep(ctx, node, p), p.count + ExpressionCheck.SizeAll(Expressions(node));
            && (r.Success? <==> DetailsTyped(node, spec.takes, ctx.symbols) && total <= MAX_EXPRESSION_TOTAL)
            && (r.Success? ==> r.value == Progress(p.seen[node.nodeId := Table(spec.outputs)], total))
  {
    CountAllExact(Expressions(node), ctx.symbols.Keys, p.count);
    DetailsExact(node, spec.takes, ctx.symbols, p.count + ExpressionCheck.SizeAll(Expressions(node)));
  }

  lemma {:induction false} NodeStepExact(w: Workflow, specs: seq<OperationSpec>, i: nat, p: Progress)
    requires i < |w.nodes| && WellFormedSpecs(specs) && SeenExact(w, specs, i, p.seen) && DistinctSymbols(w.symbols)
    ensures StepExact(w, specs, i, p, NodeStep(ContextOf(w, specs), w.nodes[i], p))
  {
    var ctx, node := ContextOf(w, specs), w.nodes[i];
    HeaderExact(w, specs, i, p.seen);
    if HeaderError(node, specs, p.seen).None? {
      var spec := Lookup(specs, node.operation).value;
      NodePortsExact(w, specs, i, p.seen);
      if PortsError(node.inputs, spec, ctx.symbols, ctx.sources, p.seen, |node.inputs|).None? {
        FieldsStepExact(ctx, node, p, spec);
        SeenGrows(w, specs, i, p.seen);
      }
    }
  }

  /** What the first `i` nodes have to do with the loop's state after them. */
  ghost predicate UpToExact(w: Workflow, specs: seq<OperationSpec>, i: nat, r: Result<Progress, Error>)
    requires i <= |w.nodes|
  {
    && (r.Success? <==> NodesTyped(w, specs, i) && SizeUpTo(w.nodes, i) <= MAX_EXPRESSION_TOTAL)
    && (r.Success? ==> SeenExact(w, specs, i, r.value.seen) && r.value.count == SizeUpTo(w.nodes, i))
  }

  lemma {:induction false} NodesTypedStep(w: Workflow, specs: seq<OperationSpec>, i: nat)
    requires 0 < i <= |w.nodes|
    ensures NodesTyped(w, specs, i) <==> NodesTyped(w, specs, i - 1) && NodeTyped(w, specs, i - 1)
  {
  }

  lemma {:induction false} UpToStep(w: Workflow, specs: seq<OperationSpec>, i: nat, before: Progress,
                                    r: Result<Progress, Error>)
    requires 0 < i <= |w.nodes| && UpToExact(w, specs, i - 1, Success(before)) && StepExact(w, specs, i - 1, before, r)
    ensures UpToExact(w, specs, i, r)
  {
    NodesTypedStep(w, specs, i);
  }

  lemma {:induction false} UpToFailure(w: Workflow, specs: seq<OperationSpec>, i: nat, r: Result<Progress, Error>)
    requires 0 < i <= |w.nodes| && UpToExact(w, specs, i - 1, r) && r.Failure?
    ensures UpToExact(w, specs, i, r)
  {
    NodesTypedStep(w, specs, i);
  }

  lemma {:induction false} UpToNext(w: Workflow, specs: seq<OperationSpec>, i: nat, p: Progress)
    requires i < |w.nodes| && WellFormedSpecs(specs) && DistinctSymbols(w.symbols) && UpToExact(w, specs, i, Success(p))
    ensures UpToExact(w, specs, i + 1, NodeStep(ContextOf(w, specs), w.nodes[i], p))
  {
    NodeStepExact(w, specs, i, p);
    UpToStep(w, specs, i + 1, p, NodeStep(ContextOf(w, specs), w.nodes[i], p));
  }

  lemma {:induction false} NothingUpTo(w: Workflow, specs: seq<OperationSpec>)
    ensures UpToExact(w, specs, 0, NodesUpTo(ContextOf(w, specs), w.nodes, 0))
  {
  }

  lemma {:induction false} NodesExact(w: Workflow, specs: seq<OperationSpec>, i: nat)
    requires i <= |w.nodes| && WellFormedSpecs(specs) && DistinctSymbols(w.symbols)
    ensures UpToExact(w, specs, i, NodesUpTo(ContextOf(w, specs), w.nodes, i))
  {
    if i == 0 {
      NothingUpTo(w, specs);
    } else {
      NodesExact(w, specs, i - 1);
      var before := NodesUpTo(ContextOf(w, specs), w.nodes, i - 1);
      if before.Success? {
        UpToNext(w, specs, i - 1, before.value);
      } else {
        UpToFailure(w, specs, i, before);
      }
    }
  }

  lemma {:induction false} OutputExact(w: Workflow, specs: seq<OperationSpec>, seen: Seen, o: Output)
    requires WellFormedSpecs(specs) && SeenExact(w, specs, |w.nodes|, seen)
    ensures OutputKnown(o, seen) <==> Produced(w, specs, o)
  {
    if OutputKnown(o, seen) {
      SeenProduces(w, specs, |w.nodes|, seen, o.nodeId, o.port, seen[o.nodeId][o.port]);
    }
    if j, shape :| 0 <= j < |w.nodes| && Produces(w, specs, j, o.nodeId, o.port, shape) {
      SeenProduces(w, specs, |w.nodes|, seen, o.nodeId, o.port, shape);
    }
  }

  lemma {:induction false} OutputsErrorExact(outputs: seq<Output>, seen: Seen, n: nat)
    requires n <= |outputs|
    ensures OutputsError(outputs, seen, n).None? <==>
              forall k :: 0 <= k < n ==> OutputKnown(outputs[k], seen) && Fields.UnitWellFormed(outputs[k].unit)
  {
    if n > 0 {
      OutputsErrorExact(outputs, seen, n - 1);
      if outputs[n - 1].unit.Some? {
        Fields.UnitExact(outputs[n - 1].unit.value);
      }
    }
  }

  lemma {:induction false} OutputsExact(w: Workflow, specs: seq<OperationSpec>, seen: Seen)
    requires WellFormedSpecs(specs) && SeenExact(w, specs, |w.nodes|, seen)
    ensures OutputsError(w.outputs, seen, |w.outputs|).None? <==> OutputsProduced(w, specs)
  {
    OutputsErrorExact(w.outputs, seen, |w.outputs|);
    forall k | 0 <= k < |w.outputs|
      ensures OutputKnown(w.outputs[k], seen) <==> Produced(w, specs, w.outputs[k])
    {
      OutputExact(w, specs, seen, w.outputs[k]);
    }
  }

  /** With distinct symbols, checking nodes and outputs is exact. */
  lemma {:induction false} NodesAndOutputsExact(w: Workflow, specs: seq<OperationSpec>)
    requires WellFormedSpecs(specs) && DistinctSymbols(w.symbols)
    ensures var r := NodesUpTo(ContextOf(w, specs), w.nodes, |w.nodes|);
            && (r.Success? <==> NodesTyped(w, specs, |w.nodes|) && TotalSize(w.nodes) <= MAX_EXPRESSION_TOTAL)
            && (r.Success? ==>
                  && r.value.count == TotalSize(w.nodes)
                  && (OutputsError(w.outputs, r.value.seen, |w.outputs|).None? <==> OutputsProduced(w, specs)))
  {
    var r := NodesUpTo(ContextOf(w, specs), w.nodes, |w.nodes|);
    NodesExact(w, specs, |w.nodes|);
    if r.Success? {
      OutputsExact(w, specs, r.value.seen);
    }
  }

  /** The structural checks accept exactly the well-typed workflows, and the
      expression count they keep is the exact total size. */
  lemma {:induction false} ValidateExact(w: Workflow, specs: seq<OperationSpec>, allowedFiles: set<string>)
    requires WellFormedSpecs(specs)
    ensures Validate(w, specs, allowedFiles).Success? <==> WellTyped(w, specs, allowedFiles)
    ensures Validate(w, specs, allowedFiles).Success? ==> Validate(w, specs, allowedFiles).value == TotalSize(w.nodes)
  {
    SymbolTableExact(w.symbols);
    SourceTableExact(w.sources);
    SymbolsErrorExact(w.symbols, |w.symbols|);
    if DistinctSymbols(w.symbols) {
      NodesAndOutputsExact(w, specs);
    }
  }

  /** An accepted workflow that states a linear program outright states an acceptable
      one: any solution certified without violation is feasible and bounded, and so is
      its objective. */
  lemma {:induction false} AcceptedProgramIsBounded(w: Workflow, specs: seq<OperationSpec>, allowedFiles: set<string>,
                                                    i: nat)
    returns (p: Linear.Program)
    requires WellFormedSpecs(specs) && Validate(w, specs, allowedFiles).Success? && i < |w.nodes|
    requires Lookup(specs, w.nodes[i].operation).Some?
    requires IsConcreteLinear(w.nodes[i], Lookup(specs, w.nodes[i].operation).value.takes)
    ensures var mixed := Lookup(specs, w.nodes[i].operation).value.takes.mixed;
            LinearInputs.DenoteProgram(Concrete(w.nodes[i].inputs, SymbolTable(w.symbols)), mixed, p)
    ensures forall x :: Linear.CertifiesFeasible(p, x) ==>
              && Linear.Bounded(x) && Linear.FeasibleWithin(p, x, 0.0)
              && Linear.Abs(Linear.Dot(p.cost, x)) <= 32.0 * Linear.MAX_PRODUCT
  {
    ValidateExact(w, specs, allowedFiles);
    assert NodeTyped(w, specs, i);
    var mixed := Lookup(specs, w.nodes[i].operation).value.takes.mixed;
    p :| LinearInputs.DenoteProgram(Concrete(w.nodes[i].inputs, SymbolTable(w.symbols)), mixed, p);
    forall x | Linear.CertifiesFeasible(p, x)
      ensures Linear.Bounded(x) && Linear.FeasibleWithin(p, x, 0.0)
      ensures Linear.Abs(Linear.Dot(p.cost, x)) <= 32.0 * Linear.MAX_PRODUCT
    {
      Linear.CertifiedIsBounded(p, mixed, x);
    }
  }

  // ------------------------------------------------------------ the procedure

  lemma {:induction false} FirstSymbolError(symbols: seq<Symbol>, k: nat, n: nat)
    requires k <= n <= |symbols| && SymbolsError(symbols, k).Some?
    ensures SymbolsError(symbols, n) == SymbolsError(symbols, k)
    decreases n
  {
    if k < n {
      FirstSymbolError(symbols, k, n - 1);
    }
  }

  lemma {:induction false} FirstPortError(inputs: seq<(string, Input)>, spec: OperationSpec,
                                          symbols: map<string, Symbol>, sources: map<string, Source>, seen: Seen,
                                          k: nat, n: nat)
    requires k <= n <= |inputs| && forall m :: 0 <= m < |inputs| ==> inputs[m].0 in Table(spec.inputs)
    requires PortsError(inputs, spec, symbols, sources, seen, k).Some?
    ensures PortsError(inputs, spec, symbols, sources, seen, n) == PortsError(inputs, spec, symbols, sources, seen, k)
    decreases n
  {
    if k < n {
      FirstPortError(inputs, spec, symbols, sources, seen, k, n - 1);
    }
  }

  lemma {:induction false} FirstCountError(es: seq<Expression>, names: set<string>, count: nat, k: nat, n: nat)
    requires k <= n <= |es| && CountExpressions(es, names, count, k).Failure?
    ensures CountExpressions(es, names, count, n) == CountExpressions(es, names, count, k)
    decreases n
  {
    if k < n {
      FirstCountError(es, names, count, k, n - 1);
    }
  }

  method CheckPorts(ctx: Context, node: Node, spec: OperationSpec, seen: Seen) returns (error: Option<Error>)
    requires forall k :: 0 <= k < |node.inputs| ==> node.inputs[k].0 in Table(spec.inputs)
    ensures error == PortsError(node.inputs, spec, ctx.symbols, ctx.sources, seen, |node.inputs|)
  {
    for k := 0 to |node.inputs|
      invariant PortsError(node.inputs, spec, ctx.symbols, ctx.sources, seen, k).None?
    {
      error := PortError(node.inputs[k], spec, ctx.symbols, ctx.sources, seen);
      if error.Some? {
        FirstPortError(node.inputs, spec, ctx.symbols, ctx.sources, seen, k + 1, |node.inputs|);
        return;
      }
    }
    error := None;
  }

  method CheckExpressions(es: seq<Expression>, names: set<string>, before: nat) returns (r: Result<nat, Error>)
    ensures r == CountExpressions(es, names, before, |es|)
  {
    var count := before;
    for k := 0 to |es|
      invariant CountExpressions(es, names, before, k) == Success(count)
    {
      var size := ExpressionCheck.Check(es[k], names, 1);
      if size.Failure? {
        FirstCountError(es, names, before, k + 1, |es|);
        return Failure(ExpressionInvalid(size.error));
      }
      count := count + size.value;
    }
    r := Success(count);
  }

  method CheckNode(ctx: Context, node: Node, p: Progress) returns (r: Result<Progress, Error>)
    ensures r == NodeStep(ctx, node, p)
  {
    var header := HeaderError(node, ctx.specs, p.seen);
    if header.Some? {
      return Failure(header.value);
    }
    var spec := Lookup(ctx.specs, node.operation).value;
    KeysAreInputPorts(node.inputs);
    var port := CheckPorts(ctx, node, spec, p.seen);
    if port.Some? {
      return Failure(port.value);
    }
    var misplaced := Fields.MisplacedField(node, spec.takes, ctx.symbols.Keys);
    if misplaced.Some? {
      return Failure(FieldInvalid(misplaced.value));
    }
    var total := CheckExpressions(Expressions(node), ctx.symbols.Keys, p.count);
    if total.Failure? {
      return Failure(total.error);
    }
    var details := DetailsError(node, spec.takes, ctx.symbols, total.value);
    if details.Some? {
      return Failure(details.value);
    }
    r := Success(Progress(p.seen[node.nodeId := Table(spec.outputs)], total.value));
  }

  method CheckNodes(ctx: Context, nodes: seq<Node>) returns (r: Result<Progress, Error>)
    ensures r == NodesUpTo(ctx, nodes, |nodes|)
  {
    var p := Progress(map[], 0);
    for i := 0 to |nodes|
      invariant NodesUpTo(ctx, nodes, i) == Success(p)
    {
      r := CheckNode(ctx, nodes[i], p);
      if r.Failure? {
        FoldFails(Stepper(ctx), Progress(map[], 0), nodes, i + 1, |nodes|);
        return;
      }
      p := r.value;
    }
    r := Success(p);
  }

  method CheckSymbols(symbols: seq<Symbol>) returns (error: Option<Error>)
    ensures error == SymbolsError(symbols, |symbols|)
  {
    for k := 0 to |symbols|
      invariant SymbolsError(symbols, k).None?
    {
      error := SymbolError(symbols[k]);
      if error.Some? {
        FirstSymbolError(symbols, k + 1, |symbols|);
        return;
      }
    }
    error := None;
  }

  lemma {:induction false} FirstOutputError(outputs: seq<Output>, seen: Seen, k: nat, n: nat)
    requires k <= n <= |outputs| && OutputsError(outputs, seen, k).Some?
    ensures OutputsError(outputs, seen, n) == OutputsError(outputs, seen, k)
    decreases n
  {
    if k < n {
      FirstOutputError(outputs, seen, k, n - 1);
    }
  }

  method CheckOutputs(outputs: seq<Output>, seen: Seen) returns (error: Option<Error>)
    ensures error == OutputsError(outputs, seen, |outputs|)
  {
    for k := 0 to |outputs|
      invariant OutputsError(outputs, seen, k).None?
    {
      error := OutputError(outputs[k], seen);
      if error.Some? {
        FirstOutputError(outputs, seen, k + 1, |outputs|);
        return;
      }
    }
    error := None;
  }

  /** The checks in source order. */
  method ValidateInOrder(w: Workflow, specs: seq<OperationSpec>, allowedFiles: set<string>)
    returns (r: Result<nat, Error>)
    ensures r == Validate(w, specs, allowedFiles)
  {
    if |w.nodes| > MAX_WORKFLOW_NODES {
      return Failure(NodeLimitExceeded);
    }
    if |SymbolTable(w.symbols)| != |w.symbols| || |SourceTable(w.sources)| != |w.sources| {
      return Failure(DuplicateSymbolOrSource);
    }
    if exists k :: 0 <= k < |w.sources| && w.sources[k].fileId !in allowedFiles {
      return Failure(SourceNotAuthorized);
    }
    var symbol := CheckSymbols(w.symbols);
    if symbol.Some? {
      return Failure(symbol.value);
    }
    var p := CheckNodes(ContextOf(w, specs), w.nodes);
    if p.Failure? {
      return Failure(p.error);
    }
    var output := CheckOutputs(w.outputs, p.value.seen);
    return if output.Some? then Failure(output.value) else Success(p.value.count);
  }

  /** The checking procedure: it reports the first error in source order, and it
      accepts exactly the well-typed workflows. */
  method ValidateWorkflow(w: Workflow, specs: seq<OperationSpec>, allowedFiles: set<string>)
    returns (r: Result<nat, Error>)
    requires WellFormedSpecs(specs)
    ensures r == Validate(w, specs, allowedFiles)
    ensures r.Success? <==> WellTyped(w, specs, allowedFiles)
    ensures r.Success? ==> r.value == TotalSize(w.nodes) <= MAX_EXPRESSION_TOTAL
  {
    r := ValidateInOrder(w, specs, allowedFiles);
    ValidateExact(w, specs, allowedFiles);
  }
}
