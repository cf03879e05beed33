/** What the error of a rejected workflow says: the fault it names is there. */
module WorkflowFaults {
  import opened Folds
  import opened Registry
  import opened ScientificIr
  import opened Tables
  import opened WorkflowCheck
  import opened Wrappers
  import ExpressionCheck
  import Fields = NodeFields

  // ------------------------------------------------------------------ symbols

  /** What is wrong with a symbol. */
  ghost predicate SymbolFault(s: Symbol, error: Error) {
    match error
    case UnitSyntaxInvalid => !Fields.IsUnit(s.unit)
    case SymbolShapeMismatch => s.value.Some? && !HasShape(s.value.value, s.shape)
    case SymbolBoundsInvalid => s.lower.Some? && s.upper.Some? && s.lower.value > s.upper.value
    case SymbolProvenanceRequired => s.value.Some? && s.provenance.None?
    case _ => s.value.Some? && ShapeFault(s.value.value, error)
  }

  lemma {:induction false} SymbolNamesFault(s: Symbol)
    requires SymbolError(s).Some?
    ensures SymbolFault(s, SymbolError(s).value)
  {
    Fields.UnitExact(s.unit);
    if s.value.Some? {
      ShapeExact(s.value.value, s.shape);
    }
  }

  lemma {:induction false} SomeSymbolFails(symbols: seq<Symbol>, n: nat) returns (k: nat)
    requires n <= |symbols| && SymbolsError(symbols, n).Some?
    ensures k < n && SymbolError(symbols[k]) == SymbolsError(symbols, n)
  {
    if SymbolsError(symbols, n - 1).Some? {
      k := SomeSymbolFails(symbols, n - 1);
    } else {
      k := n - 1;
    }
  }

  // -------------------------------------------------------------------- ports

  ghost predicate HasValue(w: Workflow, name: string) {
    exists k :: 0 <= k < |w.symbols| && w.symbols[k].name == name && w.symbols[k].value.Some?
  }

  ghost predicate HasSource(w: Workflow, id: string) {
    exists k :: 0 <= k < |w.sources| && w.sources[k].sourceId == id
  }

  /** A strictly earlier node declares the output. */
  ghost predicate Declared(w: Workflow, specs: seq<OperationSpec>, i: nat, id: string, port: string)
    requires i < |w.nodes|
  {
    exists j, shape :: 0 <= j < i && Produces(w, specs, j, id, port, shape)
  }

  /** What is wrong with the input that node `i` has for a port of shape `shape`. */
  ghost predicate PortFault(w: Workflow, specs: seq<OperationSpec>, i: nat, item: Input, shape: Shape, error: Error)
    requires i < |w.nodes| && Lookup(specs, w.nodes[i].operation).Some?
  {
    match error
    case SymbolValueRequired => item.SymbolInput? && !HasValue(w, item.symbol)
    case SourcePortNotAllowed =>
      && item.SourceInput?
      && (!Lookup(specs, w.nodes[i].operation).value.sourceAllowed || !HasSource(w, item.sourceId))
    case ForwardOrInvalidReference => item.NodeInput? && !Declared(w, specs, i, item.nodeId, item.port)
    case PortShapeMismatch => !Supplies(w, specs, i, item, shape)
    case _ => item.Literal? && ShapeFault(item.value, error)
  }

  /** What is wrong with some port of node `i`. */
  ghost predicate SomePortFault(w: Workflow, specs: seq<OperationSpec>, i: nat, error: Error)
    requires i < |w.nodes| && Lookup(specs, w.nodes[i].operation).Some?
  {
    var inputs, ports := w.nodes[i].inputs, Lookup(specs, w.nodes[i].operation).value.inputs;
    exists k, m :: 0 <= k < |inputs| && 0 <= m < |ports| && inputs[k].0 == ports[m].0
                   && PortFault(w, specs, i, inputs[k].1, ports[m].1, error)
  }

  lemma {:induction false} DeclaredExact(w: Workflow, specs: seq<OperationSpec>, i: nat, seen: Seen, id: string,
                                         port: string)
    requires i < |w.nodes| && WellFormedSpecs(specs) && SeenExact(w, specs, i, seen)
    ensures id in seen && port in seen[id] <==> Declared(w, specs, i, id, port)
  {
    if id in seen && port in seen[id] {
      SeenProduces(w, specs, i, seen, id, port, seen[id][port]);
    }
    if j, shape :| 0 <= j < i && Produces(w, specs, j, id, port, shape) {
      SeenProduces(w, specs, i, seen, id, port, shape);
    }
  }

  lemma {:induction false} HasValueExact(w: Workflow, name: string)
    requires DistinctSymbols(w.symbols)
    ensures name in SymbolTable(w.symbols) && SymbolTable(w.symbols)[name].value.Some? <==> HasValue(w, name)
  {
    SymbolTableExact(w.symbols);
    if name in SymbolTable(w.symbols) {
      assert HasSymbol(w.symbols, name, SymbolTable(w.symbols)[name]);
    }
  }

  lemma {:induction false} PortNamesFault(w: Workflow, specs: seq<OperationSpec>, i: nat, seen: Seen,
                                          entry: (string, Input), shape: Shape)
    requires i < |w.nodes| && WellFormedSpecs(specs) && SeenExact(w, specs, i, seen) && DistinctSymbols(w.symbols)
    requires Lookup(specs, w.nodes[i].operation).Some?
    requires (entry.0, shape) in Lookup(specs, w.nodes[i].operation).value.inputs
    requires entry.0 in Table(Lookup(specs, w.nodes[i].operation).value.inputs)
    ensures var spec := Lookup(specs, w.nodes[i].operation).value;
            var error := PortError(entry, spec, SymbolTable(w.symbols), SourceTable(w.sources), seen);
            error.Some? ==> PortFault(w, specs, i, entry.1, shape, error.value)
  {
    PortExact(w, specs, i, seen, entry, shape);
    match entry.1
    case Literal(value, _) =>
      ShapeExact(value, shape);
    case SymbolInput(name) =>
      HasValueExact(w, name);
    case SourceInput(id) =>
      SourceTableExact(w.sources);
    case NodeInput(id, port) =>
      DeclaredExact(w, specs, i, seen, id, port);
  }

  lemma {:induction false} SomePortFails(inputs: seq<(string, Input)>, spec: OperationSpec,
                                         symbols: map<string, Symbol>, sources: map<string, Source>, seen: Seen, n: nat)
    returns (k: nat)
    requires n <= |inputs| && forall m :: 0 <= m < |inputs| ==> inputs[m].0 in Table(spec.inputs)
    requires PortsError(inputs, spec, symbols, sources, seen, n).Some?
    ensures k < n
    ensures PortError(inputs[k], spec, symbols, sources, seen) == PortsError(inputs, spec, symbols, sources, seen, n)
  {
    if PortsError(inputs, spec, symbols, sources, seen, n - 1).Some? {
      k := SomePortFails(inputs, spec, symbols, sources, seen, n - 1);
    } else {
      k := n - 1;
    }
  }

  lemma {:induction false} PortsNameFault(w: Workflow, specs: seq<OperationSpec>, i: nat, seen: Seen)
    requires i < |w.nodes| && WellFormedSpecs(specs) && SeenExact(w, specs, i, seen) && DistinctSymbols(w.symbols)
    requires HeaderError(w.nodes[i], specs, seen).None?
    requires forall k :: 0 <= k < |w.nodes[i].inputs| ==>
               w.nodes[i].inputs[k].0 in Table(Lookup(specs, w.nodes[i].operation).value.inputs)
    ensures var node, spec := w.nodes[i], Lookup(specs, w.nodes[i].operation).value;
            var error := PortsError(node.inputs, spec, SymbolTable(w.symbols), SourceTable(w.sources), seen, |node.inputs|);
            error.Some? ==> SomePortFault(w, specs, i, error.value)
  {
    var node, spec := w.nodes[i], Lookup(specs, w.nodes[i].operation).value;
    var symbols, sources := SymbolTable(w.symbols), SourceTable(w.sources);
    if PortsError(node.inputs, spec, symbols, sources, seen, |node.inputs|).Some? {
      var k := SomePortFails(node.inputs, spec, symbols, sources, seen, |node.inputs|);
      TableEntries(spec.inputs);
      var port := node.inputs[k].0;
      var m :| 0 <= m < |spec.inputs| && spec.inputs[m] == (port, Table(spec.inputs)[port]);
      PortNamesFault(w, specs, i, seen, node.inputs[k], spec.inputs[m].1);
    }
  }

  // -------------------------------------------------------------------- nodes

  /** What is wrong with a node ahead of its ports. */
  ghost predicate HeaderFault(w: Workflow, specs: seq<OperationSpec>, i: nat, error: Error)
    requires i < |w.nodes|
  {
    var node := w.nodes[i];
    match error
    case DuplicateNode => exists j :: 0 <= j < i && w.nodes[j].nodeId == node.nodeId
    case UnsupportedOperation => forall spec :: spec in specs ==> spec.name != node.operation
    case VerificationUnsupported =>
      && Lookup(specs, node.operation).Some?
      && exists c :: c in node.verification && c != "finite" && c !in Lookup(specs, node.operation).value.diagnostics
    case InputPortsInvalid =>
      && Lookup(specs, node.operation).Some?
      && exists port :: HasKey(node.inputs, port) != HasKey(Lookup(specs, node.operation).value.inputs, port)
    case _ => false
  }

  lemma {:induction false} PortsDiffer(inputs: seq<(string, Input)>, ports: Ports)
    requires InputPorts(inputs) != Table(ports).Keys
    ensures exists port :: HasKey(inputs, port) != HasKey(ports, port)
  {
    TableKeys(ports);
    var port :| (port in InputPorts(inputs)) != (port in Table(ports).Keys);
    assert port in InputPorts(inputs) <==> HasKey(inputs, port);
  }

  lemma {:induction false} HeaderNamesFault(w: Workflow, specs: seq<OperationSpec>, i: nat, seen: Seen)
    requires i < |w.nodes| && SeenExact(w, specs, i, seen) && HeaderError(w.nodes[i], specs, seen).Some?
    ensures HeaderFault(w, specs, i, HeaderError(w.nodes[i], specs, seen).value)
  {
    var node := w.nodes[i];
    var spec := Lookup(specs, node.operation);
    if spec.Some? && InputPorts(node.inputs) != Table(spec.value.inputs).Keys {
      PortsDiffer(node.inputs, spec.value.inputs);
    }
  }

  /** What is wrong with some term of an expression. */
  ghost predicate ExpressionFault(e: Expression, names: set<string>, why: ExpressionCheck.Error) {
    exists path :: ExpressionCheck.IsPath(e, path)
                   && ExpressionCheck.TermFault(ExpressionCheck.At(e, path), names, 1 + |path|, why)
  }

  /** What is wrong with a node behind its ports. */
  ghost predicate DetailsFault(w: Workflow, i: nat, takes: Fields.Profile, error: Error)
    requires i < |w.nodes|
  {
    var node, symbols := w.nodes[i], SymbolTable(w.symbols);
    match error
    case FieldInvalid(field) => Fields.Misplaced(node, takes, symbols.Keys, field) || Fields.Malformed(node, takes, field)
    case ExpressionInvalid(why) => exists e :: e in Expressions(node) && ExpressionFault(e, symbols.Keys, why)
    case ExpressionLimitExceeded => SizeUpTo(w.nodes, i + 1) > MAX_EXPRESSION_TOTAL
    case LinearInputsInvalid(_) => !LinearTyped(node, takes, symbols)
    case _ => false
  }

  ghost predicate NodeFault(w: Workflow, specs: seq<OperationSpec>, i: nat, error: Error)
    requires i < |w.nodes|
  {
    || HeaderFault(w, specs, i, error)
    || (Lookup(specs, w.nodes[i].operation).Some?
        && (SomePortFault(w, specs, i, error)
            || DetailsFault(w, i, Lookup(specs, w.nodes[i].operation).value.takes, error)))
  }

  lemma {:induction false} CountNamesFault(es: seq<Expression>, names: set<string>, count: nat, n: nat)
    requires n <= |es| && CountExpressions(es, names, count, n).Failure?
    ensures var error := CountExpressions(es, names, count, n).error;
            error.ExpressionInvalid? && exists e :: e in es && ExpressionFault(e, names, error.why)
  {
    if CountExpressions(es, names, count, n - 1).Failure? {
      CountNamesFault(es, names, count, n - 1);
    } else {
      var path := ExpressionCheck.CheckNamesFault(es[n - 1], names, 1);
      assert es[n - 1] in es && ExpressionFault(es[n - 1], names, ExpressionCheck.Check(es[n - 1], names, 1).error);
    }
  }

  lemma {:induction false} DetailsNameFault(w: Workflow, i: nat, takes: Fields.Profile, count: nat)
    requires i < |w.nodes| && count == SizeUpTo(w.nodes, i + 1)
    ensures var error := DetailsError(w.nodes[i], takes, SymbolTable(w.symbols), count);
            error.Some? ==> DetailsFault(w, i, takes, error.value)
  {
    var node := w.nodes[i];
    Fields.MisplacedNamesFault(node, takes, SymbolTable(w.symbols).Keys);
    if Fields.MissingField(node, takes).Some? {
      Fields.MissingNamesFault(node, takes);
    }
    LinearErrorExact(node, takes, SymbolTable(w.symbols));
  }

  /** What checking a node's own fields does, with its header and its ports in order. */
  ghost function DetailsStep(w: Workflow, specs: seq<OperationSpec>, i: nat, p: Progress,
                             takes: Fields.Profile): Option<Error>
    requires i < |w.nodes|
  {
    var names, es := SymbolTable(w.symbols).Keys, Expressions(w.nodes[i]);
    var misplaced := Fields.MisplacedField(w.nodes[i], takes, names);
    var count := CountExpressions(es, names, p.count, |es|);
    if misplaced.Some? then Some(FieldInvalid(misplaced.value))
    else if count.Failure? then Some(count.error)
    else DetailsError(w.nodes[i], takes, SymbolTable(w.symbols), count.value)
  }

  lemma {:induction false} DetailsStepNamesFault(w: Workflow, specs: seq<OperationSpec>, i: nat, p: Progress,
                                                 takes: Fields.Profile)
    requires i < |w.nodes| && p.count == SizeUpTo(w.nodes, i)
    ensures var error := DetailsStep(w, specs, i, p, takes);
            error.Some? ==> DetailsFault(w, i, takes, error.value)
  {
    var names, es := SymbolTable(w.symbols).Keys, Expressions(w.nodes[i]);
    Fields.MisplacedNamesFault(w.nodes[i], takes, names);
    if CountExpressions(es, names, p.count, |es|).Failure? {
      CountNamesFault(es, names, p.count, |es|);
    } else {
      CountAllExact(es, names, p.count);
      DetailsNameFault(w, i, takes, SizeUpTo(w.nodes, i + 1));
    }
  }

  /** A failing node fails in its header, its ports or its own fields. */
  lemma {:induction false} StepFails(w: Workflow, specs: seq<OperationSpec>, i: nat, p: Progress)
    requires i < |w.nodes| && NodeStep(ContextOf(w, specs), w.nodes[i], p).Failure?
    ensures var node, error := w.nodes[i], NodeStep(ContextOf(w, specs), w.nodes[i], p).error;
            var header, spec := HeaderError(node, specs, p.seen), Lookup(specs, node.operation);
            if header.Some? then error == header.value
            else
              && spec.Some? && (forall k :: 0 <= k < |node.inputs| ==> node.inputs[k].0 in Table(spec.value.inputs))
              && var ports := PortsError(node.inputs, spec.value, SymbolTable(w.symbols), SourceTable(w.sources), p.seen,
                                         |node.inputs|);
                 if ports.Some? then error == ports.value
                 else DetailsStep(w, specs, i, p, spec.value.takes) == Some(error)
  {
    KeysAreInputPorts(w.nodes[i].inputs);
  }

  lemma {:induction false} StepNamesFault(w: Workflow, specs: seq<OperationSpec>, i: nat, p: Progress, error: Error)
    requires i < |w.nodes| && WellFormedSpecs(specs) && SeenExact(w, specs, i, p.seen) && DistinctSymbols(w.symbols)
    requires p.count == SizeUpTo(w.nodes, i) && NodeStep(ContextOf(w, specs), w.nodes[i], p) == Failure(error)
    ensures NodeFault(w, specs, i, error)
  {
    StepFails(w, specs, i, p);
    if HeaderError(w.nodes[i], specs, p.seen).Some? {
      HeaderNamesFault(w, specs, i, p.seen);
    } else {
      PortsNameFault(w, specs, i, p.seen);
      DetailsStepNamesFault(w, specs, i, p, Lookup(specs, w.nodes[i].operation).value.takes);
    }
  }

  /** The loop's state after `i` nodes that all passed. */
  lemma {:induction false} StateAfter(w: Workflow, specs: seq<OperationSpec>, i: nat, p: Progress)
    requires i <= |w.nodes| && WellFormedSpecs(specs) && DistinctSymbols(w.symbols)
    requires NodesUpTo(ContextOf(w, specs), w.nodes, i) == Success(p)
    ensures SeenExact(w, specs, i, p.seen) && p.count == SizeUpTo(w.nodes, i)
  {
    NodesExact(w, specs, i);
  }

  lemma {:induction false} SomeNodeFails(w: Workflow, specs: seq<OperationSpec>, error: Error) returns (i: nat)
    requires WellFormedSpecs(specs) && DistinctSymbols(w.symbols)
    requires NodesUpTo(ContextOf(w, specs), w.nodes, |w.nodes|) == Failure(error)
    ensures i < |w.nodes| && NodeFault(w, specs, i, error)
  {
    var p;
    i, p := FoldStops(Stepper(ContextOf(w, specs)), Progress(map[], 0), w.nodes, |w.nodes|, error);
    StateAfter(w, specs, i, p);
    StepNamesFault(w, specs, i, p, error);
  }

  // ---------------------------------------------------------------- workflows

  /** What is wrong with a requested output. */
  ghost predicate OutputFault(w: Workflow, specs: seq<OperationSpec>, o: Output, error: Error) {
    || (error.RequestedOutputInvalid? && !Produced(w, specs, o))
    || (error.UnitSyntaxInvalid? && !Fields.UnitWellFormed(o.unit))
  }

  lemma {:induction false} SomeOutputFails(w: Workflow, specs: seq<OperationSpec>, seen: Seen, n: nat) returns (k: nat)
    requires WellFormedSpecs(specs) && SeenExact(w, specs, |w.nodes|, seen)
    requires n <= |w.outputs| && OutputsError(w.outputs, seen, n).Some?
    ensures k < n && OutputFault(w, specs, w.outputs[k], OutputsError(w.outputs, seen, n).value)
  {
    if OutputsError(w.outputs, seen, n - 1).Some? {
      k := SomeOutputFails(w, specs, seen, n - 1);
    } else {
      k := n - 1;
      OutputExact(w, specs, seen, w.outputs[k]);
      if w.outputs[k].unit.Some? {
        Fields.UnitExact(w.outputs[k].unit.value);
      }
    }
  }

  /** What is wrong with a workflow. */
  ghost predicate WorkflowFault(w: Workflow, specs: seq<OperationSpec>, allowedFiles: set<string>, error: Error) {
    || (error.NodeLimitExceeded? && |w.nodes| > MAX_WORKFLOW_NODES)
    || (error.DuplicateSymbolOrSource? && !(DistinctSymbols(w.symbols) && DistinctSources(w.sources)))
    || (error.SourceNotAuthorized? && exists k :: 0 <= k < |w.sources| && w.sources[k].fileId !in allowedFiles)
    || (exists k :: 0 <= k < |w.symbols| && SymbolFault(w.symbols[k], error))
    || (exists i :: 0 <= i < |w.nodes| && NodeFault(w, specs, i, error))
    || (exists k :: 0 <= k < |w.outputs| && OutputFault(w, specs, w.outputs[k], error))
  }

  /** No workflow is rejected for a fault that it does not have. */
  lemma {:induction false} RejectionNamesFault(w: Workflow, specs: seq<OperationSpec>, allowedFiles: set<string>)
    requires WellFormedSpecs(specs) && Validate(w, specs, allowedFiles).Failure?
    ensures WorkflowFault(w, specs, allowedFiles, Validate(w, specs, allowedFiles).error)
  {
    SymbolTableExact(w.symbols);
    SourceTableExact(w.sources);
    var r := NodesUpTo(ContextOf(w, specs), w.nodes, |w.nodes|);
    if SymbolsError(w.symbols, |w.symbols|).Some? {
      var k := SomeSymbolFails(w.symbols, |w.symbols|);
      SymbolNamesFault(w.symbols[k]);
    } else if DistinctSymbols(w.symbols) && r.Failure? {
      var i := SomeNodeFails(w, specs, r.error);
    } else if DistinctSymbols(w.symbols) {
      NodesExact(w, specs, |w.nodes|);
      if OutputsError(w.outputs, r.value.seen, |w.outputs|).Some? {
        var k := SomeOutputFails(w, specs, r.value.seen, |w.outputs|);
      }
    }
  }
}
