/** In-order evaluation of an accepted workflow, for any shape-respecting meaning of
    its operations. */
module WorkflowRun {
  import opened Wrappers
  import opened ScientificIr
  import opened Registry
  import opened Tables
  import opened WorkflowCheck

  /** A meaning: what literals and sources denote and what operations compute. */
  datatype Semantics<!V> = Semantics(
    literal: Value -> V,
    source: (string, Shape) -> V,
    apply: (Node, map<string, V>) -> map<string, V>,
    shapeOf: V -> Shape)

  /** The values have exactly the declared names and shapes. */
  ghost predicate Fits<V>(values: map<string, V>, ports: Ports, sem: Semantics<V>) {
    && values.Keys == Table(ports).Keys
    && forall port :: port in values ==> sem.shapeOf(values[port]) == Table(ports)[port]
  }

  /** Operations given arguments that fit their inputs return results that fit
      their outputs; literals and sources have the shape they are read at. */
  ghost predicate ShapeRespecting<V(!new)>(sem: Semantics<V>, specs: seq<OperationSpec>) {
    && (forall v, shape :: HasShape(v, shape) ==> sem.shapeOf(sem.literal(v)) == shape)
    && (forall id, shape :: sem.shapeOf(sem.source(id, shape)) == shape)
    && (forall node: Node, args: map<string, V> ::
          Lookup(specs, node.operation).Some? && Fits(args, Lookup(specs, node.operation).value.inputs, sem) ==>
            Fits(sem.apply(node, args), Lookup(specs, node.operation).value.outputs, sem))
  }

  /** The value that reaches a port, or `None` when there is nothing to read. */
  function Receive<V>(w: Workflow, sem: Semantics<V>, done: map<string, map<string, V>>, item: Input,
                      shape: Shape): Option<V> {
    match item
    case Literal(value, _) => Some(sem.literal(value))
    case SymbolInput(name) =>
      if name in SymbolTable(w.symbols) && SymbolTable(w.symbols)[name].value.Some? then
        Some(sem.literal(SymbolTable(w.symbols)[name].value.value))
      else None
    case SourceInput(id) => if id in SourceTable(w.sources) then Some(sem.source(id, shape)) else None
    case NodeInput(id, port) => if id in done && port in done[id] then Some(done[id][port]) else None
  }

  /** The arguments of a node; evaluation is stuck when a port stays empty or
      receives a value of another shape. */
  function Arguments<V>(w: Workflow, spec: OperationSpec, sem: Semantics<V>, done: map<string, map<string, V>>,
                        inputs: seq<(string, Input)>): Option<map<string, V>>
    requires forall k :: 0 <= k < |inputs| ==> inputs[k].0 in Table(spec.inputs)
  {
    if inputs == [] then Some(map[])
    else
      var last := inputs[|inputs| - 1];
      var before := Arguments(w, spec, sem, done, inputs[..|inputs| - 1]);
      var value := Receive(w, sem, done, last.1, Table(spec.inputs)[last.0]);
      if before.None? || value.None? || sem.shapeOf(value.value) != Table(spec.inputs)[last.0] then None
      else Some(before.value[last.0 := value.value])
  }

  /** The results of the first `i` nodes, or `None` once evaluation is stuck. */
  function RunUpTo<V>(w: Workflow, specs: seq<OperationSpec>, sem: Semantics<V>,
                      i: nat): Option<map<string, map<string, V>>>
    requires i <= |w.nodes|
  {
    if i == 0 then Some(map[])
    else
      var before := RunUpTo(w, specs, sem, i - 1);
      var node := w.nodes[i - 1];
      var spec := Lookup(specs, node.operation);
      if before.None? || spec.None? || InputPorts(node.inputs) != Table(spec.value.inputs).Keys then None
      else
        KeysAreInputPorts(node.inputs);
        var args := Arguments(w, spec.value, sem, before.value, node.inputs);
        if args.None? then None else Some(before.value[node.nodeId := sem.apply(node, args.value)])
  }

  /** Every finished node has delivered its declared outputs. */
  ghost predicate Delivered<V>(w: Workflow, specs: seq<OperationSpec>, sem: Semantics<V>, i: nat,
                               done: map<string, map<string, V>>)
    requires i <= |w.nodes|
  {
    forall j :: 0 <= j < i ==>
      && Lookup(specs, w.nodes[j].operation).Some?
      && w.nodes[j].nodeId in done
      && Fits(done[w.nodes[j].nodeId], Lookup(specs, w.nodes[j].operation).value.outputs, sem)
  }

  /** The part of a node's typing that evaluation relies on. */
  ghost predicate Connected(w: Workflow, specs: seq<OperationSpec>, i: nat)
    requires i < |w.nodes|
  {
    HeaderTyped(w, specs, i) && PortsTyped(w, specs, i)
  }

  ghost predicate NodesConnected(w: Workflow, specs: seq<OperationSpec>, i: nat)
    requires i <= |w.nodes|
  {
    forall k :: 0 <= k < i ==> Connected(w, specs, k)
  }

  lemma {:induction false} TypedIsConnected(w: Workflow, specs: seq<OperationSpec>, i: nat)
    requires i <= |w.nodes| && NodesTyped(w, specs, |w.nodes|)
    ensures NodesConnected(w, specs, i)
  {
    forall k | 0 <= k < i
      ensures Connected(w, specs, k)
    {
      assert NodeTyped(w, specs, k);
    }
  }

  /** An input that the judgement lets supply a shape is received with that shape. */
  lemma {:induction false} SuppliedIsReceived<V(!new)>(w: Workflow, specs: seq<OperationSpec>, sem: Semantics<V>,
                                                       i: nat, done: map<string, map<string, V>>, item: Input,
                                                       shape: Shape)
    requires i < |w.nodes| && WellFormedSpecs(specs) && ShapeRespecting(sem, specs)
    requires DistinctSymbols(w.symbols) && forall k :: 0 <= k < |w.symbols| ==> SymbolOk(w.symbols[k])
    requires Delivered(w, specs, sem, i, done) && Supplies(w, specs, i, item, shape)
    ensures Receive(w, sem, done, item, shape).Some?
    ensures sem.shapeOf(Receive(w, sem, done, item, shape).value) == shape
  {
    match item
    case Literal(_, _) =>
    case SymbolInput(name) =>
      SymbolTableExact(w.symbols);
    case SourceInput(id) =>
      SourceTableExact(w.sources);
    case NodeInput(id, port) =>
      var j :| 0 <= j < i && Produces(w, specs, j, id, port, shape);
      LookupWellFormed(specs, w.nodes[j].operation);
      TableLookup(Lookup(specs, w.nodes[j].operation).value.outputs, port, shape);
  }

  lemma {:induction false} ArgumentsFit<V(!new)>(w: Workflow, spec: OperationSpec, sem: Semantics<V>,
                                                 done: map<string, map<string, V>>, inputs: seq<(string, Input)>)
    requires forall k :: 0 <= k < |inputs| ==> inputs[k].0 in Table(spec.inputs)
    requires forall k :: 0 <= k < |inputs| ==>
               var shape := Table(spec.inputs)[inputs[k].0];
               Receive(w, sem, done, inputs[k].1, shape).Some?
               && sem.shapeOf(Receive(w, sem, done, inputs[k].1, shape).value) == shape
    ensures Arguments(w, spec, sem, done, inputs).Some?
    ensures var args := Arguments(w, spec, sem, done, inputs).value;
            && args.Keys == InputPorts(inputs)
            && forall port :: port in args ==> port in Table(spec.inputs) && sem.shapeOf(args[port]) == Table(spec.inputs)[port]
  {
    if inputs != [] {
      var n := |inputs| - 1;
      assert forall k :: 0 <= k < n ==> inputs[..n][k] == inputs[k];
      ArgumentsFit(w, spec, sem, done, inputs[..n]);
      assert InputPorts(inputs) == InputPorts(inputs[..n]) + {inputs[n].0};
    }
  }

  /** The arguments of node `i` fit its registered input ports. */
  lemma {:induction false} NodeIsReady<V(!new)>(w: Workflow, specs: seq<OperationSpec>, sem: Semantics<V>, i: nat,
                                                done: map<string, map<string, V>>)
    requires i < |w.nodes| && WellFormedSpecs(specs) && ShapeRespecting(sem, specs) && Connected(w, specs, i)
    requires DistinctSymbols(w.symbols) && forall k :: 0 <= k < |w.symbols| ==> SymbolOk(w.symbols[k])
    requires Delivered(w, specs, sem, i, done)
    ensures var node := w.nodes[i];
            var spec := Lookup(specs, node.operation).value;
            && InputPorts(node.inputs) == Table(spec.inputs).Keys
            && (forall k :: 0 <= k < |node.inputs| ==> node.inputs[k].0 in Table(spec.inputs))
            && Arguments(w, spec, sem, done, node.inputs).Some?
            && Fits(Arguments(w, spec, sem, done, node.inputs).value, spec.inputs, sem)
  {
    var node := w.nodes[i];
    var spec := Lookup(specs, node.operation).value;
    LookupWellFormed(specs, node.operation);
    TableKeySet(spec.inputs);
    KeysAreInputPorts(node.inputs);
    forall k | 0 <= k < |node.inputs|
      ensures var shape := Table(spec.inputs)[node.inputs[k].0];
              Receive(w, sem, done, node.inputs[k].1, shape).Some?
              && sem.shapeOf(Receive(w, sem, done, node.inputs[k].1, shape).value) == shape
    {
      TableEntries(spec.inputs);
      var shape := Table(spec.inputs)[node.inputs[k].0];
      var m :| 0 <= m < |spec.inputs| && spec.inputs[m] == (node.inputs[k].0, shape);
      SuppliedIsReceived(w, specs, sem, i, done, node.inputs[k].1, shape);
    }
    ArgumentsFit(w, spec, sem, done, node.inputs);
  }

  lemma {:induction false} DeliveredStep<V(!new)>(w: Workflow, specs: seq<OperationSpec>, sem: Semantics<V>, i: nat,
                                                  done: map<string, map<string, V>>, result: map<string, V>)
    requires i < |w.nodes| && Connected(w, specs, i) && Delivered(w, specs, sem, i, done)
    requires Fits(result, Lookup(specs, w.nodes[i].operation).value.outputs, sem)
    ensures Delivered(w, specs, sem, i + 1, done[w.nodes[i].nodeId := result])
  {
  }

  /** The first `i` nodes run, and every one of them has delivered its outputs. */
  ghost predicate RunsWell<V>(w: Workflow, specs: seq<OperationSpec>, sem: Semantics<V>, i: nat)
    requires i <= |w.nodes|
  {
    RunUpTo(w, specs, sem, i).Some? && Delivered(w, specs, sem, i, RunUpTo(w, specs, sem, i).value)
  }

  /** Running one more node whose arguments are all there. */
  lemma {:induction false} RunsOneNode<V(!new)>(w: Workflow, specs: seq<OperationSpec>, sem: Semantics<V>, i: nat,
                                                node: Node, done: map<string, map<string, V>>, spec: OperationSpec,
                                                args: map<string, V>)
    requires 0 < i <= |w.nodes| && RunUpTo(w, specs, sem, i - 1) == Some(done)
    requires node == w.nodes[i - 1] && Lookup(specs, node.operation) == Some(spec)
    requires InputPorts(node.inputs) == Table(spec.inputs).Keys
    requires forall k :: 0 <= k < |node.inputs| ==> node.inputs[k].0 in Table(spec.inputs)
    requires Arguments(w, spec, sem, done, node.inputs) == Some(args)
    ensures RunUpTo(w, specs, sem, i) == Some(done[node.nodeId := sem.apply(node, args)])
  {
  }

  lemma {:induction false} NextNodeRuns<V(!new)>(w: Workflow, specs: seq<OperationSpec>, sem: Semantics<V>, i: nat)
    requires 0 < i <= |w.nodes| && WellFormedSpecs(specs) && ShapeRespecting(sem, specs) && Connected(w, specs, i - 1)
    requires DistinctSymbols(w.symbols) && forall k :: 0 <= k < |w.symbols| ==> SymbolOk(w.symbols[k])
    requires RunsWell(w, specs, sem, i - 1)
    ensures RunsWell(w, specs, sem, i)
  {
    var done, node := RunUpTo(w, specs, sem, i - 1).value, w.nodes[i - 1];
    var spec := Lookup(specs, node.operation).value;
    NodeIsReady(w, specs, sem, i - 1, done);
    var args := Arguments(w, spec, sem, done, node.inputs).value;
    RunsOneNode(w, specs, sem, i, node, done, spec, args);
    var result := sem.apply(node, args);
    DeliveredStep(w, specs, sem, i - 1, done, result);
    assert RunUpTo(w, specs, sem, i).value == done[node.nodeId := result];
  }

  lemma {:induction false} NothingRuns<V(!new)>(w: Workflow, specs: seq<OperationSpec>, sem: Semantics<V>)
    ensures RunsWell(w, specs, sem, 0)
  {
  }

  lemma {:induction false} FirstNodesRun<V(!new)>(w: Workflow, specs: seq<OperationSpec>, sem: Semantics<V>, i: nat)
    requires i <= |w.nodes| && WellFormedSpecs(specs) && ShapeRespecting(sem, specs) && NodesConnected(w, specs, i)
    requires DistinctSymbols(w.symbols) && forall k :: 0 <= k < |w.symbols| ==> SymbolOk(w.symbols[k])
    ensures RunsWell(w, specs, sem, i)
  {
    if i == 0 {
      NothingRuns(w, specs, sem);
    } else {
      FirstNodesRun(w, specs, sem, i - 1);
      NextNodeRuns(w, specs, sem, i);
    }
  }

  /** Well-typed workflows never get stuck: after any number of nodes every one of
      them has delivered exactly its declared outputs in their declared shapes. */
  lemma {:induction false} NeverStuck<V(!new)>(w: Workflow, specs: seq<OperationSpec>, allowedFiles: set<string>,
                                               sem: Semantics<V>, i: nat)
    requires i <= |w.nodes| && WellFormedSpecs(specs) && ShapeRespecting(sem, specs)
    requires WellTyped(w, specs, allowedFiles)
    ensures RunsWell(w, specs, sem, i)
  {
    TypedIsConnected(w, specs, i);
    FirstNodesRun(w, specs, sem, i);
  }

  ghost predicate OutputDelivered<V>(w: Workflow, specs: seq<OperationSpec>, sem: Semantics<V>,
                                     done: map<string, map<string, V>>, o: Output)
  {
    && o.nodeId in done && o.port in done[o.nodeId]
    && exists j :: 0 <= j < |w.nodes| && Produces(w, specs, j, o.nodeId, o.port, sem.shapeOf(done[o.nodeId][o.port]))
  }

  /** What the checker accepts can be evaluated to the end, and every requested
      output is there in the shape its operation declares. */
  lemma {:induction false} AcceptedDeliversOutputs<V(!new)>(w: Workflow, specs: seq<OperationSpec>,
                                                            allowedFiles: set<string>, sem: Semantics<V>)
    requires WellFormedSpecs(specs) && ShapeRespecting(sem, specs)
    requires Validate(w, specs, allowedFiles).Success?
    ensures RunUpTo(w, specs, sem, |w.nodes|).Some?
    ensures forall k :: 0 <= k < |w.outputs| ==>
              OutputDelivered(w, specs, sem, RunUpTo(w, specs, sem, |w.nodes|).value, w.outputs[k])
  {
    ValidateExact(w, specs, allowedFiles);
    NeverStuck(w, specs, allowedFiles, sem, |w.nodes|);
    forall k | 0 <= k < |w.outputs|
      ensures OutputDelivered(w, specs, sem, RunUpTo(w, specs, sem, |w.nodes|).value, w.outputs[k])
    {
      var o := w.outputs[k];
      assert Produced(w, specs, o);
      var j, shape :| 0 <= j < |w.nodes| && Produces(w, specs, j, o.nodeId, o.port, shape);
      LookupWellFormed(specs, w.nodes[j].operation);
      TableLookup(Lookup(specs, w.nodes[j].operation).value.outputs, o.port, shape);
    }
  }
}
