/** `_source_numbers` and `_numeric_provenance` of core/scientific_validation.py:
    every number of a proposed workflow must come from the user's message. */
module NumericProvenance {
  import opened Folds
  import opened Wrappers
  import opened ScientificIr
  import opened WorkflowCheck
  import ExpressionCheck

  datatype Error = AssumptionNotAuthorized | UnboundFactualConstant | AssumptionNotDeclared | NumericFactNotInRequest

  // -------------------------------------------------- traversal of nested lists

  /** The leaves of a nested value, left to right, by recursion. */
  function Leaves(v: Value): seq<Value>
    decreases v, 1
  {
    if v.ListValue? then LeavesOfAll(v.items) else [v]
  }

  function LeavesOfAll(vs: seq<Value>): seq<Value>
    decreases vs, 0
  {
    if vs == [] then [] else Leaves(vs[0]) + LeavesOfAll(vs[1..])
  }

  function Reverse<T>(s: seq<T>): seq<T> {
    if s == [] then [] else Reverse(s[1..]) + [s[0]]
  }

  /** Number of values in a stack, at every depth. */
  ghost function Weight(vs: seq<Value>): nat {
    if vs == [] then 0
    else 1 + (if vs[0].ListValue? then Weight(vs[0].items) else 0) + Weight(vs[1..])
  }

  lemma {:induction false} WeightAppend(a: seq<Value>, b: seq<Value>)
    ensures Weight(a + b) == Weight(a) + Weight(b)
  {
    if a == [] {
      assert a + b == b;
    } else {
      assert (a + b)[1..] == a[1..] + b;
      WeightAppend(a[1..], b);
    }
  }

  lemma {:induction false} LeavesAppend(a: seq<Value>, b: seq<Value>)
    ensures LeavesOfAll(a + b) == LeavesOfAll(a) + LeavesOfAll(b)
  {
    if a == [] {
      assert a + b == b;
    } else {
      assert (a + b)[1..] == a[1..] + b;
      LeavesAppend(a[1..], b);
    }
  }

  lemma {:induction false} ReverseAppend<T>(a: seq<T>, b: seq<T>)
    ensures Reverse(a + b) == Reverse(b) + Reverse(a)
  {
    if a == [] {
      assert a + b == b;
    } else {
      assert (a + b)[1..] == a[1..] + b;
      ReverseAppend(a[1..], b);
    }
  }

  lemma {:induction false} ReverseKeeps<T>(s: seq<T>)
    ensures multiset(Reverse(s)) == multiset(s)
    ensures forall x :: x in Reverse(s) <==> x in s
  {
    if s != [] {
      ReverseKeeps(s[1..]);
      assert s == [s[0]] + s[1..];
    }
  }

  /** Replacing a list on top of the stack by its items keeps the leaves. */
  lemma {:induction false} PopList(rest: seq<Value>, item: Value)
    requires item.ListValue?
    ensures LeavesOfAll(rest + [item]) == LeavesOfAll(rest + item.items)
    ensures Weight(rest + item.items) < Weight(rest + [item])
  {
    WeightAppend(rest, [item]);
    LeavesAppend(rest, [item]);
    WeightAppend(rest, item.items);
    LeavesAppend(rest, item.items);
    assert LeavesOfAll([item]) == Leaves(item) + [];
  }

  /** A leaf on top of the stack is the next one in reversed order. */
  lemma {:induction false} PopLeaf(r: seq<Value>, rest: seq<Value>, item: Value)
    requires !item.ListValue?
    ensures r + Reverse(LeavesOfAll(rest + [item])) == r + [item] + Reverse(LeavesOfAll(rest))
    ensures Weight(rest) < Weight(rest + [item])
  {
    WeightAppend(rest, [item]);
    LeavesAppend(rest, [item]);
    assert LeavesOfAll([item]) == Leaves(item) + [] == [item];
    ReverseAppend(LeavesOfAll(rest), [item]);
    assert Reverse([item]) == [item];
  }

  /** The explicit stack visits the leaves in exactly the reversed order of the
      recursion, hence the same multiset of leaves, and it terminates. */
  method PushLeaves(value: Value, proposed: seq<Value>) returns (r: seq<Value>)
    ensures r == proposed + Reverse(Leaves(value))
    ensures multiset(r) == multiset(proposed) + multiset(Leaves(value))
  {
    r := proposed;
    var stack := [value];
    assert LeavesOfAll(stack) == Leaves(value) by {
      assert LeavesOfAll(stack) == Leaves(value) + [];
    }
    while stack != []
      invariant r + Reverse(LeavesOfAll(stack)) == proposed + Reverse(Leaves(value))
      decreases Weight(stack)
    {
      var item, rest := stack[|stack| - 1], stack[..|stack| - 1];
      assert stack == rest + [item];
      if item.ListValue? {
        PopList(rest, item);
        stack := rest + item.items;
      } else {
        PopLeaf(r, rest, item);
        stack := rest;
        r := r + [item];
      }
    }
    ReverseKeeps(Leaves(value));
  }

  // ------------------------------------------------------ what has to be checked

  /** The numbers a term states itself; checked terms carry their payload. */
  function OwnNumbers(e: Expression): seq<Value> {
    if e.kind.NumberKind? && e.value.Some? then [NumValue(e.value.value)]
    else if e.kind.RationalKind? && e.numerator.Some? && e.denominator.Some? then
      [NumValue(IntNum(e.numerator.value)), NumValue(IntNum(e.denominator.value))]
    else []
  }

  /** `_source_numbers` */
  function SourceNumbers(e: Expression): seq<Value>
    decreases e, 1
  {
    if e.kind.NumberKind? || e.kind.RationalKind? then OwnNumbers(e) else SourceNumbersOfAll(e.args)
  }

  function SourceNumbersOfAll(es: seq<Expression>): seq<Value>
    decreases es, 0
  {
    if es == [] then [] else SourceNumbers(es[0]) + SourceNumbersOfAll(es[1..])
  }

  predicate Factual(p: Option<Provenance>) {
    p == Some(TrustedConstant) || p == Some(SelectedSource)
  }

  function SymbolProvenanceError(s: Symbol, declared: bool): Option<Error> {
    if s.value.None? then None
    else if Factual(s.provenance) then Some(UnboundFactualConstant)
    else if s.provenance == Some(Assumption) && !declared then Some(AssumptionNotDeclared)
    else None
  }

  function SymbolNumbers(s: Symbol): seq<Value> {
    if s.value.None? || s.provenance == Some(Assumption) then [] else Reverse(Leaves(s.value.value))
  }

  predicate LiteralExempt(item: Input, declared: bool) {
    item.Literal? && item.provenance == Some(Assumption) && declared
  }

  function InputProvenanceError(item: Input, declared: bool): Option<Error> {
    if item.Literal? && !LiteralExempt(item, declared) && Factual(item.provenance) then Some(UnboundFactualConstant)
    else None
  }

  function InputNumbers(item: Input, declared: bool): seq<Value> {
    if item.Literal? && !LiteralExempt(item, declared) then Reverse(Leaves(item.value)) else []
  }

  function Reals(pair: Option<(real, real)>): seq<Value> {
    if pair.None? then [] else [NumValue(RealNum(pair.value.0)), NumValue(RealNum(pair.value.1))]
  }

  function InitialNumbers(conditions: seq<(string, real)>): seq<Value> {
    seq(|conditions|, i requires 0 <= i < |conditions| => NumValue(RealNum(conditions[i].1)))
  }

  function InputReader(declared: bool): ((string, Input)) -> seq<Value> {
    (entry: (string, Input)) => InputNumbers(entry.1, declared)
  }

  function NodeNumbers(node: Node, declared: bool): seq<Value> {
    Flat(node.inputs, InputReader(declared), |node.inputs|) + Flat(Expressions(node), SourceNumbers, |Expressions(node)|)
    + InitialNumbers(node.initialConditions) + Reals(node.bounds) + Reals(node.timeRange)
  }

  function NodeReader(declared: bool): Node -> seq<Value> {
    (node: Node) => NodeNumbers(node, declared)
  }

  /** Every number that the message has to vouch for. */
  function CheckedNumbers(w: Workflow): seq<Value> {
    Flat(w.symbols, SymbolNumbers, |w.symbols|) + Flat(w.nodes, NodeReader(w.assumptions != []), |w.nodes|)
  }

  /** The test made on each collected number. */
  predicate Vouched(v: Value, userValues: set<real>) {
    v.NumValue? && !v.n.NonFinite? && (v.n.AsReal() in userValues || v.n.AsReal() in {-1.0, 0.0, 1.0})
  }

  ghost predicate HasValue(v: Value, x: real) {
    v == NumValue(RealNum(x)) || (v.NumValue? && v.n.IntNum? && v.n.i as real == x)
  }

  /** The message states the number, or it is one of -1, 0 and 1. */
  ghost predicate InMessage(v: Value, userValues: set<real>) {
    (exists x :: x in userValues && HasValue(v, x)) || HasValue(v, -1.0) || HasValue(v, 0.0) || HasValue(v, 1.0)
  }

  /** Only the message and a declared assumption may supply a symbol's value. */
  ghost predicate SymbolPermitted(s: Symbol, declared: bool) {
    s.value.Some? ==>
      && s.provenance != Some(TrustedConstant) && s.provenance != Some(SelectedSource)
      && (s.provenance == Some(Assumption) ==> declared)
  }

  /** A literal claims no source of its own. */
  ghost predicate InputPermitted(item: Input) {
    item.Literal? ==> item.provenance != Some(TrustedConstant) && item.provenance != Some(SelectedSource)
  }

  ghost predicate InputsPermitted(node: Node, declared: bool) {
    forall k :: 0 <= k < |node.inputs| ==> InputPermitted(node.inputs[k].1)
  }

  ghost predicate NodesPermitted(nodes: seq<Node>, declared: bool) {
    forall i :: 0 <= i < |nodes| ==> InputsPermitted(nodes[i], declared)
  }

  ghost predicate ProvenancePermitted(w: Workflow) {
    && (forall k :: 0 <= k < |w.symbols| ==> SymbolPermitted(w.symbols[k], w.assumptions != []))
    && NodesPermitted(w.nodes, w.assumptions != [])
  }

  /** Some value given by the workflow claims a provenance that only a source can have. */
  ghost predicate ClaimsFact(w: Workflow) {
    || (exists k :: 0 <= k < |w.symbols| && w.symbols[k].value.Some?
                    && w.symbols[k].provenance in {Some(TrustedConstant), Some(SelectedSource)})
    || !NodesPermitted(w.nodes, w.assumptions != [])
  }

  // ------------------------------------------------------------- the procedure

  method CollectInput(item: Input, declared: bool, proposed: seq<Value>) returns (error: Option<Error>, r: seq<Value>)
    ensures error == InputProvenanceError(item, declared)
    ensures error.None? ==> r == proposed + InputNumbers(item, declared)
  {
    error, r := None, proposed;
    if item.Literal? && !(item.provenance == Some(Assumption) && declared) {
      if Factual(item.provenance) {
        return Some(UnboundFactualConstant), r;
      }
      r := PushLeaves(item.value, proposed);
    }
  }

  method CollectInputs(node: Node, declared: bool, proposed: seq<Value>) returns (error: Option<Error>, r: seq<Value>)
    ensures error.None? <==> InputsPermitted(node, declared)
    ensures error.Some? ==> error == Some(UnboundFactualConstant)
    ensures error.None? ==> r == proposed + Flat(node.inputs, InputReader(declared), |node.inputs|)
  {
    r := proposed;
    for k := 0 to |node.inputs|
      invariant r == proposed + Flat(node.inputs, InputReader(declared), k)
      invariant forall m :: 0 <= m < k ==> InputPermitted(node.inputs[m].1)
    {
      FlatMore(proposed, node.inputs, InputReader(declared), k);
      error, r := CollectInput(node.inputs[k].1, declared, r);
      if error.Some? {
        return;
      }
    }
    error := None;
  }

  method CollectExpressions(es: seq<Expression>, proposed: seq<Value>) returns (r: seq<Value>)
    ensures r == proposed + Flat(es, SourceNumbers, |es|)
  {
    r := proposed;
    for k := 0 to |es|
      invariant r == proposed + Flat(es, SourceNumbers, k)
    {
      FlatMore(proposed, es, SourceNumbers, k);
      r := r + SourceNumbers(es[k]);
    }
  }

  method CollectNode(node: Node, declared: bool, proposed: seq<Value>) returns (error: Option<Error>, r: seq<Value>)
    ensures error.None? <==> InputsPermitted(node, declared)
    ensures error.Some? ==> error == Some(UnboundFactualConstant)
    ensures error.None? ==> r == proposed + NodeNumbers(node, declared)
  {
    error, r := CollectInputs(node, declared, proposed);
    if error.None? {
      r := CollectExpressions(Expressions(node), r);
      r := r + InitialNumbers(node.initialConditions);
      r := r + Reals(node.bounds);
      r := r + Reals(node.timeRange);
    }
  }

  /** The numbers of the first `n` nodes. */
  function NodesNumbers(nodes: seq<Node>, declared: bool, n: nat): seq<Value>
    requires n <= |nodes|
  {
    Flat(nodes, NodeReader(declared), n)
  }

  /** The inputs of the first `n` nodes are permitted. */
  ghost predicate PermittedBelow(nodes: seq<Node>, declared: bool, n: nat)
    requires n <= |nodes|
  {
    n == 0 || (PermittedBelow(nodes, declared, n - 1) && InputsPermitted(nodes[n - 1], declared))
  }

  lemma {:induction false} PermittedMeans(nodes: seq<Node>, declared: bool, n: nat)
    requires n <= |nodes|
    ensures PermittedBelow(nodes, declared, n) <==> forall i :: 0 <= i < n ==> InputsPermitted(nodes[i], declared)
  {
    if n > 0 {
      PermittedMeans(nodes, declared, n - 1);
    }
  }

  lemma {:induction false} PermittedPrefix(nodes: seq<Node>, declared: bool, n: nat, m: nat)
    requires n <= m <= |nodes| && PermittedBelow(nodes, declared, m)
    ensures PermittedBelow(nodes, declared, n)
  {
    if n < m {
      PermittedPrefix(nodes, declared, n, m - 1);
    }
  }

  method CollectNextNode(nodes: seq<Node>, declared: bool, n: nat, before: seq<Value>, proposed: seq<Value>)
    returns (error: Option<Error>, r: seq<Value>)
    requires n < |nodes| && proposed == before + NodesNumbers(nodes, declared, n) && PermittedBelow(nodes, declared, n)
    ensures error.None? <==> PermittedBelow(nodes, declared, n + 1)
    ensures error.Some? ==> error == Some(UnboundFactualConstant)
    ensures error.None? ==> r == before + NodesNumbers(nodes, declared, n + 1)
  {
    FlatMore(before, nodes, NodeReader(declared), n);
    error, r := CollectNode(nodes[n], declared, proposed);
  }

  method CollectNodes(nodes: seq<Node>, declared: bool, before: seq<Value>) returns (error: Option<Error>,
          proposed: seq<Value>)
    ensures error.None? <==> PermittedBelow(nodes, declared, |nodes|)
    ensures error.Some? ==> error == Some(UnboundFactualConstant)
    ensures error.None? ==> proposed == before + NodesNumbers(nodes, declared, |nodes|)
  {
    proposed := before;
    for i := 0 to |nodes|
      invariant proposed == before + NodesNumbers(nodes, declared, i)
      invariant PermittedBelow(nodes, declared, i)
    {
      error, proposed := CollectNextNode(nodes, declared, i, before, proposed);
      if error.Some? {
        if PermittedBelow(nodes, declared, |nodes|) {
          PermittedPrefix(nodes, declared, i + 1, |nodes|);
        }
        return;
      }
    }
    error := None;
  }

  method CollectSymbol(s: Symbol, declared: bool, proposed: seq<Value>) returns (error: Option<Error>, r: seq<Value>)
    ensures error == SymbolProvenanceError(s, declared)
    ensures error.None? ==> r == proposed + SymbolNumbers(s)
  {
    error, r := None, proposed;
    if s.value.Some? {
      if Factual(s.provenance) {
        return Some(UnboundFactualConstant), r;
      }
      if s.provenance == Some(Assumption) {
        if !declared {
          return Some(AssumptionNotDeclared), r;
        }
      } else {
        r := PushLeaves(s.value.value, proposed);
      }
    }
  }

  method CollectSymbols(symbols: seq<Symbol>, declared: bool) returns (error: Option<Error>, proposed: seq<Value>)
    ensures error.None? <==> forall k :: 0 <= k < |symbols| ==> SymbolPermitted(symbols[k], declared)
    ensures error == Some(UnboundFactualConstant) ==>
              exists k :: 0 <= k < |symbols| && symbols[k].value.Some?
                          && symbols[k].provenance in {Some(TrustedConstant), Some(SelectedSource)}
    ensures error == Some(AssumptionNotDeclared) ==>
              && !declared
              && exists k :: 0 <= k < |symbols| && symbols[k].value.Some? && symbols[k].provenance == Some(Assumption)
    ensures error.Some? ==> error.value.UnboundFactualConstant? || error.value.AssumptionNotDeclared?
    ensures error.None? ==> proposed == Flat(symbols, SymbolNumbers, |symbols|)
  {
    proposed := [];
    for k := 0 to |symbols|
      invariant proposed == Flat(symbols, SymbolNumbers, k)
      invariant forall m :: 0 <= m < k ==> SymbolPermitted(symbols[m], declared)
    {
      error, proposed := CollectSymbol(symbols[k], declared, proposed);
      if error.Some? {
        return;
      }
    }
    error := None;
  }

  lemma {:induction false} VouchedExact(v: Value, userValues: set<real>)
    ensures Vouched(v, userValues) <==> InMessage(v, userValues)
  {
    if Vouched(v, userValues) {
      assert HasValue(v, v.n.AsReal());
    }
  }

  /** Acceptance is exactly: every assumption is in the message, no value claims a
      factual provenance, and the message vouches for every checked number. */
  method CheckProvenance(w: Workflow, authorized: set<string>, userValues: set<real>) returns (error: Option<Error>)
    ensures error.None? <==>
            && (forall a :: a in w.assumptions ==> a in authorized)
            && ProvenancePermitted(w)
            && (forall v :: v in CheckedNumbers(w) ==> InMessage(v, userValues))
    ensures error == Some(AssumptionNotAuthorized) <==> exists a :: a in w.assumptions && a !in authorized
    ensures error == Some(NumericFactNotInRequest) ==>
              ProvenancePermitted(w) && exists v :: v in CheckedNumbers(w) && !InMessage(v, userValues)
    ensures error == Some(UnboundFactualConstant) ==> ClaimsFact(w)
    ensures error == Some(AssumptionNotDeclared) ==>
              && w.assumptions == []
              && exists k :: 0 <= k < |w.symbols| && w.symbols[k].value.Some? && w.symbols[k].provenance == Some(Assumption)
  {
    if exists a :: a in w.assumptions && a !in authorized {
      return Some(AssumptionNotAuthorized);
    }
    var proposed: seq<Value>;
    error, proposed := CollectSymbols(w.symbols, w.assumptions != []);
    if error.Some? {
      return;
    }
    PermittedMeans(w.nodes, w.assumptions != [], |w.nodes|);
    error, proposed := CollectNodes(w.nodes, w.assumptions != [], proposed);
    if error.Some? {
      return;
    }
    assert proposed == CheckedNumbers(w);
    forall v: Value
      ensures Vouched(v, userValues) <==> InMessage(v, userValues)
    {
      VouchedExact(v, userValues);
    }
    if exists k :: 0 <= k < |proposed| && !Vouched(proposed[k], userValues) {
      return Some(NumericFactNotInRequest);
    }
    error := None;
  }

  // ----------------------------------------------------------------- exactness

  /** The term is the number, or a rational of which it is one half. */
  ghost predicate States(t: Expression, v: Value) {
    || (t.kind.NumberKind? && t.value.Some? && v == NumValue(t.value.value))
    || (t.kind.RationalKind? && t.numerator.Some? && v == NumValue(IntNum(t.numerator.value)))
    || (t.kind.RationalKind? && t.denominator.Some? && v == NumValue(IntNum(t.denominator.value)))
  }

  /** Some term of the expression states the number. */
  ghost predicate OccursInExpression(e: Expression, v: Value) {
    exists path :: ExpressionCheck.IsPath(e, path) && States(ExpressionCheck.At(e, path), v)
  }

  lemma {:induction false} ArgumentCovered(es: seq<Expression>, k: nat, v: Value)
    requires k < |es| && v in SourceNumbers(es[k])
    ensures v in SourceNumbersOfAll(es)
  {
    if k > 0 {
      ArgumentCovered(es[1..], k - 1, v);
    }
  }

  /** A number stated anywhere inside a well-formed expression is collected. */
  lemma {:induction false} SubtermCovered(e: Expression, path: seq<nat>, names: set<string>, v: Value)
    requires ExpressionCheck.IsPath(e, path) && ExpressionCheck.WellFormed(e, names)
    requires States(ExpressionCheck.At(e, path), v)
    ensures v in SourceNumbers(e)
    decreases path
  {
    if path != [] {
      SubtermCovered(e.args[path[0]], path[1..], names, v);
      ArgumentCovered(e.args, path[0], v);
    }
  }

  lemma {:induction false} ArgumentOrigin(es: seq<Expression>, v: Value) returns (k: nat)
    requires v in SourceNumbersOfAll(es)
    ensures k < |es| && v in SourceNumbers(es[k])
  {
    if v in SourceNumbers(es[0]) {
      k := 0;
    } else {
      k := ArgumentOrigin(es[1..], v);
      k := k + 1;
    }
  }

  /** A collected number is stated by some term. */
  lemma {:induction false} SubtermOrigin(e: Expression, v: Value) returns (path: seq<nat>)
    requires v in SourceNumbers(e)
    ensures ExpressionCheck.IsPath(e, path) && States(ExpressionCheck.At(e, path), v)
    decreases e
  {
    if e.kind.NumberKind? || e.kind.RationalKind? {
      path := [];
    } else {
      var k := ArgumentOrigin(e.args, v);
      var rest := SubtermOrigin(e.args[k], v);
      path := [k] + rest;
      assert path[1..] == rest;
    }
  }

  lemma {:induction false} ExpressionExact(e: Expression, names: set<string>, v: Value)
    requires ExpressionCheck.WellFormed(e, names)
    ensures v in SourceNumbers(e) <==> OccursInExpression(e, v)
  {
    if v in SourceNumbers(e) {
      var path := SubtermOrigin(e, v);
    }
    if OccursInExpression(e, v) {
      var path :| ExpressionCheck.IsPath(e, path) && States(ExpressionCheck.At(e, path), v);
      SubtermCovered(e, path, names, v);
    }
  }

  /** The number is a leaf of a symbol's value that no assumption covers. */
  ghost predicate OccursInSymbol(s: Symbol, v: Value) {
    s.value.Some? && s.provenance != Some(Assumption) && v in Leaves(s.value.value)
  }

  /** The number is a leaf of a literal input that no declared assumption covers. */
  ghost predicate OccursInInput(item: Input, declared: bool, v: Value) {
    item.Literal? && !(item.provenance == Some(Assumption) && declared) && v in Leaves(item.value)
  }

  ghost predicate OccursInRelation(r: Relation, v: Value) {
    OccursInExpression(r.left, v) || OccursInExpression(r.right, v)
  }

  /** The number is an end of the interval. */
  ghost predicate IsEnd(pair: Option<(real, real)>, v: Value) {
    pair.Some? && (v == NumValue(RealNum(pair.value.0)) || v == NumValue(RealNum(pair.value.1)))
  }

  /** The node states the number in an expression of its own. */
  ghost predicate OccursInTerms(node: Node, v: Value) {
    || (node.expression.Some? && OccursInExpression(node.expression.value, v))
    || (node.objective.Some? && OccursInExpression(node.objective.value, v))
    || (exists k :: 0 <= k < |node.relations| && OccursInRelation(node.relations[k], v))
  }

  ghost predicate OccursInNode(node: Node, declared: bool, v: Value) {
    || (exists k :: 0 <= k < |node.inputs| && OccursInInput(node.inputs[k].1, declared, v))
    || OccursInTerms(node, v)
    || (exists k :: 0 <= k < |node.initialConditions| && v == NumValue(RealNum(node.initialConditions[k].1)))
    || IsEnd(node.bounds, v) || IsEnd(node.timeRange, v)
  }

  /** A number occurs where the message has to vouch for it. */
  ghost predicate Occurs(w: Workflow, v: Value) {
    || (exists k :: 0 <= k < |w.symbols| && OccursInSymbol(w.symbols[k], v))
    || (exists i :: 0 <= i < |w.nodes| && OccursInNode(w.nodes[i], w.assumptions != [], v))
  }

  ghost predicate ExpressionsWellFormed(node: Node, names: set<string>) {
    forall k :: 0 <= k < |Expressions(node)| ==> ExpressionCheck.WellFormed(Expressions(node)[k], names)
  }

  lemma {:induction false} InputsExact(node: Node, declared: bool, v: Value)
    ensures v in Flat(node.inputs, InputReader(declared), |node.inputs|) <==>
            exists k :: 0 <= k < |node.inputs| && OccursInInput(node.inputs[k].1, declared, v)
  {
    FlatContains(node.inputs, InputReader(declared), |node.inputs|, v);
    forall k | 0 <= k < |node.inputs|
      ensures v in InputReader(declared)(node.inputs[k]) <==> OccursInInput(node.inputs[k].1, declared, v)
    {
      if node.inputs[k].1.Literal? {
        ReverseKeeps(Leaves(node.inputs[k].1.value));
      }
    }
  }

  lemma {:induction false} ExpressionsExact(es: seq<Expression>, names: set<string>, v: Value)
    requires forall k :: 0 <= k < |es| ==> ExpressionCheck.WellFormed(es[k], names)
    ensures v in Flat(es, SourceNumbers, |es|) <==> exists k :: 0 <= k < |es| && OccursInExpression(es[k], v)
  {
    FlatContains(es, SourceNumbers, |es|, v);
    forall k | 0 <= k < |es|
      ensures v in SourceNumbers(es[k]) <==> OccursInExpression(es[k], v)
    {
      ExpressionExact(es[k], names, v);
    }
  }

  lemma {:induction false} InitialExact(conditions: seq<(string, real)>, v: Value)
    ensures v in InitialNumbers(conditions) <==> exists k :: 0 <= k < |conditions| && v == NumValue(RealNum(conditions[k].1))
  {
    if k :| 0 <= k < |conditions| && v == NumValue(RealNum(conditions[k].1)) {
      assert InitialNumbers(conditions)[k] == v;
    }
  }

  lemma {:induction false} SidesExact(relations: seq<Relation>, e: Expression)
    ensures e in RelationSides(relations) <==>
            exists k :: 0 <= k < |relations| && (e == relations[k].left || e == relations[k].right)
  {
    if relations != [] {
      var before, last := relations[..|relations| - 1], relations[|relations| - 1];
      SidesExact(before, e);
      assert relations == before + [last];
      if k :| 0 <= k < |before| && (e == before[k].left || e == before[k].right) {
        assert relations[k] == before[k];
      }
    }
  }

  /** The expressions of a node are the one it computes, its objective and the two
      sides of every relation. */
  lemma {:induction false} TermsExact(node: Node, v: Value)
    ensures (exists k :: 0 <= k < |Expressions(node)| && OccursInExpression(Expressions(node)[k], v)) <==>
            OccursInTerms(node, v)
  {
    var all := Expressions(node);
    if k :| 0 <= k < |all| && OccursInExpression(all[k], v) {
      SidesExact(node.relations, all[k]);
      assert || all[k] in RelationSides(node.relations)
             || node.expression == Some(all[k]) || node.objective == Some(all[k]);
    }
    if node.expression.Some? {
      assert node.expression.value in all;
    }
    if node.objective.Some? {
      assert node.objective.value in all;
    }
    forall k | 0 <= k < |node.relations|
      ensures node.relations[k].left in all && node.relations[k].right in all
    {
      SidesExact(node.relations, node.relations[k].left);
      SidesExact(node.relations, node.relations[k].right);
    }
  }

  lemma {:induction false} NodeExact(node: Node, declared: bool, names: set<string>, v: Value)
    requires ExpressionsWellFormed(node, names)
    ensures v in NodeNumbers(node, declared) <==> OccursInNode(node, declared, v)
  {
    InputsExact(node, declared, v);
    ExpressionsExact(Expressions(node), names, v);
    TermsExact(node, v);
    InitialExact(node.initialConditions, v);
  }

  lemma {:induction false} SymbolExact(s: Symbol, v: Value)
    ensures v in SymbolNumbers(s) <==> OccursInSymbol(s, v)
  {
    if s.value.Some? {
      ReverseKeeps(Leaves(s.value.value));
    }
  }

  lemma {:induction false} SymbolsExact(symbols: seq<Symbol>, v: Value)
    ensures v in Flat(symbols, SymbolNumbers, |symbols|) <==>
              exists k :: 0 <= k < |symbols| && OccursInSymbol(symbols[k], v)
  {
    FlatContains(symbols, SymbolNumbers, |symbols|, v);
    forall k | 0 <= k < |symbols|
      ensures v in SymbolNumbers(symbols[k]) <==> OccursInSymbol(symbols[k], v)
    {
      SymbolExact(symbols[k], v);
    }
  }

  lemma {:induction false} NodesExact(nodes: seq<Node>, declared: bool, names: set<string>, v: Value)
    requires forall i :: 0 <= i < |nodes| ==> ExpressionsWellFormed(nodes[i], names)
    ensures v in Flat(nodes, NodeReader(declared), |nodes|) <==>
              exists i :: 0 <= i < |nodes| && OccursInNode(nodes[i], declared, v)
  {
    FlatContains(nodes, NodeReader(declared), |nodes|, v);
    forall i | 0 <= i < |nodes|
      ensures v in NodeReader(declared)(nodes[i]) <==> OccursInNode(nodes[i], declared, v)
    {
      NodeExact(nodes[i], declared, names, v);
    }
  }

  /** Nothing escapes and nothing else is asked for: the numbers compared with the
      message are exactly those that occur where it has to vouch for them. */
  lemma {:induction false} CheckedExactly(w: Workflow, names: set<string>, v: Value)
    requires forall i :: 0 <= i < |w.nodes| ==> ExpressionsWellFormed(w.nodes[i], names)
    ensures v in CheckedNumbers(w) <==> Occurs(w, v)
  {
    SymbolsExact(w.symbols, v);
    NodesExact(w.nodes, w.assumptions != [], names, v);
  }

  /** A checked workflow is accepted exactly when the message states every number that
      occurs where it has to vouch for it. */
  lemma {:induction false} VouchedExactly(w: Workflow, names: set<string>, userValues: set<real>)
    requires forall i :: 0 <= i < |w.nodes| ==> ExpressionsWellFormed(w.nodes[i], names)
    ensures (forall v :: v in CheckedNumbers(w) ==> InMessage(v, userValues)) <==>
            (forall v :: Occurs(w, v) ==> InMessage(v, userValues))
  {
    forall v: Value
      ensures v in CheckedNumbers(w) <==> Occurs(w, v)
    {
      CheckedExactly(w, names, v);
    }
  }
}
