/** `_expression_check` of core/scientific_validation.py and what it decides. */
module ExpressionCheck {
  import opened Wrappers
  import opened ScientificIr

  const MAX_DEPTH := 16
  const MAX_NODES := 256
  const MAX_EXPONENT := 16
  const MAX_RATIONAL: int := 1_000_000_000_000_000_000_000_000_000_000

  datatype Error =
    | DepthExceeded | ArityInvalid | NumberInvalid | RationalInvalid | SymbolUnbound
    | PayloadInvalid | PowerUnbounded | NodesExceeded

  function Arity(k: Kind): nat {
    match k
    case NumberKind | RationalKind | SymbolKind => 0
    case Negate | Sin | Cos | Exp | Log | Sqrt => 1
    case Add | Subtract | Multiply | Divide | Power => 2
  }

  function Abs(x: int): nat {
    if x < 0 then -x else x
  }

  function PayloadError(e: Expression, symbols: set<string>): Option<Error> {
    if e.kind.NumberKind? then
      if e.value.None? || e.symbol.Some? || e.numerator.Some? then Some(NumberInvalid) else None
    else if e.kind.RationalKind? then
      if e.numerator.None? || e.denominator.None? || e.denominator.value == 0
         || Abs(e.numerator.value) > MAX_RATIONAL || Abs(e.denominator.value) > MAX_RATIONAL
         || e.value.Some? || e.symbol.Some? then Some(RationalInvalid)
      else None
    else if e.kind.SymbolKind? then
      if e.symbol.None? || e.symbol.value !in symbols || e.value.Some? then Some(SymbolUnbound) else None
    else if e.value.Some? || e.symbol.Some? || e.numerator.Some? || e.denominator.Some? then Some(PayloadInvalid)
    else None
  }

  predicate BoundedExponent(e: Expression) {
    e.kind.NumberKind? && e.value.Some? && e.value.value.IntNum? && Abs(e.value.value.i) <= MAX_EXPONENT
  }

  /** The recursive checker: the number of nodes, or the first error raised. */
  function Check(e: Expression, symbols: set<string>, depth: nat): Result<nat, Error>
    decreases e, 1
  {
    if depth > MAX_DEPTH then Failure(DepthExceeded)
    else if |e.args| != Arity(e.kind) then Failure(ArityInvalid)
    else if PayloadError(e, symbols).Some? then Failure(PayloadError(e, symbols).value)
    else if e.kind.Power? && !BoundedExponent(e.args[1]) then Failure(PowerUnbounded)
    else
      var below :- CheckAll(e.args, symbols, depth + 1);
      if 1 + below > MAX_NODES then Failure(NodesExceeded) else Success(1 + below)
  }

  function CheckAll(es: seq<Expression>, symbols: set<string>, depth: nat): Result<nat, Error>
    decreases es, 0
  {
    if es == [] then Success(0)
    else
      var first :- Check(es[0], symbols, depth);
      var rest :- CheckAll(es[1..], symbols, depth);
      Success(first + rest)
  }

  // ------------------------------------------------- declarative reading

  /** How many arguments a term of this kind takes. */
  ghost predicate TakesArguments(k: Kind, n: nat) {
    if k.NumberKind? || k.RationalKind? || k.SymbolKind? then n == 0
    else if k.Add? || k.Subtract? || k.Multiply? || k.Divide? || k.Power? then n == 2
    else n == 1
  }

  /** What a term carries besides its arguments: a number its value, a rational two
      bounded integers, a symbol a declared name, an operator nothing.
      A number may carry a stray denominator, and a symbol the parts of a rational. */
  ghost predicate CarriesPayload(e: Expression, symbols: set<string>) {
    if e.kind.NumberKind? then e.value.Some? && e.symbol.None? && e.numerator.None?
    else if e.kind.RationalKind? then
      && e.value.None? && e.symbol.None?
      && e.numerator.Some? && -MAX_RATIONAL <= e.numerator.value <= MAX_RATIONAL
      && e.denominator.Some? && e.denominator.value != 0 && -MAX_RATIONAL <= e.denominator.value <= MAX_RATIONAL
    else if e.kind.SymbolKind? then e.value.None? && e.symbol.Some? && e.symbol.value in symbols
    else e.value.None? && e.symbol.None? && e.numerator.None? && e.denominator.None?
  }

  /** An integer literal of small magnitude. */
  ghost predicate SmallExponent(e: Expression) {
    e.kind.NumberKind? && e.value.Some? && e.value.value.IntNum? && -MAX_EXPONENT <= e.value.value.i <= MAX_EXPONENT
  }

  /** The rules for one term, apart from its place in the tree. */
  ghost predicate LocalOk(e: Expression, symbols: set<string>) {
    && TakesArguments(e.kind, |e.args|)
    && CarriesPayload(e, symbols)
    && (e.kind.Power? ==> SmallExponent(e.args[1]))
  }

  /** The payload test passes exactly for the right payload and names the kind it is
      wrong for. */
  lemma {:induction false} PayloadExact(e: Expression, symbols: set<string>)
    ensures PayloadError(e, symbols).None? <==> CarriesPayload(e, symbols)
    ensures PayloadError(e, symbols).Some? ==>
              PayloadError(e, symbols).value ==
                if e.kind.NumberKind? then NumberInvalid
                else if e.kind.RationalKind? then RationalInvalid
                else if e.kind.SymbolKind? then SymbolUnbound
                else PayloadInvalid
  {
  }

  /** The tests on one term pass exactly when it obeys the local rules. */
  lemma {:induction false} LocalExact(e: Expression, symbols: set<string>)
    ensures LocalOk(e, symbols) <==>
              && |e.args| == Arity(e.kind) && PayloadError(e, symbols).None?
              && (e.kind.Power? ==> BoundedExponent(e.args[1]))
  {
    PayloadExact(e, symbols);
    assert TakesArguments(e.kind, |e.args|) <==> |e.args| == Arity(e.kind);
    if e.kind.Power? && |e.args| == 2 {
      assert SmallExponent(e.args[1]) <==> BoundedExponent(e.args[1]);
    }
  }

  /** A path of argument positions that leads to a subterm. */
  ghost predicate IsPath(e: Expression, path: seq<nat>)
    decreases path
  {
    path != [] ==> path[0] < |e.args| && IsPath(e.args[path[0]], path[1..])
  }

  ghost function At(e: Expression, path: seq<nat>): Expression
    requires IsPath(e, path)
    decreases path
  {
    if path == [] then e else At(e.args[path[0]], path[1..])
  }

  function Size(e: Expression): nat
    decreases e, 1
  {
    1 + SizeAll(e.args)
  }

  function SizeAll(es: seq<Expression>): nat
    decreases es, 0
  {
    if es == [] then 0 else Size(es[0]) + SizeAll(es[1..])
  }

  /** Every subterm obeys the local rules and lies at most `MAX_DEPTH` deep. */
  ghost predicate SubtermsOk(e: Expression, symbols: set<string>, depth: nat) {
    forall path :: IsPath(e, path) ==> LocalOk(At(e, path), symbols) && depth + |path| <= MAX_DEPTH
  }

  lemma {:induction false} SubtermsStep(e: Expression, symbols: set<string>, depth: nat)
    ensures SubtermsOk(e, symbols, depth) <==>
            LocalOk(e, symbols) && depth <= MAX_DEPTH
            && forall i :: 0 <= i < |e.args| ==> SubtermsOk(e.args[i], symbols, depth + 1)
  {
    if SubtermsOk(e, symbols, depth) {
      assert IsPath(e, []) && At(e, []) == e;
      forall i, path | 0 <= i < |e.args| && IsPath(e.args[i], path)
        ensures LocalOk(At(e.args[i], path), symbols) && depth + 1 + |path| <= MAX_DEPTH
      {
        var longer := [i as nat] + path;
        assert longer[1..] == path;
        assert IsPath(e, longer) && At(e, longer) == At(e.args[i], path);
      }
    }
    if LocalOk(e, symbols) && depth <= MAX_DEPTH
       && forall i :: 0 <= i < |e.args| ==> SubtermsOk(e.args[i], symbols, depth + 1) {
      forall path | IsPath(e, path)
        ensures LocalOk(At(e, path), symbols) && depth + |path| <= MAX_DEPTH
      {
        if path != [] {
          assert IsPath(e.args[path[0]], path[1..]);
        }
      }
    }
  }

  /** The checker accepts exactly the expressions whose every subterm obeys the
      rules, that are at most `MAX_DEPTH` deep and have at most `MAX_NODES` nodes,
      and then it returns the exact number of nodes. */
  lemma {:induction false} CheckExact(e: Expression, symbols: set<string>, depth: nat)
    ensures Check(e, symbols, depth).Success? <==> SubtermsOk(e, symbols, depth) && Size(e) <= MAX_NODES
    ensures Check(e, symbols, depth).Success? ==> Check(e, symbols, depth).value == Size(e)
    decreases e, 1
  {
    SubtermsStep(e, symbols, depth);
    LocalExact(e, symbols);
    if LocalOk(e, symbols) && depth <= MAX_DEPTH {
      CheckAllExact(e.args, symbols, depth + 1);
    }
  }

  lemma {:induction false} CheckAllExact(es: seq<Expression>, symbols: set<string>, depth: nat)
    ensures CheckAll(es, symbols, depth).Success? <==>
            forall i :: 0 <= i < |es| ==> SubtermsOk(es[i], symbols, depth) && Size(es[i]) <= MAX_NODES
    ensures CheckAll(es, symbols, depth).Success? ==> CheckAll(es, symbols, depth).value == SizeAll(es)
    ensures forall i :: 0 <= i < |es| ==> Size(es[i]) <= SizeAll(es)
    decreases es, 0
  {
    if es != [] {
      CheckExact(es[0], symbols, depth);
      CheckAllExact(es[1..], symbols, depth);
      assert forall i :: 1 <= i < |es| ==> es[i] == es[1..][i - 1];
    }
  }

  /** What is wrong with a term at this depth. */
  ghost predicate TermFault(t: Expression, symbols: set<string>, depth: nat, why: Error) {
    match why
    case DepthExceeded => depth > MAX_DEPTH
    case ArityInvalid => !TakesArguments(t.kind, |t.args|)
    case NumberInvalid => t.kind.NumberKind? && !CarriesPayload(t, symbols)
    case RationalInvalid => t.kind.RationalKind? && !CarriesPayload(t, symbols)
    case SymbolUnbound => t.kind.SymbolKind? && !CarriesPayload(t, symbols)
    case PayloadInvalid =>
      !t.kind.NumberKind? && !t.kind.RationalKind? && !t.kind.SymbolKind? && !CarriesPayload(t, symbols)
    case PowerUnbounded => t.kind.Power? && |t.args| == 2 && !SmallExponent(t.args[1])
    case NodesExceeded => Size(t) > MAX_NODES
  }

  lemma {:induction false} FailsHere(e: Expression, symbols: set<string>, depth: nat)
    requires Check(e, symbols, depth).Failure? && CheckAll(e.args, symbols, depth + 1).Success?
    ensures TermFault(e, symbols, depth, Check(e, symbols, depth).error)
  {
    PayloadExact(e, symbols);
    assert TakesArguments(e.kind, |e.args|) <==> |e.args| == Arity(e.kind);
    CheckAllExact(e.args, symbols, depth + 1);
  }

  lemma {:induction false} FailsBeforeArguments(e: Expression, symbols: set<string>, depth: nat)
    requires Check(e, symbols, depth).Failure? && CheckAll(e.args, symbols, depth + 1).Failure?
    ensures || TermFault(e, symbols, depth, Check(e, symbols, depth).error)
            || Check(e, symbols, depth) == CheckAll(e.args, symbols, depth + 1)
  {
    PayloadExact(e, symbols);
    assert TakesArguments(e.kind, |e.args|) <==> |e.args| == Arity(e.kind);
  }

  lemma {:induction false} SomeArgumentFails(es: seq<Expression>, symbols: set<string>, depth: nat) returns (k: nat)
    requires CheckAll(es, symbols, depth).Failure?
    ensures k < |es| && Check(es[k], symbols, depth) == CheckAll(es, symbols, depth)
  {
    if Check(es[0], symbols, depth).Failure? {
      k := 0;
    } else {
      k := SomeArgumentFails(es[1..], symbols, depth);
      k := k + 1;
    }
  }

  /** The error that an expression is rejected with is the fault of one of its terms. */
  lemma {:induction false} CheckNamesFault(e: Expression, symbols: set<string>, depth: nat) returns (path: seq<nat>)
    requires Check(e, symbols, depth).Failure?
    ensures IsPath(e, path) && TermFault(At(e, path), symbols, depth + |path|, Check(e, symbols, depth).error)
    decreases e
  {
    path := [];
    if CheckAll(e.args, symbols, depth + 1).Success? {
      FailsHere(e, symbols, depth);
    } else {
      FailsBeforeArguments(e, symbols, depth);
      if !TermFault(e, symbols, depth, Check(e, symbols, depth).error) {
        var k := SomeArgumentFails(e.args, symbols, depth + 1);
        var rest := CheckNamesFault(e.args[k], symbols, depth + 1);
        path := [k] + rest;
        assert path[1..] == rest;
      }
    }
  }

  /** The local rules throughout a term, by structure. */
  ghost predicate WellFormed(e: Expression, symbols: set<string>) {
    LocalOk(e, symbols) && forall i :: 0 <= i < |e.args| ==> WellFormed(e.args[i], symbols)
  }

  lemma {:induction false} AcceptedIsWellFormed(e: Expression, symbols: set<string>, depth: nat)
    requires SubtermsOk(e, symbols, depth)
    ensures WellFormed(e, symbols)
  {
    SubtermsStep(e, symbols, depth);
    forall i | 0 <= i < |e.args|
      ensures WellFormed(e.args[i], symbols)
    {
      AcceptedIsWellFormed(e.args[i], symbols, depth + 1);
    }
  }
}
