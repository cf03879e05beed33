/** `validate_linear_inputs` of core/scientific_linear_contract.py on JSON values, against
    the program that they denote. */
module LinearInputs {
  import opened ScientificIr
  import opened Wrappers
  import Linear = LinearContract

  type Values = map<string, Value>

  const COST := "cost"
  const MATRIX := "matrix"
  const RHS := "rhs"
  const LOWER := "lower"
  const UPPER := "upper"
  const INTEGRALITY := "integrality"

  datatype Error = PortsInvalid | Rejected(why: Linear.Error)

  function Ports(mixed: bool): set<string> {
    {COST, MATRIX, RHS, LOWER, UPPER} + (if mixed then {INTEGRALITY} else {})
  }

  // --------------------------------------------------------------- the checks

  predicate IsList(v: Value, n: nat) {
    v.ListValue? && |v.items| == n
  }

  predicate IsSmall(v: Value) {
    FiniteNumber(v) && Linear.Abs(v.n.AsReal()) <= Linear.MAX_MAGNITUDE
  }

  function NumberOf(v: Value): real {
    if v.NumValue? then v.n.AsReal() else 0.0
  }

  predicate AllSmall(v: Value)
    requires v.ListValue?
  {
    forall i :: 0 <= i < |v.items| ==> IsSmall(v.items[i])
  }

  predicate IsFlag(v: Value) {
    v == NumValue(IntNum(0)) || v == NumValue(IntNum(1))
  }

  /** The parts of a program as JSON values; `integrality` is absent without integers. */
  datatype Parts = Parts(
    cost: Value, matrix: Value, rhs: Value, lower: Value, upper: Value, integrality: Option<Value>)

  function PartsOf(values: Values, mixed: bool): Parts
    requires values.Keys == Ports(mixed)
  {
    Parts(values[COST], values[MATRIX], values[RHS], values[LOWER], values[UPPER],
          if mixed then Some(values[INTEGRALITY]) else None)
  }

  predicate CostFits(p: Parts) {
    p.cost.ListValue? && 1 <= |p.cost.items| <= 32
  }

  predicate ShapeFits(p: Parts)
    requires CostFits(p)
  {
    var n := |p.cost.items|;
    && p.matrix.ListValue? && 1 <= |p.matrix.items| <= 64 && IsList(p.rhs, |p.matrix.items|)
    && (forall i :: 0 <= i < |p.matrix.items| ==> IsList(p.matrix.items[i], n))
    && IsList(p.lower, n) && IsList(p.upper, n)
  }

  predicate NumbersFit(p: Parts)
    requires CostFits(p) && ShapeFits(p)
  {
    && AllSmall(p.cost) && AllSmall(p.rhs) && AllSmall(p.lower) && AllSmall(p.upper)
    && forall i :: 0 <= i < |p.matrix.items| ==> AllSmall(p.matrix.items[i])
  }

  predicate BoundsFit(p: Parts)
    requires CostFits(p) && ShapeFits(p)
  {
    forall j :: 0 <= j < |p.cost.items| ==> NumberOf(p.lower.items[j]) <= NumberOf(p.upper.items[j])
  }

  predicate FlagsFit(p: Parts)
    requires CostFits(p)
  {
    p.integrality.Some? ==>
      && IsList(p.integrality.value, |p.cost.items|)
      && forall j :: 0 <= j < |p.integrality.value.items| ==> IsFlag(p.integrality.value.items[j])
  }

  /** The first rule that fails, in source order. */
  function PartsError(p: Parts): Option<Linear.Error> {
    if !CostFits(p) then Some(Linear.VariableLimit)
    else if !ShapeFits(p) then Some(Linear.ShapeInvalid)
    else if !NumbersFit(p) then Some(Linear.NumberInvalid)
    else if !BoundsFit(p) then Some(Linear.BoundsInvalid)
    else if !FlagsFit(p) then Some(Linear.IntegralityInvalid)
    else None
  }

  function InputsError(values: Values, mixed: bool): Option<Error> {
    if values.Keys != Ports(mixed) then Some(PortsInvalid)
    else
      var error := PartsError(PartsOf(values, mixed));
      if error.Some? then Some(Rejected(error.value)) else None
  }

  // --------------------------------------------------- the program they denote

  /** `v` is the list of these numbers. */
  ghost predicate Lists(v: Value, xs: seq<real>) {
    IsList(v, |xs|) && forall i :: 0 <= i < |xs| ==> FiniteNumber(v.items[i]) && v.items[i].n.AsReal() == xs[i]
  }

  ghost predicate ListsRows(v: Value, rows: seq<seq<real>>) {
    IsList(v, |rows|) && forall i :: 0 <= i < |rows| ==> Lists(v.items[i], rows[i])
  }

  ghost predicate ListsInts(v: Value, xs: seq<int>) {
    IsList(v, |xs|) && forall i :: 0 <= i < |xs| ==> v.items[i] == NumValue(IntNum(xs[i]))
  }

  ghost predicate Denotes(parts: Parts, p: Linear.Program) {
    && Lists(parts.cost, p.cost) && ListsRows(parts.matrix, p.matrix) && Lists(parts.rhs, p.rhs)
    && Lists(parts.lower, p.lower) && Lists(parts.upper, p.upper)
    && (if parts.integrality.Some? then ListsInts(parts.integrality.value, p.integrality) else p.integrality == [])
  }

  /** The values under the program's ports denote an acceptable program. */
  ghost predicate DenoteProgram(values: Values, mixed: bool, p: Linear.Program) {
    && values.Keys == Ports(mixed)
    && Denotes(PartsOf(values, mixed), p) && Linear.Validate(p, mixed) == Success(p)
  }

  function Numbers(v: Value): seq<real> {
    if v.ListValue? then seq(|v.items|, i requires 0 <= i < |v.items| => NumberOf(v.items[i])) else []
  }

  function Rows(v: Value): seq<seq<real>> {
    if v.ListValue? then seq(|v.items|, i requires 0 <= i < |v.items| => Numbers(v.items[i])) else []
  }

  function Flags(v: Value): seq<int> {
    if v.ListValue? then
      seq(|v.items|, i requires 0 <= i < |v.items| => if v.items[i] == NumValue(IntNum(0)) then 0 else 1)
    else []
  }

  function ProgramOf(p: Parts): Linear.Program {
    Linear.Program(Numbers(p.cost), Rows(p.matrix), Numbers(p.rhs), Numbers(p.lower), Numbers(p.upper),
                   if p.integrality.Some? then Flags(p.integrality.value) else [])
  }

  lemma {:induction false} SmallLists(v: Value)
    requires v.ListValue? && AllSmall(v)
    ensures Lists(v, Numbers(v)) && Linear.Bounded(Numbers(v))
  {
    forall i | 0 <= i < |v.items|
      ensures FiniteNumber(v.items[i]) && Numbers(v)[i] == v.items[i].n.AsReal()
      ensures Linear.Abs(Numbers(v)[i]) <= Linear.MAX_MAGNITUDE
    {
      assert IsSmall(v.items[i]);
    }
  }

  lemma {:induction false} ListsBounded(v: Value, xs: seq<real>)
    requires Lists(v, xs) && Linear.Bounded(xs)
    ensures AllSmall(v)
  {
    forall i | 0 <= i < |v.items|
      ensures IsSmall(v.items[i])
    {
      assert v.items[i].n.AsReal() == xs[i];
    }
  }

  lemma {:induction false} AcceptedRows(p: Parts)
    requires CostFits(p) && ShapeFits(p) && NumbersFit(p)
    ensures ListsRows(p.matrix, Rows(p.matrix))
    ensures forall i :: 0 <= i < |p.matrix.items| ==>
              |Rows(p.matrix)[i]| == |p.cost.items| && Linear.Bounded(Rows(p.matrix)[i])
  {
    forall i | 0 <= i < |p.matrix.items|
      ensures Lists(p.matrix.items[i], Rows(p.matrix)[i]) && Linear.Bounded(Rows(p.matrix)[i])
      ensures |Rows(p.matrix)[i]| == |p.cost.items|
    {
      assert IsList(p.matrix.items[i], |p.cost.items|);
      SmallLists(p.matrix.items[i]);
    }
  }

  lemma {:induction false} AcceptedBounds(p: Parts)
    requires CostFits(p) && ShapeFits(p) && NumbersFit(p) && BoundsFit(p)
    ensures forall j :: 0 <= j < |p.cost.items| ==> Numbers(p.lower)[j] <= Numbers(p.upper)[j]
  {
  }

  lemma {:induction false} AcceptedFlags(p: Parts)
    requires CostFits(p) && FlagsFit(p) && p.integrality.Some?
    ensures var flags := Flags(p.integrality.value);
            && ListsInts(p.integrality.value, flags) && |flags| == |p.cost.items|
            && forall j :: 0 <= j < |flags| ==> flags[j] in {0, 1}
  {
    forall j | 0 <= j < |p.integrality.value.items|
      ensures p.integrality.value.items[j] == NumValue(IntNum(Flags(p.integrality.value)[j]))
    {
      assert IsFlag(p.integrality.value.items[j]);
    }
  }

  lemma {:induction false} AcceptedDenotes(p: Parts)
    requires PartsError(p).None?
    ensures Denotes(p, ProgramOf(p)) && Linear.Validate(ProgramOf(p), p.integrality.Some?) == Success(ProgramOf(p))
  {
    SmallLists(p.cost);
    SmallLists(p.rhs);
    SmallLists(p.lower);
    SmallLists(p.upper);
    AcceptedRows(p);
    AcceptedBounds(p);
    if p.integrality.Some? {
      AcceptedFlags(p);
    }
  }

  lemma {:induction false} DenotedNumbersFit(parts: Parts, p: Linear.Program)
    requires Denotes(parts, p) && Linear.Validate(p, parts.integrality.Some?) == Success(p)
    ensures CostFits(parts) && ShapeFits(parts) && NumbersFit(parts)
  {
    assert CostFits(parts);
    forall i | 0 <= i < |parts.matrix.items|
      ensures IsList(parts.matrix.items[i], |parts.cost.items|) && AllSmall(parts.matrix.items[i])
    {
      assert Lists(parts.matrix.items[i], p.matrix[i]) && |p.matrix[i]| == |p.cost|;
      ListsBounded(parts.matrix.items[i], p.matrix[i]);
    }
    ListsBounded(parts.cost, p.cost);
    ListsBounded(parts.rhs, p.rhs);
    ListsBounded(parts.lower, p.lower);
    ListsBounded(parts.upper, p.upper);
  }

  lemma {:induction false} DenotedIsAccepted(parts: Parts, p: Linear.Program)
    requires Denotes(parts, p) && Linear.Validate(p, parts.integrality.Some?) == Success(p)
    ensures PartsError(parts).None?
  {
    DenotedNumbersFit(parts, p);
    forall j | 0 <= j < |parts.cost.items|
      ensures NumberOf(parts.lower.items[j]) <= NumberOf(parts.upper.items[j])
    {
      assert p.lower[j] <= p.upper[j];
    }
    if parts.integrality.Some? {
      forall j | 0 <= j < |parts.integrality.value.items|
        ensures IsFlag(parts.integrality.value.items[j])
      {
        assert p.integrality[j] in {0, 1};
      }
    }
  }

  /** What Linear.Validate says of a program. */
  ghost function ProgramError(p: Linear.Program, mixed: bool): Option<Linear.Error> {
    var r := Linear.Validate(p, mixed);
    if r.Failure? then Some(r.error) else None
  }

  lemma {:induction false} SmallExact(v: Value, xs: seq<real>)
    requires Lists(v, xs)
    ensures AllSmall(v) <==> Linear.Bounded(xs)
  {
    if Linear.Bounded(xs) {
      ListsBounded(v, xs);
    }
    if AllSmall(v) {
      forall i | 0 <= i < |xs|
        ensures Linear.Abs(xs[i]) <= Linear.MAX_MAGNITUDE
      {
        assert IsSmall(v.items[i]);
      }
    }
  }

  lemma {:induction false} ShapesAgree(parts: Parts, p: Linear.Program)
    requires Denotes(parts, p) && 1 <= |p.cost| <= 32
    ensures CostFits(parts)
    ensures ShapeFits(parts) <==>
              && 1 <= |p.matrix| <= 64 && |p.rhs| == |p.matrix|
              && (forall i :: 0 <= i < |p.matrix| ==> |p.matrix[i]| == |p.cost|)
              && |p.lower| == |p.cost| && |p.upper| == |p.cost|
  {
    forall i | 0 <= i < |p.matrix|
      ensures IsList(parts.matrix.items[i], |p.cost|) <==> |p.matrix[i]| == |p.cost|
    {
      assert Lists(parts.matrix.items[i], p.matrix[i]);
    }
  }

  lemma {:induction false} NumbersAgree(parts: Parts, p: Linear.Program)
    requires Denotes(parts, p) && CostFits(parts) && ShapeFits(parts)
    ensures NumbersFit(parts) <==>
              && Linear.Bounded(p.cost) && Linear.Bounded(p.rhs) && Linear.Bounded(p.lower) && Linear.Bounded(p.upper)
              && forall i :: 0 <= i < |p.matrix| ==> Linear.Bounded(p.matrix[i])
  {
    SmallExact(parts.cost, p.cost);
    SmallExact(parts.rhs, p.rhs);
    SmallExact(parts.lower, p.lower);
    SmallExact(parts.upper, p.upper);
    forall i | 0 <= i < |p.matrix|
      ensures AllSmall(parts.matrix.items[i]) <==> Linear.Bounded(p.matrix[i])
    {
      SmallExact(parts.matrix.items[i], p.matrix[i]);
    }
  }

  lemma {:induction false} BoundsAgree(parts: Parts, p: Linear.Program)
    requires Denotes(parts, p) && CostFits(parts) && ShapeFits(parts)
    ensures BoundsFit(parts) <==> !exists j :: 0 <= j < |p.cost| && p.lower[j] > p.upper[j]
    ensures FlagsFit(parts) <==>
            (parts.integrality.Some? ==>
               |p.integrality| == |p.cost| && forall j :: 0 <= j < |p.cost| ==> p.integrality[j] in {0, 1})
  {
    forall j | 0 <= j < |p.cost|
      ensures NumberOf(parts.lower.items[j]) == p.lower[j] && NumberOf(parts.upper.items[j]) == p.upper[j]
    {
    }
    if parts.integrality.Some? {
      forall j | 0 <= j < |p.integrality|
        ensures IsFlag(parts.integrality.value.items[j]) <==> p.integrality[j] in {0, 1}
      {
      }
    }
  }

  /** JSON values that denote a program are rejected with the very error of that program. */
  lemma {:induction false} ErrorsAgree(parts: Parts, p: Linear.Program)
    requires Denotes(parts, p)
    ensures PartsError(parts) == ProgramError(p, parts.integrality.Some?)
  {
    if 1 <= |p.cost| <= 32 {
      ShapesAgree(parts, p);
      if ShapeFits(parts) {
        NumbersAgree(parts, p);
        BoundsAgree(parts, p);
      }
    }
  }

  ghost predicate Acceptable(values: Values, mixed: bool) {
    exists p :: DenoteProgram(values, mixed, p)
  }

  /** The inputs are accepted exactly when they denote an acceptable program. */
  lemma {:induction false} InputsExact(values: Values, mixed: bool)
    ensures InputsError(values, mixed).None? <==> Acceptable(values, mixed)
  {
    if InputsError(values, mixed).None? {
      var parts := PartsOf(values, mixed);
      AcceptedDenotes(parts);
      assert DenoteProgram(values, mixed, ProgramOf(parts));
    }
    if p :| DenoteProgram(values, mixed, p) {
      DenotedIsAccepted(PartsOf(values, mixed), p);
    }
  }
}
