/** `_dimensions` of core/scientific_validation.py and the covariance it is for.

    A dimension is the vector of exponents over `rank` base dimensions (halves
    arise from `sqrt`). The checker compares only dimensionalities, so the scale
    factor that a unit also carries plays no part here. */
module Dimensions {
  import opened Wrappers
  import opened ScientificIr
  import opened ExpressionCheck

  type Dimension = seq<real>

  datatype DimensionError = DimensionMismatch | TranscendentalInputHasUnits

  function Dimensionless(rank: nat): Dimension {
    seq(rank, _ => 0.0)
  }

  function Plus(a: Dimension, b: Dimension): Dimension
    requires |a| == |b|
  {
    seq(|a|, i requires 0 <= i < |a| => a[i] + b[i])
  }

  function Times(k: real, a: Dimension): Dimension {
    seq(|a|, i requires 0 <= i < |a| => k * a[i])
  }

  function Minus(a: Dimension, b: Dimension): Dimension
    requires |a| == |b|
  {
    Plus(a, Times(-1.0, b))
  }

  ghost predicate ValidDimensions(dims: map<string, Dimension>, rank: nat) {
    forall name :: name in dims ==> |dims[name]| == rank
  }

  /** The inferred dimension, or the first error in argument order. */
  function Infer(e: Expression, dims: map<string, Dimension>, rank: nat): (r: Result<Dimension, DimensionError>)
    requires ValidDimensions(dims, rank) && WellFormed(e, dims.Keys)
    ensures r.Success? ==> |r.value| == rank
  {
    match e.kind
    case NumberKind | RationalKind => Success(Dimensionless(rank))
    case SymbolKind => Success(dims[e.symbol.value])
    case Add | Subtract =>
      var left :- Infer(e.args[0], dims, rank);
      var right :- Infer(e.args[1], dims, rank);
      if left != right then Failure(DimensionMismatch) else Success(left)
    case Multiply =>
      var left :- Infer(e.args[0], dims, rank);
      var right :- Infer(e.args[1], dims, rank);
      Success(Plus(left, right))
    case Divide =>
      var left :- Infer(e.args[0], dims, rank);
      var right :- Infer(e.args[1], dims, rank);
      Success(Minus(left, right))
    case Power =>
      var base :- Infer(e.args[0], dims, rank);
      var _ :- Infer(e.args[1], dims, rank);
      Success(Times(e.args[1].value.value.i as real, base))
    case Sqrt =>
      var inner :- Infer(e.args[0], dims, rank);
      Success(Times(0.5, inner))
    case Sin | Cos | Exp | Log =>
      var inner :- Infer(e.args[0], dims, rank);
      if inner != Dimensionless(rank) then Failure(TranscendentalInputHasUnits) else Success(Dimensionless(rank))
    case Negate => Infer(e.args[0], dims, rank)
  }

  // ------------------------------------------------------ what has a dimension

  ghost predicate IsZero(d: Dimension, rank: nat) {
    |d| == rank && forall i :: 0 <= i < rank ==> d[i] == 0.0
  }

  ghost predicate AddUp(d: Dimension, a: Dimension, b: Dimension) {
    |d| == |a| == |b| && forall i :: 0 <= i < |d| ==> d[i] == a[i] + b[i]
  }

  ghost predicate IsMultiple(d: Dimension, k: real, a: Dimension) {
    |d| == |a| && forall i :: 0 <= i < |d| ==> d[i] == k * a[i]
  }

  ghost predicate IsSum(k: Kind) {
    k.Add? || k.Subtract?
  }

  ghost predicate IsTranscendental(k: Kind) {
    k.Sin? || k.Cos? || k.Exp? || k.Log?
  }

  /** The judgement, term by term: the sides of a sum have one dimension, a product has
      the sum of its factors' exponents, what divides takes its exponents away, a power
      multiplies them by its exponent, a root halves them, and a transcendental has and
      needs none. */
  ghost predicate HasDimension(e: Expression, dims: map<string, Dimension>, rank: nat, d: Dimension)
    requires ValidDimensions(dims, rank) && WellFormed(e, dims.Keys)
  {
    if e.kind.NumberKind? || e.kind.RationalKind? then IsZero(d, rank)
    else if e.kind.SymbolKind? then d == dims[e.symbol.value]
    else if IsSum(e.kind) then HasDimension(e.args[0], dims, rank, d) && HasDimension(e.args[1], dims, rank, d)
    else if e.kind.Multiply? then
      exists a, b :: HasDimension(e.args[0], dims, rank, a) && HasDimension(e.args[1], dims, rank, b) && AddUp(d, a, b)
    else if e.kind.Divide? then
      exists a, b :: HasDimension(e.args[0], dims, rank, a) && HasDimension(e.args[1], dims, rank, b) && AddUp(a, d, b)
    else if e.kind.Power? then
      exists a :: HasDimension(e.args[0], dims, rank, a) && IsMultiple(d, e.args[1].value.value.i as real, a)
    else if e.kind.Sqrt? then exists a :: HasDimension(e.args[0], dims, rank, a) && AddUp(a, d, d)
    else if IsTranscendental(e.kind) then IsZero(d, rank) && HasDimension(e.args[0], dims, rank, d)
    else HasDimension(e.args[0], dims, rank, d)
  }

  /** The first thing wrong, arguments from left to right and then the term itself. */
  ghost predicate LacksDimension(e: Expression, dims: map<string, Dimension>, rank: nat, error: DimensionError)
    requires ValidDimensions(dims, rank) && WellFormed(e, dims.Keys)
  {
    || (|e.args| > 0 && LacksDimension(e.args[0], dims, rank, error))
    || (|e.args| == 2 && (exists a :: HasDimension(e.args[0], dims, rank, a)) && LacksDimension(e.args[1], dims, rank, error))
    || (error == DimensionMismatch && IsSum(e.kind)
        && exists a, b :: HasDimension(e.args[0], dims, rank, a) && HasDimension(e.args[1], dims, rank, b) && a != b)
    || (error == TranscendentalInputHasUnits && IsTranscendental(e.kind)
        && exists a :: HasDimension(e.args[0], dims, rank, a) && !IsZero(a, rank))
  }

  ghost predicate Judged(e: Expression, dims: map<string, Dimension>, rank: nat)
    requires ValidDimensions(dims, rank) && WellFormed(e, dims.Keys)
  {
    forall d :: Infer(e, dims, rank) == Success(d) <==> HasDimension(e, dims, rank, d)
  }

  /** A checked term whose arguments are judged right. */
  ghost predicate ArgumentsJudged(e: Expression, dims: map<string, Dimension>, rank: nat) {
    && ValidDimensions(dims, rank) && WellFormed(e, dims.Keys)
    && forall i :: 0 <= i < |e.args| ==> Judged(e.args[i], dims, rank)
  }

  lemma {:induction false} LeafJudged(e: Expression, dims: map<string, Dimension>, rank: nat, d: Dimension)
    requires ArgumentsJudged(e, dims, rank) && |e.args| == 0
    ensures Infer(e, dims, rank) == Success(d) <==> HasDimension(e, dims, rank, d)
  {
    assert IsZero(d, rank) <==> d == Dimensionless(rank);
  }

  lemma {:induction false} SumJudged(e: Expression, dims: map<string, Dimension>, rank: nat, d: Dimension)
    requires ArgumentsJudged(e, dims, rank) && IsSum(e.kind)
    ensures Infer(e, dims, rank) == Success(d) <==> HasDimension(e, dims, rank, d)
  {
    assert Judged(e.args[0], dims, rank) && Judged(e.args[1], dims, rank);
  }

  lemma {:induction false} PlusAddsUp(d: Dimension, a: Dimension, b: Dimension)
    requires |d| == |a| == |b|
    ensures d == Plus(a, b) <==> AddUp(d, a, b)
    ensures d == Minus(a, b) <==> AddUp(a, d, b)
  {
  }

  lemma {:induction false} TimesMultiplies(d: Dimension, k: real, a: Dimension)
    requires |d| == |a|
    ensures d == Times(k, a) <==> IsMultiple(d, k, a)
  {
    forall i | 0 <= i < |a|
      ensures Times(k, a)[i] == k * a[i]
    {
    }
    if IsMultiple(d, k, a) {
      forall i | 0 <= i < |a|
        ensures d[i] == Times(k, a)[i]
      {
      }
    }
  }

  lemma {:induction false} HalfDoubles(d: Dimension, a: Dimension)
    requires |d| == |a|
    ensures d == Times(0.5, a) <==> AddUp(a, d, d)
  {
  }

  function Combined(k: Kind, a: Dimension, b: Dimension): Dimension
    requires |a| == |b|
  {
    if k.Multiply? then Plus(a, b) else Minus(a, b)
  }

  lemma {:induction false} FactorsInfer(e: Expression, dims: map<string, Dimension>, rank: nat)
    requires ValidDimensions(dims, rank) && WellFormed(e, dims.Keys) && (e.kind.Multiply? || e.kind.Divide?)
    ensures var x, y := Infer(e.args[0], dims, rank), Infer(e.args[1], dims, rank);
            Infer(e, dims, rank) ==
              if x.Failure? then x else if y.Failure? then y else Success(Combined(e.kind, x.value, y.value))
  {
  }

  lemma {:induction false} FactorsHave(e: Expression, dims: map<string, Dimension>, rank: nat, d: Dimension,
                                       a: Dimension, b: Dimension)
    requires ValidDimensions(dims, rank) && WellFormed(e, dims.Keys) && (e.kind.Multiply? || e.kind.Divide?)
    requires HasDimension(e.args[0], dims, rank, a) && HasDimension(e.args[1], dims, rank, b)
    requires |a| == |b| && d == Combined(e.kind, a, b)
    ensures HasDimension(e, dims, rank, d)
  {
    PlusAddsUp(d, a, b);
  }

  lemma {:induction false} HadByFactors(e: Expression, dims: map<string, Dimension>, rank: nat, d: Dimension)
    returns (a: Dimension, b: Dimension)
    requires ValidDimensions(dims, rank) && WellFormed(e, dims.Keys) && (e.kind.Multiply? || e.kind.Divide?)
    requires HasDimension(e, dims, rank, d)
    ensures HasDimension(e.args[0], dims, rank, a) && HasDimension(e.args[1], dims, rank, b)
    ensures |a| == |b| && d == Combined(e.kind, a, b)
  {
    a, b :| HasDimension(e.args[0], dims, rank, a) && HasDimension(e.args[1], dims, rank, b)
            && if e.kind.Multiply? then AddUp(d, a, b) else AddUp(a, d, b);
    PlusAddsUp(d, a, b);
  }

  lemma {:induction false} ProductJudged(e: Expression, dims: map<string, Dimension>, rank: nat, d: Dimension)
    requires ArgumentsJudged(e, dims, rank) && (e.kind.Multiply? || e.kind.Divide?)
    ensures Infer(e, dims, rank) == Success(d) <==> HasDimension(e, dims, rank, d)
  {
    var x, y := Infer(e.args[0], dims, rank), Infer(e.args[1], dims, rank);
    assert Judged(e.args[0], dims, rank) && Judged(e.args[1], dims, rank);
    FactorsInfer(e, dims, rank);
    if Infer(e, dims, rank) == Success(d) {
      FactorsHave(e, dims, rank, d, x.value, y.value);
    }
    if HasDimension(e, dims, rank, d) {
      var a, b := HadByFactors(e, dims, rank, d);
    }
  }

  /** The exponent is a number and has a dimension of its own. */
  lemma {:induction false} PowerInfers(e: Expression, dims: map<string, Dimension>, rank: nat)
    requires ValidDimensions(dims, rank) && WellFormed(e, dims.Keys) && e.kind.Power?
    ensures var r := Infer(e.args[0], dims, rank);
            Infer(e, dims, rank) == if r.Success? then Success(Times(e.args[1].value.value.i as real, r.value)) else r
  {
    assert Infer(e.args[1], dims, rank) == Success(Dimensionless(rank));
  }

  lemma {:induction false} PowerJudged(e: Expression, dims: map<string, Dimension>, rank: nat, d: Dimension)
    requires ArgumentsJudged(e, dims, rank) && e.kind.Power?
    ensures Infer(e, dims, rank) == Success(d) <==> HasDimension(e, dims, rank, d)
  {
    var r, k := Infer(e.args[0], dims, rank), e.args[1].value.value.i as real;
    assert Judged(e.args[0], dims, rank);
    PowerInfers(e, dims, rank);
    if Infer(e, dims, rank) == Success(d) {
      TimesMultiplies(d, k, r.value);
      assert HasDimension(e.args[0], dims, rank, r.value) && IsMultiple(d, k, r.value);
    }
    if HasDimension(e, dims, rank, d) {
      var a :| HasDimension(e.args[0], dims, rank, a) && IsMultiple(d, k, a);
      TimesMultiplies(d, k, a);
      assert Infer(e.args[0], dims, rank) == Success(a);
    }
  }

  lemma {:induction false} RootJudged(e: Expression, dims: map<string, Dimension>, rank: nat, d: Dimension)
    requires ArgumentsJudged(e, dims, rank) && e.kind.Sqrt?
    ensures Infer(e, dims, rank) == Success(d) <==> HasDimension(e, dims, rank, d)
  {
    var r := Infer(e.args[0], dims, rank);
    assert Judged(e.args[0], dims, rank);
    if r.Success? && |d| == rank {
      assert HasDimension(e.args[0], dims, rank, r.value);
      HalfDoubles(d, r.value);
    }
  }

  lemma {:induction false} UnaryJudged(e: Expression, dims: map<string, Dimension>, rank: nat, d: Dimension)
    requires ArgumentsJudged(e, dims, rank) && |e.args| == 1 && !e.kind.Sqrt?
    ensures Infer(e, dims, rank) == Success(d) <==> HasDimension(e, dims, rank, d)
  {
    assert Judged(e.args[0], dims, rank);
    assert IsZero(d, rank) <==> d == Dimensionless(rank);
  }

  /** Inference finds exactly the dimension that the judgement gives. */
  lemma {:induction false} InferExact(e: Expression, dims: map<string, Dimension>, rank: nat, d: Dimension)
    requires ValidDimensions(dims, rank) && WellFormed(e, dims.Keys)
    ensures Infer(e, dims, rank) == Success(d) <==> HasDimension(e, dims, rank, d)
    decreases e
  {
    forall i, a | 0 <= i < |e.args|
      ensures Infer(e.args[i], dims, rank) == Success(a) <==> HasDimension(e.args[i], dims, rank, a)
    {
      InferExact(e.args[i], dims, rank, a);
    }
    if |e.args| == 0 {
      LeafJudged(e, dims, rank, d);
    } else if e.kind.Power? {
      PowerJudged(e, dims, rank, d);
    } else if e.kind.Sqrt? {
      RootJudged(e, dims, rank, d);
    } else if |e.args| == 1 {
      UnaryJudged(e, dims, rank, d);
    } else if IsSum(e.kind) {
      SumJudged(e, dims, rank, d);
    } else {
      ProductJudged(e, dims, rank, d);
    }
  }

  lemma {:induction false} AllJudged(e: Expression, dims: map<string, Dimension>, rank: nat)
    requires ValidDimensions(dims, rank) && WellFormed(e, dims.Keys)
    ensures Judged(e, dims, rank)
  {
    forall d
      ensures Infer(e, dims, rank) == Success(d) <==> HasDimension(e, dims, rank, d)
    {
      InferExact(e, dims, rank, d);
    }
  }

  /** The argument fails exactly as the judgement says. */
  ghost predicate FailsAsJudged(e: Expression, dims: map<string, Dimension>, rank: nat, error: DimensionError)
    requires ValidDimensions(dims, rank) && WellFormed(e, dims.Keys)
  {
    Judged(e, dims, rank) && (Infer(e, dims, rank) == Failure(error) <==> LacksDimension(e, dims, rank, error))
  }

  lemma {:induction false} UnaryFails(e: Expression, dims: map<string, Dimension>, rank: nat, error: DimensionError)
    requires ValidDimensions(dims, rank) && WellFormed(e, dims.Keys) && |e.args| == 1
    requires FailsAsJudged(e.args[0], dims, rank, error)
    ensures Infer(e, dims, rank) == Failure(error) <==> LacksDimension(e, dims, rank, error)
  {
    var x := Infer(e.args[0], dims, rank);
    if x.Success? {
      assert HasDimension(e.args[0], dims, rank, x.value);
      assert IsZero(x.value, rank) <==> x.value == Dimensionless(rank);
    }
  }

  lemma {:induction false} BinaryFails(e: Expression, dims: map<string, Dimension>, rank: nat, error: DimensionError)
    requires ValidDimensions(dims, rank) && WellFormed(e, dims.Keys) && |e.args| == 2
    requires FailsAsJudged(e.args[0], dims, rank, error) && FailsAsJudged(e.args[1], dims, rank, error)
    ensures Infer(e, dims, rank) == Failure(error) <==> LacksDimension(e, dims, rank, error)
  {
    var x, y := Infer(e.args[0], dims, rank), Infer(e.args[1], dims, rank);
    if x.Success? {
      assert HasDimension(e.args[0], dims, rank, x.value);
      if y.Success? {
        assert HasDimension(e.args[1], dims, rank, y.value);
      }
    }
  }

  /** Inference fails exactly with the first thing that is wrong. */
  lemma {:induction false} InferFailsExactly(e: Expression, dims: map<string, Dimension>, rank: nat,
                                             error: DimensionError)
    requires ValidDimensions(dims, rank) && WellFormed(e, dims.Keys)
    ensures Infer(e, dims, rank) == Failure(error) <==> LacksDimension(e, dims, rank, error)
    decreases e
  {
    forall i | 0 <= i < |e.args|
      ensures FailsAsJudged(e.args[i], dims, rank, error)
    {
      AllJudged(e.args[i], dims, rank);
      InferFailsExactly(e.args[i], dims, rank, error);
    }
    if |e.args| == 1 {
      UnaryFails(e, dims, rank, error);
    } else if |e.args| == 2 {
      BinaryFails(e, dims, rank, error);
    }
  }

  // --------------------------------------------------------------- evaluation

  /** The value of an expression, if it has one. */
  datatype Partial = Undefined | Defined(value: real)

  /** The elementary functions stay abstract; each may be partial. */
  datatype Analysis = Analysis(
    sin: real -> Partial, cos: real -> Partial, exp: real -> Partial,
    log: real -> Partial, sqrt: real -> Partial)

  /** `sqrt` is the non-negative root, defined exactly on the non-negative reals. */
  ghost predicate SquareRoot(f: real -> Partial) {
    forall x :: (f(x).Defined? <==> x >= 0.0) && (f(x).Defined? ==> f(x).value >= 0.0 && f(x).value * f(x).value == x)
  }

  function NatPow(x: real, k: nat): real {
    if k == 0 then 1.0 else x * NatPow(x, k - 1)
  }

  lemma {:induction false} NatPowNonzero(x: real, k: nat)
    requires x != 0.0
    ensures NatPow(x, k) != 0.0
  {
    if k > 0 {
      NatPowNonzero(x, k - 1);
    }
  }

  function IntPow(x: real, k: int): Partial {
    if k >= 0 then Defined(NatPow(x, k))
    else if x == 0.0 then Undefined
    else
      NatPowNonzero(x, -k);
      Defined(1.0 / NatPow(x, -k))
  }

  // Undefined operands make a result undefined.

  function Sum(x: Partial, y: Partial): Partial {
    if x.Undefined? || y.Undefined? then Undefined else Defined(x.value + y.value)
  }

  function Difference(x: Partial, y: Partial): Partial {
    if x.Undefined? || y.Undefined? then Undefined else Defined(x.value - y.value)
  }

  function Product(x: Partial, y: Partial): Partial {
    if x.Undefined? || y.Undefined? then Undefined else Defined(x.value * y.value)
  }

  function Quotient(x: Partial, y: Partial): Partial {
    if x.Undefined? || y.Undefined? || y.value == 0.0 then Undefined else Defined(x.value / y.value)
  }

  function Raise(x: Partial, k: int): Partial {
    if x.Undefined? then Undefined else IntPow(x.value, k)
  }

  function Opposite(x: Partial): Partial {
    if x.Undefined? then Undefined else Defined(-x.value)
  }

  function Apply(f: real -> Partial, x: Partial): Partial {
    if x.Undefined? then Undefined else f(x.value)
  }

  function Eval(e: Expression, env: map<string, real>, ops: Analysis): Partial
    requires WellFormed(e, env.Keys)
  {
    match e.kind
    case NumberKind => if e.value.value.NonFinite? then Undefined else Defined(e.value.value.AsReal())
    case RationalKind => Defined(e.numerator.value as real / e.denominator.value as real)
    case SymbolKind => Defined(env[e.symbol.value])
    case Add => Sum(Eval(e.args[0], env, ops), Eval(e.args[1], env, ops))
    case Subtract => Difference(Eval(e.args[0], env, ops), Eval(e.args[1], env, ops))
    case Multiply => Product(Eval(e.args[0], env, ops), Eval(e.args[1], env, ops))
    case Divide => Quotient(Eval(e.args[0], env, ops), Eval(e.args[1], env, ops))
    case Power => Raise(Eval(e.args[0], env, ops), e.args[1].value.value.i)
    case Sqrt => Apply(ops.sqrt, Eval(e.args[0], env, ops))
    case Sin => Apply(ops.sin, Eval(e.args[0], env, ops))
    case Cos => Apply(ops.cos, Eval(e.args[0], env, ops))
    case Exp => Apply(ops.exp, Eval(e.args[0], env, ops))
    case Log => Apply(ops.log, Eval(e.args[0], env, ops))
    case Negate => Opposite(Eval(e.args[0], env, ops))
  }

  // ---------------------------------------------------------------- rescaling

  /** A change of base units: a positive homomorphism from dimensions to factors. */
  ghost predicate IsRescaling(s: Dimension -> real, rank: nat) {
    && s(Dimensionless(rank)) == 1.0
    && (forall d :: |d| == rank ==> s(d) > 0.0)
    && (forall a, b {:trigger Plus(a, b)} :: |a| == rank && |b| == rank ==> s(Plus(a, b)) == s(a) * s(b))
  }

  /** Every symbol re-expressed by the factor of its own dimension. */
  ghost function Rescale(env: map<string, real>, dims: map<string, Dimension>,
                         s: Dimension -> real): (r: map<string, real>)
    requires env.Keys == dims.Keys
    ensures r.Keys == env.Keys
  {
    map name | name in env :: env[name] * s(dims[name])
  }

  function ScaleBy(x: Partial, factor: real): Partial {
    if x.Undefined? then Undefined else Defined(x.value * factor)
  }

  lemma {:induction false} Shuffle(a: real, b: real, c: real, d: real)
    ensures (a * b) * (c * d) == (a * c) * (b * d)
  {
  }

  lemma {:induction false} NatPowProduct(x: real, y: real, k: nat)
    ensures NatPow(x * y, k) == NatPow(x, k) * NatPow(y, k)
  {
    if k > 0 {
      NatPowProduct(x, y, k - 1);
      Shuffle(x, y, NatPow(x, k - 1), NatPow(y, k - 1));
    }
  }

  lemma {:induction false} FractionScales(x: real, y: real, k: real, l: real)
    requires y != 0.0 && l > 0.0
    ensures y * l != 0.0 && (x * k) / (y * l) == (x / y) * (k / l)
  {
    var q := x / y;
    var f := k / l;
    assert q * y == x && f * l == k;
    Shuffle(q, f, y, l);
    assert (q * f) * (y * l) == x * k;
  }

  lemma {:induction false} InverseFactor(s: Dimension -> real, rank: nat, d: Dimension)
    requires IsRescaling(s, rank) && |d| == rank
    ensures s(Times(-1.0, d)) == 1.0 / s(d)
  {
    assert Plus(d, Times(-1.0, d)) == Dimensionless(rank);
    assert s(d) * s(Times(-1.0, d)) == 1.0;
  }

  lemma {:induction false} MinusFactor(s: Dimension -> real, rank: nat, a: Dimension, b: Dimension)
    requires IsRescaling(s, rank) && |a| == |b| == rank
    ensures s(Minus(a, b)) == s(a) / s(b)
  {
    InverseFactor(s, rank, b);
  }

  lemma {:induction false} TimesStep(k: nat, d: Dimension)
    requires k > 0
    ensures Times(k as real, d) == Plus(d, Times((k - 1) as real, d))
  {
    var left, right := Times(k as real, d), Plus(d, Times((k - 1) as real, d));
    assert k as real == 1.0 + (k - 1) as real;
    forall i | 0 <= i < |d|
      ensures left[i] == right[i]
    {
      assert right[i] == d[i] + (k - 1) as real * d[i];
    }
    assert left == right;
  }

  lemma {:induction false} NatFactor(s: Dimension -> real, rank: nat, d: Dimension, k: nat)
    requires IsRescaling(s, rank) && |d| == rank
    ensures s(Times(k as real, d)) == NatPow(s(d), k)
  {
    if k == 0 {
      assert Times(0.0, d) == Dimensionless(rank);
    } else {
      NatFactor(s, rank, d, k - 1);
      TimesStep(k, d);
    }
  }

  lemma {:induction false} SignScales(x: real, k: real)
    requires k > 0.0
    ensures x * k >= 0.0 <==> x >= 0.0
    ensures x * k == 0.0 <==> x == 0.0
  {
  }

  lemma {:induction false} NegativeTimes(k: int, d: Dimension)
    ensures Times(k as real, d) == Times(-1.0, Times((-k) as real, d))
  {
    var left, right := Times(k as real, d), Times(-1.0, Times((-k) as real, d));
    assert k as real == -((-k) as real);
    forall i | 0 <= i < |d|
      ensures left[i] == right[i]
    {
      assert right[i] == -1.0 * ((-k) as real * d[i]);
    }
    assert left == right;
  }

  /** The factor of a power is the power of the factor. */
  lemma {:induction false} PowerFactor(s: Dimension -> real, rank: nat, d: Dimension, k: int)
    requires IsRescaling(s, rank) && |d| == rank
    ensures IntPow(s(d), k) == Defined(s(Times(k as real, d)))
  {
    if k >= 0 {
      NatFactor(s, rank, d, k);
    } else {
      NatFactor(s, rank, d, -k);
      NegativeTimes(k, d);
      InverseFactor(s, rank, Times((-k) as real, d));
    }
  }

  lemma {:induction false} HalfFactor(s: Dimension -> real, rank: nat, d: Dimension)
    requires IsRescaling(s, rank) && |d| == rank
    ensures s(Times(0.5, d)) * s(Times(0.5, d)) == s(d)
  {
    assert Plus(Times(0.5, d), Times(0.5, d)) == d;
  }

  lemma {:induction false} NatPowPositive(x: real, k: nat)
    requires x > 0.0
    ensures NatPow(x, k) > 0.0
  {
    if k > 0 {
      NatPowPositive(x, k - 1);
    }
  }

  lemma {:induction false} LargerSquare(a: real, b: real)
    requires 0.0 <= b < a
    ensures b * b < a * a
  {
    SignScales(a - b, a + b);
    assert a * a - b * b == (a - b) * (a + b);
  }

  lemma {:induction false} EqualSquares(a: real, b: real)
    requires a >= 0.0 && b >= 0.0 && a * a == b * b
    ensures a == b
  {
    if a < b {
      LargerSquare(b, a);
    } else if b < a {
      LargerSquare(a, b);
    }
  }

  // One lemma an operation: rescaled operands x', y' give the rescaled result.

  lemma {:induction false} SumScales(x: Partial, y: Partial, x': Partial, y': Partial, k: real)
    requires x' == ScaleBy(x, k) && y' == ScaleBy(y, k)
    ensures Sum(x', y') == ScaleBy(Sum(x, y), k)
    ensures Difference(x', y') == ScaleBy(Difference(x, y), k)
    ensures Opposite(x') == ScaleBy(Opposite(x), k)
  {
    if x.Defined? {
      assert -(x.value * k) == (-x.value) * k;
      if y.Defined? {
        assert x.value * k + y.value * k == (x.value + y.value) * k;
        assert x.value * k - y.value * k == (x.value - y.value) * k;
      }
    }
  }

  lemma {:induction false} ProductScales(x: Partial, y: Partial, x': Partial, y': Partial, k: real, l: real, kl: real)
    requires x' == ScaleBy(x, k) && y' == ScaleBy(y, l) && kl == k * l
    ensures Product(x', y') == ScaleBy(Product(x, y), kl)
  {
    if x.Defined? && y.Defined? {
      Shuffle(x.value, k, y.value, l);
    }
  }

  lemma {:induction false} QuotientScales(x: Partial, y: Partial, x': Partial, y': Partial, k: real, l: real, kl: real)
    requires x' == ScaleBy(x, k) && y' == ScaleBy(y, l) && l > 0.0 && kl == k / l
    ensures Quotient(x', y') == ScaleBy(Quotient(x, y), kl)
  {
    if x.Defined? && y.Defined? {
      SignScales(y.value, l);
      if y.value != 0.0 {
        FractionScales(x.value, y.value, k, l);
      }
    }
  }

  lemma {:induction false} Reciprocal(p: real, q: real, pq: real)
    requires p != 0.0 && q > 0.0 && pq == p * q
    ensures pq != 0.0 && 1.0 / pq == (1.0 / p) * (1.0 / q)
  {
    FractionScales(1.0, p, 1.0, q);
  }

  lemma {:induction false} IntPowScales(v: real, v': real, k: int, u: real, w: real)
    requires v' == v * u && u > 0.0 && IntPow(u, k) == Defined(w)
    ensures IntPow(v', k) == ScaleBy(IntPow(v, k), w)
  {
    SignScales(v, u);
    if k >= 0 {
      NatPowProduct(v, u, k);
    } else if v != 0.0 {
      NatPowProduct(v, u, -k);
      NatPowNonzero(v, -k);
      NatPowPositive(u, -k);
      Reciprocal(NatPow(v, -k), NatPow(u, -k), NatPow(v', -k));
    }
  }

  lemma {:induction false} PowerScales(x: Partial, x': Partial, k: int, u: real, w: real)
    requires x' == ScaleBy(x, u) && u > 0.0 && IntPow(u, k) == Defined(w)
    ensures Raise(x', k) == ScaleBy(Raise(x, k), w)
  {
    if x.Defined? {
      IntPowScales(x.value, x'.value, k, u, w);
    }
  }

  lemma {:induction false} RootScales(f: real -> Partial, x: Partial, x': Partial, u: real, half: real)
    requires x' == ScaleBy(x, u) && SquareRoot(f) && half > 0.0 && half * half == u && u > 0.0
    ensures Apply(f, x') == ScaleBy(Apply(f, x), half)
  {
    if x.Defined? {
      SignScales(x.value, u);
      var root, scaled := f(x.value), f(x'.value);
      if root.Defined? {
        var r := root.value * half;
        Shuffle(root.value, half, root.value, half);
        assert r * r == x'.value;
        SignScales(root.value, half);
        EqualSquares(r, scaled.value);
      }
    }
  }

  lemma {:induction false} ApplyUnscaled(f: real -> Partial, x: Partial, x': Partial, u: real)
    requires u == 1.0 && x' == ScaleBy(x, u)
    ensures Apply(f, x') == ScaleBy(Apply(f, x), u)
  {
    assert ScaleBy(x, 1.0) == x;
    assert ScaleBy(Apply(f, x), 1.0) == Apply(f, x);
  }

  /** The hypotheses of `Covariance` for one expression. */
  ghost predicate Inferred(e: Expression, dims: map<string, Dimension>, rank: nat, env: map<string, real>) {
    && ValidDimensions(dims, rank) && env.Keys == dims.Keys && WellFormed(e, dims.Keys)
    && Infer(e, dims, rank).Success?
  }

  /** ... and its conclusion. */
  ghost predicate Scales(e: Expression, dims: map<string, Dimension>, rank: nat, env: map<string, real>,
                         s: Dimension -> real, ops: Analysis)
    requires Inferred(e, dims, rank, env)
  {
    Eval(e, Rescale(env, dims, s), ops) == ScaleBy(Eval(e, env, ops), s(Infer(e, dims, rank).value))
  }

  lemma {:induction false} UnaryCovariance(e: Expression, dims: map<string, Dimension>, rank: nat,
                                           env: map<string, real>, s: Dimension -> real, ops: Analysis)
    requires Inferred(e, dims, rank, env) && |e.args| == 1
    requires IsRescaling(s, rank) && SquareRoot(ops.sqrt) && Scales(e.args[0], dims, rank, env, s, ops)
    ensures Scales(e, dims, rank, env, s, ops)
  {
    var x, a := Eval(e.args[0], env, ops), Infer(e.args[0], dims, rank).value;
    var x', u := Eval(e.args[0], Rescale(env, dims, s), ops), s(a);
    match e.kind
    case Sqrt =>
      HalfFactor(s, rank, a);
      RootScales(ops.sqrt, x, x', u, s(Times(0.5, a)));
    case Negate => SumScales(x, x, x', x', u);
    case Sin => ApplyUnscaled(ops.sin, x, x', u);
    case Cos => ApplyUnscaled(ops.cos, x, x', u);
    case Exp => ApplyUnscaled(ops.exp, x, x', u);
    case Log => ApplyUnscaled(ops.log, x, x', u);
  }

  lemma {:induction false} SumCovariance(e: Expression, dims: map<string, Dimension>, rank: nat, env: map<string, real>,
                                         s: Dimension -> real, ops: Analysis)
    requires Inferred(e, dims, rank, env) && (e.kind.Add? || e.kind.Subtract?)
    requires Scales(e.args[0], dims, rank, env, s, ops) && Scales(e.args[1], dims, rank, env, s, ops)
    ensures Scales(e, dims, rank, env, s, ops)
  {
    var env' := Rescale(env, dims, s);
    SumScales(Eval(e.args[0], env, ops), Eval(e.args[1], env, ops), Eval(e.args[0], env', ops),
              Eval(e.args[1], env', ops), s(Infer(e.args[0], dims, rank).value));
  }

  lemma {:induction false} ProductCovariance(e: Expression, dims: map<string, Dimension>, rank: nat,
                                             env: map<string, real>, s: Dimension -> real, ops: Analysis)
    requires Inferred(e, dims, rank, env) && (e.kind.Multiply? || e.kind.Divide?) && IsRescaling(s, rank)
    requires Scales(e.args[0], dims, rank, env, s, ops) && Scales(e.args[1], dims, rank, env, s, ops)
    ensures Scales(e, dims, rank, env, s, ops)
  {
    var env' := Rescale(env, dims, s);
    var x, x', a := Eval(e.args[0], env, ops), Eval(e.args[0], env', ops), Infer(e.args[0], dims, rank).value;
    var y, y', b := Eval(e.args[1], env, ops), Eval(e.args[1], env', ops), Infer(e.args[1], dims, rank).value;
    if e.kind.Multiply? {
      ProductScales(x, y, x', y', s(a), s(b), s(Plus(a, b)));
    } else {
      MinusFactor(s, rank, a, b);
      QuotientScales(x, y, x', y', s(a), s(b), s(Minus(a, b)));
    }
  }

  lemma {:induction false} PowerCovariance(e: Expression, dims: map<string, Dimension>, rank: nat,
                                           env: map<string, real>, s: Dimension -> real, ops: Analysis)
    requires Inferred(e, dims, rank, env) && e.kind.Power? && IsRescaling(s, rank)
    requires Scales(e.args[0], dims, rank, env, s, ops)
    ensures Scales(e, dims, rank, env, s, ops)
  {
    var a := Infer(e.args[0], dims, rank).value;
    var k := e.args[1].value.value.i;
    PowerFactor(s, rank, a, k);
    PowerScales(Eval(e.args[0], env, ops), Eval(e.args[0], Rescale(env, dims, s), ops), k, s(a), s(Times(k as real, a)));
  }

  lemma {:induction false} LeafCovariance(e: Expression, dims: map<string, Dimension>, rank: nat,
                                          env: map<string, real>, s: Dimension -> real, ops: Analysis)
    requires Inferred(e, dims, rank, env) && |e.args| == 0 && IsRescaling(s, rank)
    ensures Scales(e, dims, rank, env, s, ops)
  {
    if !e.kind.SymbolKind? && Eval(e, env, ops).Defined? {
      var v := Eval(e, env, ops).value;
      assert v * 1.0 == v;
    }
  }

  /** Dimensional soundness: when inference gives the expression dimension `d`,
      every change of base units multiplies its value by the factor of `d`, and
      the rescaled evaluation is defined exactly when the original one is. */
  lemma {:induction false} Covariance(e: Expression, dims: map<string, Dimension>, rank: nat, env: map<string, real>,
                                      s: Dimension -> real, ops: Analysis)
    requires ValidDimensions(dims, rank) && env.Keys == dims.Keys && WellFormed(e, dims.Keys)
    requires IsRescaling(s, rank) && SquareRoot(ops.sqrt)
    requires Infer(e, dims, rank).Success?
    ensures Eval(e, Rescale(env, dims, s), ops) == ScaleBy(Eval(e, env, ops), s(Infer(e, dims, rank).value))
  {
    if |e.args| == 0 {
      LeafCovariance(e, dims, rank, env, s, ops);
    } else {
      Covariance(e.args[0], dims, rank, env, s, ops);
      if |e.args| == 1 {
        UnaryCovariance(e, dims, rank, env, s, ops);
      } else if e.kind.Power? {
        PowerCovariance(e, dims, rank, env, s, ops);
      } else {
        Covariance(e.args[1], dims, rank, env, s, ops);
        if e.kind.Multiply? || e.kind.Divide? {
          ProductCovariance(e, dims, rank, env, s, ops);
        } else {
          SumCovariance(e, dims, rank, env, s, ops);
        }
      }
    }
  }

  // ---------------------------------------------------------------- relations

  predicate Compare(c: Comparison, x: real, y: real) {
    match c
    case Equal => x == y
    case LessEqual => x <= y
    case GreaterEqual => x >= y
  }

  /** Two possibly undefined values compare alike before and after a change of units. */
  ghost predicate SameTruth(c: Comparison, x: Partial, y: Partial, x': Partial, y': Partial) {
    && (x.Defined? <==> x'.Defined?)
    && (y.Defined? <==> y'.Defined?)
    && (x.Defined? && y.Defined? ==> Compare(c, x.value, y.value) == Compare(c, x'.value, y'.value))
  }

  lemma {:induction false} CompareScales(c: Comparison, x: Partial, y: Partial, k: real)
    requires k > 0.0
    ensures SameTruth(c, x, y, ScaleBy(x, k), ScaleBy(y, k))
  {
    if x.Defined? && y.Defined? {
      assert (x.value - y.value) * k == x.value * k - y.value * k;
      SignScales(x.value - y.value, k);
    }
  }

  /** A relation whose sides have one dimension says the same in all base units. */
  lemma {:induction false} RelationInvariant(r: Relation, dims: map<string, Dimension>, rank: nat,
                                             env: map<string, real>, s: Dimension -> real, ops: Analysis)
    requires ValidDimensions(dims, rank) && env.Keys == dims.Keys
    requires WellFormed(r.left, dims.Keys) && WellFormed(r.right, dims.Keys)
    requires IsRescaling(s, rank) && SquareRoot(ops.sqrt)
    requires Infer(r.left, dims, rank).Success? && Infer(r.right, dims, rank) == Infer(r.left, dims, rank)
    ensures SameTruth(r.relation, Eval(r.left, env, ops), Eval(r.right, env, ops),
                      Eval(r.left, Rescale(env, dims, s), ops), Eval(r.right, Rescale(env, dims, s), ops))
  {
    var factor := s(Infer(r.left, dims, rank).value);
    Covariance(r.left, dims, rank, env, s, ops);
    Covariance(r.right, dims, rank, env, s, ops);
    CompareScales(r.relation, Eval(r.left, env, ops), Eval(r.right, env, ops), factor);
  }

  /** The state-equation check: a right-hand side of dimension `state / time` gives
      the rate of change in the new units from the rate in the old ones. */
  lemma {:induction false} RateOfChangeInvariant(right: Expression, state: string, time: string,
                                                 dims: map<string, Dimension>, rank: nat, env: map<string, real>,
                                                 s: Dimension -> real, ops: Analysis)
    requires ValidDimensions(dims, rank) && env.Keys == dims.Keys && WellFormed(right, dims.Keys)
    requires state in dims && time in dims
    requires IsRescaling(s, rank) && SquareRoot(ops.sqrt)
    requires Infer(right, dims, rank) == Success(Minus(dims[state], dims[time]))
    ensures Eval(right, Rescale(env, dims, s), ops) ==
            ScaleBy(Eval(right, env, ops), s(dims[state]) / s(dims[time]))
  {
    Covariance(right, dims, rank, env, s, ops);
    MinusFactor(s, rank, dims[state], dims[time]);
  }

  function SymbolTerm(name: string): Expression {
    Expression(SymbolKind, None, None, None, Some(name), [])
  }

  function SumTerm(x: string, y: string): Expression {
    Expression(Add, None, None, None, None, [SymbolTerm(x), SymbolTerm(y)])
  }

  lemma {:induction false} SumTermIsWellFormed(x: string, y: string, symbols: set<string>)
    requires x in symbols && y in symbols
    ensures WellFormed(SumTerm(x, y), symbols)
    ensures SumTerm(x, y).args[0] == SymbolTerm(x) && SumTerm(x, y).args[1] == SymbolTerm(y)
  {
    assert WellFormed(SymbolTerm(x), symbols) && WellFormed(SymbolTerm(y), symbols);
  }

  lemma {:induction false} SumTermAdds(x: string, y: string, env: map<string, real>, ops: Analysis)
    requires x in env && y in env && WellFormed(SumTerm(x, y), env.Keys)
    ensures Eval(SumTerm(x, y), env, ops) == Defined(env[x] + env[y])
  {
    SumTermIsWellFormed(x, y, env.Keys);
  }

  lemma {:induction false} SumTermMismatch(x: string, y: string, dims: map<string, Dimension>, rank: nat)
    requires ValidDimensions(dims, rank) && x in dims && y in dims && dims[x] != dims[y]
    requires WellFormed(SumTerm(x, y), dims.Keys)
    ensures Infer(SumTerm(x, y), dims, rank) == Failure(DimensionMismatch)
  {
    SumTermIsWellFormed(x, y, dims.Keys);
  }

  /** In base units rescaled by `s` the sum of a one and a zero is the one's factor. */
  lemma {:induction false} SumOfOne(x: string, y: string, one: string, dims: map<string, Dimension>,
                                    s: Dimension -> real, ops: Analysis, env: map<string, real>)
    requires env.Keys == dims.Keys && x in dims && y in dims && x != y && (one == x || one == y)
    requires env[one] == 1.0 && env[if one == x then y else x] == 0.0
    requires WellFormed(SumTerm(x, y), dims.Keys)
    ensures Eval(SumTerm(x, y), env, ops) == Defined(1.0)
    ensures Eval(SumTerm(x, y), Rescale(env, dims, s), ops) == Defined(s(dims[one]))
  {
    SumTermAdds(x, y, env, ops);
    SumTermAdds(x, y, Rescale(env, dims, s), ops);
  }

  /** The equal-dimension rule for sums is needed: inference rejects the sum of two
      symbols of different dimensions, and in base units that rescale them differently
      no factor at all gives every value of the sum from the old one. */
  lemma {:induction false} SumNeedsOneDimension(x: string, y: string, dims: map<string, Dimension>, rank: nat,
                                                s: Dimension -> real, ops: Analysis, factor: real)
    returns (env: map<string, real>)
    requires ValidDimensions(dims, rank) && x in dims && y in dims && s(dims[x]) != s(dims[y])
    ensures WellFormed(SumTerm(x, y), dims.Keys) && Infer(SumTerm(x, y), dims, rank) == Failure(DimensionMismatch)
    ensures env.Keys == dims.Keys
    ensures Eval(SumTerm(x, y), Rescale(env, dims, s), ops) != ScaleBy(Eval(SumTerm(x, y), env, ops), factor)
  {
    var one := if factor == s(dims[x]) then y else x;
    env := map name | name in dims :: if name == one then 1.0 else 0.0;
    SumTermIsWellFormed(x, y, dims.Keys);
    SumTermMismatch(x, y, dims, rank);
    SumOfOne(x, y, one, dims, s, ops, env);
    assert s(dims[one]) != factor;
  }
}
