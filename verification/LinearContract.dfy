/** Bounds and certificate of finite linear programs: core/scientific_linear_contract.py. */
module LinearContract {
  import opened Wrappers

  /** A solution is checked against `matrix * x <= rhs` and `lower <= x <= upper`;
      `integrality` flags the coordinates that must be integers. */
  datatype Program = Program(
    cost: seq<real>, matrix: seq<seq<real>>, rhs: seq<real>, lower: seq<real>, upper: seq<real>, integrality: seq<int>)

  datatype Error =
    | VariableLimit | ShapeInvalid | NumberInvalid | BoundsInvalid | IntegralityInvalid
    | SolutionShapeInvalid

  datatype Diagnostics = Diagnostics(constraintViolation: real, integralityViolation: real, objective: real)

  const MAX_MAGNITUDE: real := 1_000_000_000_000.0
  const MAX_PRODUCT: real := 1_000_000_000_000_000_000_000_000.0

  function Abs(x: real): real {
    if x < 0.0 then -x else x
  }

  predicate Bounded(xs: seq<real>) {
    forall i :: 0 <= i < |xs| ==> Abs(xs[i]) <= MAX_MAGNITUDE
  }

  /** Validation of decoded inputs; the first failing rule is reported. */
  function Validate(p: Program, mixed: bool): Result<Program, Error> {
    var n := |p.cost|;
    if !(1 <= n <= 32) then Failure(VariableLimit)
    else if !(1 <= |p.matrix| <= 64) || |p.rhs| != |p.matrix|
            || (exists i :: 0 <= i < |p.matrix| && |p.matrix[i]| != n)
            || |p.lower| != n || |p.upper| != n then Failure(ShapeInvalid)
    else if !(Bounded(p.cost) && Bounded(p.rhs) && Bounded(p.lower) && Bounded(p.upper)
              && forall i :: 0 <= i < |p.matrix| ==> Bounded(p.matrix[i])) then Failure(NumberInvalid)
    else if exists j :: 0 <= j < n && p.lower[j] > p.upper[j] then Failure(BoundsInvalid)
    else if mixed && (|p.integrality| != n || exists j :: 0 <= j < n && p.integrality[j] !in {0, 1}) then
      Failure(IntegralityInvalid)
    else Success(p)
  }

  /** A number of a program beyond the magnitude that is allowed. */
  ghost predicate TooLarge(xs: seq<real>) {
    exists x :: x in xs && (x < -MAX_MAGNITUDE || x > MAX_MAGNITUDE)
  }

  /** What is wrong with a program. */
  ghost predicate ProgramFault(p: Program, mixed: bool, error: Error) {
    match error
    case VariableLimit => |p.cost| == 0 || |p.cost| > 32
    case ShapeInvalid =>
      || |p.matrix| == 0 || |p.matrix| > 64 || |p.rhs| != |p.matrix| || |p.lower| != |p.cost| || |p.upper| != |p.cost|
      || exists row :: row in p.matrix && |row| != |p.cost|
    case NumberInvalid =>
      || TooLarge(p.cost) || TooLarge(p.rhs) || TooLarge(p.lower) || TooLarge(p.upper)
      || exists row :: row in p.matrix && TooLarge(row)
    case BoundsInvalid => exists j :: 0 <= j < |p.lower| && j < |p.upper| && p.lower[j] > p.upper[j]
    case IntegralityInvalid =>
      mixed && (|p.integrality| != |p.cost| || exists flag :: flag in p.integrality && flag !in {0, 1})
    case SolutionShapeInvalid => false
  }

  lemma {:induction false} UnboundedIsTooLarge(xs: seq<real>)
    ensures Bounded(xs) <==> !TooLarge(xs)
  {
    if !Bounded(xs) {
      var i :| 0 <= i < |xs| && Abs(xs[i]) > MAX_MAGNITUDE;
      assert xs[i] in xs;
    }
  }

  /** The error of a program is a fault that it has. */
  lemma {:induction false} ValidateNamesFault(p: Program, mixed: bool)
    requires Validate(p, mixed).Failure?
    ensures ProgramFault(p, mixed, Validate(p, mixed).error)
  {
    UnboundedIsTooLarge(p.cost);
    UnboundedIsTooLarge(p.rhs);
    UnboundedIsTooLarge(p.lower);
    UnboundedIsTooLarge(p.upper);
    forall i | 0 <= i < |p.matrix|
      ensures p.matrix[i] in p.matrix && (Bounded(p.matrix[i]) <==> !TooLarge(p.matrix[i]))
    {
      UnboundedIsTooLarge(p.matrix[i]);
    }
    forall j | 0 <= j < |p.integrality|
      ensures p.integrality[j] in p.integrality
    {
    }
  }

  // ------------------------------------------------------------- certificate

  /** Inner product over the shorter operand, as `zip` pairs them. */
  function Dot(a: seq<real>, x: seq<real>): real {
    if a == [] || x == [] then 0.0 else a[0] * x[0] + Dot(a[1..], x[1..])
  }

  function Min(a: nat, b: nat): nat {
    if a < b then a else b
  }

  function Residuals(p: Program, x: seq<real>): seq<real> {
    seq(Min(|p.matrix|, |p.rhs|), i requires 0 <= i < Min(|p.matrix|, |p.rhs|) => Dot(p.matrix[i], x) - p.rhs[i])
  }

  function BelowLower(p: Program, x: seq<real>): seq<real> {
    seq(Min(|p.lower|, |x|), j requires 0 <= j < Min(|p.lower|, |x|) => p.lower[j] - x[j])
  }

  function AboveUpper(p: Program, x: seq<real>): seq<real> {
    seq(Min(|p.upper|, |x|), j requires 0 <= j < Min(|p.upper|, |x|) => x[j] - p.upper[j])
  }

  /** `max([0.] + xs)` */
  function MaxWithZero(xs: seq<real>): real {
    if xs == [] then 0.0
    else
      var rest := MaxWithZero(xs[1..]);
      if xs[0] > rest then xs[0] else rest
  }

  function ConstraintViolation(p: Program, x: seq<real>): real {
    MaxWithZero(Residuals(p, x) + BelowLower(p, x) + AboveUpper(p, x))
  }

  /** Python's `round`: to the nearest integer, ties to the even one. */
  function Round(x: real): int {
    var below := x.Floor;
    var part := x - below as real;
    if part < 0.5 then below
    else if part > 0.5 then below + 1
    else if below % 2 == 0 then below
    else below + 1
  }

  function Fractions(flags: seq<int>, x: seq<real>): seq<real> {
    if flags == [] || x == [] then []
    else (if flags[0] != 0 then [Abs(x[0] - Round(x[0]) as real)] else []) + Fractions(flags[1..], x[1..])
  }

  function IntegralityViolation(flags: seq<int>, x: seq<real>): real {
    MaxWithZero(Fractions(flags, x))
  }

  function Diagnose(p: Program, x: seq<real>): Result<Diagnostics, Error> {
    if |x| != |p.cost| then Failure(SolutionShapeInvalid)
    else Success(Diagnostics(ConstraintViolation(p, x), IntegralityViolation(p.integrality, x), Dot(p.cost, x)))
  }

  // ------------------------------------------------------------ what it means

  /** The products of the first `n` pairs, added up. */
  ghost function Total(a: seq<real>, x: seq<real>, n: nat): real
    requires n <= |a| && n <= |x|
  {
    if n == 0 then 0.0 else Total(a, x, n - 1) + a[n - 1] * x[n - 1]
  }

  lemma {:induction false} TotalFromFirst(a: seq<real>, x: seq<real>, n: nat)
    requires 0 < n <= |a| && n <= |x|
    ensures Total(a, x, n) == a[0] * x[0] + Total(a[1..], x[1..], n - 1)
  {
    if n > 1 {
      TotalFromFirst(a, x, n - 1);
      assert a[1..][n - 2] == a[n - 1] && x[1..][n - 2] == x[n - 1];
    }
  }

  /** The value of a row of the matrix. */
  ghost function RowValue(row: seq<real>, x: seq<real>): real {
    Total(row, x, if |row| < |x| then |row| else |x|)
  }

  /** The inner product is the sum of the products of all pairs. */
  lemma {:induction false} DotIsTotal(a: seq<real>, x: seq<real>)
    ensures Dot(a, x) == RowValue(a, x)
  {
    if a != [] && x != [] {
      DotIsTotal(a[1..], x[1..]);
      TotalFromFirst(a, x, if |a| < |x| then |a| else |x|);
    }
  }

  /** Every row and both bounds hold up to `eps`. */
  ghost predicate FeasibleWithin(p: Program, x: seq<real>, eps: real) {
    && (forall i :: 0 <= i < Min(|p.matrix|, |p.rhs|) ==> RowValue(p.matrix[i], x) <= p.rhs[i] + eps)
    && (forall j :: 0 <= j < Min(|p.lower|, |x|) ==> p.lower[j] - eps <= x[j])
    && (forall j :: 0 <= j < Min(|p.upper|, |x|) ==> x[j] <= p.upper[j] + eps)
  }

  lemma {:induction false} MaxIsLeastBound(xs: seq<real>, eps: real)
    requires eps >= 0.0
    ensures MaxWithZero(xs) >= 0.0
    ensures MaxWithZero(xs) <= eps <==> forall i :: 0 <= i < |xs| ==> xs[i] <= eps
  {
    if xs != [] {
      MaxIsLeastBound(xs[1..], eps);
      assert forall i :: 1 <= i < |xs| ==> xs[i] == xs[1..][i - 1];
    }
  }

  lemma {:induction false} BoundOfConcat(a: seq<real>, b: seq<real>, eps: real)
    requires eps >= 0.0
    ensures MaxWithZero(a + b) <= eps <==> MaxWithZero(a) <= eps && MaxWithZero(b) <= eps
  {
    if a == [] {
      assert a + b == b;
      MaxIsLeastBound(b, eps);
    } else {
      assert (a + b)[1..] == a[1..] + b;
      BoundOfConcat(a[1..], b, eps);
    }
  }

  lemma {:induction false} ResidualsBound(p: Program, x: seq<real>, eps: real)
    requires eps >= 0.0
    ensures MaxWithZero(Residuals(p, x)) <= eps <==>
            forall i :: 0 <= i < Min(|p.matrix|, |p.rhs|) ==> RowValue(p.matrix[i], x) <= p.rhs[i] + eps
  {
    var r := Residuals(p, x);
    MaxIsLeastBound(r, eps);
    forall i | 0 <= i < |r|
      ensures r[i] <= eps <==> RowValue(p.matrix[i], x) <= p.rhs[i] + eps
    {
      DotIsTotal(p.matrix[i], x);
    }
  }

  lemma {:induction false} BoundsBound(p: Program, x: seq<real>, eps: real)
    requires eps >= 0.0
    ensures MaxWithZero(BelowLower(p, x)) <= eps <==>
            forall j :: 0 <= j < Min(|p.lower|, |x|) ==> p.lower[j] - eps <= x[j]
    ensures MaxWithZero(AboveUpper(p, x)) <= eps <==>
            forall j :: 0 <= j < Min(|p.upper|, |x|) ==> x[j] <= p.upper[j] + eps
  {
    var lo, hi := BelowLower(p, x), AboveUpper(p, x);
    MaxIsLeastBound(lo, eps);
    MaxIsLeastBound(hi, eps);
    forall j | 0 <= j < |lo|
      ensures lo[j] <= eps <==> p.lower[j] - eps <= x[j]
    {
    }
    forall j | 0 <= j < |hi|
      ensures hi[j] <= eps <==> x[j] <= p.upper[j] + eps
    {
    }
  }

  /** The reported violation is the least tolerance within which the solution is
      feasible; in particular it is zero exactly for feasible solutions. */
  lemma {:induction false} ViolationIsLeastTolerance(p: Program, x: seq<real>, eps: real)
    requires eps >= 0.0
    ensures ConstraintViolation(p, x) >= 0.0
    ensures ConstraintViolation(p, x) <= eps <==> FeasibleWithin(p, x, eps)
  {
    var r, lo, hi := Residuals(p, x), BelowLower(p, x), AboveUpper(p, x);
    MaxIsLeastBound(r + lo + hi, eps);
    BoundOfConcat(r + lo, hi, eps);
    BoundOfConcat(r, lo, eps);
    ResidualsBound(p, x, eps);
    BoundsBound(p, x, eps);
  }

  function Blend(t: real, u: real, v: real): real {
    t * u + (1.0 - t) * v
  }

  /** The point a fraction `t` of the way from `y` to `x`. */
  function Mix(t: real, x: seq<real>, y: seq<real>): seq<real>
    requires |x| == |y|
  {
    seq(|x|, i requires 0 <= i < |x| => Blend(t, x[i], y[i]))
  }

  lemma {:induction false} BlendTimes(a: real, t: real, u: real, v: real)
    ensures a * Blend(t, u, v) == Blend(t, a * u, a * v)
  {
    var w := 1.0 - t;
    assert a * (t * u) == t * (a * u);
    assert a * (w * v) == w * (a * v);
  }

  lemma {:induction false} BlendSum(t: real, a: real, b: real, c: real, d: real)
    ensures Blend(t, a + c, b + d) == Blend(t, a, b) + Blend(t, c, d)
  {
  }

  lemma {:induction false} DotOfMix(a: seq<real>, t: real, x: seq<real>, y: seq<real>)
    requires |x| == |y|
    ensures Dot(a, Mix(t, x, y)) == Blend(t, Dot(a, x), Dot(a, y))
  {
    if a == [] || x == [] {
      assert Blend(t, 0.0, 0.0) == 0.0;
    } else {
      var m, rest := Mix(t, x, y), a[1..];
      assert m[1..] == Mix(t, x[1..], y[1..]);
      DotOfMix(rest, t, x[1..], y[1..]);
      BlendTimes(a[0], t, x[0], y[0]);
      BlendSum(t, a[0] * x[0], a[0] * y[0], Dot(rest, x[1..]), Dot(rest, y[1..]));
      calc {
        Dot(a, m);
        a[0] * m[0] + Dot(rest, m[1..]);
        Blend(t, a[0] * x[0], a[0] * y[0]) + Blend(t, Dot(rest, x[1..]), Dot(rest, y[1..]));
        Blend(t, a[0] * x[0] + Dot(rest, x[1..]), a[0] * y[0] + Dot(rest, y[1..]));
        Blend(t, Dot(a, x), Dot(a, y));
      }
    }
  }

  lemma {:induction false} NonNegative(a: real, b: real)
    requires a >= 0.0 && b >= 0.0
    ensures a * b >= 0.0
  {
  }

  /** Blending two bounded values is bounded by the blended bounds. */
  lemma {:induction false} BlendBound(t: real, u: real, v: real, b: real, e: real, f: real)
    requires 0.0 <= t <= 1.0 && u <= b + e && v <= b + f
    ensures Blend(t, u, v) <= b + Blend(t, e, f)
  {
    NonNegative(t, b + e - u);
    NonNegative(1.0 - t, b + f - v);
    BlendSum(t, b, b, e, f);
    assert Blend(t, b, b) == b;
  }

  lemma {:induction false} BlendNegative(t: real, u: real, v: real)
    ensures Blend(t, -u, -v) == -Blend(t, u, v)
  {
  }

  lemma {:induction false} FeasibleMix(p: Program, t: real, x: seq<real>, y: seq<real>, e: real, f: real)
    requires |x| == |y| && 0.0 <= t <= 1.0 && FeasibleWithin(p, x, e) && FeasibleWithin(p, y, f)
    ensures FeasibleWithin(p, Mix(t, x, y), Blend(t, e, f))
  {
    var m, eps := Mix(t, x, y), Blend(t, e, f);
    forall i | 0 <= i < Min(|p.matrix|, |p.rhs|)
      ensures RowValue(p.matrix[i], m) <= p.rhs[i] + eps
    {
      DotIsTotal(p.matrix[i], x);
      DotIsTotal(p.matrix[i], y);
      DotIsTotal(p.matrix[i], m);
      DotOfMix(p.matrix[i], t, x, y);
      BlendBound(t, Dot(p.matrix[i], x), Dot(p.matrix[i], y), p.rhs[i], e, f);
    }
    forall j | 0 <= j < Min(|p.lower|, |m|)
      ensures p.lower[j] - eps <= m[j]
    {
      BlendBound(t, -x[j], -y[j], -p.lower[j], e, f);
      BlendNegative(t, x[j], y[j]);
    }
    forall j | 0 <= j < Min(|p.upper|, |m|)
      ensures m[j] <= p.upper[j] + eps
    {
      BlendBound(t, x[j], y[j], p.upper[j], e, f);
    }
  }

  lemma {:induction false} BlendNonNegative(t: real, e: real, f: real)
    requires 0.0 <= t <= 1.0 && e >= 0.0 && f >= 0.0
    ensures Blend(t, e, f) >= 0.0
  {
    NonNegative(t, e);
    NonNegative(1.0 - t, f);
  }

  lemma {:induction false} FeasibleAtViolation(p: Program, x: seq<real>)
    ensures ConstraintViolation(p, x) >= 0.0 && FeasibleWithin(p, x, ConstraintViolation(p, x))
  {
    ViolationIsLeastTolerance(p, x, 0.0);
    ViolationIsLeastTolerance(p, x, ConstraintViolation(p, x));
  }

  /** The violation is convex in the solution. */
  lemma {:induction false} ViolationIsConvex(p: Program, t: real, x: seq<real>, y: seq<real>)
    requires |x| == |y| && 0.0 <= t <= 1.0
    ensures ConstraintViolation(p, Mix(t, x, y)) <= Blend(t, ConstraintViolation(p, x), ConstraintViolation(p, y))
  {
    FeasibleAtViolation(p, x);
    FeasibleAtViolation(p, y);
    var e, f := ConstraintViolation(p, x), ConstraintViolation(p, y);
    FeasibleMix(p, t, x, y, e, f);
    BlendNonNegative(t, e, f);
    ViolationIsLeastTolerance(p, Mix(t, x, y), Blend(t, e, f));
  }

  /** No integer is closer than the rounded one, and of two that are equally close it is
      the even one. */
  lemma {:induction false} RoundIsNearest(x: real, k: int)
    ensures Abs(x - Round(x) as real) <= Abs(x - k as real)
    ensures k != Round(x) && Abs(x - Round(x) as real) == Abs(x - k as real) ==> Round(x) % 2 == 0
  {
    var below := x.Floor;
    assert below as real <= x < below as real + 1.0;
    if k <= below {
      assert k as real <= below as real;
    } else {
      assert k as real >= below as real + 1.0;
    }
  }

  ghost function Distance(x: real, k: int): real {
    Abs(x - k as real)
  }

  ghost predicate NearInteger(x: real, eps: real) {
    exists k :: Distance(x, k) <= eps
  }

  lemma {:induction false} FractionsBound(flags: seq<int>, x: seq<real>, eps: real)
    requires eps >= 0.0
    ensures (forall i :: 0 <= i < |Fractions(flags, x)| ==> Fractions(flags, x)[i] <= eps) <==>
            (forall j :: 0 <= j < Min(|flags|, |x|) && flags[j] != 0 ==> NearInteger(x[j], eps))
  {
    if flags != [] && x != [] {
      FractionsBound(flags[1..], x[1..], eps);
      var rest := Fractions(flags[1..], x[1..]);
      var head := if flags[0] != 0 then [Abs(x[0] - Round(x[0]) as real)] else [];
      assert forall i :: 0 <= i < |rest| ==> Fractions(flags, x)[|head| + i] == rest[i];
      assert forall i :: |head| <= i < |Fractions(flags, x)| ==> Fractions(flags, x)[i] == rest[i - |head|];
      assert forall j :: 1 <= j < Min(|flags|, |x|) ==> flags[j] == flags[1..][j - 1] && x[j] == x[1..][j - 1];
      if flags[0] != 0 {
        assert Fractions(flags, x)[0] == head[0];
        if NearInteger(x[0], eps) {
          var k :| Distance(x[0], k) <= eps;
          RoundIsNearest(x[0], k);
        }
        if head[0] <= eps {
          assert Distance(x[0], Round(x[0])) <= eps;
        }
      }
      var left := forall i :: 0 <= i < |Fractions(flags, x)| ==> Fractions(flags, x)[i] <= eps;
      var tail := forall i :: 0 <= i < |rest| ==> rest[i] <= eps;
      assert left <==> tail && (flags[0] != 0 ==> head[0] <= eps) by {
        if left {
          assert forall i :: 0 <= i < |rest| ==> Fractions(flags, x)[|head| + i] == rest[i];
        }
      }
      var ahead := forall j :: 0 <= j < Min(|flags|, |x|) && flags[j] != 0 ==> NearInteger(x[j], eps);
      var after := forall j :: 0 <= j < Min(|flags[1..]|, |x[1..]|) && flags[1..][j] != 0 ==> NearInteger(x[1..][j], eps);
      assert ahead <==> after && (flags[0] != 0 ==> NearInteger(x[0], eps)) by {
        if ahead {
          forall j | 0 <= j < Min(|flags[1..]|, |x[1..]|) && flags[1..][j] != 0
            ensures NearInteger(x[1..][j], eps)
          {
            assert flags[j + 1] != 0;
          }
        }
      }
    }
  }

  /** The integrality violation is within `eps` exactly when every flagged
      coordinate is within `eps` of some integer. */
  lemma {:induction false} IntegralityIsDistanceToIntegers(flags: seq<int>, x: seq<real>, eps: real)
    requires eps >= 0.0
    ensures IntegralityViolation(flags, x) >= 0.0
    ensures IntegralityViolation(flags, x) <= eps <==>
            forall j :: 0 <= j < Min(|flags|, |x|) && flags[j] != 0 ==> NearInteger(x[j], eps)
  {
    MaxIsLeastBound(Fractions(flags, x), eps);
    FractionsBound(flags, x, eps);
  }

  lemma {:induction false} ProductBound(a: real, x: real)
    requires Abs(a) <= MAX_MAGNITUDE && Abs(x) <= MAX_MAGNITUDE
    ensures Abs(a * x) <= MAX_PRODUCT
  {
    assert Abs(a * x) == Abs(a) * Abs(x);
    assert Abs(a) * Abs(x) <= MAX_MAGNITUDE * Abs(x) <= MAX_PRODUCT;
  }

  lemma {:induction false} AddBound(head: real, rest: real, n: nat)
    requires Abs(head) <= MAX_PRODUCT && Abs(rest) <= n as real * MAX_PRODUCT
    ensures Abs(head + rest) <= (n + 1) as real * MAX_PRODUCT
  {
  }

  lemma {:induction false} DotBound(a: seq<real>, x: seq<real>)
    requires Bounded(a) && Bounded(x)
    ensures Abs(Dot(a, x)) <= |a| as real * MAX_PRODUCT
  {
    if a != [] && x != [] {
      DotBound(a[1..], x[1..]);
      ProductBound(a[0], x[0]);
      AddBound(a[0] * x[0], Dot(a[1..], x[1..]), |a| - 1);
    }
  }

  /** The diagnostics of a solution report no violated constraint. */
  ghost predicate CertifiesFeasible(p: Program, x: seq<real>) {
    Diagnose(p, x).Success? && Diagnose(p, x).value.constraintViolation == 0.0
  }

  /** A solution of an accepted program that is certified without violation is
      bounded in every coordinate, and so is its objective. */
  lemma {:induction false} CertifiedIsBounded(p: Program, mixed: bool, x: seq<real>)
    requires Validate(p, mixed).Success? && CertifiesFeasible(p, x)
    ensures Bounded(x) && FeasibleWithin(p, x, 0.0)
    ensures Abs(Diagnose(p, x).value.objective) <= 32.0 * MAX_PRODUCT
  {
    ViolationIsLeastTolerance(p, x, 0.0);
    DotBound(p.cost, x);
  }

  /** What a certificate says of a solution with a coordinate for each variable: its two
      violations are the least tolerances of the constraints and of integrality, and its
      objective is the cost of the solution. */
  lemma {:induction false} CertificateMeans(p: Program, x: seq<real>, eps: real)
    requires eps >= 0.0
    ensures Diagnose(p, x).Success? <==> |x| == |p.cost|
    ensures Diagnose(p, x).Success? ==>
              var d := Diagnose(p, x).value;
              && (d.constraintViolation <= eps <==> FeasibleWithin(p, x, eps))
              && (d.integralityViolation <= eps <==>
                    forall j :: 0 <= j < |p.integrality| && j < |x| && p.integrality[j] != 0 ==> NearInteger(x[j], eps))
              && d.objective == Total(p.cost, x, |x|)
  {
    ViolationIsLeastTolerance(p, x, eps);
    IntegralityIsDistanceToIntegers(p.integrality, x, eps);
    DotIsTotal(p.cost, x);
  }
}
