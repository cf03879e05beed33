/** The UUIDv7 generator of app/ids.py: sections 5.7 and 6.2 of RFC 9562.

    A clock reading is an arbitrary integer, so stale, repeated and backward
    readings (and readings taken before the lock was obtained) are all covered. */
module Ids {

  const COUNTER_SPAN: int := 0x1000
  const TIMESTAMP_SPAN: int := 0x1_0000_0000_0000

  // The weights of bits 62, 64, 76 and 80: shifting left by `k` multiplies by 2^k.
  const BIT_62: int := 0x4000_0000_0000_0000
  const BIT_64: int := 0x1_0000_0000_0000_0000
  const BIT_76: int := 0x1000_0000_0000_0000_0000
  const BIT_80: int := 0x1_0000_0000_0000_0000_0000

  /** The module globals `_LAST_MILLISECOND` and `_RAND_A`. */
  datatype State = State(last: int, counter: int)

  /** What one call takes from outside: the clock and two draws of random bits. */
  datatype Reading = Reading(timeNs: int, seed: int, tail: int)

  const INITIAL := State(-1, 0)

  ghost predicate ValidReading(r: Reading) {
    0 <= r.seed < COUNTER_SPAN && 0 <= r.tail < BIT_62
  }

  ghost predicate ValidState(s: State) {
    -1 <= s.last && 0 <= s.counter < COUNTER_SPAN
  }

  function Millisecond(r: Reading): int {
    r.timeNs / 1_000_000
  }

  /** A reading in nanoseconds lies within its millisecond. */
  lemma {:induction false} MillisecondHoldsReading(r: Reading)
    ensures 1_000_000 * Millisecond(r) <= r.timeNs < 1_000_000 * (Millisecond(r) + 1)
  {
  }

  /** The clock has passed the stored millisecond. */
  predicate Fresh(s: State, r: Reading) {
    Millisecond(r) > s.last
  }

  /** Specification of the locked section. */
  function Advance(s: State, r: Reading): State {
    if Fresh(s, r) then State(Millisecond(r), r.seed)
    else if (s.counter + 1) % COUNTER_SPAN == 0 then State(s.last + 1, 0)
    else State(s.last, (s.counter + 1) % COUNTER_SPAN)
  }

  function Pow2(k: nat): nat {
    if k == 0 then 1 else 2 * Pow2(k - 1)
  }

  /** Bitwise or on unbounded naturals, bit by bit. */
  function BitOr(a: nat, b: nat): nat {
    if a == 0 then b
    else if b == 0 then a
    else 2 * BitOr(a / 2, b / 2) + (if a % 2 == 1 || b % 2 == 1 then 1 else 0)
  }

  /** The 128-bit layout as the code assembles it, field by field. Masking a
      (possibly negative) integer with `2**k - 1` is its residue modulo `2**k`. */
  function Layout(s: State, tail: nat): nat {
    BitOr(
      BitOr(
        BitOr(
          BitOr(s.last % TIMESTAMP_SPAN * BIT_80, 7 * BIT_76),
          s.counter % COUNTER_SPAN * BIT_64),
        2 * BIT_62),
      tail)
  }

  // The fields of section 5.7 of RFC 9562, read back from an identifier.
  function Timestamp(id: nat): nat { id / BIT_80 }
  function Version(id: nat): nat { id / BIT_76 % 16 }
  function Counter(id: nat): nat { id / BIT_64 % COUNTER_SPAN }
  function Variant(id: nat): nat { id / BIT_62 % 4 }
  function Tail(id: nat): nat { id % BIT_62 }

  // ---------------------------------------------------------------- layout

  lemma {:induction false} OrIsSum(hi: nat, lo: nat, k: nat, weight: nat)
    requires weight == Pow2(k) && lo < weight
    ensures BitOr(hi * weight, lo) == hi * weight + lo
  {
    if k > 0 {
      var half := hi * Pow2(k - 1);
      assert hi * weight == 2 * half;
      OrIsSum(hi, lo / 2, k - 1, Pow2(k - 1));
    }
  }

  lemma {:induction false} PowAdd(a: nat, b: nat, sum: nat, x: nat, y: nat)
    requires sum == a + b && Pow2(a) == x && Pow2(b) == y
    ensures Pow2(sum) == x * y
  {
    if a > 0 {
      PowAdd(a - 1, b, sum - 1, Pow2(a - 1), y);
      assert x * y == 2 * (Pow2(a - 1) * y);
    }
  }

  lemma {:induction false} Weight64(k: nat)
    requires k == 16
    ensures Pow2(4 * k) == BIT_64
  {
    var half: nat := 8;
    assert Pow2(8) == 256;
    PowAdd(half, half, k, 256, 256);
    PowAdd(k, k, 2 * k, 0x1_0000, 0x1_0000);
    PowAdd(2 * k, 2 * k, 4 * k, 0x1_0000_0000, 0x1_0000_0000);
  }

  /** The four weights really are the powers of two that the shifts name. */
  lemma {:induction false} Weights(k12: nat, k16: nat, k64: nat)
    requires k12 == 12 && k16 == 16 && k64 == 64
    ensures Pow2(k64) == BIT_64 && Pow2(k64 + k12) == BIT_76 && Pow2(k64 + k16) == BIT_80
  {
    Weight64(k16);
    assert Pow2(12) == 0x1000 && Pow2(16) == 0x1_0000;
    PowAdd(k64, k12, k64 + k12, BIT_64, 0x1000);
    PowAdd(k64, k16, k64 + k16, BIT_64, 0x1_0000);
  }

  lemma {:induction false} Weight62(k62: nat)
    requires k62 == 62
    ensures Pow2(k62) == BIT_62
  {
    Weight64(k62 - 46);
    assert Pow2(k62 + 2) == 2 * Pow2(k62 + 1) == 4 * Pow2(k62);
  }

  /** The positional sum of the fields. */
  ghost function Sum(s: State, tail: nat): nat {
    (((s.last % TIMESTAMP_SPAN * 16 + 7) * 0x1000 + s.counter % COUNTER_SPAN) * 4 + 2) * BIT_62 + tail
  }

  /** The or-ed layout is the positional sum of its fields. */
  lemma {:induction false} LayoutIsSum(s: State, tail: nat)
    requires tail < BIT_62
    ensures Layout(s, tail) == Sum(s, tail)
  {
    var k62, k64, k76, k80: nat := 62, 64, 76, 80;
    Weight62(k62);
    Weights(k76 - k64, k80 - k64, k64);
    var ts := s.last % TIMESTAMP_SPAN;
    var c := s.counter % COUNTER_SPAN;
    OrIsSum(ts, 7 * BIT_76, k80, BIT_80);
    OrIsSum(ts * 16 + 7, c * BIT_64, k76, BIT_76);
    OrIsSum((ts * 16 + 7) * 0x1000 + c, 2 * BIT_62, k64, BIT_64);
    OrIsSum(((ts * 16 + 7) * 0x1000 + c) * 4 + 2, tail, k62, BIT_62);
  }

  lemma {:induction false} MultipleBound(d: int, m: int)
    requires 0 < m
    ensures d >= 1 ==> d * m >= m
    ensures d <= -1 ==> d * m <= -m
  {
  }

  lemma {:induction false} Quotient(x: nat, m: nat, q: nat, r: nat)
    requires 0 < m && x == q * m + r && r < m
    ensures x / m == q && x % m == r
  {
    var d := x / m - q;
    assert d * m == r - x % m;
    MultipleBound(d, m);
  }

  lemma {:induction false} SumFields(s: State, tail: nat)
    requires ValidState(s) && tail < BIT_62
    ensures Sum(s, tail) / BIT_80 == s.last % TIMESTAMP_SPAN
    ensures Sum(s, tail) / BIT_76 == s.last % TIMESTAMP_SPAN * 16 + 7
    ensures Sum(s, tail) / BIT_64 == (s.last % TIMESTAMP_SPAN * 16 + 7) * COUNTER_SPAN + s.counter
    ensures Sum(s, tail) / BIT_62 % 4 == 2 && Sum(s, tail) % BIT_62 == tail
  {
    var ts := s.last % TIMESTAMP_SPAN;
    var low62 := 2 * BIT_62 + tail;
    var low64 := s.counter * BIT_64 + low62;
    Quotient(Sum(s, tail), BIT_80, ts, 7 * BIT_76 + low64);
    Quotient(Sum(s, tail), BIT_76, ts * 16 + 7, low64);
    Quotient(Sum(s, tail), BIT_64, (ts * 16 + 7) * COUNTER_SPAN + s.counter, low62);
    Quotient(Sum(s, tail), BIT_62, ((ts * 16 + 7) * COUNTER_SPAN + s.counter) * 4 + 2, tail);
  }

  /** Every identifier decodes to version 7, variant 0b10 and the stored counter;
      it decodes to the stored millisecond exactly when that fits in 48 bits. */
  lemma {:induction false} Decodes(s: State, tail: nat)
    requires ValidState(s) && tail < BIT_62
    ensures Layout(s, tail) < 0x1_0000_0000_0000_0000_0000_0000_0000_0000
    ensures Version(Layout(s, tail)) == 7 && Variant(Layout(s, tail)) == 2
    ensures Counter(Layout(s, tail)) == s.counter && Tail(Layout(s, tail)) == tail
    ensures Timestamp(Layout(s, tail)) == s.last <==> 0 <= s.last < TIMESTAMP_SPAN
  {
    LayoutIsSum(s, tail);
    SumFields(s, tail);
    Quotient((s.last % TIMESTAMP_SPAN * 16 + 7) * COUNTER_SPAN + s.counter, COUNTER_SPAN,
             s.last % TIMESTAMP_SPAN * 16 + 7, s.counter);
  }

  // ------------------------------------------------------------------ order

  /** Position on the generator's own clock, in 1/4096 ms. */
  function Ordinal(s: State): int {
    COUNTER_SPAN * s.last + s.counter
  }

  lemma {:induction false} AdvanceMovesForward(s: State, r: Reading)
    requires ValidState(s) && ValidReading(r)
    ensures ValidState(Advance(s, r)) && Ordinal(s) < Ordinal(Advance(s, r))
  {
  }

  /** Identifiers compare as their masked milliseconds, counters and random tails. */
  lemma {:induction false} OrderIsLexicographic(s: State, t: nat, s': State, t': nat)
    requires ValidState(s) && ValidState(s') && t < BIT_62 && t' < BIT_62
    ensures var ts, ts' := s.last % TIMESTAMP_SPAN, s'.last % TIMESTAMP_SPAN;
            Layout(s, t) < Layout(s', t') <==>
            ts < ts' || (ts == ts' && (s.counter < s'.counter || (s.counter == s'.counter && t < t')))
  {
    LayoutIsSum(s, t);
    LayoutIsSum(s', t');
  }

  /** When the identifier issued next sorts above the one issued in state `s`: after a
      fresh reading by the masked milliseconds, then the seed and the tail; otherwise
      always, except where the stored millisecond is the last of a 48-bit epoch and the
      counter wraps. */
  lemma {:induction false} OrderExact(s: State, t: nat, r: Reading)
    requires ValidState(s) && ValidReading(r) && t < BIT_62
    ensures Layout(s, t) < Layout(Advance(s, r), r.tail) <==>
            var ts := s.last % TIMESTAMP_SPAN;
            if Fresh(s, r) then
              var ts' := Millisecond(r) % TIMESTAMP_SPAN;
              ts < ts' || (ts == ts' && (s.counter < r.seed || (s.counter == r.seed && t < r.tail)))
            else
              !(ts == TIMESTAMP_SPAN - 1 && s.counter == COUNTER_SPAN - 1)
  {
    AdvanceMovesForward(s, r);
    OrderIsLexicographic(s, t, Advance(s, r), r.tail);
  }

  /** For a clock that does not leap a whole epoch at once, that is to say that both
      milliseconds lie in the same 48-bit epoch. */
  lemma {:induction false} OrderWithinEpoch(s: State, t: nat, r: Reading)
    requires ValidState(s) && ValidReading(r) && t < BIT_62
    requires Millisecond(r) - s.last < TIMESTAMP_SPAN
    ensures Layout(s, t) < Layout(Advance(s, r), r.tail) <==>
            s.last / TIMESTAMP_SPAN == Advance(s, r).last / TIMESTAMP_SPAN
  {
    AdvanceMovesForward(s, r);
    OrderIsLexicographic(s, t, Advance(s, r), r.tail);
  }

  /** The generator's state after a sequence of calls. */
  function Run(s: State, calls: seq<Reading>): State {
    if calls == [] then s else Advance(Run(s, calls[..|calls| - 1]), calls[|calls| - 1])
  }

  /** The identifier returned by call number `i` of a run. */
  function Issued(s: State, calls: seq<Reading>, i: nat): nat
    requires i < |calls| && ValidReading(calls[i])
  {
    Layout(Run(s, calls[..i + 1]), calls[i].tail)
  }

  ghost predicate ValidCalls(calls: seq<Reading>) {
    forall i :: 0 <= i < |calls| ==> ValidReading(calls[i])
  }

  lemma {:induction false} RunIsOrdered(s: State, calls: seq<Reading>, i: nat, j: nat)
    requires ValidState(s) && ValidCalls(calls) && i <= j <= |calls|
    ensures ValidState(Run(s, calls[..i])) && ValidState(Run(s, calls[..j]))
    ensures Ordinal(Run(s, calls[..i])) + (j - i) <= Ordinal(Run(s, calls[..j]))
    decreases j
  {
    if j > 0 {
      assert calls[..j][..j - 1] == calls[..j - 1];
      RunIsOrdered(s, calls, if i == j then i - 1 else i, j - 1);
      AdvanceMovesForward(Run(s, calls[..j - 1]), calls[j - 1]);
    } else {
      assert calls[..0] == [];
    }
  }

  lemma {:induction false} SumFollowsOrdinal(s: State, t: nat, s': State, t': nat)
    requires ValidState(s) && ValidState(s') && t < BIT_62 && t' < BIT_62
    requires 0 <= s.last && s'.last < TIMESTAMP_SPAN && Ordinal(s) < Ordinal(s')
    ensures Sum(s, t) < Sum(s', t')
  {
    assert s.last % TIMESTAMP_SPAN == s.last && s'.last % TIMESTAMP_SPAN == s'.last;
  }

  /** Over any run, whatever the clock does, identifiers are strictly increasing
      (hence distinct) as long as the issued milliseconds fit in 48 bits. */
  lemma {:induction false} StrictlyIncreasing(s: State, calls: seq<Reading>, i: nat, j: nat)
    requires ValidState(s) && ValidCalls(calls) && i < j < |calls|
    requires 0 <= Run(s, calls[..i + 1]).last && Run(s, calls[..j + 1]).last < TIMESTAMP_SPAN
    ensures Issued(s, calls, i) < Issued(s, calls, j)
  {
    RunIsOrdered(s, calls, i + 1, j + 1);
    SumFollowsOrdinal(Run(s, calls[..i + 1]), calls[i].tail, Run(s, calls[..j + 1]), calls[j].tail);
    LayoutIsSum(Run(s, calls[..i + 1]), calls[i].tail);
    LayoutIsSum(Run(s, calls[..j + 1]), calls[j].tail);
  }

  /** A clock before 1970 at the first call: the millisecond stays at the initial
      -1, which masks to the largest timestamp, and the next fresh reading sorts
      below it. */
  lemma {:induction false} ClockBeforeEpochBreaksOrder()
    ensures var calls := [Reading(-1_000_000, 0, 0), Reading(0, 0, 0)];
            Issued(INITIAL, calls, 0) > Issued(INITIAL, calls, 1)
  {
    var calls := [Reading(-1_000_000, 0, 0), Reading(0, 0, 0)];
    assert calls[..1] == [calls[0]] && calls[..2] == calls && calls[..1][..0] == [] && calls[..2][..1] == [calls[0]];
    assert Run(INITIAL, calls[..1]) == State(-1, 1);
    assert Run(INITIAL, calls[..2]) == State(0, 0);
    LayoutIsSum(State(-1, 1), 0);
    LayoutIsSum(State(0, 0), 0);
  }

  // ------------------------------------------------------------------ drift

  /** No reading after `start` was fresh. */
  ghost predicate AllStale(start: State, readings: seq<Reading>) {
    forall i :: 0 <= i < |readings| ==> !Fresh(Run(start, readings[..i]), readings[i])
  }

  lemma {:induction false} AdvanceStale(s: State, r: Reading)
    requires ValidState(s) && ValidReading(r) && !Fresh(s, r)
    ensures ValidState(Advance(s, r)) && Ordinal(Advance(s, r)) == Ordinal(s) + 1
  {
  }

  lemma {:induction false} DriftBound(ahead: int, n: nat, c0: int, c: int)
    requires 4096 * ahead + c == n + c0 && 0 <= c0 < 4096 && 0 <= c < 4096
    ensures 0 <= ahead <= (n + 4095) / 4096
  {
  }

  /** Exact drift: after `n` stale readings the generator's clock has advanced by
      exactly `n` ticks of 1/4096 ms, so it runs ahead of the millisecond it
      started from by at most `(n + 4095) / 4096`. */
  lemma {:induction false} ExactDrift(start: State, stale: seq<Reading>)
    requires ValidState(start) && ValidCalls(stale) && AllStale(start, stale)
    ensures Ordinal(Run(start, stale)) == Ordinal(start) + |stale|
    ensures ValidState(Run(start, stale))
    ensures 0 <= Run(start, stale).last - start.last <= (|stale| + 4095) / 4096
  {
    if stale != [] {
      var before := stale[..|stale| - 1];
      forall i | 0 <= i < |before|
        ensures !Fresh(Run(start, before[..i]), before[i])
      {
        assert before[..i] == stale[..i];
      }
      ExactDrift(start, before);
      AdvanceStale(Run(start, before), stale[|stale| - 1]);
    }
    DriftBound(Run(start, stale).last - start.last, |stale|, start.counter, Run(start, stale).counter);
  }

  lemma {:induction false} AheadBound(ordinal: int, last: int, counter: int, largest: int, n: nat)
    requires ordinal == 4096 * last + counter && 0 <= counter && ordinal <= 4096 * largest + 4095 + n
    ensures last <= largest + (n + 4095) / 4096
  {
  }

  lemma {:induction false} OrdinalBound(s: State, calls: seq<Reading>, largest: int)
    requires ValidState(s) && ValidCalls(calls) && s.last <= largest
    requires forall i :: 0 <= i < |calls| ==> Millisecond(calls[i]) <= largest
    ensures ValidState(Run(s, calls)) && Ordinal(Run(s, calls)) <= 4096 * largest + 4095 + |calls|
    ensures forall i :: 0 <= i < |calls| ==> Millisecond(calls[i]) <= Run(s, calls).last
  {
    if calls != [] {
      var before, r := calls[..|calls| - 1], calls[|calls| - 1];
      OrdinalBound(s, before, largest);
      if Fresh(Run(s, before), r) {
        assert Run(s, calls) == State(Millisecond(r), r.seed);
      } else {
        AdvanceStale(Run(s, before), r);
      }
    }
  }

  /** Whatever the clock does, the millisecond of the last of `n` identifiers is not
      below any reading, and ahead of the largest one (or of where the generator
      started) by at most `(n + 4095) / 4096`. */
  lemma {:induction false} AheadOfLargestReading(s: State, calls: seq<Reading>, largest: int)
    requires ValidState(s) && ValidCalls(calls) && s.last <= largest
    requires forall i :: 0 <= i < |calls| ==> Millisecond(calls[i]) <= largest
    ensures Run(s, calls).last <= largest + (|calls| + 4095) / 4096
    ensures forall i :: 0 <= i < |calls| ==> Millisecond(calls[i]) <= Run(s, calls).last
  {
    OrdinalBound(s, calls, largest);
    AheadBound(Ordinal(Run(s, calls)), Run(s, calls).last, Run(s, calls).counter, largest, |calls|);
  }

  /** The module-level generator with its two mutable globals. */
  class Generator {
    var lastMillisecond: int
    var randA: int

    ghost function Contents(): State
      reads this
    {
      State(lastMillisecond, randA)
    }

    constructor ()
      ensures Contents() == INITIAL
    {
      lastMillisecond, randA := -1, 0;
    }

    method Uuid7(reading: Reading) returns (value: nat)
      requires ValidState(Contents()) && ValidReading(reading)
      modifies this
      ensures Contents() == Advance(old(Contents()), reading) && ValidState(Contents())
      ensures value == Layout(Contents(), reading.tail)
      ensures Version(value) == 7 && Variant(value) == 2 && Counter(value) == randA
      ensures 0 <= lastMillisecond < TIMESTAMP_SPAN ==> Timestamp(value) == lastMillisecond
    {
      var millisecond := reading.timeNs / 1_000_000;
      if millisecond > lastMillisecond {
        lastMillisecond := millisecond;
        randA := reading.seed;
      } else {
        millisecond := lastMillisecond;
        randA := (randA + 1) % COUNTER_SPAN;
        if randA == 0 {
          lastMillisecond := lastMillisecond + 1;
          millisecond := lastMillisecond;
        }
      }
      Decodes(Contents(), reading.tail);
      value := Layout(State(millisecond, randA), reading.tail);
    }
  }
}
