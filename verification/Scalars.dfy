/** `_parse_scalar` of core/repo_context_gatherer.py and a rendering it reads back. */
module Scalars {
  import opened Text
  import opened Wrappers

  datatype Scalar = Str(text: string) | Flag(on: bool) | Null | Number(n: int)

  // ------------------------------------------------------------------ integers

  /** The interpreter's default limit on the digits of a decimal number in text. */
  const MAX_INT_DIGITS := 4300

  predicate IsDigit(c: char) { '0' <= c <= '9' }

  function DigitValue(c: char): nat
    requires IsDigit(c)
  {
    c as int - '0' as int
  }

  /** Digits, with single underscores between them. */
  predicate IsDigits(s: string) {
    && s != [] && IsDigit(s[0]) && IsDigit(s[|s| - 1])
    && (forall i :: 0 <= i < |s| ==> IsDigit(s[i]) || s[i] == '_')
    && (forall i :: 0 < i < |s| && s[i] == '_' ==> IsDigit(s[i - 1]))
  }

  function ValueOf(s: string, n: nat): nat
    requires n <= |s| && forall i :: 0 <= i < n ==> IsDigit(s[i]) || s[i] == '_'
  {
    if n == 0 then 0
    else if s[n - 1] == '_' then ValueOf(s, n - 1)
    else 10 * ValueOf(s, n - 1) + DigitValue(s[n - 1])
  }

  function DigitCount(s: string, n: nat): nat
    requires n <= |s|
  {
    if n == 0 then 0 else DigitCount(s, n - 1) + (if IsDigit(s[n - 1]) then 1 else 0)
  }

  /** `int(text)`, `None` where it raises. */
  function ParseInt(s: string): Option<int> {
    var signed := s != [] && (s[0] == '-' || s[0] == '+');
    var digits := if signed then s[1..] else s;
    if !IsDigits(digits) || DigitCount(digits, |digits|) > MAX_INT_DIGITS then None
    else
      var magnitude: int := ValueOf(digits, |digits|);
      Some(if signed && s[0] == '-' then -magnitude else magnitude)
  }

  function DigitOf(d: nat): char
    requires d < 10
  {
    ('0' as int + d) as char
  }

  function RenderNat(n: nat): (s: string)
    ensures s != [] && forall i :: 0 <= i < |s| ==> IsDigit(s[i])
  {
    if n < 10 then [DigitOf(n)] else RenderNat(n / 10) + [DigitOf(n % 10)]
  }

  function RenderInt(n: int): string {
    if n < 0 then "-" + RenderNat(-n) else RenderNat(n)
  }

  lemma {:induction false} ValueOfPrefix(a: string, b: string, n: nat)
    requires n <= |a| <= |b| && a == b[..|a|] && forall i :: 0 <= i < n ==> IsDigit(a[i]) || a[i] == '_'
    ensures ValueOf(a, n) == ValueOf(b, n)
  {
    if n > 0 {
      ValueOfPrefix(a, b, n - 1);
    }
  }

  lemma {:induction false} ValueOfRendered(n: nat)
    ensures ValueOf(RenderNat(n), |RenderNat(n)|) == n
  {
    var s := RenderNat(n);
    if n >= 10 {
      ValueOfRendered(n / 10);
      ValueOfPrefix(RenderNat(n / 10), s, |s| - 1);
    } else {
      assert ValueOf(s, 0) == 0;
    }
  }

  lemma {:induction false} AllDigitsCount(s: string, n: nat)
    requires n <= |s| && forall i :: 0 <= i < n ==> IsDigit(s[i])
    ensures DigitCount(s, n) == n
  {
    if n > 0 {
      AllDigitsCount(s, n - 1);
    }
  }

  /** Decimal notation is read back, up to the limit on digits and no further. */
  lemma {:induction false} IntRoundTrip(n: int)
    ensures ParseInt(RenderInt(n)) == if |RenderNat(if n < 0 then -n else n)| <= MAX_INT_DIGITS then Some(n) else None
  {
    var magnitude := if n < 0 then -n else n;
    var digits := RenderNat(magnitude);
    ValueOfRendered(magnitude);
    AllDigitsCount(digits, |digits|);
    assert IsDigits(digits);
    assert ("-" + digits)[1..] == digits;
  }

  /** Digits with single underscores between them. */
  ghost predicate IsNumeral(s: string) {
    && s != "" && s[0] != '_' && s[|s| - 1] != '_'
    && (forall c :: c in s ==> '0' <= c <= '9' || c == '_')
    && forall i, j :: 0 <= i < j < |s| && j == i + 1 && s[i] == s[j] ==> s[i] != '_'
  }

  /** A numeral, with a sign or without. */
  ghost predicate IsSigned(s: string, negative: bool, numeral: string) {
    IsNumeral(numeral) && if negative then s == "-" + numeral else s == numeral || s == "+" + numeral
  }

  function OnlyDigits(s: string, n: nat): (r: string)
    requires n <= |s|
  {
    if n == 0 then "" else OnlyDigits(s, n - 1) + (if s[n - 1] == '_' then "" else [s[n - 1]])
  }

  lemma {:induction false} NumeralExact(s: string)
    ensures IsDigits(s) <==> IsNumeral(s)
  {
    if IsDigits(s) {
      forall c | c in s
        ensures '0' <= c <= '9' || c == '_'
      {
        var i :| 0 <= i < |s| && s[i] == c;
      }
    }
    if IsNumeral(s) {
      forall i | 0 <= i < |s|
        ensures IsDigit(s[i]) || s[i] == '_'
      {
        assert s[i] in s;
      }
    }
  }

  lemma {:induction false} UnderscoresDoNotCount(s: string, n: nat)
    requires n <= |s| && forall i :: 0 <= i < n ==> IsDigit(s[i]) || s[i] == '_'
    ensures var digits := OnlyDigits(s, n);
            && |digits| == DigitCount(s, n) && (forall i :: 0 <= i < |digits| ==> IsDigit(digits[i]))
            && ValueOf(digits, |digits|) == ValueOf(s, n)
  {
    if n > 0 {
      UnderscoresDoNotCount(s, n - 1);
      var before, digits := OnlyDigits(s, n - 1), OnlyDigits(s, n);
      if s[n - 1] == '_' {
        assert digits == before;
      } else {
        assert digits == before + [s[n - 1]];
        ValueOfPrefix(before, digits, |before|);
      }
    }
  }

  /** What `int` reads: a numeral, with a sign or without; the sign negates, the
      underscores do not count, and more than 4300 digits are refused. */
  lemma {:induction false} ParseIntExact(s: string, negative: bool, numeral: string)
    requires IsSigned(s, negative, numeral)
    ensures var digits := OnlyDigits(numeral, |numeral|);
            && (forall i :: 0 <= i < |digits| ==> IsDigit(digits[i]))
            && var magnitude: int := ValueOf(digits, |digits|);
               ParseInt(s) == if |digits| > MAX_INT_DIGITS then None else Some(if negative then -magnitude else magnitude)
  {
    NumeralExact(numeral);
    UnderscoresDoNotCount(numeral, |numeral|);
    assert numeral[0] in numeral;
    if s != numeral {
      assert s[1..] == numeral;
    }
  }

  /** Nothing else is read as a number. */
  lemma {:induction false} ParseIntReads(s: string) returns (negative: bool, numeral: string)
    requires ParseInt(s).Some?
    ensures IsSigned(s, negative, numeral)
  {
    negative := s[0] == '-';
    numeral := if s[0] == '-' || s[0] == '+' then s[1..] else s;
    NumeralExact(numeral);
  }

  // ------------------------------------------------------------------- scalars

  predicate Quoted(s: string, quote: char) {
    s != [] && s[0] == quote && s[|s| - 1] == quote
  }

  /** `text[1:-1]` is empty for a single quote character. */
  function Unquoted(s: string): string
    requires s != []
  {
    if |s| == 1 then "" else s[1..|s| - 1]
  }

  function ParseStripped(text: string): Scalar {
    if text == "" then Str("")
    else if Quoted(text, '"') || Quoted(text, '\'') then Str(Unquoted(text))
    else if EqualsIgnoringCase(text, "true") then Flag(true)
    else if EqualsIgnoringCase(text, "false") then Flag(false)
    else if EqualsIgnoringCase(text, "null") || EqualsIgnoringCase(text, "none") then Null
    else if ParseInt(text).Some? then Number(ParseInt(text).value)
    else Str(text)
  }

  function ParseScalar(value: string): Scalar {
    ParseStripped(Strip(value))
  }

  function Render(v: Scalar): string {
    match v
    case Str(text) => "\"" + text + "\""
    case Flag(on) => if on then "true" else "false"
    case Null => "null"
    case Number(n) => RenderInt(n)
  }

  /** The scalars whose rendering fits the interpreter's limit on digits. */
  predicate Readable(v: Scalar) {
    v.Number? ==> |RenderNat(if v.n < 0 then -v.n else v.n)| <= MAX_INT_DIGITS
  }

  lemma {:induction false} RenderedIsTrimmed(v: Scalar)
    ensures Trimmed(Render(v)) && Render(v) != "" && Render(v)[|Render(v)| - 1] != ':'
  {
  }

  lemma {:induction false} NumberIsNoWord(n: int)
    ensures var s := RenderInt(n);
            && s != "" && (IsDigit(s[0]) || s[0] == '-')
            && ParseStripped(s) == if ParseInt(s).Some? then Number(ParseInt(s).value) else Str(s)
  {
    var s := RenderInt(n);
    assert IsDigit(s[0]) || s[0] == '-';
    assert Lower(s[0]) == s[0];
  }

  lemma {:induction false} StrippedRoundTrip(v: Scalar)
    ensures ParseStripped(Render(v)) == v <==> Readable(v)
  {
    var text := Render(v);
    match v
    case Str(s) =>
      assert Quoted(text, '"') && |text| > 1;
      assert text[1..|text| - 1] == s;
    case Flag(_) =>
    case Null =>
    case Number(n) =>
      NumberIsNoWord(n);
      IntRoundTrip(n);
  }

  /** Every rendered scalar is read back, whatever spaces surround it: strings with
      quotes, digits or blanks at their ends included. */
  lemma {:induction false} ScalarRoundTrip(v: Scalar, before: string, after: string)
    requires AllSpace(before) && AllSpace(after)
    ensures ParseScalar(before + Render(v) + after) == v <==> Readable(v)
  {
    RenderedIsTrimmed(v);
    StripPadded(before, Render(v), after);
    StrippedRoundTrip(v);
  }
}
