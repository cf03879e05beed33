/** Python string operations the models share. */
module Text {

  /** The characters `str.strip` removes. */
  predicate IsSpace(c: char) {
    var n := c as int;
    || 0x09 <= n <= 0x0D || 0x1C <= n <= 0x20 || n == 0x85 || n == 0xA0 || n == 0x1680
    || 0x2000 <= n <= 0x200A || n == 0x2028 || n == 0x2029 || n == 0x202F || n == 0x205F || n == 0x3000
  }

  /** The 29 characters, one by one. */
  lemma {:induction false} IsSpaceExact(c: char)
    ensures IsSpace(c) <==>
            (c as int) in {0x09, 0x0A, 0x0B, 0x0C, 0x0D, 0x1C, 0x1D, 0x1E, 0x1F, 0x20, 0x85, 0xA0, 0x1680, 0x2000, 0x2001,
                           0x2002, 0x2003, 0x2004, 0x2005, 0x2006, 0x2007, 0x2008, 0x2009, 0x200A, 0x2028, 0x2029,
                           0x202F, 0x205F, 0x3000}
  {
  }

  /** Index of the first character at or after `from` that is not whitespace. */
  function InkStart(s: string, from: nat): (i: nat)
    requires from <= |s|
    ensures from <= i <= |s| && (i < |s| ==> !IsSpace(s[i]))
    ensures forall k :: from <= k < i ==> IsSpace(s[k])
    decreases |s| - from
  {
    if from < |s| && IsSpace(s[from]) then InkStart(s, from + 1) else from
  }

  /** Index after the last character of `s[from..to]` that is not whitespace. */
  function InkEnd(s: string, from: nat, to: nat): (i: nat)
    requires from <= to <= |s|
    ensures from <= i <= to && (from < i ==> !IsSpace(s[i - 1]))
    ensures forall k :: i <= k < to ==> IsSpace(s[k])
  {
    if from < to && IsSpace(s[to - 1]) then InkEnd(s, from, to - 1) else to
  }

  /** `str.strip` */
  function Strip(s: string): string {
    var start := InkStart(s, 0);
    s[start..InkEnd(s, start, |s|)]
  }

  /** No whitespace at either end. */
  predicate Trimmed(s: string) {
    s != [] ==> !IsSpace(s[0]) && !IsSpace(s[|s| - 1])
  }

  ghost predicate AllSpace(s: string) {
    forall i :: 0 <= i < |s| ==> IsSpace(s[i])
  }

  lemma {:induction false} StripTrims(s: string)
    ensures Trimmed(Strip(s))
    ensures Trimmed(s) ==> Strip(s) == s
  {
  }

  /** Whitespace around a trimmed text does not matter. */
  lemma {:induction false} StripPadded(before: string, core: string, after: string)
    requires AllSpace(before) && AllSpace(after) && Trimmed(core)
    ensures Strip(before + core + after) == core
  {
    var s := before + core + after;
    var start := InkStart(s, 0);
    if core == [] {
      assert start == |s|;
    } else {
      assert s[|before|] == core[0] && s[|before| + |core| - 1] == core[|core| - 1];
      assert start == |before|;
      assert InkEnd(s, start, |s|) == |before| + |core|;
      assert s[|before|..|before| + |core|] == core;
    }
  }

  /** Lower case of ASCII letters; no other character lowers to one of the words compared with. */
  function Lower(c: char): char {
    if 'A' <= c <= 'Z' then (c as int + 32) as char else c
  }

  /** The capital of a lower-case letter. */
  ghost function Capital(c: char): char
    requires 'a' <= c <= 'z'
  {
    "ABCDEFGHIJKLMNOPQRSTUVWXYZ"[c as int - 'a' as int]
  }

  /** Every capital is lowered to its letter, and nothing else changes. */
  lemma {:induction false} LowerExact(c: char)
    ensures 'a' <= c <= 'z' ==> Lower(Capital(c)) == c
    ensures Lower(c) != c ==> 'a' <= Lower(c) <= 'z' && c == Capital(Lower(c))
  {
    var capitals := "ABCDEFGHIJKLMNOPQRSTUVWXYZ";
    assert forall k :: 0 <= k < 26 ==> capitals[k] == ('A' as int + k) as char;
  }

  predicate EqualsIgnoringCase(s: string, word: string) {
    |s| == |word| && forall i :: 0 <= i < |s| ==> Lower(s[i]) == word[i]
  }
}
