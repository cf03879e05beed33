/** Sequences without repetitions, and subsequences. */
module Sequences {
  ghost predicate NoRepeats<T>(s: seq<T>) {
    forall i, j :: 0 <= i < j < |s| ==> s[i] != s[j]
  }

  lemma {:induction false} CountOnce<T>(s: seq<T>, x: T)
    requires NoRepeats(s)
    ensures multiset(s)[x] == if x in s then 1 else 0
  {
    if s != [] {
      var before, last := s[..|s| - 1], s[|s| - 1];
      assert s == before + [last];
      CountOnce(before, x);
      assert last !in before;
    }
  }

  ghost predicate IsSubsequence<T>(a: seq<T>, b: seq<T>) {
    || a == []
    || (b != [] && a[|a| - 1] == b[|b| - 1] && IsSubsequence(a[..|a| - 1], b[..|b| - 1]))
    || (b != [] && IsSubsequence(a, b[..|b| - 1]))
  }

  lemma {:induction false} SubsequenceInherits<T>(a: seq<T>, b: seq<T>)
    requires IsSubsequence(a, b)
    ensures forall x :: x in a ==> x in b
    ensures NoRepeats(b) ==> NoRepeats(a)
    decreases |b|
  {
    if a != [] {
      var init := b[..|b| - 1];
      assert b == init + [b[|b| - 1]];
      if a[|a| - 1] == b[|b| - 1] && IsSubsequence(a[..|a| - 1], init) {
        SubsequenceInherits(a[..|a| - 1], init);
        assert a == a[..|a| - 1] + [a[|a| - 1]];
        assert NoRepeats(b) ==> b[|b| - 1] !in init;
      } else {
        SubsequenceInherits(a, init);
      }
    }
  }

  lemma {:induction false} SubsequenceGrows<T>(a: seq<T>, b: seq<T>, x: T)
    requires IsSubsequence(a, b)
    ensures IsSubsequence(a, b + [x]) && IsSubsequence(a + [x], b + [x])
  {
    assert (a + [x])[..|a|] == a && (b + [x])[..|b|] == b;
  }

  lemma {:induction false} SubsequenceOfLonger<T>(a: seq<T>, b: seq<T>, n: nat)
    requires n <= |b| && IsSubsequence(a, b[..n])
    ensures IsSubsequence(a, b)
    decreases |b|
  {
    if n < |b| {
      assert b[..|b| - 1][..n] == b[..n];
      SubsequenceOfLonger(a, b[..|b| - 1], n);
    } else {
      assert b[..n] == b;
    }
  }

  lemma {:induction false} SubsequenceTransitive<T>(a: seq<T>, b: seq<T>, c: seq<T>)
    requires IsSubsequence(a, b) && IsSubsequence(b, c)
    ensures IsSubsequence(a, c)
    decreases |b| + |c|
  {
    if a != [] {
      var b', c' := b[..|b| - 1], c[..|c| - 1];
      if IsSubsequence(b, c') {
        SubsequenceTransitive(a, b, c');
      } else if IsSubsequence(a, b') {
        SubsequenceTransitive(a, b', c');
      } else {
        SubsequenceTransitive(a[..|a| - 1], b', c');
      }
    }
  }

  lemma {:induction false} SubsequenceOfItself<T>(a: seq<T>)
    ensures IsSubsequence(a, a)
  {
    if a != [] {
      SubsequenceOfItself(a[..|a| - 1]);
    }
  }
}
