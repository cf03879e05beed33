/** The limited walk over an approved repository: `_walk_safe_tree` and
    `_should_skip_path` of core/repo_context_gatherer.py.

    Paths are the lists of names below the root. The file system answers by path, so
    directory links that lead back up are simply paths without end. */
module SafeTree {
  import opened Wrappers

  type Path = seq<string>

  /** `listing` is a directory's names in the order the walk takes them, absent when
      the directory cannot be read; the name predicates are those on lower-cased names,
      and `skippedFile` covers suffix, size and failing `stat`. */
  datatype FileSystem = FileSystem(
    listing: Path -> Option<seq<string>>,
    isDirectory: Path -> bool,
    skippedDirectoryName: string -> bool,
    secretName: string -> bool,
    skippedFile: Path -> bool)

  datatype Warning = Unreadable(directory: Path) | Limited

  function Names(fs: FileSystem, dir: Path): seq<string> {
    if fs.listing(dir).Some? then fs.listing(dir).value else []
  }

  /** A directory never lists a name twice. */
  ghost predicate DistinctNames(fs: FileSystem) {
    forall dir: Path, i: nat, j: nat :: i < j < |Names(fs, dir)| ==> Names(fs, dir)[i] != Names(fs, dir)[j]
  }

  /** `_should_skip_path` */
  predicate ShouldSkip(fs: FileSystem, p: Path)
    requires p != []
  {
    || (exists i :: 0 <= i < |p| && fs.skippedDirectoryName(p[i]))
    || fs.secretName(p[|p| - 1])
    || (!fs.isDirectory(p) && fs.skippedFile(p))
  }

  // ------------------------------------------------------------ the unlimited walk

  /** The walk goes into such an entry. */
  predicate Enters(fs: FileSystem, maxDepth: int, p: Path) {
    fs.isDirectory(p) && |p| < maxDepth
  }

  /** Depth-first listing below `dir`, restricted to its first `n` names. */
  function Below(fs: FileSystem, maxDepth: int, dir: Path, n: nat): seq<Path>
    requires n <= |Names(fs, dir)|
    decreases if |dir| < maxDepth then maxDepth - |dir| else 0, n
  {
    if n == 0 then []
    else
      var child := dir + [Names(fs, dir)[n - 1]];
      Below(fs, maxDepth, dir, n - 1)
      + (if ShouldSkip(fs, child) then []
         else [child] + (if Enters(fs, maxDepth, child) then Below(fs, maxDepth, child, |Names(fs, child)|) else []))
  }

  function Preorder(fs: FileSystem, maxDepth: int, dir: Path): seq<Path> {
    Below(fs, maxDepth, dir, |Names(fs, dir)|)
  }

  /** What is listed strictly below an entry. */
  function Subtree(fs: FileSystem, maxDepth: int, child: Path): seq<Path> {
    if Enters(fs, maxDepth, child) then Preorder(fs, maxDepth, child) else []
  }

  /** What is listed for one name of a directory. */
  function Entry(fs: FileSystem, maxDepth: int, child: Path): seq<Path>
    requires child != []
  {
    if ShouldSkip(fs, child) then [] else [child] + Subtree(fs, maxDepth, child)
  }

  lemma {:induction false} BelowStep(fs: FileSystem, maxDepth: int, dir: Path, n: nat)
    requires 0 < n <= |Names(fs, dir)|
    ensures Below(fs, maxDepth, dir, n)
         == Below(fs, maxDepth, dir, n - 1) + Entry(fs, maxDepth, dir + [Names(fs, dir)[n - 1]])
  {
  }

  /** What is reported as skipped below `dir`, restricted to its first `n` names. */
  function SkippedBelow(fs: FileSystem, maxDepth: int, dir: Path, n: nat): seq<Path>
    requires n <= |Names(fs, dir)|
    decreases if |dir| < maxDepth then maxDepth - |dir| else 0, n
  {
    if n == 0 then []
    else
      var child := dir + [Names(fs, dir)[n - 1]];
      SkippedBelow(fs, maxDepth, dir, n - 1)
      + (if ShouldSkip(fs, child) then [child]
         else if !Enters(fs, maxDepth, child) then []
         else if fs.listing(child).None? then [child]
         else SkippedBelow(fs, maxDepth, child, |Names(fs, child)|))
  }

  function SkippedIn(fs: FileSystem, maxDepth: int, dir: Path): seq<Path> {
    if fs.listing(dir).None? then [dir] else SkippedBelow(fs, maxDepth, dir, |Names(fs, dir)|)
  }

  /** What is reported as skipped for one name of a directory. */
  function SkippedFor(fs: FileSystem, maxDepth: int, child: Path): seq<Path>
    requires child != []
  {
    if ShouldSkip(fs, child) then [child]
    else if Enters(fs, maxDepth, child) then SkippedIn(fs, maxDepth, child)
    else []
  }

  lemma {:induction false} SkippedStep(fs: FileSystem, maxDepth: int, dir: Path, n: nat)
    requires 0 < n <= |Names(fs, dir)|
    ensures SkippedBelow(fs, maxDepth, dir, n)
         == SkippedBelow(fs, maxDepth, dir, n - 1) + SkippedFor(fs, maxDepth, dir + [Names(fs, dir)[n - 1]])
  {
  }

  // ------------------------------------------------------------- what it lists

  /** The name at `k - 1` is listed there and not skipped, and the walk goes on through it. */
  ghost predicate StepOk(fs: FileSystem, maxDepth: int, p: Path, k: nat)
    requires 0 < k <= |p|
  {
    p[k - 1] in Names(fs, p[..k - 1]) && !ShouldSkip(fs, p[..k]) && (k < |p| ==> Enters(fs, maxDepth, p[..k]))
  }

  /** Every step below `dir` is listed, not skipped, and within the depth. */
  ghost predicate Reachable(fs: FileSystem, maxDepth: int, dir: Path, p: Path) {
    dir < p && forall k :: |dir| < k <= |p| ==> StepOk(fs, maxDepth, p, k)
  }

  lemma {:induction false} BelowMember(fs: FileSystem, maxDepth: int, dir: Path, n: nat, p: Path)
    requires 0 < n <= |Names(fs, dir)|
    ensures p in Below(fs, maxDepth, dir, n) <==>
            p in Below(fs, maxDepth, dir, n - 1) || p in Entry(fs, maxDepth, dir + [Names(fs, dir)[n - 1]])
  {
    BelowStep(fs, maxDepth, dir, n);
  }

  lemma {:induction false} EntryMember(fs: FileSystem, maxDepth: int, child: Path, p: Path)
    requires child != []
    ensures p in Entry(fs, maxDepth, child) <==>
            !ShouldSkip(fs, child) && (p == child || (Enters(fs, maxDepth, child) && p in Preorder(fs, maxDepth, child)))
  {
  }

  lemma {:induction false} ReachableThrough(fs: FileSystem, maxDepth: int, dir: Path, name: string, p: Path)
    requires name in Names(fs, dir)
    ensures var child := dir + [name];
            && (Reachable(fs, maxDepth, dir, p) && p[|dir|] == name <==>
                !ShouldSkip(fs, child) && (p == child || (Enters(fs, maxDepth, child) && Reachable(fs, maxDepth, child, p))))
            && (Reachable(fs, maxDepth, child, p) ==> p[|child|] in Names(fs, child)[..|Names(fs, child)|])
  {
    var d, child := |dir|, dir + [name];
    if dir < p && p[d] == name {
      assert p[..d + 1] == child && p[..d] == dir;
      assert StepOk(fs, maxDepth, p, d + 1) <==> !ShouldSkip(fs, child) && (p == child || Enters(fs, maxDepth, child));
      if child < p && Reachable(fs, maxDepth, child, p) {
        assert StepOk(fs, maxDepth, p, d + 2);
        assert p[..d + 2][..d + 1] == child;
      }
    }
  }

  /** The unlimited walk lists exactly the reachable paths. */
  lemma {:induction false} BelowExact(fs: FileSystem, maxDepth: int, dir: Path, n: nat, p: Path)
    requires n <= |Names(fs, dir)|
    ensures p in Below(fs, maxDepth, dir, n) <==>
            Reachable(fs, maxDepth, dir, p) && p[|dir|] in Names(fs, dir)[..n]
    decreases if |dir| < maxDepth then maxDepth - |dir| else 0, n
  {
    if n > 0 {
      var name := Names(fs, dir)[n - 1];
      var child := dir + [name];
      BelowMember(fs, maxDepth, dir, n, p);
      BelowExact(fs, maxDepth, dir, n - 1, p);
      assert Names(fs, dir)[..n] == Names(fs, dir)[..n - 1] + [name];
      if Enters(fs, maxDepth, child) {
        BelowExact(fs, maxDepth, child, |Names(fs, child)|, p);
      }
      EntryMember(fs, maxDepth, child, p);
      ReachableThrough(fs, maxDepth, dir, name, p);
    }
  }

  // ------------------------------------------------------------ in which order

  /** `a` comes before `b`: it is above `b`, or where they part its name is listed first. */
  ghost predicate Precedes(fs: FileSystem, a: Path, b: Path) {
    || a < b
    || exists k, i, j ::
         && 0 <= k < |a| && k < |b| && a[..k] == b[..k]
         && 0 <= i < j < |Names(fs, a[..k])|
         && a[k] == Names(fs, a[..k])[i] && b[k] == Names(fs, a[..k])[j]
  }

  ghost predicate Ordered(fs: FileSystem, s: seq<Path>) {
    forall i, j :: 0 <= i < j < |s| ==> Precedes(fs, s[i], s[j])
  }

  /** Everything listed below `dir` is strictly below it, through one of the first `n` names. */
  lemma {:induction false} BelowIsUnder(fs: FileSystem, maxDepth: int, dir: Path, n: nat, p: Path)
    requires n <= |Names(fs, dir)| && p in Below(fs, maxDepth, dir, n)
    ensures dir < p && exists m :: 0 <= m < n && p[|dir|] == Names(fs, dir)[m]
  {
    BelowExact(fs, maxDepth, dir, n, p);
  }

  lemma {:induction false} OrderedConcat(fs: FileSystem, a: seq<Path>, b: seq<Path>)
    requires Ordered(fs, a) && Ordered(fs, b)
    requires forall x, y :: x in a && y in b ==> Precedes(fs, x, y)
    ensures Ordered(fs, a + b)
  {
  }

  lemma {:induction false} EntryIsUnder(fs: FileSystem, maxDepth: int, child: Path, p: Path)
    requires child != [] && p in Entry(fs, maxDepth, child)
    ensures child <= p
  {
    if p != child {
      BelowIsUnder(fs, maxDepth, child, |Names(fs, child)|, p);
    }
  }

  lemma {:induction false} EntryOrdered(fs: FileSystem, maxDepth: int, child: Path)
    requires child != [] && Ordered(fs, Subtree(fs, maxDepth, child))
    ensures Ordered(fs, Entry(fs, maxDepth, child))
  {
    var below := Subtree(fs, maxDepth, child);
    forall y | y in below
      ensures child < y
    {
      BelowIsUnder(fs, maxDepth, child, |Names(fs, child)|, y);
    }
    OrderedConcat(fs, [child], below);
  }

  lemma {:induction false} PartsAt(fs: FileSystem, dir: Path, x: Path, y: Path, n: nat)
    requires dir < x && dir < y && n < |Names(fs, dir)| && y[|dir|] == Names(fs, dir)[n]
    requires exists m :: 0 <= m < n && x[|dir|] == Names(fs, dir)[m]
    ensures Precedes(fs, x, y)
  {
    assert x[..|dir|] == dir && y[..|dir|] == dir;
  }

  /** The listing is in depth-first order: above before below, earlier names first. */
  lemma {:induction false} BelowOrdered(fs: FileSystem, maxDepth: int, dir: Path, n: nat)
    requires n <= |Names(fs, dir)|
    ensures Ordered(fs, Below(fs, maxDepth, dir, n))
    decreases if |dir| < maxDepth then maxDepth - |dir| else 0, n
  {
    if n > 0 {
      var child := dir + [Names(fs, dir)[n - 1]];
      var before := Below(fs, maxDepth, dir, n - 1);
      BelowStep(fs, maxDepth, dir, n);
      BelowOrdered(fs, maxDepth, dir, n - 1);
      if Enters(fs, maxDepth, child) {
        BelowOrdered(fs, maxDepth, child, |Names(fs, child)|);
      }
      EntryOrdered(fs, maxDepth, child);
      forall x, y | x in before && y in Entry(fs, maxDepth, child)
        ensures Precedes(fs, x, y)
      {
        BelowIsUnder(fs, maxDepth, dir, n - 1, x);
        EntryIsUnder(fs, maxDepth, child, y);
        PartsAt(fs, dir, x, y, n - 1);
      }
      OrderedConcat(fs, before, Entry(fs, maxDepth, child));
    }
  }

  // ------------------------------------------------------------ the limited walk

  function Take<T>(s: seq<T>, k: nat): seq<T> {
    if |s| <= k then s else s[..k]
  }

  /** Something beyond the first `k` entries does not lie under entry `k - 1`. */
  ghost predicate OmitsElsewhere(s: seq<Path>, k: int) {
    0 < k && exists j :: k <= j < |s| && !(s[k - 1] <= s[j])
  }

  /** A warning about the limit was added after the first `n` warnings. */
  ghost predicate LimitedSince(n: nat, warnings: seq<Warning>) {
    exists j :: n <= j < |warnings| && warnings[j] == Limited
  }

  lemma {:induction false} SinceThen(n: nat, before: seq<Warning>, after: seq<Warning>)
    requires n <= |before| && before <= after
    ensures LimitedSince(n, after) <==> LimitedSince(n, before) || LimitedSince(|before|, after)
  {
    forall j | n <= j < |before|
      ensures before[j] == after[j]
    {
    }
  }

  lemma {:induction false} BelowPrefix(fs: FileSystem, maxDepth: int, dir: Path, i: nat, n: nat)
    requires i <= n <= |Names(fs, dir)|
    ensures Below(fs, maxDepth, dir, i) <= Below(fs, maxDepth, dir, n)
  {
    if i < n {
      BelowPrefix(fs, maxDepth, dir, i, n - 1);
      BelowStep(fs, maxDepth, dir, n);
    }
  }

  /** Once the list is full, a further name that is not skipped lies elsewhere. */
  lemma {:induction false} FullMeansElsewhere(fs: FileSystem, maxDepth: int, dir: Path, i: nat, k: nat)
    requires DistinctNames(fs) && i < |Names(fs, dir)| && 0 < k <= |Below(fs, maxDepth, dir, i)|
    requires !ShouldSkip(fs, dir + [Names(fs, dir)[i]])
    ensures OmitsElsewhere(Preorder(fs, maxDepth, dir), k)
  {
    var s, child := Below(fs, maxDepth, dir, i), dir + [Names(fs, dir)[i]];
    var all := Preorder(fs, maxDepth, dir);
    BelowStep(fs, maxDepth, dir, i + 1);
    BelowPrefix(fs, maxDepth, dir, i + 1, |Names(fs, dir)|);
    BelowIsUnder(fs, maxDepth, dir, i, s[k - 1]);
    assert all[|s|] == child && all[k - 1] == s[k - 1];
    assert child[|dir|] == Names(fs, dir)[i];
  }

  /** While the list is not full, only what lies below the next entry `c` decides. */
  lemma {:induction false} TailDecides(s: seq<Path>, c: Path, below: seq<Path>, k: int)
    requires |s| < k && forall y :: y in below ==> c <= y
    ensures OmitsElsewhere(s + ([c] + below), k) <==> OmitsElsewhere(below, k - |s| - 1)
  {
    var all, at := s + ([c] + below), |s| + 1;
    assert all[|s|] == c && forall j :: at <= j < |all| ==> all[j] == below[j - at];
    if OmitsElsewhere(all, k) {
      var j :| k <= j < |all| && !(all[k - 1] <= all[j]);
      assert all[j] == below[j - at] && below[j - at] in below;
      assert all[k - 1] == if k == at then c else below[k - 1 - at];
    }
    if OmitsElsewhere(below, k - at) {
      var j :| k - at <= j < |below| && !(below[k - at - 1] <= below[j]);
      assert all[at + j] == below[j] && all[k - 1] == below[k - 1 - at];
    }
  }

  /** Where a walk that began with the entries `start` stands after listing `s`. */
  ghost predicate WalkedTo(start: seq<Path>, warnedBefore: nat, entries: seq<Path>, warnings: seq<Warning>,
                           s: seq<Path>, limit: nat) {
    && entries == Take(start + s, limit)
    && (LimitedSince(warnedBefore, warnings) <==> OmitsElsewhere(s, limit - |start|))
  }

  lemma {:induction false} VisitWalks(start: seq<Path>, warnedBefore: nat, entries: seq<Path>, warnings: seq<Warning>,
                                      s: seq<Path>, limit: nat, c: Path, below: seq<Path>, entries': seq<Path>,
                                      warnings': seq<Warning>)
    requires WalkedTo(start, warnedBefore, entries, warnings, s, limit) && |entries| < limit
    requires warnedBefore <= |warnings| && warnings <= warnings'
    requires forall y :: y in below ==> c <= y
    requires WalkedTo(entries + [c], |warnings|, entries', warnings', below, limit)
    ensures WalkedTo(start, warnedBefore, entries', warnings', s + ([c] + below), limit)
  {
    assert entries == start + s;
    assert start + s + [c] + below == start + (s + ([c] + below));
    TailDecides(s, c, below, limit - |start|);
    SinceThen(warnedBefore, warnings, warnings');
  }

  lemma {:induction false} SubtreeIsUnder(fs: FileSystem, maxDepth: int, child: Path)
    ensures forall y :: y in Subtree(fs, maxDepth, child) ==> child <= y
  {
    forall y | y in Subtree(fs, maxDepth, child)
      ensures child <= y
    {
      BelowIsUnder(fs, maxDepth, child, |Names(fs, child)|, y);
    }
  }

  /** Unless the list is full, everything due was reported as skipped. */
  ghost predicate Accounted(before: seq<Path>, skipped: seq<Path>, count: nat, limit: nat, due: seq<Path>) {
    count < limit ==> skipped == before + due
  }

  lemma {:induction false} AccountedOn(before: seq<Path>, due: seq<Path>, more: seq<Path>)
    ensures before + (due + more) == before + due + more
  {
  }

  lemma {:induction false} TakeOfLonger(start: seq<Path>, s: seq<Path>, all: seq<Path>, limit: nat)
    requires s <= all && limit <= |start + s|
    ensures Take(start + s, limit) == Take(start + all, limit)
  {
  }

  /** The list is full and the next name is not skipped: nothing more is listed, and
      the warning is due. */
  lemma {:induction false} FullWalk(fs: FileSystem, maxDepth: int, dir: Path, i: nat, start: seq<Path>,
                                    warnedBefore: nat, entries: seq<Path>, warnings: seq<Warning>, limit: nat)
    requires DistinctNames(fs) && i < |Names(fs, dir)| && !ShouldSkip(fs, dir + [Names(fs, dir)[i]])
    requires |start| < limit <= |entries| && warnedBefore <= |warnings|
    requires WalkedTo(start, warnedBefore, entries, warnings, Below(fs, maxDepth, dir, i), limit)
    ensures WalkedTo(start, warnedBefore, entries, warnings + [Limited], Preorder(fs, maxDepth, dir), limit)
  {
    var s, all := Below(fs, maxDepth, dir, i), Preorder(fs, maxDepth, dir);
    BelowPrefix(fs, maxDepth, dir, i, |Names(fs, dir)|);
    TakeOfLonger(start, s, all, limit);
    FullMeansElsewhere(fs, maxDepth, dir, i, limit - |start|);
    assert (warnings + [Limited])[|warnings|] == Limited;
  }

  class Walker {
    const fs: FileSystem
    const maxDepth: int
    const maxEntries: int
    var entries: seq<Path>
    var skipped: seq<Path>
    var warnings: seq<Warning>

    function Limit(): nat {
      if maxEntries < 0 then 0 else maxEntries
    }

    constructor (fs: FileSystem, maxDepth: int, maxEntries: int)
      ensures entries == [] && skipped == [] && warnings == []
      ensures this.fs == fs && this.maxDepth == maxDepth && this.maxEntries == maxEntries
    {
      this.fs, this.maxDepth, this.maxEntries := fs, maxDepth, maxEntries;
      entries, skipped, warnings := [], [], [];
    }

    /** Lists one entry and, where the walk enters it, what is below it. */
    method Visit(child: Path, depth: int)
      requires DistinctNames(fs) && depth == |child| > 0 && |entries| < Limit() && !ShouldSkip(fs, child)
      modifies this
      decreases if |child| <= maxDepth then maxDepth - |child| + 1 else 0, 0
      ensures WalkedTo(old(entries) + [child], |old(warnings)|, entries, warnings, Subtree(fs, maxDepth, child), Limit())
      ensures old(warnings) <= warnings
      ensures Accounted(old(skipped), skipped, |entries|, Limit(), SkippedFor(fs, maxDepth, child))
    {
      entries := entries + [child];
      if fs.isDirectory(child) && depth < maxDepth {
        Walk(child, depth + 1);
      }
    }

    method Walk(directory: Path, depth: int)
      requires DistinctNames(fs) && depth == |directory| + 1 && |entries| <= Limit()
      modifies this
      decreases if |directory| < maxDepth then maxDepth - |directory| else 0, 2
      ensures WalkedTo(old(entries), |old(warnings)|, entries, warnings, Preorder(fs, maxDepth, directory), Limit())
      ensures old(warnings) <= warnings
      ensures Accounted(old(skipped), skipped, |entries|, Limit(), SkippedIn(fs, maxDepth, directory))
    {
      if |entries| >= maxEntries {
        return;
      }
      var names := fs.listing(directory);
      if names.None? {
        skipped := skipped + [directory];
        warnings := warnings + [Unreadable(directory)];
        return;
      }
      WalkChildren(directory, depth, names.value);
    }

    /** The loop over the children of a directory. */
    method WalkChildren(directory: Path, depth: int, children: seq<string>)
      requires DistinctNames(fs) && depth == |directory| + 1 && |entries| < Limit() && fs.listing(directory) == Some(children)
      modifies this
      decreases if |directory| < maxDepth then maxDepth - |directory| else 0, 1
      ensures WalkedTo(old(entries), |old(warnings)|, entries, warnings, Preorder(fs, maxDepth, directory), Limit())
      ensures old(warnings) <= warnings
      ensures Accounted(old(skipped), skipped, |entries|, Limit(), SkippedBelow(fs, maxDepth, directory, |children|))
    {
      for i := 0 to |children|
        invariant WalkedTo(old(entries), |old(warnings)|, entries, warnings, Below(fs, maxDepth, directory, i), Limit())
        invariant old(warnings) <= warnings
        invariant Accounted(old(skipped), skipped, |entries|, Limit(), SkippedBelow(fs, maxDepth, directory, i))
      {
        var child := directory + [children[i]];
        ghost var listed := Below(fs, maxDepth, directory, i);
        BelowStep(fs, maxDepth, directory, i + 1);
        SkippedStep(fs, maxDepth, directory, i + 1);
        AccountedOn(old(skipped), SkippedBelow(fs, maxDepth, directory, i), SkippedFor(fs, maxDepth, child));
        if ShouldSkip(fs, child) {
          skipped := skipped + [child];
          assert listed + [] == listed;
          continue;
        }
        if |entries| >= maxEntries {
          FullWalk(fs, maxDepth, directory, i, old(entries), |old(warnings)|, entries, warnings, Limit());
          warnings := warnings + [Limited];
          return;
        }
        ghost var entered, warned := entries, warnings;
        Visit(child, depth);
        SubtreeIsUnder(fs, maxDepth, child);
        VisitWalks(old(entries), |old(warnings)|, entered, warned, listed, Limit(),
                   child, Subtree(fs, maxDepth, child), entries, warnings);
      }
    }
  }

  /** `_walk_safe_tree`: the first `maxEntries` entries of the unlimited walk. The
      warning about the limit is given exactly when something left out does not lie
      under the last entry listed; entries cut off inside it go unreported. */
  method WalkSafeTree(fs: FileSystem, maxDepth: int, maxEntries: int)
    returns (entries: seq<Path>, skipped: seq<Path>, warnings: seq<Warning>)
    requires DistinctNames(fs)
    ensures entries == Take(Preorder(fs, maxDepth, []), if maxEntries < 0 then 0 else maxEntries)
    ensures Limited in warnings <==> OmitsElsewhere(Preorder(fs, maxDepth, []), maxEntries)
    ensures |entries| < maxEntries ==> skipped == SkippedIn(fs, maxDepth, [])
  {
    var walker := new Walker(fs, maxDepth, maxEntries);
    walker.Walk([], 1);
    assert [] + Preorder(fs, maxDepth, []) == Preorder(fs, maxDepth, []);
    return walker.entries, walker.skipped, walker.warnings;
  }

  // -------------------------------------------------------------- its results

  /** The name at `k - 1` is listed there and is neither that of a skipped directory nor
      secret, and if the path goes on it goes on through a directory within the depth. */
  ghost predicate SafeStep(fs: FileSystem, maxDepth: int, p: Path, k: nat)
    requires 0 < k <= |p|
  {
    && p[k - 1] in Names(fs, p[..k - 1])
    && !fs.skippedDirectoryName(p[k - 1]) && !fs.secretName(p[k - 1])
    && (k < |p| ==> fs.isDirectory(p[..k]) && k < maxDepth)
  }

  ghost predicate SafePath(fs: FileSystem, maxDepth: int, p: Path) {
    && p != [] && (forall k :: 0 < k <= |p| ==> SafeStep(fs, maxDepth, p, k))
    && (fs.isDirectory(p) || !fs.skippedFile(p))
  }

  lemma {:induction false} SafeMeans(fs: FileSystem, maxDepth: int, p: Path)
    requires Reachable(fs, maxDepth, [], p)
    ensures SafePath(fs, maxDepth, p)
  {
    forall k | 0 < k <= |p|
      ensures SafeStep(fs, maxDepth, p, k)
    {
      assert StepOk(fs, maxDepth, p, k);
      assert p[..k][k - 1] == p[k - 1];
    }
    assert StepOk(fs, maxDepth, p, |p|) && p[..|p|] == p;
  }

  lemma {:induction false} SafeStepSuffices(fs: FileSystem, maxDepth: int, p: Path, k: nat)
    requires SafePath(fs, maxDepth, p) && 0 < k <= |p|
    ensures StepOk(fs, maxDepth, p, k)
  {
    forall i | 0 <= i < k
      ensures !fs.skippedDirectoryName(p[..k][i])
    {
      assert SafeStep(fs, maxDepth, p, i + 1);
    }
    assert SafeStep(fs, maxDepth, p, k);
    assert k == |p| ==> p[..k] == p;
  }

  /** The unlimited walk lists exactly the paths that go through listed directories
      within the depth, without a skipped or secret name, to a directory or to a file
      that is not skipped. */
  lemma {:induction false} ListedExactly(fs: FileSystem, maxDepth: int, p: Path)
    ensures p in Preorder(fs, maxDepth, []) <==> SafePath(fs, maxDepth, p)
  {
    BelowExact(fs, maxDepth, [], |Names(fs, [])|, p);
    if Reachable(fs, maxDepth, [], p) {
      SafeMeans(fs, maxDepth, p);
    }
    if SafePath(fs, maxDepth, p) {
      forall k | 0 < k <= |p|
        ensures StepOk(fs, maxDepth, p, k)
      {
        SafeStepSuffices(fs, maxDepth, p, k);
      }
      assert SafeStep(fs, maxDepth, p, 1) && p[..0] == [];
    }
  }

  /** Every entry lies within the depth, and no name on its path is that of a skipped
      directory or secret. */
  lemma {:induction false} EntriesAreSafe(fs: FileSystem, maxDepth: int, limit: nat, p: Path)
    requires p in Take(Preorder(fs, maxDepth, []), limit)
    ensures 1 <= |p| && (|p| == 1 || |p| <= maxDepth)
    ensures forall name :: name in p ==> !fs.skippedDirectoryName(name) && !fs.secretName(name)
    ensures fs.isDirectory(p) || !fs.skippedFile(p)
  {
    ListedExactly(fs, maxDepth, p);
    forall k | 0 <= k < |p|
      ensures !fs.skippedDirectoryName(p[k]) && !fs.secretName(p[k])
    {
      assert SafeStep(fs, maxDepth, p, k + 1);
    }
    if |p| > 1 {
      assert SafeStep(fs, maxDepth, p, |p| - 1);
    }
  }

  lemma {:induction false} PrecedesIsStrict(fs: FileSystem, a: Path, b: Path)
    requires DistinctNames(fs) && Precedes(fs, a, b)
    ensures !(b <= a)
  {
  }

  lemma {:induction false} ParentIsReachable(fs: FileSystem, maxDepth: int, p: Path)
    requires |p| > 1 && p in Preorder(fs, maxDepth, [])
    ensures Reachable(fs, maxDepth, [], p[..|p| - 1]) && p[0] in Names(fs, [])[..|Names(fs, [])|]
  {
    var parent := p[..|p| - 1];
    BelowExact(fs, maxDepth, [], |Names(fs, [])|, p);
    forall k | 0 < k <= |parent|
      ensures StepOk(fs, maxDepth, parent, k)
    {
      assert StepOk(fs, maxDepth, p, k);
      assert parent[..k] == p[..k] && parent[..k - 1] == p[..k - 1];
    }
  }

  lemma {:induction false} ListedOnce(fs: FileSystem, maxDepth: int, i: nat, j: nat)
    requires DistinctNames(fs) && i < j < |Preorder(fs, maxDepth, [])|
    ensures Precedes(fs, Preorder(fs, maxDepth, [])[i], Preorder(fs, maxDepth, [])[j])
    ensures !(Preorder(fs, maxDepth, [])[j] <= Preorder(fs, maxDepth, [])[i])
  {
    BelowOrdered(fs, maxDepth, [], |Names(fs, [])|);
    PrecedesIsStrict(fs, Preorder(fs, maxDepth, [])[i], Preorder(fs, maxDepth, [])[j]);
  }

  lemma {:induction false} ParentIsListed(fs: FileSystem, maxDepth: int, j: nat) returns (i: nat)
    requires DistinctNames(fs) && j < |Preorder(fs, maxDepth, [])| && |Preorder(fs, maxDepth, [])[j]| > 1
    ensures var p := Preorder(fs, maxDepth, [])[j];
            i < j && Preorder(fs, maxDepth, [])[i] == p[..|p| - 1]
  {
    var all := Preorder(fs, maxDepth, []);
    var p := all[j];
    var parent := p[..|p| - 1];
    ParentIsReachable(fs, maxDepth, p);
    BelowExact(fs, maxDepth, [], |Names(fs, [])|, parent);
    i :| 0 <= i < |all| && all[i] == parent;
    assert parent <= p && parent != p;
    if j < i {
      ListedOnce(fs, maxDepth, j, i);
    }
  }

  /** No entry is listed twice, and each one after the directory it lies in. */
  lemma {:induction false} EntriesInOrder(fs: FileSystem, maxDepth: int, limit: nat, j: nat)
    requires DistinctNames(fs) && j < |Take(Preorder(fs, maxDepth, []), limit)|
    ensures var entries := Take(Preorder(fs, maxDepth, []), limit);
            && (forall i :: 0 <= i < j ==> entries[i] != entries[j])
            && (|entries[j]| > 1 ==> exists i :: 0 <= i < j && entries[i] == entries[j][..|entries[j]| - 1])
  {
    var all := Preorder(fs, maxDepth, []);
    forall i | 0 <= i < j
      ensures all[i] != all[j]
    {
      ListedOnce(fs, maxDepth, i, j);
    }
    if |all[j]| > 1 {
      var i := ParentIsListed(fs, maxDepth, j);
      assert Take(all, limit)[i] == all[i];
    }
  }

  // --------------------------------------------- a cut that is not reported

  /** The root holds a directory `d`, which holds a file `f`; nothing is skipped. */
  function OneFileDown(d: string, f: string): FileSystem {
    FileSystem(
      p => Some(if p == [] then [d] else if p == [d] then [f] else []),
      p => p == [] || p == [d], name => false, name => false, p => false)
  }

  lemma {:induction false} PreorderOfOneFileDown(d: string, f: string)
    ensures Preorder(OneFileDown(d, f), 2, []) == [[d], [d, f]]
  {
    var fs := OneFileDown(d, f);
    assert Names(fs, []) == [d] && Names(fs, [d]) == [f];
    assert [] + [d] == [d] && [d] + [f] == [d, f];
    assert Below(fs, 2, [d], 0) == [] && Below(fs, 2, [], 0) == [];
    BelowStep(fs, 2, [d], 1);
    BelowStep(fs, 2, [], 1);
  }

  lemma {:induction false} OneFileDownIsDistinct(d: string, f: string)
    ensures DistinctNames(OneFileDown(d, f))
  {
    forall dir: Path
      ensures |Names(OneFileDown(d, f), dir)| <= 1
    {
    }
  }

  lemma {:induction false} SecondUnderFirst(all: seq<Path>, p: Path, q: Path)
    requires |all| == 2 && all[0] == p && all[1] == q && p < q
    ensures q in all && q !in Take(all, 1) && !OmitsElsewhere(all, 1)
  {
  }

  /** Limited to one entry, the walk leaves the file out and gives no limit warning. */
  lemma {:induction false} CutInsideLastEntryIsSilent(d: string, f: string)
    ensures DistinctNames(OneFileDown(d, f))
    ensures var all := Preorder(OneFileDown(d, f), 2, []);
            [d, f] in all && [d, f] !in Take(all, 1) && !OmitsElsewhere(all, 1)
  {
    OneFileDownIsDistinct(d, f);
    PreorderOfOneFileDown(d, f);
    assert [d] < [d, f];
    SecondUnderFirst(Preorder(OneFileDown(d, f), 2, []), [d], [d, f]);
  }
}
