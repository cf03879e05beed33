/** Ordered runtime candidates of a role: `_build_runtime_candidates` and the routed
    reordering of core/model_invoker.py. */
module Candidates {

  datatype Origin = Preferred | Fallback | Supplementary

  datatype Candidate = Candidate(tag: string, model: string, origin: Origin)

  /** A normalised role entry; the string lists are already stripped. */
  datatype Role = Role(
    preferredTag: string, preferredModel: string,
    preferredTags: seq<string>, preferredModels: seq<string>,
    fallbackTags: seq<string>, fallbackModels: seq<string>,
    supplementaryTags: seq<string>, supplementaryModels: seq<string>)

  // ------------------------------------------------------------ specification

  /** `_append_candidate`: candidates without a tag are dropped. */
  function Appended(tag: string, model: string, origin: Origin): seq<Candidate> {
    if tag == "" then [] else [Candidate(tag, model, origin)]
  }

  function Segment(tags: seq<string>, models: seq<string>, origin: Origin): seq<Candidate> {
    if tags == [] then []
    else
      var n := |tags| - 1;
      Segment(tags[..n], models, origin) + Appended(tags[n], if n < |models| then models[n] else "", origin)
  }

  /** Declaration order, duplicates included. */
  function Declared(role: Role): seq<Candidate> {
    Appended(role.preferredTag, role.preferredModel, Preferred)
    + Segment(role.preferredTags, role.preferredModels, Preferred)
    + Segment(role.fallbackTags, role.fallbackModels, Fallback)
    + Segment(role.supplementaryTags, role.supplementaryModels, Supplementary)
  }

  function Tags(cs: seq<Candidate>): seq<string> {
    seq(|cs|, i requires 0 <= i < |cs| => cs[i].tag)
  }

  /** Only the first candidate of each tag. */
  function Dedupe(cs: seq<Candidate>): seq<Candidate> {
    if cs == [] then []
    else
      var before := Dedupe(cs[..|cs| - 1]);
      if cs[|cs| - 1].tag in Tags(before) then before else before + [cs[|cs| - 1]]
  }

  /** The first `n` candidates that have the tag, or that do not. */
  function Selected(cs: seq<Candidate>, tag: string, equal: bool, n: nat): seq<Candidate>
    requires n <= |cs|
  {
    if n == 0 then []
    else Selected(cs, tag, equal, n - 1) + (if (cs[n - 1].tag == tag) == equal then [cs[n - 1]] else [])
  }

  function Select(cs: seq<Candidate>, tag: string, equal: bool): seq<Candidate> {
    Selected(cs, tag, equal, |cs|)
  }

  /** The stable sort whose key puts the routed tag first. */
  function RoutedFirst(cs: seq<Candidate>, routed: string): seq<Candidate> {
    if routed == "" then cs else Select(cs, routed, true) + Select(cs, routed, false)
  }

  // --------------------------------------------------------------- properties

  /** The lists name the candidate: a tag that is not blank, with the model at the same
      position if there is one. */
  ghost predicate Names(tags: seq<string>, models: seq<string>, c: Candidate) {
    exists i :: 0 <= i < |tags| && tags[i] == c.tag != "" && c.model == if i < |models| then models[i] else ""
  }

  lemma {:induction false} SegmentExact(tags: seq<string>, models: seq<string>, origin: Origin, c: Candidate)
    ensures c in Segment(tags, models, origin) <==> c.origin == origin && Names(tags, models, c)
  {
    if tags != [] {
      var n := |tags| - 1;
      SegmentExact(tags[..n], models, origin, c);
      assert Names(tags[..n], models, c) ==> Names(tags, models, c) by {
        if i :| 0 <= i < n && tags[..n][i] == c.tag != "" && c.model == if i < |models| then models[i] else "" {
          assert tags[i] == c.tag;
        }
      }
      if i :| 0 <= i < |tags| && tags[i] == c.tag != "" && c.model == if i < |models| then models[i] else "" {
        assert i == n || tags[..n][i] == c.tag;
      }
    }
  }

  /** Later tags only add candidates behind those of earlier ones. */
  lemma {:induction false} SegmentGrows(tags: seq<string>, models: seq<string>, origin: Origin, n: nat)
    requires n <= |tags|
    ensures Segment(tags[..n], models, origin) <= Segment(tags, models, origin)
    decreases |tags|
  {
    if n < |tags| {
      assert tags[..|tags| - 1][..n] == tags[..n];
      SegmentGrows(tags[..|tags| - 1], models, origin, n);
    } else {
      assert tags[..n] == tags;
    }
  }

  /** What a role declares: its single preferred tag and the three lists. */
  lemma {:induction false} DeclaredExact(role: Role, c: Candidate)
    ensures c in Declared(role) <==>
            || (c == Candidate(role.preferredTag, role.preferredModel, Preferred) && c.tag != "")
            || (c.origin.Preferred? && Names(role.preferredTags, role.preferredModels, c))
            || (c.origin.Fallback? && Names(role.fallbackTags, role.fallbackModels, c))
            || (c.origin.Supplementary? && Names(role.supplementaryTags, role.supplementaryModels, c))
  {
    SegmentExact(role.preferredTags, role.preferredModels, Preferred, c);
    SegmentExact(role.fallbackTags, role.fallbackModels, Fallback, c);
    SegmentExact(role.supplementaryTags, role.supplementaryModels, Supplementary, c);
  }

  /** The single preferred tag is first; no preferred candidate follows a fallback and
      no fallback follows a supplementary one. */
  lemma {:induction false} DeclaredInOrder(role: Role)
    ensures role.preferredTag != "" ==>
              Declared(role) != [] && Declared(role)[0] == Candidate(role.preferredTag, role.preferredModel, Preferred)
    ensures forall i, j :: 0 <= i < j < |Declared(role)| ==>
                             && (Declared(role)[j].origin.Preferred? ==> Declared(role)[i].origin.Preferred?)
                             && (Declared(role)[i].origin.Supplementary? ==> Declared(role)[j].origin.Supplementary?)
  {
    var first := Appended(role.preferredTag, role.preferredModel, Preferred);
    var preferred := Segment(role.preferredTags, role.preferredModels, Preferred);
    var fallback := Segment(role.fallbackTags, role.fallbackModels, Fallback);
    var supplementary := Segment(role.supplementaryTags, role.supplementaryModels, Supplementary);
    forall c
      ensures c in preferred ==> c.origin.Preferred?
      ensures c in fallback ==> c.origin.Fallback?
      ensures c in supplementary ==> c.origin.Supplementary?
    {
      SegmentExact(role.preferredTags, role.preferredModels, Preferred, c);
      SegmentExact(role.fallbackTags, role.fallbackModels, Fallback, c);
      SegmentExact(role.supplementaryTags, role.supplementaryModels, Supplementary, c);
    }
    var all := Declared(role);
    var p, f := |first| + |preferred|, |first| + |preferred| + |fallback|;
    forall k | 0 <= k < |all|
      ensures if k < p then all[k].origin.Preferred?
              else if k < f then all[k].origin.Fallback?
              else all[k].origin.Supplementary?
    {
      if |first| <= k < p {
        assert all[k] == preferred[k - |first|];
      } else if p <= k < f {
        assert all[k] == fallback[k - p];
      } else if f <= k {
        assert all[k] == supplementary[k - f];
      }
    }
  }

  lemma {:induction false} SelectedExact(cs: seq<Candidate>, tag: string, equal: bool, n: nat, c: Candidate)
    requires n <= |cs|
    ensures c in Selected(cs, tag, equal, n) <==> c in cs[..n] && (c.tag == tag <==> equal)
  {
    if n > 0 {
      SelectedExact(cs, tag, equal, n - 1, c);
      assert cs[..n] == cs[..n - 1] + [cs[n - 1]];
    }
  }

  ghost predicate DistinctTags(cs: seq<Candidate>) {
    forall i, j :: 0 <= i < j < |cs| ==> cs[i].tag != cs[j].tag
  }

  /** Position of the first candidate with a tag. */
  ghost function FirstIndex(cs: seq<Candidate>, tag: string): nat
    requires tag in Tags(cs)
    ensures FirstIndex(cs, tag) < |cs| && cs[FirstIndex(cs, tag)].tag == tag
    ensures forall i :: 0 <= i < FirstIndex(cs, tag) ==> cs[i].tag != tag
  {
    if cs[0].tag == tag then 0
    else
      assert Tags(cs)[1..] == Tags(cs[1..]);
      1 + FirstIndex(cs[1..], tag)
  }

  lemma {:induction false} FirstIndexOfPrefix(cs: seq<Candidate>, n: nat, tag: string)
    requires n <= |cs| && tag in Tags(cs[..n])
    ensures tag in Tags(cs) && FirstIndex(cs, tag) == FirstIndex(cs[..n], tag)
  {
    var k := FirstIndex(cs[..n], tag);
    assert Tags(cs)[k] == tag;
    assert forall i :: 0 <= i < k ==> cs[..n][i] == cs[i];
  }

  lemma {:induction false} FirstIndexOfNew(cs: seq<Candidate>, n: nat)
    requires n < |cs| && cs[n].tag !in Tags(cs[..n])
    ensures cs[n].tag in Tags(cs) && FirstIndex(cs, cs[n].tag) == n
  {
    assert Tags(cs)[n] == cs[n].tag;
    forall i | 0 <= i < n
      ensures cs[i].tag != cs[n].tag
    {
      assert Tags(cs[..n])[i] == cs[i].tag;
    }
  }

  /** `kept` is the candidate that first declares its tag. */
  ghost predicate IsFirst(cs: seq<Candidate>, kept: Candidate) {
    kept.tag in Tags(cs) && kept == cs[FirstIndex(cs, kept.tag)]
  }

  /** `kept` lists first declarations in the order of their positions. */
  ghost predicate KeepsFirsts(cs: seq<Candidate>, kept: seq<Candidate>) {
    && (forall k :: 0 <= k < |kept| ==> IsFirst(cs, kept[k]))
    && (forall k, m :: 0 <= k < m < |kept| ==> FirstIndex(cs, kept[k].tag) < FirstIndex(cs, kept[m].tag))
  }

  lemma {:induction false} KeepsFirstsOfLonger(cs: seq<Candidate>, n: nat, kept: seq<Candidate>)
    requires n <= |cs| && KeepsFirsts(cs[..n], kept)
    ensures KeepsFirsts(cs, kept) && forall k :: 0 <= k < |kept| ==> FirstIndex(cs, kept[k].tag) < n
  {
    forall k | 0 <= k < |kept|
      ensures IsFirst(cs, kept[k]) && FirstIndex(cs, kept[k].tag) == FirstIndex(cs[..n], kept[k].tag) < n
    {
      assert IsFirst(cs[..n], kept[k]);
      FirstIndexOfPrefix(cs, n, kept[k].tag);
    }
  }

  /** Deduplication keeps exactly the first candidate of every declared tag, in
      the order in which the tags are first declared. */
  lemma {:induction false} DedupeKeepsFirsts(cs: seq<Candidate>)
    ensures KeepsFirsts(cs, Dedupe(cs))
    ensures forall tag :: tag in Tags(Dedupe(cs)) <==> tag in Tags(cs)
    ensures DistinctTags(Dedupe(cs))
  {
    if cs != [] {
      var n := |cs| - 1;
      var kept, last := Dedupe(cs[..n]), cs[n];
      DedupeKeepsFirsts(cs[..n]);
      KeepsFirstsOfLonger(cs, n, kept);
      assert Tags(cs) == Tags(cs[..n]) + [last.tag];
      if last.tag !in Tags(kept) {
        FirstIndexOfNew(cs, n);
        assert Tags(kept + [last]) == Tags(kept) + [last.tag];
      }
    }
  }

  lemma {:induction false} DedupeExact(cs: seq<Candidate>, c: Candidate)
    ensures c in Dedupe(cs) <==> IsFirst(cs, c)
  {
    DedupeKeepsFirsts(cs);
    var kept := Dedupe(cs);
    if IsFirst(cs, c) {
      var k :| 0 <= k < |kept| && Tags(kept)[k] == c.tag;
      assert IsFirst(cs, kept[k]);
    }
  }

  lemma {:induction false} FirstIsKept(cs: seq<Candidate>)
    requires cs != []
    ensures Dedupe(cs) != [] && Dedupe(cs)[0] == cs[0]
  {
    if |cs| > 1 {
      FirstIsKept(cs[..|cs| - 1]);
    }
  }

  lemma {:induction false} SelectAbsent(cs: seq<Candidate>, tag: string, n: nat)
    requires n <= |cs| && forall k :: 0 <= k < n ==> cs[k].tag != tag
    ensures Selected(cs, tag, true, n) == [] && Selected(cs, tag, false, n) == cs[..n]
  {
    if n > 0 {
      SelectAbsent(cs, tag, n - 1);
    }
  }

  lemma {:induction false} SelectAt(cs: seq<Candidate>, tag: string, i: nat, n: nat)
    requires DistinctTags(cs) && i < n <= |cs| && cs[i].tag == tag
    ensures Selected(cs, tag, true, n) == [cs[i]] && Selected(cs, tag, false, n) == cs[..i] + cs[i + 1..n]
  {
    if n == i + 1 {
      SelectAbsent(cs, tag, i);
    } else {
      SelectAt(cs, tag, i, n - 1);
      assert cs[n - 1].tag != tag;
      assert cs[i + 1..n] == cs[i + 1..n - 1] + [cs[n - 1]];
    }
  }

  /** Candidate `i` moved to the front. */
  ghost function MoveToFront(cs: seq<Candidate>, i: nat): seq<Candidate>
    requires i < |cs|
  {
    [cs[i]] + cs[..i] + cs[i + 1..]
  }

  lemma {:induction false} RoutedAbsent(cs: seq<Candidate>, routed: string)
    requires routed !in Tags(cs)
    ensures RoutedFirst(cs, routed) == cs
  {
    forall k | 0 <= k < |cs|
      ensures cs[k].tag != routed
    {
      assert Tags(cs)[k] == cs[k].tag;
    }
    SelectAbsent(cs, routed, |cs|);
    assert cs[..|cs|] == cs;
  }

  lemma {:induction false} RoutedPresent(cs: seq<Candidate>, routed: string, i: nat)
    requires DistinctTags(cs) && i < |cs| && cs[i].tag == routed != ""
    ensures RoutedFirst(cs, routed) == MoveToFront(cs, i)
  {
    SelectAt(cs, routed, i, |cs|);
    assert cs[i + 1..|cs|] == cs[i + 1..];
    assert [cs[i]] + (cs[..i] + cs[i + 1..]) == MoveToFront(cs, i);
  }

  /** Routing moves the routed candidate to the front and nothing else. */
  lemma {:induction false} RoutedFirstMoves(cs: seq<Candidate>, routed: string)
    requires DistinctTags(cs)
    ensures routed == "" || routed !in Tags(cs) ==> RoutedFirst(cs, routed) == cs
    ensures routed != "" && routed in Tags(cs) ==> RoutedFirst(cs, routed) == MoveToFront(cs, FirstIndex(cs, routed))
  {
    if routed !in Tags(cs) {
      RoutedAbsent(cs, routed);
    } else if routed != "" {
      RoutedPresent(cs, routed, FirstIndex(cs, routed));
    }
  }

  lemma {:induction false} RoutedFirstKeeps(cs: seq<Candidate>, routed: string, c: Candidate)
    ensures c in RoutedFirst(cs, routed) <==> c in cs
  {
    SelectedExact(cs, routed, true, |cs|, c);
    SelectedExact(cs, routed, false, |cs|, c);
    assert cs[..|cs|] == cs;
  }

  lemma {:induction false} MoveKeepsDistinct(cs: seq<Candidate>, i: nat)
    requires DistinctTags(cs) && i < |cs|
    ensures DistinctTags(MoveToFront(cs, i))
  {
    var moved := MoveToFront(cs, i);
    forall k, m | 0 <= k < m < |moved|
      ensures moved[k].tag != moved[m].tag
    {
      var a := if k == 0 then i else if k <= i then k - 1 else k;
      var b := if m <= i then m - 1 else m;
      assert moved[k] == cs[a] && moved[m] == cs[b] && a != b;
    }
  }

  lemma {:induction false} MovedTags(cs: seq<Candidate>, i: nat, tag: string)
    requires i < |cs|
    ensures tag in Tags(MoveToFront(cs, i)) <==> tag in Tags(cs)
  {
    var moved := MoveToFront(cs, i);
    if tag in Tags(cs) {
      var k :| 0 <= k < |cs| && Tags(cs)[k] == tag;
      assert Tags(moved)[if k < i then k + 1 else if k == i then 0 else k] == tag;
    }
    if tag in Tags(moved) {
      var k :| 0 <= k < |moved| && Tags(moved)[k] == tag;
      assert Tags(cs)[if k == 0 then i else if k <= i then k - 1 else k] == tag;
    }
  }

  lemma {:induction false} RoutedFirstKeepsTags(cs: seq<Candidate>, routed: string)
    requires DistinctTags(cs)
    ensures DistinctTags(RoutedFirst(cs, routed))
    ensures forall tag :: tag in Tags(RoutedFirst(cs, routed)) <==> tag in Tags(cs)
  {
    RoutedFirstMoves(cs, routed);
    if routed != "" && routed in Tags(cs) {
      var i := FirstIndex(cs, routed);
      MoveKeepsDistinct(cs, i);
      forall tag
        ensures tag in Tags(MoveToFront(cs, i)) <==> tag in Tags(cs)
      {
        MovedTags(cs, i, tag);
      }
    }
  }

  // -------------------------------------------------------------- procedures

  method AppendSegment(cs: seq<Candidate>, tags: seq<string>, models: seq<string>, origin: Origin)
    returns (r: seq<Candidate>)
    ensures r == cs + Segment(tags, models, origin)
  {
    r := [];
    for i := 0 to |tags|
      invariant r == Segment(tags[..i], models, origin)
    {
      assert tags[..i + 1][..i] == tags[..i];
      var model := if i < |models| then models[i] else "";
      if tags[i] != "" {
        r := r + [Candidate(tags[i], model, origin)];
      }
    }
    assert tags[..|tags|] == tags;
    r := cs + r;
  }

  /** The loop that drops candidates whose tag has been seen. */
  method DropRepeats(candidates: seq<Candidate>) returns (deduped: seq<Candidate>)
    ensures deduped == Dedupe(candidates)
  {
    deduped := [];
    var seen: set<string> := {};
    for i := 0 to |candidates|
      invariant deduped == Dedupe(candidates[..i])
      invariant forall tag :: tag in seen <==> tag in Tags(deduped)
    {
      assert candidates[..i + 1][..i] == candidates[..i];
      var tag := candidates[i].tag;
      if tag !in seen {
        seen := seen + {tag};
        assert Tags(deduped + [candidates[i]]) == Tags(deduped) + [tag];
        deduped := deduped + [candidates[i]];
      }
    }
    assert candidates[..|candidates|] == candidates;
  }

  /** `_build_runtime_candidates` */
  method BuildRuntimeCandidates(role: Role) returns (deduped: seq<Candidate>)
    ensures deduped == Dedupe(Declared(role)) && DistinctTags(deduped)
  {
    var candidates: seq<Candidate> := [];
    if role.preferredTag != "" {
      candidates := [Candidate(role.preferredTag, role.preferredModel, Preferred)];
    }
    candidates := AppendSegment(candidates, role.preferredTags, role.preferredModels, Preferred);
    candidates := AppendSegment(candidates, role.fallbackTags, role.fallbackModels, Fallback);
    candidates := AppendSegment(candidates, role.supplementaryTags, role.supplementaryModels, Supplementary);
    deduped := DropRepeats(candidates);
    DedupeKeepsFirsts(candidates);
  }
}
