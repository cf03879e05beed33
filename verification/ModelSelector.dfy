/** The measured choice of a model within a role: `_select_measured_runtime_tag` of
    core/model_routing.py. */
module ModelSelector {
  import opened Sequences
  import opened Wrappers

  datatype History = History(
    consecutiveFailures: Option<int>, failureCount: int, successCount: int,
    lastOutcome: Option<real>, medianLatency: Option<real>)

  /** `sizeBytes` and `expectedRamMb` are zero when they are not known. */
  datatype Item = Item(installed: bool, expectedRamMb: int, sizeBytes: int, history: History)

  type Inventory = map<string, Item>

  datatype Preference = Quality | Latency | Resource

  datatype Reason = RamCeilingUnmet | TemporaryFallback

  const FAILURE_STREAK := 2
  const COOLDOWN_SECONDS := 3600.0
  const UNKNOWN_MAGNITUDE := 0x7FFF_FFFF_FFFF_FFFF

  const NO_HISTORY := History(None, 0, 0, None, None)
  const NO_ITEM := Item(false, 0, 0, NO_HISTORY)

  function ItemOf(inventory: Inventory, tag: string): Item {
    if tag in inventory then inventory[tag] else NO_ITEM
  }

  /** The runtime tags of a role entry as normalised lists. */
  datatype RoleEntry = RoleEntry(preferredTags: seq<string>, preferredTag: seq<string>, fallbackTags: seq<string>)

  /** `_role_runtime_candidates` */
  function RoleCandidates(role: RoleEntry): seq<string> {
    (if role.preferredTags != [] then role.preferredTags else role.preferredTag) + role.fallbackTags
  }

  /** The list of preferred tags displaces the single one, and both come before the
      fallbacks. */
  lemma {:induction false} PreferredComeFirst(role: RoleEntry, tag: string)
    ensures role.preferredTags <= RoleCandidates(role)
    ensures role.preferredTags == [] ==> role.preferredTag <= RoleCandidates(role)
    ensures tag in RoleCandidates(role) <==>
            tag in role.preferredTags || (role.preferredTags == [] && tag in role.preferredTag) || tag in role.fallbackTags
    ensures role.fallbackTags != [] ==>
              RoleCandidates(role) != [] && RoleCandidates(role)[|RoleCandidates(role)| - 1] in role.fallbackTags
  {
  }

  /** `_recent_failure_streak_active` at a reference time. */
  predicate Cooling(history: History, reference: real) {
    var failures :=
      if history.consecutiveFailures.Some? then history.consecutiveFailures.value
      else if history.successCount == 0 then history.failureCount
      else 0;
    && failures >= FAILURE_STREAK
    && (history.lastOutcome.None? || reference - history.lastOutcome.value <= COOLDOWN_SECONDS)
  }

  /** At most one failure is on record, in the current or in the legacy form. */
  predicate SingleFailure(history: History) {
    if history.consecutiveFailures.Some? then history.consecutiveFailures.value <= 1
    else history.successCount != 0 || history.failureCount <= 1
  }

  /** A single failure never starts a cooldown; a dated one, and no other, ends, for
      good and an hour after its date; a date in the future does not defeat the guard. */
  lemma {:induction false} CooldownIsBounded(history: History, early: real, late: real)
    requires early <= late
    ensures SingleFailure(history) <==> forall now: real :: !Cooling(history, now)
    ensures !Cooling(history, early) ==> !Cooling(history, late)
    ensures Cooling(history, early) && !Cooling(history, late) ==>
              history.lastOutcome.Some? && early <= history.lastOutcome.value + COOLDOWN_SECONDS < late
    ensures !SingleFailure(history) && history.lastOutcome.Some? && early < history.lastOutcome.value ==>
              Cooling(history, early)
  {
    if !SingleFailure(history) {
      assert Cooling(history, if history.lastOutcome.Some? then history.lastOutcome.value else 0.0);
    }
  }

  predicate IsCooling(inventory: Inventory, reference: real, tag: string) {
    Cooling(ItemOf(inventory, tag).history, reference)
  }

  predicate Fits(inventory: Inventory, ceiling: Option<int>, tag: string) {
    ceiling.None? || ItemOf(inventory, tag).expectedRamMb <= ceiling.value
  }

  // ----------------------------------------------------------- efficiency order

  /** `first` is absent for an infinite value. */
  datatype Key = Key(first: Option<real>, second: int, third: nat)

  predicate KeyLess(a: Key, b: Key) {
    if a.first != b.first then a.first.Some? && (b.first.None? || a.first.value < b.first.value)
    else if a.second != b.second then a.second < b.second
    else a.third < b.third
  }

  /** `int(x)` drops the fraction. */
  function Truncate(x: real): int {
    if x >= 0.0 then x.Floor else -((-x).Floor)
  }

  function SizeOf(item: Item): int {
    if item.sizeBytes == 0 then UNKNOWN_MAGNITUDE else item.sizeBytes
  }

  function IndexOf(candidates: seq<string>, tag: string, from: nat): (i: nat)
    requires from <= |candidates| && tag in candidates[from..]
    ensures from <= i < |candidates| && candidates[i] == tag
    decreases |candidates| - from
  {
    if candidates[from] == tag then from else IndexOf(candidates, tag, from + 1)
  }

  function EfficiencyKey(candidates: seq<string>, inventory: Inventory, preference: Preference, tag: string): Key
    requires tag in candidates
  {
    assert candidates[0..] == candidates;
    var item := ItemOf(inventory, tag);
    var latency := item.history.medianLatency;
    if preference == Resource then
      Key(Some(SizeOf(item) as real), if latency.Some? then Truncate(latency.value) else UNKNOWN_MAGNITUDE,
          IndexOf(candidates, tag, 0))
    else
      Key(latency, SizeOf(item), IndexOf(candidates, tag, 0))
  }

  /** What is left of a number without its fraction. */
  lemma {:induction false} TruncateDropsFraction(x: real)
    ensures x >= 0.0 ==> 0 <= Truncate(x) && Truncate(x) as real <= x < Truncate(x) as real + 1.0
    ensures x <= 0.0 ==> Truncate(x) <= 0 && Truncate(x) as real - 1.0 < x <= Truncate(x) as real
    ensures Truncate(-x) == -Truncate(x)
  {
  }

  /** `t` is configured before `u`. */
  ghost predicate Earlier(candidates: seq<string>, t: string, u: string) {
    exists i :: 0 <= i < |candidates| && candidates[i] == t && u !in candidates[..i]
  }

  /** A measured latency is better than none, and a lower one than a higher one. */
  ghost predicate Faster(a: Option<real>, b: Option<real>) {
    a.Some? && (b.None? || a.value < b.value)
  }

  /** A known size or latency, or one larger than any. */
  ghost function OrUnknown(magnitude: Option<int>): int {
    if magnitude.Some? then magnitude.value else UNKNOWN_MAGNITUDE
  }

  ghost function Size(inventory: Inventory, tag: string): int {
    var bytes := ItemOf(inventory, tag).sizeBytes;
    OrUnknown(if bytes == 0 then None else Some(bytes))
  }

  ghost function Latency(inventory: Inventory, tag: string): Option<real> {
    ItemOf(inventory, tag).history.medianLatency
  }

  /** Under resource order the smaller artifact wins, then the lower latency in whole
      milliseconds; under latency order the faster one, then the smaller. What is not
      known comes last, and the configured order decides between equals. */
  ghost predicate MoreEfficient(candidates: seq<string>, inventory: Inventory, preference: Preference, t: string,
                                u: string)
  {
    var p, q, x, y := Size(inventory, t), Size(inventory, u), Latency(inventory, t), Latency(inventory, u);
    if preference == Resource then
      var m := OrUnknown(if x.None? then None else Some(Truncate(x.value)));
      var n := OrUnknown(if y.None? then None else Some(Truncate(y.value)));
      p < q || (p == q && (m < n || (m == n && Earlier(candidates, t, u))))
    else
      Faster(x, y) || (x == y && (p < q || (p == q && Earlier(candidates, t, u))))
  }

  lemma {:induction false} IndexIsFirst(candidates: seq<string>, tag: string, from: nat)
    requires from <= |candidates| && tag in candidates[from..]
    ensures tag !in candidates[from..IndexOf(candidates, tag, from)]
    decreases |candidates| - from
  {
    if candidates[from] != tag {
      var i := IndexOf(candidates, tag, from + 1);
      IndexIsFirst(candidates, tag, from + 1);
      assert candidates[from..i] == [candidates[from]] + candidates[from + 1..i];
    }
  }

  lemma {:induction false} IndexIsEarlier(candidates: seq<string>, t: string, u: string)
    requires t in candidates && u in candidates && t != u && candidates[0..] == candidates
    ensures Earlier(candidates, t, u) <==> IndexOf(candidates, t, 0) < IndexOf(candidates, u, 0)
  {
    var i, j := IndexOf(candidates, t, 0), IndexOf(candidates, u, 0);
    IndexIsFirst(candidates, t, 0);
    IndexIsFirst(candidates, u, 0);
    assert candidates[0..i] == candidates[..i] && candidates[0..j] == candidates[..j];
    if i < j {
      assert candidates[..i] == candidates[..j][..i];
    }
  }

  /** Comparing the keys of two tags tells which is the more efficient. */
  lemma {:induction false} KeysTellEfficiency(candidates: seq<string>, inventory: Inventory, preference: Preference,
                                              t: string, u: string)
    requires t in candidates && u in candidates && t != u
    ensures KeyLess(EfficiencyKey(candidates, inventory, preference, t), EfficiencyKey(candidates, inventory, preference, u))
       <==> MoreEfficient(candidates, inventory, preference, t, u)
  {
    assert candidates[0..] == candidates;
    IndexIsEarlier(candidates, t, u);
  }

  /** The order is strict and total on the keys of different tags. */
  lemma {:induction false} KeysAreOrdered(a: Key, b: Key, c: Key)
    ensures !KeyLess(a, a)
    ensures KeyLess(a, b) && KeyLess(b, c) ==> KeyLess(a, c)
    ensures a.third != b.third ==> KeyLess(a, b) || KeyLess(b, a)
  {
  }

  // ------------------------------------------------------------------ the pool

  function Filter(tags: seq<string>, keep: string -> bool): (r: seq<string>)
    ensures forall tag :: tag in r <==> tag in tags && keep(tag)
  {
    if tags == [] then []
    else Filter(tags[..|tags| - 1], keep) + (if keep(tags[|tags| - 1]) then [tags[|tags| - 1]] else [])
  }

  lemma {:induction false} FilterAll(tags: seq<string>, keep: string -> bool)
    requires forall tag :: tag in tags ==> keep(tag)
    ensures Filter(tags, keep) == tags
  {
    if tags != [] {
      var before, last := tags[..|tags| - 1], tags[|tags| - 1];
      FilterAll(before, keep);
      assert last in tags;
      assert Filter(tags, keep) == before + [last];
    }
  }

  /** The first kept tag is the first one that `keep` accepts. */
  lemma {:induction false} FilterFirst(tags: seq<string>, keep: string -> bool) returns (i: nat)
    requires Filter(tags, keep) != []
    ensures i < |tags| && Filter(tags, keep)[0] == tags[i] && keep(tags[i]) && forall j :: 0 <= j < i ==> !keep(tags[j])
  {
    var n := |tags| - 1;
    if Filter(tags[..n], keep) == [] {
      i := n;
      forall j | 0 <= j < n
        ensures !keep(tags[j])
      {
        assert tags[j] in tags[..n];
      }
    } else {
      i := FilterFirst(tags[..n], keep);
    }
  }

  /** The candidates left after asking what is installed. */
  function Eligible(candidates: seq<string>, inventory: Inventory): seq<string> {
    var installed := Filter(candidates, (tag: string) => ItemOf(inventory, tag).installed);
    if installed != [] then installed else candidates
  }

  /** Installed candidates if there are any, and of these the ones within the
      memory ceiling if there are any. */
  function Pool(candidates: seq<string>, inventory: Inventory, ceiling: Option<int>): (pool: seq<string>)
    ensures forall tag :: tag in pool ==> tag in candidates
    ensures candidates != [] ==> pool != []
  {
    var eligible := Eligible(candidates, inventory);
    var within := Filter(eligible, (tag: string) => Fits(inventory, ceiling, tag));
    if within != [] then within else eligible
  }

  ghost predicate Installed(inventory: Inventory, tag: string) {
    tag in inventory && inventory[tag].installed
  }

  /** What is known of the model's memory is within the ceiling. */
  ghost predicate WithinCeiling(inventory: Inventory, ceiling: Option<int>, tag: string) {
    ceiling.Some? ==> (if tag in inventory then inventory[tag].expectedRamMb else 0) <= ceiling.value
  }

  /** An installed candidate, or any candidate when none is installed. */
  ghost predicate MayRun(candidates: seq<string>, inventory: Inventory, tag: string) {
    tag in candidates && (Installed(inventory, tag) || forall t :: t in candidates ==> !Installed(inventory, t))
  }

  /** No candidate that may run is within the ceiling. */
  ghost predicate CeilingUnmet(candidates: seq<string>, inventory: Inventory, ceiling: Option<int>) {
    forall t :: MayRun(candidates, inventory, t) ==> !WithinCeiling(inventory, ceiling, t)
  }

  lemma {:induction false} EligibleExact(candidates: seq<string>, inventory: Inventory, tag: string)
    ensures tag in Eligible(candidates, inventory) <==> MayRun(candidates, inventory, tag)
  {
    var installed := Filter(candidates, (t: string) => ItemOf(inventory, t).installed);
    if installed != [] {
      assert installed[0] in installed;
    }
  }

  /** The pool holds exactly the candidates that may run and are within the ceiling, or
      all that may run when none of them is. */
  lemma {:induction false} PoolKeepsLimits(candidates: seq<string>, inventory: Inventory, ceiling: Option<int>,
                                           tag: string)
    ensures tag in Pool(candidates, inventory, ceiling) <==>
              && MayRun(candidates, inventory, tag)
              && (WithinCeiling(inventory, ceiling, tag) || CeilingUnmet(candidates, inventory, ceiling))
  {
    var eligible := Eligible(candidates, inventory);
    var within := Filter(eligible, (t: string) => Fits(inventory, ceiling, t));
    forall t
      ensures t in within <==> MayRun(candidates, inventory, t) && WithinCeiling(inventory, ceiling, t)
      ensures t in eligible <==> MayRun(candidates, inventory, t)
    {
      EligibleExact(candidates, inventory, t);
    }
    if within != [] {
      assert within[0] in within;
    }
  }

  lemma {:induction false} FilterKeepsOrder(tags: seq<string>, keep: string -> bool)
    ensures IsSubsequence(Filter(tags, keep), tags)
  {
    if tags != [] {
      var n := |tags| - 1;
      var before := Filter(tags[..n], keep);
      FilterKeepsOrder(tags[..n], keep);
      assert tags == tags[..n] + [tags[n]];
      assert Filter(tags, keep) == if keep(tags[n]) then before + [tags[n]] else before;
      SubsequenceGrows(before, tags[..n], tags[n]);
    }
  }

  /** The pool keeps the configured order. */
  lemma {:induction false} PoolInOrder(candidates: seq<string>, inventory: Inventory, ceiling: Option<int>)
    ensures IsSubsequence(Pool(candidates, inventory, ceiling), candidates)
  {
    var eligible := Eligible(candidates, inventory);
    SubsequenceOfItself(candidates);
    SubsequenceOfItself(eligible);
    FilterKeepsOrder(candidates, (t: string) => ItemOf(inventory, t).installed);
    FilterKeepsOrder(eligible, (t: string) => Fits(inventory, ceiling, t));
    SubsequenceTransitive(Pool(candidates, inventory, ceiling), eligible, candidates);
  }

  // ----------------------------------------------------------------- the choice

  /** `tag` is more efficient than every other of the pool. */
  ghost predicate LeastKey(candidates: seq<string>, inventory: Inventory, preference: Preference, pool: seq<string>,
                           tag: string)
  {
    tag in pool
    && forall t :: t in pool && t != tag ==>
         MoreEfficient(candidates, inventory, preference, tag, t)
  }

  /** `min(pool, key=efficiency_key)` */
  method MostEfficient(candidates: seq<string>, inventory: Inventory, preference: Preference,
                       pool: seq<string>) returns (best: string)
    requires pool != [] && forall t :: t in pool ==> t in candidates
    ensures LeastKey(candidates, inventory, preference, pool, best)
  {
    best := pool[0];
    for i := 1 to |pool|
      invariant best in pool[..i]
      invariant forall t :: t in pool[..i] && t != best ==>
                  KeyLess(EfficiencyKey(candidates, inventory, preference, best),
                          EfficiencyKey(candidates, inventory, preference, t))
    {
      var tag := pool[i];
      var keyOfTag := EfficiencyKey(candidates, inventory, preference, tag);
      var keyOfBest := EfficiencyKey(candidates, inventory, preference, best);
      assert pool[..i + 1] == pool[..i] + [tag];
      assert tag != best ==> keyOfTag.third != keyOfBest.third;
      KeysAreOrdered(keyOfTag, keyOfBest, keyOfBest);
      if KeyLess(keyOfTag, keyOfBest) {
        forall t | t in pool[..i] && t != best
          ensures KeyLess(keyOfTag, EfficiencyKey(candidates, inventory, preference, t))
        {
          KeysAreOrdered(keyOfTag, keyOfBest, EfficiencyKey(candidates, inventory, preference, t));
        }
        best := tag;
      }
    }
    assert pool[..|pool|] == pool;
    forall t | t in pool && t != best
      ensures MoreEfficient(candidates, inventory, preference, best, t)
    {
      KeysTellEfficiency(candidates, inventory, preference, best, t);
    }
  }

  /** `tag` is the first of the pool that is not cooling down. */
  ghost predicate FirstHealthy(inventory: Inventory, reference: real, pool: seq<string>, tag: string) {
    exists i :: 0 <= i < |pool| && pool[i] == tag && !IsCooling(inventory, reference, tag)
                && forall j :: 0 <= j < i ==> IsCooling(inventory, reference, pool[j])
  }

  ghost predicate AllCooling(inventory: Inventory, reference: real, pool: seq<string>) {
    forall tag :: tag in pool ==> IsCooling(inventory, reference, tag)
  }

  /** The replacement of a choice that is cooling down. */
  method Recover(inventory: Inventory, reference: real, pool: seq<string>, selected: string) returns (r: string)
    requires selected in pool
    ensures !IsCooling(inventory, reference, selected) ==> r == selected
    ensures IsCooling(inventory, reference, selected) && AllCooling(inventory, reference, pool) ==> r == selected
    ensures IsCooling(inventory, reference, selected) && !AllCooling(inventory, reference, pool) ==>
              FirstHealthy(inventory, reference, pool, r)
  {
    r := selected;
    if IsCooling(inventory, reference, selected) {
      var isAlternative := (tag: string) => tag != selected && !IsCooling(inventory, reference, tag);
      var healthy := Filter(pool, isAlternative);
      if healthy != [] {
        var i := FilterFirst(pool, isAlternative);
        assert healthy[0] in healthy;
        r := healthy[0];
      } else {
        assert forall tag :: tag in pool ==> tag !in healthy;
      }
    }
  }

  /** Of two tags at most one is the more efficient. */
  lemma {:induction false} EfficiencyIsStrict(candidates: seq<string>, inventory: Inventory, preference: Preference,
                                              t: string, u: string)
    requires t in candidates && u in candidates && t != u && MoreEfficient(candidates, inventory, preference, t, u)
    ensures !MoreEfficient(candidates, inventory, preference, u, t)
  {
    KeysTellEfficiency(candidates, inventory, preference, t, u);
    KeysTellEfficiency(candidates, inventory, preference, u, t);
    KeysAreOrdered(EfficiencyKey(candidates, inventory, preference, t), EfficiencyKey(candidates, inventory, preference, u),
                   EfficiencyKey(candidates, inventory, preference, t));
  }

  lemma {:induction false} LeastKeyIsUnique(candidates: seq<string>, inventory: Inventory, preference: Preference,
                                            pool: seq<string>, a: string)
    requires forall t :: t in pool ==> t in candidates
    requires LeastKey(candidates, inventory, preference, pool, a)
    ensures forall b :: LeastKey(candidates, inventory, preference, pool, b) ==> a == b
  {
    forall b | LeastKey(candidates, inventory, preference, pool, b)
      ensures a == b
    {
      if a != b {
        EfficiencyIsStrict(candidates, inventory, preference, a, b);
      }
    }
  }

  /** The tag that the preference alone would choose: the first of the pool under quality
      order, else the most efficient one. */
  ghost predicate Favoured(candidates: seq<string>, inventory: Inventory, preference: Preference, ceiling: Option<int>,
                           tag: string)
  {
    var pool := Pool(candidates, inventory, ceiling);
    if preference == Quality then pool != [] && tag == pool[0]
    else LeastKey(candidates, inventory, preference, pool, tag)
  }

  lemma {:induction false} FavouredIsUnique(candidates: seq<string>, inventory: Inventory, preference: Preference,
                                            ceiling: Option<int>, a: string, b: string)
    requires Favoured(candidates, inventory, preference, ceiling, a)
    ensures Favoured(candidates, inventory, preference, ceiling, b) <==> a == b
  {
    if preference != Quality {
      LeastKeyIsUnique(candidates, inventory, preference, Pool(candidates, inventory, ceiling), a);
    }
  }

  /** What is chosen. Under quality order it is the first tag of the pool that is not
      cooling down. Under latency and resource it is the most efficient one, unless
      that one is cooling down: then too it is the first healthy tag in configured
      order. */
  ghost predicate Chosen(candidates: seq<string>, inventory: Inventory, preference: Preference, ceiling: Option<int>,
                         reference: real, selected: string)
  {
    var pool := Pool(candidates, inventory, ceiling);
    && selected in pool
    && (IsCooling(inventory, reference, selected) <==> AllCooling(inventory, reference, pool))
    && (preference == Quality ==>
          if AllCooling(inventory, reference, pool) then selected == pool[0]
          else FirstHealthy(inventory, reference, pool, selected))
    && (preference != Quality ==>
          exists best ::
            && LeastKey(candidates, inventory, preference, pool, best)
            && (if IsCooling(inventory, reference, best) && !AllCooling(inventory, reference, pool)
                then FirstHealthy(inventory, reference, pool, selected)
                else selected == best))
  }

  /** What replacing a preferred tag that is cooling down comes to. */
  lemma {:induction false} RecoveredIsChosen(candidates: seq<string>, inventory: Inventory, preference: Preference,
                                             ceiling: Option<int>, reference: real, pool: seq<string>, first: string,
                                             selected: string)
    requires candidates != [] && pool == Pool(candidates, inventory, ceiling)
    requires if preference == Quality then first == pool[0] else LeastKey(candidates, inventory, preference, pool, first)
    requires if IsCooling(inventory, reference, first) && !AllCooling(inventory, reference, pool)
             then FirstHealthy(inventory, reference, pool, selected)
             else selected == first
    ensures Chosen(candidates, inventory, preference, ceiling, reference, selected)
  {
    if FirstHealthy(inventory, reference, pool, selected) {
      assert selected in pool && !IsCooling(inventory, reference, selected);
    }
  }

  /** The pool, and whether no eligible tag is within the ceiling. */
  method NarrowToCeiling(candidates: seq<string>, inventory: Inventory, ceiling: Option<int>)
    returns (pool: seq<string>, unmet: bool)
    ensures pool == Pool(candidates, inventory, ceiling)
    ensures unmet <==> CeilingUnmet(candidates, inventory, ceiling)
  {
    pool := Eligible(candidates, inventory);
    var within := Filter(pool, (tag: string) => Fits(inventory, ceiling, tag));
    unmet := within == [];
    forall t
      ensures t in within <==> MayRun(candidates, inventory, t) && WithinCeiling(inventory, ceiling, t)
    {
      EligibleExact(candidates, inventory, t);
    }
    if !unmet {
      assert within[0] in within;
      pool := within;
    }
  }

  /** `_select_measured_runtime_tag` */
  method Select(role: RoleEntry, inventory: Inventory, preference: Preference, ceiling: Option<int>, reference: real)
    returns (selected: Option<string>, reasons: set<Reason>)
    ensures selected == None <==> RoleCandidates(role) == []
    ensures selected.Some? ==> Chosen(RoleCandidates(role), inventory, preference, ceiling, reference, selected.value)
    ensures RamCeilingUnmet in reasons <==>
            RoleCandidates(role) != [] && CeilingUnmet(RoleCandidates(role), inventory, ceiling)
    ensures TemporaryFallback in reasons <==>
            selected.Some? && !Favoured(RoleCandidates(role), inventory, preference, ceiling, selected.value)
    ensures TemporaryFallback in reasons ==> !IsCooling(inventory, reference, selected.value)
  {
    reasons := {};
    var candidates := RoleCandidates(role);
    if candidates == [] {
      return None, reasons;
    }
    var pool, unmet := NarrowToCeiling(candidates, inventory, ceiling);
    if unmet {
      reasons := reasons + {RamCeilingUnmet};
    }
    var first := pool[0];
    if preference != Quality {
      first := MostEfficient(candidates, inventory, preference, pool);
    }
    var tag := Recover(inventory, reference, pool, first);
    RecoveredIsChosen(candidates, inventory, preference, ceiling, reference, pool, first, tag);
    FavouredIsUnique(candidates, inventory, preference, ceiling, first, tag);
    if tag != first {
      reasons := reasons + {TemporaryFallback};
    }
    selected := Some(tag);
  }

  /** No failure exiles a model: once the date of its last outcome is an hour old, the
      model that the preference favours is chosen again, whatever its record. */
  lemma {:induction false} EligibleAgain(candidates: seq<string>, inventory: Inventory, preference: Preference,
                                         ceiling: Option<int>, reference: real, selected: string, favoured: string)
    requires candidates != [] && Chosen(candidates, inventory, preference, ceiling, reference, selected)
    requires Favoured(candidates, inventory, preference, ceiling, favoured)
    requires var last := ItemOf(inventory, favoured).history.lastOutcome;
             last.Some? && reference > last.value + COOLDOWN_SECONDS
    ensures selected == favoured
  {
    FavouredIsUnique(candidates, inventory, preference, ceiling, favoured, selected);
    if preference != Quality {
      LeastKeyIsUnique(candidates, inventory, preference, Pool(candidates, inventory, ceiling), favoured);
    }
  }

  // ------------------------------------------------- the fallback is not the best

  function Sized(size: int, failures: int): Item {
    Item(true, 0, size, History(Some(failures), failures, 0, None, None))
  }

  /** When the most efficient tag is cooling down and another is healthy, the first
      healthy one is chosen. */
  lemma {:induction false} FallbackIsTheFirstHealthy(candidates: seq<string>, inventory: Inventory,
                                                     preference: Preference, ceiling: Option<int>, reference: real,
                                                     selected: string, pool: seq<string>, best: string, healthy: string)
    requires preference != Quality && Chosen(candidates, inventory, preference, ceiling, reference, selected)
    requires pool == Pool(candidates, inventory, ceiling)
    requires LeastKey(candidates, inventory, preference, pool, best) && IsCooling(inventory, reference, best)
    requires healthy in pool && !IsCooling(inventory, reference, healthy)
    ensures FirstHealthy(inventory, reference, pool, selected)
  {
    LeastKeyIsUnique(candidates, inventory, preference, pool, best);
  }

  /** The smallest model `a` is cooling down, and of the other two the larger one is
      configured first. */
  function ThreeModels(a: string, b: string, c: string): Inventory {
    map[a := Sized(1, 2), b := Sized(3, 0), c := Sized(2, 0)]
  }

  lemma {:induction false} PoolOfThree(a: string, b: string, c: string)
    requires a != b && a != c && b != c
    ensures Pool([a, b, c], ThreeModels(a, b, c), None) == [a, b, c]
  {
    FilterAll([a, b, c], (tag: string) => ItemOf(ThreeModels(a, b, c), tag).installed);
    FilterAll([a, b, c], (tag: string) => Fits(ThreeModels(a, b, c), None, tag));
  }

  lemma {:induction false} EfficiencyOfThree(a: string, b: string, c: string)
    requires a != b && a != c && b != c
    ensures MoreEfficient([a, b, c], ThreeModels(a, b, c), Resource, c, b)
    ensures LeastKey([a, b, c], ThreeModels(a, b, c), Resource, [a, b, c], a)
  {
  }

  lemma {:induction false} CoolingOfThree(a: string, b: string, c: string, reference: real)
    requires a != b && a != c && b != c
    ensures IsCooling(ThreeModels(a, b, c), reference, a)
    ensures !IsCooling(ThreeModels(a, b, c), reference, b) && !IsCooling(ThreeModels(a, b, c), reference, c)
  {
  }

  lemma {:induction false} FirstHealthyOfThree(inventory: Inventory, reference: real, a: string, b: string, c: string,
                                               tag: string)
    requires FirstHealthy(inventory, reference, [a, b, c], tag)
    requires IsCooling(inventory, reference, a) && !IsCooling(inventory, reference, b)
    ensures tag == b
  {
    var pool := [a, b, c];
    var i :| 0 <= i < |pool| && pool[i] == tag && !IsCooling(inventory, reference, tag)
             && forall j :: 0 <= j < i ==> IsCooling(inventory, reference, pool[j]);
    assert pool[0] == a && pool[1] == b;
  }

  /** Asked for the smallest resource use, the selector replaces the model that is
      cooling down by the first healthy one although a smaller one is healthy. */
  lemma {:induction false} FallbackIsNotTheBest(a: string, b: string, c: string, reference: real, selected: string)
    requires a != b && a != c && b != c
    requires Chosen([a, b, c], ThreeModels(a, b, c), Resource, None, reference, selected)
    ensures selected == b && c in Pool([a, b, c], ThreeModels(a, b, c), None)
    ensures !IsCooling(ThreeModels(a, b, c), reference, c)
    ensures MoreEfficient([a, b, c], ThreeModels(a, b, c), Resource, c, b)
  {
    var inventory, pool := ThreeModels(a, b, c), Pool([a, b, c], ThreeModels(a, b, c), None);
    EfficiencyOfThree(a, b, c);
    PoolOfThree(a, b, c);
    CoolingOfThree(a, b, c, reference);
    FallbackIsTheFirstHealthy([a, b, c], inventory, Resource, None, reference, selected, pool, a, c);
    FirstHealthyOfThree(inventory, reference, a, b, c, selected);
  }
}
