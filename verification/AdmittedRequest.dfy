/** The section of core/runtime.py that runs a model invocation under the compute
    admission of one request, and when it gives back every lease and reservation. */
module AdmittedRequest {
  import opened Admission
  import opened Candidates
  import opened Invocation
  import opened Sequences
  import opened Wrappers

  /** Handles acquired once and given back once are balanced. */
  lemma {:induction false} SettledIsBalanced(acquired: seq<Handle>, released: seq<Handle>)
    requires NoRepeats(acquired) && NoRepeats(released)
    ensures multiset(acquired) == multiset(released) <==> forall h :: h in acquired <==> h in released
  {
    forall h
      ensures multiset(acquired)[h] == (if h in acquired then 1 else 0)
      ensures multiset(released)[h] == (if h in released then 1 else 0)
    {
      CountOnce(acquired, h);
      CountOnce(released, h);
    }
    if multiset(acquired) == multiset(released) {
      forall h
        ensures h in acquired <==> h in released
      {
        assert multiset(acquired)[h] == multiset(released)[h];
      }
    }
  }

  /** Giving back exactly what is still held settles the ledger. */
  lemma {:induction false} GivingBackSettles(acquired: seq<Handle>, released: seq<Handle>, again: seq<Handle>)
    requires NoRepeats(acquired) && NoRepeats(released) && NoRepeats(again)
    requires forall h :: h in released ==> h in acquired
    requires forall h :: h in again <==> h in acquired && h !in released
    ensures multiset(acquired) == multiset(released + again)
  {
    forall i, j | 0 <= i < j < |released + again|
      ensures (released + again)[i] != (released + again)[j]
    {
      if i < |released| <= j {
        assert again[j - |released|] in again && released[i] in released;
      }
    }
    SettledIsBalanced(acquired, released + again);
  }

  lemma {:induction false} TwiceIsUnbalanced(acquired: seq<Handle>, released: seq<Handle>, again: seq<Handle>,
                                             h: Handle)
    requires NoRepeats(acquired) && h in released && h in again
    ensures multiset(acquired) != multiset(released + again)
  {
    CountOnce(acquired, h);
    assert multiset(released + again)[h] == multiset(released)[h] + multiset(again)[h];
  }

  /** The exception path and the final release. After a failed reading with a
      lease still held, an invocation that did not raise gives nothing back. */
  method Settle(raised: bool, finalReadingFails: bool, compute: RequestCompute) returns (leaked: bool)
    requires compute.Inv() || (raised && compute.FaultedInv())
    modifies compute
    ensures compute.faulted == old(compute.faulted) && compute.decision == old(compute.decision)
    ensures leaked <==> !raised && finalReadingFails && compute.decision.lease.Some?
    ensures compute.Balanced() <==> !compute.faulted && !leaked
  {
    leaked := !raised && finalReadingFails && compute.decision.lease.Some?;
    if leaked {
      assert Lease(compute.decision.lease.value) in compute.Live();
      SettledIsBalanced(compute.acquired, compute.released);
      return;
    }
    ghost var before, again := compute.released, HandleList(compute.decision);
    if !compute.faulted {
      assert forall h :: h in compute.Live() <==> h in compute.acquired && h !in before;
      GivingBackSettles(compute.acquired, before, again);
    } else {
      var h :| h in Handles(compute.decision);
      TwiceIsUnbalanced(compute.acquired, before, again, h);
    }
    compute.ReleaseHandles();
  }

  /** One request under an admission: a role, its routing, and the environments that
      the invocation and its one retry meet. */
  datatype Request = Request(
    role: Role, routed: string, scoped: bool, pinned: string, scientific: bool,
    first: Environment, second: Environment, finalReadingFails: bool)

  function InvocationOf(q: Request, env: Environment, account: Account): (r: Ending)
    ensures r.account.Some?
  {
    RunInvocation(Ordered(q.role, q.routed), Plan(q.role, q.routed, q.scoped, q.pinned), env, Some(account))
  }

  /** The invocation is repeated without the governance keywords. */
  predicate Retried(q: Request, account: Account) {
    !q.scientific && InvocationOf(q, q.first, account).outcome == Raised(true)
  }

  function LastEnding(q: Request, account: Account): (r: Ending)
    ensures r.account.Some?
  {
    var ending := InvocationOf(q, q.first, account);
    if Retried(q, account) then InvocationOf(q, q.second, ending.account.value) else ending
  }

  /** Re-admission crashed after handles were given back: the exception path gives
      them back again. */
  ghost predicate GivesBackTwice(q: Request, account: Account) {
    var last := LastEnding(q, account);
    CrashedIn(last.trace, last.outcome) && Handles(last.account.value.decision) != {}
  }

  /** The final reading fails with a lease held: nothing gives it back. */
  predicate KeepsLease(q: Request, account: Account) {
    var last := LastEnding(q, account);
    !last.outcome.Raised? && q.finalReadingFails && last.account.value.decision.lease.Some?
  }

  /** A request balances the ledger, said of what it meets alone. */
  ghost predicate Balances(q: Request, account: Account) {
    !GivesBackTwice(q, account) && !KeepsLease(q, account)
  }

  /** The whole admitted section: the invocation, its one retry without the
      governance keywords, the exception path and the final release.

      Every handle is given back exactly once unless a reading failed at the wrong
      moment: between giving a handle back and deciding again, where the exception
      path gives it back a second time, or after the invocation with a lease still
      held, which nothing gives back any more (`leaked`). */
  method RunAdmitted(q: Request, compute: RequestCompute)
    returns (first: Ending, last: Ending, reasons: seq<Reason>, leaked: bool)
    requires ClockRuns(q.first) && ClockRuns(q.second) && compute.Inv()
    modifies compute
    ensures first == InvocationOf(q, q.first, old(compute.Current()))
    ensures last == LastEnding(q, old(compute.Current()))
    ensures var ordered, plan := Ordered(q.role, q.routed), Plan(q.role, q.routed, q.scoped, q.pinned);
            && Invoked(ordered, plan, q.first, Some(old(compute.Current())), first.trace, first.outcome)
            && if !q.scientific && first.outcome == Raised(true)
               then Invoked(ordered, plan, q.second, first.account, last.trace, last.outcome)
               else last == first
    ensures leaked <==> !last.outcome.Raised? && q.finalReadingFails && last.account.value.decision.lease.Some?
    ensures compute.Balanced() <==>
            !leaked && !(CrashedIn(last.trace, last.outcome) && Handles(last.account.value.decision) != {})
    ensures compute.Balanced() <==> Balances(q, old(compute.Current()))
  {
    var outcome, trace;
    outcome, trace, reasons := InvokeModel(q.role, q.routed, q.scoped, q.pinned, q.first, compute);
    first := Ending(trace, outcome, Held(compute));
    if outcome == Raised(true) && !q.scientific {
      outcome, trace, reasons := InvokeModel(q.role, q.routed, q.scoped, q.pinned, q.second, compute);
    }
    last := Ending(trace, outcome, Held(compute));
    leaked := Settle(outcome.Raised?, q.finalReadingFails, compute);
  }

  /** Re-admission crashes in an invocation exactly when its loop gets to a failing
      reading. */
  lemma {:induction false} InvocationCrashesWhen(ordered: seq<Candidate>, plan: seq<Candidate>, env: Environment,
                                                 account: Option<Account>)
    ensures var r := RunInvocation(ordered, plan, env, account);
            && (CrashedIn(r.trace, r.outcome) <==>
                  && ordered != [] && !env.cancelled && env.start < env.deadline
                  && exists n: nat :: CrashesAt(plan, env, account, n))
  {
    CrashComesFromReading(plan, env, account);
  }

  ghost predicate ReadingsWork(env: Environment) {
    forall i: nat :: !env.world(i).weather.readingFails
  }

  /** A request whose readings all work gives every handle back exactly once. */
  lemma {:induction false} WorkingReadingsBalance(q: Request, account: Account)
    requires ReadingsWork(q.first) && ReadingsWork(q.second) && !q.finalReadingFails
    ensures Balances(q, account)
  {
    var ordered, plan := Ordered(q.role, q.routed), Plan(q.role, q.routed, q.scoped, q.pinned);
    InvocationCrashesWhen(ordered, plan, q.first, Some(account));
    InvocationCrashesWhen(ordered, plan, q.second, InvocationOf(q, q.first, account).account);
  }

  // ------------------------------------------------------- requests that do not balance

  /** A world without cancellation in which no time passes. */
  function Quiet(readingFails: bool, ok: bool): AttemptWorld {
    AttemptWorld(false, 0, Weather(false, readingFails, false, true, Grant(Gpu, Cuda, true, false)), false, 0, false,
                 Returns(ok, false, false, false), false, 0)
  }

  function QuietWorlds(ok: bool, secondFails: bool): Environment {
    Environment(false, false, 0, 1, None, [], i => Quiet(secondFails && i == 1, ok))
  }

  /** The models "a" and "b" in this order; the second reading fails when asked to. */
  function TwoModels(ok: bool, secondFails: bool, finalFails: bool): Request {
    Request(Role("a", "", [], [], ["b"], [], [], []), "", false, "", false,
            QuietWorlds(ok, secondFails), QuietWorlds(ok, secondFails), finalFails)
  }

  /** Admitted for "a" with one lease. */
  function LeaseForA(): Account {
    Account(Decided("a", Grant(Gpu, Cuda, true, false), 0), "a", None, 2)
  }

  lemma {:induction false} QuietClockRuns(ok: bool, secondFails: bool)
    ensures ClockRuns(QuietWorlds(ok, secondFails))
  {
    var env := QuietWorlds(ok, secondFails);
    forall i: nat
      ensures env.start <= env.world(i).timeTop <= env.world(i).timeAdmitted <= env.world(i).timeAfter
    {
      assert env.world(i) == Quiet(secondFails && i == 1, ok);
    }
  }

  lemma {:induction false} DeclaresTwo()
    ensures Declared(TwoModels(false, false, false).role) == [Candidate("a", "", Preferred), Candidate("b", "", Fallback)]
  {
    assert ["b"][..0] == [] && Segment(["b"][..0], [], Fallback) == [];
    assert Segment(["b"], [], Fallback) == [Candidate("b", "", Fallback)];
  }

  lemma {:induction false} DedupeOfTwo(a: Candidate, b: Candidate)
    requires a.tag != b.tag
    ensures Dedupe([a, b]) == [a, b]
  {
    assert [a, b][..1] == [a] && [a][..0] == [];
    assert Dedupe([a]) == [a];
    assert b.tag !in Tags([a]);
  }

  /** The first visit of both requests and the account it leaves. */
  lemma {:induction false} FirstVisit(ok: bool, secondFails: bool, plan: seq<Candidate>)
    requires |plan| == 2 && plan[0].tag == "a" && plan[1].tag == "b"
    ensures var env, account := QuietWorlds(ok, secondFails), Some(LeaseForA());
            && AccountAt(plan, env, account, 1) == account
            && var visit := Visits(plan, env, account)[0];
               if ok then visit.EndAt? && visit.outcome == Answered("a") else visit.GoOn?
  {
    var env, account := QuietWorlds(ok, secondFails), Some(LeaseForA());
    VisitsIndex(plan, env, account, 2, 0);
    assert env.world(0) == Quiet(false, ok);
    assert AccountAt(plan, env, account, 0) == account;
  }

  /** The first attempt fails plainly and the reading for the second model fails:
      the exception path gives the lease back a second time. */
  lemma {:induction false} ReadingAfterFailureUnbalances()
    ensures var q := TwoModels(false, true, false);
            Settled(LeaseForA()) && ClockRuns(q.first) && !Balances(q, LeaseForA())
  {
    var q := TwoModels(false, true, false);
    var plan, account := Plan(q.role, q.routed, q.scoped, q.pinned), Some(LeaseForA());
    QuietClockRuns(false, true);
    DeclaresTwo();
    DedupeOfTwo(Candidate("a", "", Preferred), Candidate("b", "", Fallback));
    FirstVisit(false, true, plan);
    assert q.first.world(1) == Quiet(true, false);
    assert Walked(Visits(plan, q.first, account), 0).Going?;
    assert CrashesAt(plan, q.first, account, 1);
    FailingReadingCrashes(plan, q.first, account, 1);
    InvocationCrashesWhen(Ordered(q.role, q.routed), plan, q.first, account);
  }

  /** The first attempt answers and the final reading fails: the lease is kept. */
  lemma {:induction false} FailedFinalReadingKeepsLease()
    ensures var q := TwoModels(true, false, true);
            Settled(LeaseForA()) && ClockRuns(q.first) && !Balances(q, LeaseForA())
  {
    var q := TwoModels(true, false, true);
    var plan, account := Plan(q.role, q.routed, q.scoped, q.pinned), Some(LeaseForA());
    QuietClockRuns(true, false);
    DeclaresTwo();
    DedupeOfTwo(Candidate("a", "", Preferred), Candidate("b", "", Fallback));
    FirstVisit(true, false, plan);
    WalkEndsAt(Visits(plan, q.first, account), 0);
  }
}
