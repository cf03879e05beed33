/** The candidate loop of core/model_invoker.py, outside or inside the compute
    admission of one request.

    Cancellation, the clock, the governor and the provider answer anything; each
    candidate meets one `AttemptWorld`. */
module Invocation {
  import opened Admission
  import opened Candidates
  import opened Sequences
  import opened Wrappers

  /** `keyword`: a TypeError that names one of the governance keywords. */
  datatype Provider =
    | Raises(keyword: bool)
    | Returns(ok: bool, cancelled: bool, timedOut: bool, limited: bool)

  /** What the loop observes around one candidate, in program order. */
  datatype AttemptWorld = AttemptWorld(
    cancelTop: bool, timeTop: int,
    weather: Weather, cancelRefused: bool, timeAdmitted: int, cancelAdmitted: bool,
    provider: Provider, cancelAfter: bool, timeAfter: int)

  /** `cancelled` and `start` are read before the loop; when that stops the run,
      cancellation is asked again (`cancelledAgain`) to name the reason. `available`
      is absent when the installed models could not be listed. */
  datatype Environment = Environment(
    cancelled: bool, cancelledAgain: bool, start: int, deadline: int,
    available: Option<set<string>>, routeReasons: seq<Reason>, world: nat -> AttemptWorld)

  ghost predicate ClockRuns(env: Environment) {
    forall i: nat :: env.start <= env.world(i).timeTop <= env.world(i).timeAdmitted <= env.world(i).timeAfter
  }

  /** One provider call, with the compute decision current at the call and the
      handles the ledger then holds for the request. */
  datatype Call = Call(tag: string, budget: int, decision: Option<Decision>, live: set<Handle>)

  datatype Attempt = Attempt(ok: bool, cancelled: bool, timedOut: bool, limited: bool)

  /** What became of one candidate. */
  datatype Step =
    | Missing
    | Denied(decision: Decision, stopped: bool, profile: bool)
    | Attempted(call: Call, result: Attempt)
    | Threw(call: Call, keyword: bool)

  /** `Other`: any other text the route may already have put on the list. */
  datatype Reason =
    | CancelledOrExpired | OperatorCancelled | DeadlineExceeded | NotInstalled | AdmissionRefused
    | ResourceCutoff | AttemptFailed | NeedsAdmission | Other(text: string)

  datatype Outcome =
    | Answered(tag: string)
    | Stopped(reason: Reason)
    | Exhausted
    | NoCandidates
    | Raised(keyword: bool)

  /** A provider that returns late cannot revive a request that was cancelled or
      ran out of time. */
  function Judged(p: Provider, w: AttemptWorld, deadline: int): Attempt
    requires p.Returns?
  {
    if w.cancelAfter then Attempt(false, true, p.timedOut, p.limited)
    else if w.timeAfter >= deadline then Attempt(false, false, true, p.limited)
    else Attempt(p.ok, p.cancelled, p.timedOut, p.limited)
  }

  predicate PlainFailure(a: Attempt) {
    !a.ok && !a.cancelled && !a.timedOut && !a.limited
  }

  /** How an attempt ends the run, unless it is a plain failure. */
  function Verdict(a: Attempt, tag: string): Outcome {
    if a.ok then Answered(tag)
    else if a.limited then Stopped(ResourceCutoff)
    else if a.cancelled then Stopped(OperatorCancelled)
    else Stopped(DeadlineExceeded)
  }

  predicate Uninstalled(c: Candidate, env: Environment) {
    env.available.Some? && c.tag !in env.available.value
  }

  /** Nothing is tried when the request is already cancelled or out of time. */
  predicate EarlyStop(env: Environment) {
    env.cancelled || env.start >= env.deadline
  }

  // ------------------------------------------------------------ specification

  /** What the loop does with one candidate: go on, end with this step, or end
      before any step is recorded. */
  datatype Visit = GoOn(step: Step) | EndAt(step: Step, outcome: Outcome) | EndHere(outcome: Outcome)

  /** The account once a candidate has been visited; absent outside an admission scope. */
  function Afterwards(c: Candidate, env: Environment, w: AttemptWorld, account: Option<Account>): Option<Account> {
    if account.None? || w.cancelTop || w.timeTop >= env.deadline || Uninstalled(c, env) then account
    else Some(AfterPrepare(account.value, c.tag, w.weather))
  }

  function Provided(c: Candidate, env: Environment, w: AttemptWorld, call: Call): Visit {
    match w.provider
    case Raises(keyword) => EndAt(Threw(call, keyword), Raised(keyword))
    case Returns(_, _, _, _) =>
      var result := Judged(w.provider, w, env.deadline);
      if PlainFailure(result) then GoOn(Attempted(call, result))
      else EndAt(Attempted(call, result), Verdict(result, c.tag))
  }

  function Visited(c: Candidate, env: Environment, w: AttemptWorld, account: Option<Account>): Visit {
    if w.cancelTop then EndHere(Stopped(OperatorCancelled))
    else if w.timeTop >= env.deadline then EndHere(Stopped(DeadlineExceeded))
    else if Uninstalled(c, env) then GoOn(Missing)
    else if account.None? then Provided(c, env, w, Call(c.tag, env.deadline - w.timeTop, None, {}))
    else
      var after := AfterPrepare(account.value, c.tag, w.weather);
      var denied := Denied(after.decision, w.weather.stopped, after.profile.Some?);
      match PrepareResult(account.value, c.tag, w.weather)
      case Crashed => EndHere(Raised(false))
      case Refused => if w.cancelRefused then EndAt(denied, Stopped(OperatorCancelled)) else GoOn(denied)
      case Admitted(_, _) =>
        if w.cancelAdmitted then EndHere(Stopped(OperatorCancelled))
        else if w.timeAdmitted >= env.deadline then EndHere(Stopped(DeadlineExceeded))
        else
          Provided(c, env, w, Call(c.tag, env.deadline - w.timeAdmitted, Some(after.decision), Handles(after.decision)))
  }

  /** The account in front of candidate `i`, if the loop gets there. */
  function AccountAt(cs: seq<Candidate>, env: Environment, account: Option<Account>, i: nat): (r: Option<Account>)
    requires i <= |cs|
    ensures r.Some? == account.Some?
  {
    if i == 0 then account
    else Afterwards(cs[i - 1], env, env.world(i - 1), AccountAt(cs, env, account, i - 1))
  }

  function VisitAt(cs: seq<Candidate>, env: Environment, account: Option<Account>, i: nat): Visit
    requires i < |cs|
  {
    Visited(cs[i], env, env.world(i), AccountAt(cs, env, account, i))
  }

  /** What the loop would do with each of the first `n` candidates in turn. */
  function VisitsOf(cs: seq<Candidate>, env: Environment, account: Option<Account>, n: nat): (r: seq<Visit>)
    requires n <= |cs|
    ensures |r| == n
  {
    if n == 0 then [] else VisitsOf(cs, env, account, n - 1) + [VisitAt(cs, env, account, n - 1)]
  }

  function Visits(cs: seq<Candidate>, env: Environment, account: Option<Account>): (r: seq<Visit>)
    ensures |r| == |cs|
  {
    VisitsOf(cs, env, account, |cs|)
  }

  lemma {:induction false} VisitsIndex(cs: seq<Candidate>, env: Environment, account: Option<Account>, n: nat, i: nat)
    requires i < n <= |cs|
    ensures VisitsOf(cs, env, account, n)[i] == VisitAt(cs, env, account, i)
  {
    if i < n - 1 {
      VisitsIndex(cs, env, account, n - 1, i);
    }
  }

  /** `count` candidates were looked at before the run was over. */
  datatype Progress = Going(trace: seq<Step>) | Over(trace: seq<Step>, outcome: Outcome, count: nat)

  /** The loop over the first `n` visits: it stops at the first that ends it. */
  function Walked(visits: seq<Visit>, n: nat): (r: Progress)
    requires n <= |visits|
    ensures r.Over? ==> r.count <= n
  {
    if n == 0 then Going([])
    else
      var before := Walked(visits, n - 1);
      if before.Over? then before
      else
        match visits[n - 1]
        case GoOn(step) => Going(before.trace + [step])
        case EndAt(step, outcome) => Over(before.trace + [step], outcome, n)
        case EndHere(outcome) => Over(before.trace, outcome, n)
  }

  function LoopEnd(visits: seq<Visit>): (r: Progress)
    ensures r.Over? && r.count <= |visits|
  {
    var all := Walked(visits, |visits|);
    if all.Over? then all else Over(all.trace, Exhausted, |visits|)
  }

  /** How a run ended, and the account it left. */
  datatype Ending = Ending(trace: seq<Step>, outcome: Outcome, account: Option<Account>)

  function RunLoop(cs: seq<Candidate>, env: Environment, account: Option<Account>): (r: Ending)
    ensures r.account.Some? == account.Some?
  {
    var end := LoopEnd(Visits(cs, env, account));
    Ending(end.trace, end.outcome, AccountAt(cs, env, account, end.count))
  }

  /** The last visit of the loop crashed in re-admission. */
  ghost predicate CrashesIn(cs: seq<Candidate>, env: Environment, account: Option<Account>) {
    var visits := Visits(cs, env, account);
    var end := LoopEnd(visits);
    0 < end.count <= |cs| && visits[end.count - 1] == EndHere(Raised(false))
  }

  // ---------------------------------------------------------- reasons of a run

  /** The loop goes on to the next candidate only after such a step. */
  predicate Continues(s: Step) {
    s.Missing? || s.Denied? || (s.Attempted? && PlainFailure(s.result))
  }

  /** The reasons one step adds; a terminal attempt adds its own reason instead. */
  function StepReasons(s: Step, scoped: bool): seq<Reason> {
    if s.Missing? then [NotInstalled]
    else if s.Denied? then [AdmissionRefused]
    else if !Continues(s) then []
    else if scoped then [AttemptFailed, NeedsAdmission]
    else [AttemptFailed]
  }

  /** The reasons of the first `n` steps in order. */
  function ReasonsOf(trace: seq<Step>, scoped: bool, n: nat): seq<Reason>
    requires n <= |trace|
  {
    if n == 0 then [] else ReasonsOf(trace, scoped, n - 1) + StepReasons(trace[n - 1], scoped)
  }

  /** The reasons the loop has collected when it ends. */
  function LoopReasons(env: Environment, scoped: bool, trace: seq<Step>, outcome: Outcome): seq<Reason> {
    env.routeReasons + ReasonsOf(trace, scoped, |trace|) + (if outcome.Stopped? then [outcome.reason] else [])
  }

  /** `_dedupe_string_list` over the first `n` reasons. */
  function Deduped(reasons: seq<Reason>, n: nat): seq<Reason>
    requires n <= |reasons|
  {
    if n == 0 then []
    else
      var before := Deduped(reasons, n - 1);
      if reasons[n - 1] in before then before else before + [reasons[n - 1]]
  }

  function Unrepeated(reasons: seq<Reason>): seq<Reason> {
    Deduped(reasons, |reasons|)
  }

  function EarlyReason(env: Environment): Reason {
    if env.cancelledAgain then OperatorCancelled else DeadlineExceeded
  }

  /** The block reasons the invocation returns; an exception returns nothing. */
  function BlockReasons(ordered: seq<Candidate>, env: Environment, scoped: bool, trace: seq<Step>,
                        outcome: Outcome): seq<Reason>
  {
    if ordered == [] then env.routeReasons
    else if EarlyStop(env) then env.routeReasons + [CancelledOrExpired, EarlyReason(env)]
    else if outcome.Raised? then []
    else Unrepeated(LoopReasons(env, scoped, trace, outcome))
  }

  lemma {:induction false} DedupedKeepsAll(reasons: seq<Reason>, n: nat)
    requires n <= |reasons|
    ensures NoRepeats(Deduped(reasons, n))
    ensures forall r :: r in Deduped(reasons, n) <==> r in reasons[..n]
  {
    if n > 0 {
      DedupedKeepsAll(reasons, n - 1);
      assert reasons[..n] == reasons[..n - 1] + [reasons[n - 1]];
    }
  }

  /** The list only grows with the reasons, so it names them in the order in which they
      are first recorded. */
  lemma {:induction false} DedupedGrows(reasons: seq<Reason>, n: nat, m: nat)
    requires n <= m <= |reasons|
    ensures Deduped(reasons, n) <= Deduped(reasons, m)
    decreases m
  {
    if n < m {
      DedupedGrows(reasons, n, m - 1);
    }
  }

  /** A step that calls for this reason. */
  ghost predicate CallsFor(s: Step, scoped: bool, reason: Reason) {
    match reason
    case NotInstalled => s.Missing?
    case AdmissionRefused => s.Denied?
    case AttemptFailed =>
      s.Attempted? && !s.result.ok && !s.result.cancelled && !s.result.timedOut && !s.result.limited
    case NeedsAdmission =>
      scoped && s.Attempted? && !s.result.ok && !s.result.cancelled && !s.result.timedOut && !s.result.limited
    case _ => false
  }

  ghost predicate SomeStepCallsFor(trace: seq<Step>, scoped: bool, n: nat, reason: Reason)
    requires n <= |trace|
  {
    exists i :: 0 <= i < n && CallsFor(trace[i], scoped, reason)
  }

  lemma {:induction false} StepReasonsExact(s: Step, scoped: bool, reason: Reason)
    ensures reason in StepReasons(s, scoped) <==> CallsFor(s, scoped, reason)
    ensures CallsFor(s, scoped, NeedsAdmission) ==> StepReasons(s, scoped) == [AttemptFailed, NeedsAdmission]
  {
  }

  /** The steps add exactly the reasons that some of them calls for. */
  lemma {:induction false} ReasonsExact(trace: seq<Step>, scoped: bool, n: nat, reason: Reason)
    requires n <= |trace|
    ensures reason in ReasonsOf(trace, scoped, n) <==> SomeStepCallsFor(trace, scoped, n, reason)
  {
    if n > 0 {
      ReasonsExact(trace, scoped, n - 1, reason);
      StepReasonsExact(trace[n - 1], scoped, reason);
    }
  }

  /** An invocation lists exactly the route's reasons, those its steps call for and the
      one that stopped it. */
  lemma {:induction false} BlockReasonsAreExact(ordered: seq<Candidate>, env: Environment, scoped: bool,
                                                trace: seq<Step>, outcome: Outcome, reason: Reason)
    requires ordered != [] && !outcome.Raised? && !env.cancelled && env.start < env.deadline
    ensures reason in BlockReasons(ordered, env, scoped, trace, outcome) <==>
            reason in env.routeReasons || SomeStepCallsFor(trace, scoped, |trace|, reason) || outcome == Stopped(reason)
  {
    var all := LoopReasons(env, scoped, trace, outcome);
    DedupedKeepsAll(all, |all|);
    assert all[..|all|] == all;
    ReasonsExact(trace, scoped, |trace|, reason);
  }

  /** Every step's reasons and the route's are returned, a run that was stopped says
      why, and the loop repeats no reason. */
  lemma {:induction false} BlockReasonsAreComplete(ordered: seq<Candidate>, env: Environment, scoped: bool,
                                                   trace: seq<Step>, outcome: Outcome)
    requires ordered != [] && !outcome.Raised?
    requires env.cancelled || env.start >= env.deadline ==>
               trace == [] && outcome == Stopped(if env.cancelledAgain then OperatorCancelled else DeadlineExceeded)
    ensures var reasons := BlockReasons(ordered, env, scoped, trace, outcome);
            && (forall r :: r in env.routeReasons ==> r in reasons)
            && (forall r :: r in ReasonsOf(trace, scoped, |trace|) ==> r in reasons)
            && (outcome.Stopped? ==> outcome.reason in reasons)
            && (env.cancelled || env.start >= env.deadline ==> CancelledOrExpired in reasons)
            && (!env.cancelled && env.start < env.deadline ==> NoRepeats(reasons))
  {
    var all := LoopReasons(env, scoped, trace, outcome);
    DedupedKeepsAll(all, |all|);
    assert all[..|all|] == all;
  }

  // ---------------------------------------------------- what a call must satisfy

  /** The budget is what remains of the total deadline at the last reading before
      the call, and compute is never borrowed: the decision that preparing this
      attempt left was made for this model, does not refuse, and the request holds
      exactly its handles. */
  ghost predicate SoundCall(call: Call, c: Candidate, env: Environment, w: AttemptWorld, account: Option<Account>) {
    && call.tag == c.tag
    && (env.available.Some? ==> call.tag in env.available.value)
    && call.budget == env.deadline - (if account.Some? then w.timeAdmitted else w.timeTop)
    && 0 < call.budget <= env.deadline - env.start
    && match account
       case None => call.decision == None && call.live == {}
       case Some(before) =>
         var admitted := AfterPrepare(before, c.tag, w.weather).decision;
         && !w.cancelAdmitted && PrepareResult(before, c.tag, w.weather).Admitted?
         && call.decision == Some(admitted) && call.live == Handles(admitted)
         && admitted.tag == call.tag && !admitted.verdict.Rejected? && !admitted.verdict.Deferred?
  }

  /** The recorded attempt is the provider's answer as the checks made behind the call
      leave it: a cancellation found then outranks a deadline that has passed by then. */
  ghost predicate IsResult(a: Attempt, w: AttemptWorld, deadline: int)
    requires w.provider.Returns?
  {
    && (a.ok <==> w.provider.ok && !w.cancelAfter && w.timeAfter < deadline)
    && (a.limited <==> w.provider.limited)
    && (a.cancelled <==> w.cancelAfter || (w.timeAfter < deadline && w.provider.cancelled))
    && (a.timedOut <==> w.provider.timedOut || (!w.cancelAfter && w.timeAfter >= deadline))
  }

  /** `account` is the one in front of the candidate. A refusal names the decision
      that preparing the attempt left, and its cause. */
  ghost predicate SoundStep(s: Step, c: Candidate, env: Environment, w: AttemptWorld, account: Option<Account>) {
    && !w.cancelTop && w.timeTop < env.deadline
    && match s
       case Missing => env.available.Some? && c.tag !in env.available.value
       case Denied(d, stopped, profile) =>
         && account.Some? && !ReadingCrashes(account.value, c.tag, w.weather)
         && d == AfterPrepare(account.value, c.tag, w.weather).decision && stopped == w.weather.stopped
         && profile == AfterPrepare(account.value, c.tag, w.weather).profile.Some?
         && (stopped || d.verdict.Rejected? || d.verdict.Deferred? || (profile && d.device != Cuda))
       case Attempted(call, result) =>
         && SoundCall(call, c, env, w, account)
         && w.provider.Returns? && IsResult(result, w, env.deadline)
       case Threw(call, keyword) =>
         SoundCall(call, c, env, w, account) && w.provider == Raises(keyword)
  }

  ghost predicate SoundAt(s: Step, cs: seq<Candidate>, env: Environment, account: Option<Account>, i: nat)
    requires i < |cs|
  {
    SoundStep(s, cs[i], env, env.world(i), AccountAt(cs, env, account, i))
  }

  ghost predicate SoundTrace(trace: seq<Step>, cs: seq<Candidate>, env: Environment, account: Option<Account>) {
    && |trace| <= |cs|
    && forall i :: 0 <= i < |trace| ==> SoundAt(trace[i], cs, env, account, i)
  }

  ghost predicate AllContinue(trace: seq<Step>) {
    forall i :: 0 <= i < |trace| ==> Continues(trace[i])
  }

  /** The run ended in front of a candidate because of what `w` says; it raised
      exactly where a reading fails with another model admitted. */
  ghost predicate EndsBefore(outcome: Outcome, c: Candidate, w: AttemptWorld, env: Environment,
                             account: Option<Account>)
  {
    if w.cancelTop then outcome == Stopped(OperatorCancelled)
    else if w.timeTop >= env.deadline then outcome == Stopped(DeadlineExceeded)
    else
      && account.Some? && (env.available.Some? ==> c.tag in env.available.value)
      && if c.tag != account.value.admittedTag && !w.weather.stopped && w.weather.readingFails then
           outcome == Raised(false)
         else
           && PrepareResult(account.value, c.tag, w.weather).Admitted?
           && if w.cancelAdmitted then outcome == Stopped(OperatorCancelled)
              else w.timeAdmitted >= env.deadline && outcome == Stopped(DeadlineExceeded)
  }

  /** An attempt ends the run with an answer when it is ok, for lack of resources when
      it was limited, by the operator when it was cancelled, for the deadline when it
      timed out, in this order. */
  ghost predicate EndedBy(a: Attempt, outcome: Outcome, tag: string) {
    if outcome.Answered? then a.ok && outcome.tag == tag
    else
      && outcome.Stopped? && !a.ok
      && match outcome.reason
         case ResourceCutoff => a.limited
         case OperatorCancelled => !a.limited && a.cancelled
         case DeadlineExceeded => !a.limited && !a.cancelled && a.timedOut
         case _ => false
  }

  /** The run ended with the step `s`. */
  ghost predicate EndsWith(s: Step, outcome: Outcome, c: Candidate, w: AttemptWorld) {
    match s
    case Missing => false
    case Denied(_, _, _) => outcome == Stopped(OperatorCancelled) && w.cancelRefused
    case Threw(_, keyword) => outcome == Raised(keyword)
    case Attempted(_, a) => EndedBy(a, outcome, c.tag)
  }

  /** The outcome is the one the trace leads to; only the last step ends a run. */
  ghost predicate Explains(trace: seq<Step>, outcome: Outcome, cs: seq<Candidate>, env: Environment,
                           account: Option<Account>)
    requires |trace| <= |cs|
  {
    var n := |trace|;
    || (outcome == Exhausted && n == |cs| && AllContinue(trace))
    || (n < |cs| && AllContinue(trace) && EndsBefore(outcome, cs[n], env.world(n), env, AccountAt(cs, env, account, n)))
    || (n > 0 && AllContinue(trace[..n - 1]) && EndsWith(trace[n - 1], outcome, cs[n - 1], env.world(n - 1)))
  }

  /** A reading failed during re-admission; no provider raised. */
  ghost predicate CrashedIn(trace: seq<Step>, outcome: Outcome) {
    outcome == Raised(false) && AllContinue(trace)
  }

  ghost predicate SettledOrAbsent(account: Option<Account>) {
    account.Some? ==> Settled(account.value)
  }

  lemma {:induction false} AccountsAreSettled(cs: seq<Candidate>, env: Environment, account: Option<Account>, i: nat)
    requires i <= |cs| && SettledOrAbsent(account)
    ensures SettledOrAbsent(AccountAt(cs, env, account, i))
  {
    if i > 0 {
      AccountsAreSettled(cs, env, account, i - 1);
    }
  }

  /** What one visit records and how it ends the run, if it does. */
  ghost predicate SoundVisit(visit: Visit, c: Candidate, env: Environment, w: AttemptWorld, account: Option<Account>) {
    match visit
    case GoOn(step) => SoundStep(step, c, env, w, account) && Continues(step)
    case EndAt(step, outcome) => SoundStep(step, c, env, w, account) && EndsWith(step, outcome, c, w)
    case EndHere(outcome) => EndsBefore(outcome, c, w, env, account)
  }

  lemma {:induction false} VisitIsSound(c: Candidate, env: Environment, w: AttemptWorld, account: Option<Account>)
    requires env.start <= w.timeTop <= w.timeAdmitted && SettledOrAbsent(account)
    ensures SoundVisit(Visited(c, env, w, account), c, env, w, account)
  {
    if account.Some? {
      NeverBorrowed(account.value, c.tag, w.weather);
    }
  }

  // ------------------------------------------------------------ shape of a walk

  /** The first `n` visits all let the loop go on, with these steps. */
  ghost predicate AllGoOn(visits: seq<Visit>, trace: seq<Step>, n: nat)
    requires n <= |visits|
  {
    |trace| >= n && forall i :: 0 <= i < n ==> visits[i] == GoOn(trace[i])
  }

  /** Every visit before the last lets the loop go on; the last ends it. */
  ghost predicate WalkShape(visits: seq<Visit>, p: Progress, n: nat)
    requires n <= |visits|
  {
    match p
    case Going(trace) => |trace| == n && AllGoOn(visits, trace, n)
    case Over(trace, outcome, count) =>
      && 0 < count <= n && AllGoOn(visits, trace, count - 1)
      && if |trace| == count then visits[count - 1] == EndAt(trace[count - 1], outcome)
         else |trace| == count - 1 && visits[count - 1] == EndHere(outcome)
  }

  lemma {:induction false} WalkHasShape(visits: seq<Visit>, n: nat)
    requires n <= |visits|
    ensures var p := Walked(visits, n);
            WalkShape(visits, p, n) && (p.Over? ==> Walked(visits, p.count - 1).Going?)
  {
    if n > 0 {
      WalkHasShape(visits, n - 1);
    }
  }

  lemma {:induction false} OverStaysOver(visits: seq<Visit>, n: nat, m: nat)
    requires n <= m <= |visits| && Walked(visits, n).Over?
    ensures Walked(visits, m) == Walked(visits, n)
    decreases m
  {
    if n < m {
      OverStaysOver(visits, n, m - 1);
    }
  }

  /** A walk ends at the first visit that does not let it go on. */
  lemma {:induction false} WalkEndsAt(visits: seq<Visit>, n: nat)
    requires n < |visits| && !visits[n].GoOn? && Walked(visits, n).Going?
    ensures LoopEnd(visits).count == n + 1 && LoopEnd(visits).outcome == visits[n].outcome
    ensures |LoopEnd(visits).trace| == if visits[n].EndAt? then n + 1 else n
  {
    WalkHasShape(visits, n);
    WalkHasShape(visits, n + 1);
    OverStaysOver(visits, n + 1, |visits|);
  }

  // ------------------------------------------------------ the loop is explained

  lemma {:induction false} VisitIsSoundAt(cs: seq<Candidate>, env: Environment, account: Option<Account>, i: nat)
    requires i < |cs| && ClockRuns(env) && SettledOrAbsent(account)
    ensures SoundVisit(Visits(cs, env, account)[i], cs[i], env, env.world(i), AccountAt(cs, env, account, i))
  {
    VisitsIndex(cs, env, account, |cs|, i);
    AccountsAreSettled(cs, env, account, i);
    VisitIsSound(cs[i], env, env.world(i), AccountAt(cs, env, account, i));
  }

  lemma {:induction false} StepsContinue(visits: seq<Visit>, trace: seq<Step>, n: nat, cs: seq<Candidate>,
                                         env: Environment, account: Option<Account>)
    requires n <= |cs| == |visits| && visits == Visits(cs, env, account) && AllGoOn(visits, trace, n)
    requires ClockRuns(env) && SettledOrAbsent(account)
    ensures AllContinue(trace[..n]) && SoundTrace(trace[..n], cs, env, account)
  {
    forall i | 0 <= i < n
      ensures Continues(trace[i]) && SoundAt(trace[i], cs, env, account, i)
    {
      VisitIsSoundAt(cs, env, account, i);
    }
  }

  /** The trace is sound and explains the outcome. */
  ghost predicate SoundEnd(end: Progress, cs: seq<Candidate>, env: Environment, account: Option<Account>) {
    && end.Over? && end.count <= |cs|
    && SoundTrace(end.trace, cs, env, account)
    && Explains(end.trace, end.outcome, cs, env, account)
  }

  lemma {:induction false} SoundToTheLast(trace: seq<Step>, cs: seq<Candidate>, env: Environment,
                                          account: Option<Account>)
    requires 0 < |trace| <= |cs| && SoundTrace(trace[..|trace| - 1], cs, env, account)
    requires SoundAt(trace[|trace| - 1], cs, env, account, |trace| - 1)
    ensures SoundTrace(trace, cs, env, account)
  {
    var before := trace[..|trace| - 1];
    forall i | 0 <= i < |trace|
      ensures SoundAt(trace[i], cs, env, account, i)
    {
      if i < |before| {
        assert SoundAt(before[i], cs, env, account, i);
      }
    }
  }

  lemma {:induction false} EndsAtStep(end: Progress, visits: seq<Visit>, cs: seq<Candidate>, env: Environment,
                                      account: Option<Account>)
    requires ClockRuns(env) && SettledOrAbsent(account) && visits == Visits(cs, env, account)
    requires end.Over? && WalkShape(visits, end, |cs|) && |end.trace| == end.count
    ensures SoundEnd(end, cs, env, account)
  {
    var k := end.count - 1;
    StepsContinue(visits, end.trace, k, cs, env, account);
    VisitIsSoundAt(cs, env, account, k);
    assert SoundAt(end.trace[k], cs, env, account, k);
    SoundToTheLast(end.trace, cs, env, account);
  }

  lemma {:induction false} EndsAhead(end: Progress, visits: seq<Visit>, cs: seq<Candidate>, env: Environment,
                                     account: Option<Account>)
    requires ClockRuns(env) && SettledOrAbsent(account) && visits == Visits(cs, env, account)
    requires end.Over? && WalkShape(visits, end, |cs|) && |end.trace| != end.count
    ensures SoundEnd(end, cs, env, account)
  {
    var k := end.count - 1;
    StepsContinue(visits, end.trace, k, cs, env, account);
    VisitIsSoundAt(cs, env, account, k);
    assert end.trace[..k] == end.trace;
  }

  lemma {:induction false} RunsOut(visits: seq<Visit>, cs: seq<Candidate>, env: Environment, account: Option<Account>)
    requires ClockRuns(env) && SettledOrAbsent(account) && visits == Visits(cs, env, account)
    requires Walked(visits, |cs|).Going?
    ensures SoundEnd(LoopEnd(visits), cs, env, account)
  {
    var trace := Walked(visits, |cs|).trace;
    WalkHasShape(visits, |cs|);
    StepsContinue(visits, trace, |cs|, cs, env, account);
    assert trace[..|cs|] == trace;
  }

  /** The loop ends as its trace explains, whatever the environment. */
  lemma {:induction false} LoopIsExplained(cs: seq<Candidate>, env: Environment, account: Option<Account>)
    requires ClockRuns(env) && SettledOrAbsent(account)
    ensures SoundEnd(LoopEnd(Visits(cs, env, account)), cs, env, account)
  {
    var visits := Visits(cs, env, account);
    var end := LoopEnd(visits);
    WalkHasShape(visits, |cs|);
    if Walked(visits, |cs|).Going? {
      RunsOut(visits, cs, env, account);
    } else if |end.trace| == end.count {
      EndsAtStep(end, visits, cs, env, account);
    } else {
      EndsAhead(end, visits, cs, env, account);
    }
  }

  // -------------------------------------------------------------- when it crashes

  /** The loop gets to candidate `n` and a reading fails there. */
  ghost predicate CrashesAt(cs: seq<Candidate>, env: Environment, account: Option<Account>, n: nat) {
    && n < |cs| && Walked(Visits(cs, env, account), n).Going?
    && var w, before := env.world(n), AccountAt(cs, env, account, n);
       && !w.cancelTop && w.timeTop < env.deadline && (env.available.Some? ==> cs[n].tag in env.available.value)
       && before.Some? && cs[n].tag != before.value.admittedTag && !w.weather.stopped && w.weather.readingFails
  }

  /** A visit crashes exactly where the machine is read for another model and the
      reading fails. */
  lemma {:induction false} VisitCrashes(c: Candidate, env: Environment, w: AttemptWorld, account: Option<Account>)
    ensures Visited(c, env, w, account) == EndHere(Raised(false)) <==>
              && !w.cancelTop && w.timeTop < env.deadline && !Uninstalled(c, env)
              && account.Some? && ReadingCrashes(account.value, c.tag, w.weather)
  {
  }

  /** An attempt that raises is no step to go on from. */
  predicate Honest(visit: Visit) {
    && (visit.GoOn? ==> Continues(visit.step))
    && (visit.EndAt? && visit.outcome.Raised? ==> !Continues(visit.step))
  }

  lemma {:induction false} VisitIsHonest(c: Candidate, env: Environment, w: AttemptWorld, account: Option<Account>)
    ensures Honest(Visited(c, env, w, account))
  {
  }

  lemma {:induction false} VisitsAreHonest(cs: seq<Candidate>, env: Environment, account: Option<Account>)
    ensures forall i :: 0 <= i < |cs| ==> Honest(Visits(cs, env, account)[i])
  {
    forall i | 0 <= i < |cs|
      ensures Honest(Visits(cs, env, account)[i])
    {
      VisitsIndex(cs, env, account, |cs|, i);
      VisitIsHonest(cs[i], env, env.world(i), AccountAt(cs, env, account, i));
    }
  }

  /** A trace in which every step went on and which raised ended in front of a candidate. */
  lemma {:induction false} CrashEndsAhead(visits: seq<Visit>)
    requires forall k :: 0 <= k < |visits| ==> Honest(visits[k])
    ensures var end := LoopEnd(visits);
            && end.count <= |visits|
            && (CrashedIn(end.trace, end.outcome) <==> end.count > 0 && visits[end.count - 1] == EndHere(Raised(false)))
            && (CrashedIn(end.trace, end.outcome) ==> Walked(visits, end.count - 1).Going?)
  {
    WalkHasShape(visits, |visits|);
    var end := LoopEnd(visits);
    forall k | 0 <= k < end.count - 1
      ensures visits[k] == GoOn(end.trace[k]) && Continues(end.trace[k])
    {
      assert Honest(visits[k]);
    }
    if end.count > 0 {
      assert Honest(visits[end.count - 1]);
    }
  }

  lemma {:induction false} CrashEndsTheLoop(cs: seq<Candidate>, env: Environment, account: Option<Account>)
    ensures var r := RunLoop(cs, env, account);
            CrashedIn(r.trace, r.outcome) <==> CrashesIn(cs, env, account)
  {
    VisitsAreHonest(cs, env, account);
    CrashEndsAhead(Visits(cs, env, account));
  }

  lemma {:induction false} FailingReadingCrashes(cs: seq<Candidate>, env: Environment, account: Option<Account>, n: nat)
    requires CrashesAt(cs, env, account, n)
    ensures LoopEnd(Visits(cs, env, account)).count == n + 1
    ensures Visits(cs, env, account)[n] == EndHere(Raised(false))
  {
    VisitsIndex(cs, env, account, |cs|, n);
    VisitCrashes(cs[n], env, env.world(n), AccountAt(cs, env, account, n));
    WalkEndsAt(Visits(cs, env, account), n);
  }

  lemma {:induction false} CrashIsAFailingReading(cs: seq<Candidate>, env: Environment, account: Option<Account>,
                                                  n: nat)
    requires n < |cs| && Visits(cs, env, account)[n] == EndHere(Raised(false))
    requires Walked(Visits(cs, env, account), n).Going?
    ensures CrashesAt(cs, env, account, n)
  {
    VisitsIndex(cs, env, account, |cs|, n);
    VisitCrashes(cs[n], env, env.world(n), AccountAt(cs, env, account, n));
  }

  /** Re-admission crashes exactly in the runs that get to a failing reading. */
  lemma {:induction false} CrashComesFromReading(cs: seq<Candidate>, env: Environment, account: Option<Account>)
    ensures var r := RunLoop(cs, env, account);
            CrashedIn(r.trace, r.outcome) <==> exists n: nat :: CrashesAt(cs, env, account, n)
  {
    var visits := Visits(cs, env, account);
    VisitsAreHonest(cs, env, account);
    CrashEndsAhead(visits);
    var end := LoopEnd(visits);
    if CrashedIn(end.trace, end.outcome) {
      assert Walked(visits, end.count - 1).Going?;
      assert visits[end.count - 1] == EndHere(Raised(false));
      CrashIsAFailingReading(cs, env, account, end.count - 1);
    } else if n: nat :| CrashesAt(cs, env, account, n) {
      FailingReadingCrashes(cs, env, account, n);
    }
  }

  // ------------------------------------------------------------------- the loop

  function Held(compute: RequestCompute?): Option<Account>
    reads compute
  {
    if compute == null then None else Some(compute.Current())
  }

  /** The call and the checks made after it. */
  method AskProvider(c: Candidate, env: Environment, w: AttemptWorld, call: Call) returns (r: Visit)
    ensures r == Provided(c, env, w, call)
  {
    if w.provider.Raises? {
      return EndAt(Threw(call, w.provider.keyword), Raised(w.provider.keyword));
    }
    var result := Attempt(w.provider.ok, w.provider.cancelled, w.provider.timedOut, w.provider.limited);
    if w.cancelAfter {
      result := result.(ok := false, cancelled := true);
    } else if w.timeAfter >= env.deadline {
      result := result.(ok := false, cancelled := false, timedOut := true);
    }
    var step := Attempted(call, result);
    if result.ok {
      return EndAt(step, Answered(c.tag));
    }
    if result.limited {
      return EndAt(step, Stopped(ResourceCutoff));
    }
    if result.cancelled {
      return EndAt(step, Stopped(OperatorCancelled));
    }
    if result.timedOut {
      return EndAt(step, Stopped(DeadlineExceeded));
    }
    return GoOn(step);
  }

  /** One iteration. */
  method TryCandidate(c: Candidate, env: Environment, w: AttemptWorld, compute: RequestCompute?) returns (r: Visit)
    requires compute != null ==> compute.Inv()
    modifies compute
    ensures r == Visited(c, env, w, old(Held(compute)))
    ensures Held(compute) == Afterwards(c, env, w, old(Held(compute)))
    ensures compute != null && !r.EndHere? && (r.step.Attempted? || r.step.Threw?) ==>
              r.step.call.decision == Some(compute.decision) && r.step.call.live == compute.Live()
    ensures compute != null ==> compute.Inv() || compute.FaultedInv()
    ensures compute != null ==> (compute.faulted <==> r == EndHere(Raised(false)) && Handles(compute.decision) != {})
  {
    if w.cancelTop {
      return EndHere(Stopped(OperatorCancelled));
    }
    var remaining := env.deadline - w.timeTop;
    if remaining <= 0 {
      return EndHere(Stopped(DeadlineExceeded));
    }
    if env.available.Some? && c.tag !in env.available.value {
      return GoOn(Missing);
    }
    var decision, live := None, {};
    if compute != null {
      var prepared := compute.Prepare(c.tag, w.weather);
      if prepared.Crashed? {
        return EndHere(Raised(false));
      }
      if prepared.Refused? || (prepared.profileTag.Some? && prepared.profileTag.value != c.tag) {
        var step := Denied(compute.decision, w.weather.stopped, compute.ownedProfile.Some?);
        return if w.cancelRefused then EndAt(step, Stopped(OperatorCancelled)) else GoOn(step);
      }
      remaining := env.deadline - w.timeAdmitted;
      if w.cancelAdmitted {
        return EndHere(Stopped(OperatorCancelled));
      }
      if remaining <= 0 {
        return EndHere(Stopped(DeadlineExceeded));
      }
      decision, live := Some(compute.decision), compute.Live();
    }
    r := AskProvider(c, env, w, Call(c.tag, remaining, decision, live));
  }

  /** Drops the reasons that were listed before. */
  method DedupeReasons(reasons: seq<Reason>) returns (deduped: seq<Reason>)
    ensures deduped == Deduped(reasons, |reasons|)
  {
    deduped := [];
    var seen: set<Reason> := {};
    for i := 0 to |reasons|
      invariant deduped == Deduped(reasons, i)
      invariant forall r :: r in seen <==> r in deduped
    {
      if reasons[i] !in seen {
        deduped := deduped + [reasons[i]];
        seen := seen + {reasons[i]};
      }
    }
  }

  lemma {:induction false} ReasonsOfLonger(trace: seq<Step>, s: Step, scoped: bool, n: nat)
    requires n <= |trace|
    ensures ReasonsOf(trace + [s], scoped, n) == ReasonsOf(trace, scoped, n)
    ensures n == |trace| ==> ReasonsOf(trace + [s], scoped, n + 1) == ReasonsOf(trace, scoped, n) + StepReasons(s, scoped)
  {
    if n > 0 {
      ReasonsOfLonger(trace, s, scoped, n - 1);
    }
  }

  lemma {:induction false} LoopIsOver(cs: seq<Candidate>, env: Environment, account: Option<Account>, trace: seq<Step>,
                                      i: nat)
    requires i < |cs| && Walked(Visits(cs, env, account), i) == Going(trace)
    ensures var visit := Visits(cs, env, account)[i];
            !visit.GoOn? ==>
              && RunLoop(cs, env, account) == Ending(if visit.EndAt? then trace + [visit.step] else trace, visit.outcome,
                                                     AccountAt(cs, env, account, i + 1))
              && (CrashesIn(cs, env, account) <==> visit == EndHere(Raised(false)))
  {
    if !Visits(cs, env, account)[i].GoOn? {
      OverStaysOver(Visits(cs, env, account), i + 1, |cs|);
    }
  }

  /** The `i`-th iteration of the loop that began with `account`. */
  method VisitNext(cs: seq<Candidate>, i: nat, env: Environment, compute: RequestCompute?,
                   ghost account: Option<Account>)
    returns (visit: Visit)
    requires i < |cs| && (compute != null ==> compute.Inv()) && Held(compute) == AccountAt(cs, env, account, i)
    modifies compute
    ensures visit == Visits(cs, env, account)[i] && Held(compute) == AccountAt(cs, env, account, i + 1)
    ensures compute != null ==> compute.Inv() || compute.FaultedInv()
    ensures compute != null ==> (compute.faulted <==> visit == EndHere(Raised(false)) && Handles(compute.decision) != {})
  {
    visit := TryCandidate(cs[i], env, env.world(i), compute);
    VisitsIndex(cs, env, account, |cs|, i);
  }

  /** Appends what a visit leaves: its step, the reasons of that step, and the reason
      for which it stops the run. */
  method Record(visit: Visit, scoped: bool, env: Environment, trace: seq<Step>, reasons: seq<Reason>)
    returns (longer: seq<Step>, more: seq<Reason>)
    requires reasons == LoopReasons(env, scoped, trace, Exhausted)
    ensures longer == if visit.EndHere? then trace else trace + [visit.step]
    ensures more == LoopReasons(env, scoped, longer, if visit.GoOn? then Exhausted else visit.outcome)
  {
    longer, more := trace, reasons;
    if !visit.EndHere? {
      ReasonsOfLonger(trace, visit.step, scoped, |trace|);
      longer := trace + [visit.step];
      more := reasons + StepReasons(visit.step, scoped);
      assert more == LoopReasons(env, scoped, longer, Exhausted);
    }
    if !visit.GoOn? && visit.outcome.Stopped? {
      more := more + [visit.outcome.reason];
    }
  }

  /** The loop itself: the trace and the reasons in the order in which they are recorded. */
  method TryEach(cs: seq<Candidate>, scoped: bool, env: Environment, compute: RequestCompute?)
    returns (outcome: Outcome, trace: seq<Step>, reasons: seq<Reason>)
    requires compute != null ==> compute.Inv()
    modifies compute
    ensures Ending(trace, outcome, Held(compute)) == RunLoop(cs, env, old(Held(compute)))
    ensures reasons == LoopReasons(env, scoped, trace, outcome)
    ensures compute != null ==> compute.Inv() || compute.FaultedInv()
    ensures compute != null ==>
              (compute.faulted <==> CrashesIn(cs, env, old(Held(compute))) && Handles(compute.decision) != {})
  {
    ghost var account := Held(compute);
    trace, reasons := [], env.routeReasons;
    for i := 0 to |cs|
      invariant Walked(Visits(cs, env, account), i) == Going(trace)
      invariant Held(compute) == AccountAt(cs, env, account, i)
      invariant i > 0 ==> Visits(cs, env, account)[i - 1].GoOn?
      invariant reasons == LoopReasons(env, scoped, trace, Exhausted)
      invariant compute != null ==> compute.Inv()
    {
      var visit := VisitNext(cs, i, env, compute, account);
      LoopIsOver(cs, env, account, trace, i);
      trace, reasons := Record(visit, scoped, env, trace, reasons);
      if !visit.GoOn? {
        return visit.outcome, trace, reasons;
      }
    }
    outcome := Exhausted;
    assert !CrashesIn(cs, env, account);
    assert RunLoop(cs, env, account) == Ending(trace, outcome, Held(compute));
  }

  /** The loop and what is returned after it. */
  method TryCandidates(cs: seq<Candidate>, scoped: bool, env: Environment, compute: RequestCompute?)
    returns (outcome: Outcome, trace: seq<Step>, reasons: seq<Reason>)
    requires ClockRuns(env) && (compute != null ==> compute.Inv())
    modifies compute
    ensures Ending(trace, outcome, Held(compute)) == RunLoop(cs, env, old(Held(compute)))
    ensures SoundTrace(trace, cs, env, old(Held(compute)))
    ensures Explains(trace, outcome, cs, env, old(Held(compute)))
    ensures reasons == if outcome.Raised? then [] else Unrepeated(LoopReasons(env, scoped, trace, outcome))
    ensures compute != null ==> compute.Inv() || compute.FaultedInv()
    ensures compute != null ==> (compute.faulted <==> CrashedIn(trace, outcome) && Handles(compute.decision) != {})
  {
    ghost var account := Held(compute);
    outcome, trace, reasons := TryEach(cs, scoped, env, compute);
    LoopIsExplained(cs, env, account);
    CrashEndsTheLoop(cs, env, account);
    reasons := DedupeReasons(reasons);
    if outcome.Raised? {
      reasons := [];
    }
  }

  // ------------------------------------------------------------- shape of a run

  /** The tags handed to the provider, in order. */
  function CalledTags(trace: seq<Step>): seq<string> {
    if trace == [] then []
    else
      var last := trace[|trace| - 1];
      CalledTags(trace[..|trace| - 1]) + (if last.Attempted? || last.Threw? then [last.call.tag] else [])
  }

  lemma {:induction false} CalledIsSubsequence(trace: seq<Step>, cs: seq<Candidate>, env: Environment,
                                               account: Option<Account>)
    requires SoundTrace(trace, cs, env, account)
    ensures IsSubsequence(CalledTags(trace), Tags(cs[..|trace|]))
  {
    if trace != [] {
      var n := |trace| - 1;
      CalledIsSubsequence(trace[..n], cs, env, account);
      var before, after := CalledTags(trace[..n]), CalledTags(trace);
      assert SoundAt(trace[n], cs, env, account, n);
      assert Tags(cs[..|trace|]) == Tags(cs[..n]) + [cs[n].tag];
      assert after == before || (after == before + [cs[n].tag] && after[..|after| - 1] == before);
      SubsequenceGrows(before, Tags(cs[..n]), cs[n].tag);
    }
  }

  /** A tag counts as called exactly when some step handed it to the provider. */
  lemma {:induction false} CalledExact(trace: seq<Step>, tag: string)
    ensures tag in CalledTags(trace) <==>
              exists i :: 0 <= i < |trace| && (trace[i].Attempted? || trace[i].Threw?) && trace[i].call.tag == tag
  {
    if trace != [] {
      var n := |trace| - 1;
      CalledExact(trace[..n], tag);
      assert trace == trace[..n] + [trace[n]];
    }
  }

  lemma {:induction false} CalledOnce(trace: seq<Step>, cs: seq<Candidate>, env: Environment, account: Option<Account>)
    requires SoundTrace(trace, cs, env, account) && DistinctTags(cs)
    ensures IsSubsequence(CalledTags(trace), Tags(cs)) && NoRepeats(CalledTags(trace))
  {
    CalledIsSubsequence(trace, cs, env, account);
    assert Tags(cs)[..|trace|] == Tags(cs[..|trace|]);
    SubsequenceOfLonger(CalledTags(trace), Tags(cs), |trace|);
    SubsequenceInherits(CalledTags(trace), Tags(cs));
  }

  /** An answer is given exactly when the last step is an accepted attempt; it
      passed the cancellation and deadline checks made after the call. */
  lemma {:induction false} AnswersAreTimely(trace: seq<Step>, outcome: Outcome, cs: seq<Candidate>, env: Environment,
                                            account: Option<Account>)
    requires SoundTrace(trace, cs, env, account) && Explains(trace, outcome, cs, env, account)
    ensures outcome.Answered? <==> |trace| > 0 && trace[|trace| - 1].Attempted? && trace[|trace| - 1].result.ok
    ensures outcome.Answered? ==>
              var w := env.world(|trace| - 1);
              !w.cancelAfter && w.timeAfter < env.deadline && w.provider.Returns? && w.provider.ok
              && outcome.tag == cs[|trace| - 1].tag
  {
    if |trace| > 0 {
      var n := |trace| - 1;
      assert SoundAt(trace[n], cs, env, account, n);
    }
  }

  /** What the world says about an attempt that ends the run with `outcome`. */
  ghost predicate Decides(w: AttemptWorld, deadline: int, outcome: Outcome, tag: string) {
    && w.provider.Returns?
    && var late := w.timeAfter >= deadline;
       if outcome.Answered? then outcome.tag == tag && w.provider.ok && !w.cancelAfter && !late
       else
         && outcome.Stopped? && (w.cancelAfter || late || !w.provider.ok)
         && match outcome.reason
            case ResourceCutoff => w.provider.limited
            case OperatorCancelled => !w.provider.limited && (w.cancelAfter || (!late && w.provider.cancelled))
            case DeadlineExceeded =>
              !w.provider.limited && !w.cancelAfter && (late || (!w.provider.cancelled && w.provider.timedOut))
            case _ => false
  }

  /** The world does not let an attempt end the run. */
  ghost predicate FailsPlainly(w: AttemptWorld, deadline: int) {
    && w.provider.Returns? && !w.cancelAfter && w.timeAfter < deadline
    && !w.provider.ok && !w.provider.limited && !w.provider.cancelled && !w.provider.timedOut
  }

  /** When the last candidate was attempted, the checks made behind the call and the
      provider's own flags decide everything: the run goes past the attempt exactly when
      it fails plainly, and otherwise ends with exactly the outcome they name. */
  lemma {:induction false} LastAttemptDecides(trace: seq<Step>, outcome: Outcome, cs: seq<Candidate>, env: Environment,
                                              account: Option<Account>)
    requires SoundTrace(trace, cs, env, account) && Explains(trace, outcome, cs, env, account)
    requires |trace| > 0 && trace[|trace| - 1].Attempted?
    ensures var w := env.world(|trace| - 1);
            if FailsPlainly(w, env.deadline) then Continues(trace[|trace| - 1]) && AllContinue(trace)
            else !Continues(trace[|trace| - 1]) && Decides(w, env.deadline, outcome, cs[|trace| - 1].tag)
  {
    var n := |trace| - 1;
    assert SoundAt(trace[n], cs, env, account, n);
    if Continues(trace[n]) {
      forall i | 0 <= i < |trace|
        ensures Continues(trace[i])
      {
        assert i == n || trace[..n][i] == trace[i];
      }
    }
  }

  /** What the world says around one candidate that can stop a run for this reason. */
  ghost predicate Speaks(w: AttemptWorld, reason: Reason, deadline: int) {
    match reason
    case OperatorCancelled =>
      || w.cancelTop || w.cancelRefused || w.cancelAdmitted || w.cancelAfter
      || (w.provider.Returns? && w.provider.cancelled)
    case DeadlineExceeded =>
      || w.timeTop >= deadline || w.timeAdmitted >= deadline || w.timeAfter >= deadline
      || (w.provider.Returns? && w.provider.timedOut)
    case ResourceCutoff => w.provider.Returns? && w.provider.limited
    case _ => false
  }

  /** No loop blames anyone without cause: it is stopped by the operator only when
      cancellation was read at the last candidate it looked at, for the deadline only
      when the clock or the provider said so there, and for resources only when the
      provider was limited there. */
  lemma {:induction false} StopNamesItsCause(cs: seq<Candidate>, env: Environment, account: Option<Account>)
    requires ClockRuns(env) && SettledOrAbsent(account)
    ensures var end := LoopEnd(Visits(cs, env, account));
            end.outcome.Stopped? ==>
              0 < end.count <= |cs| && Speaks(env.world(end.count - 1), end.outcome.reason, env.deadline)
  {
    var end := LoopEnd(Visits(cs, env, account));
    WalkHasShape(Visits(cs, env, account), |cs|);
    if end.outcome.Stopped? {
      VisitIsSoundAt(cs, env, account, end.count - 1);
    }
  }

  /** Every step but the last is a missing model, a refused admission or a plain
      failure, and an exhausted run consists of such steps for every candidate. */
  lemma {:induction false} OnlyLastStepEnds(trace: seq<Step>, outcome: Outcome, cs: seq<Candidate>, env: Environment,
                                            account: Option<Account>)
    requires SoundTrace(trace, cs, env, account) && Explains(trace, outcome, cs, env, account)
    ensures forall i :: 0 <= i < |trace| - 1 ==> Continues(trace[i])
    ensures outcome == Exhausted <==> |trace| == |cs| && AllContinue(trace) && !outcome.Stopped?
  {
    forall i | 0 <= i < |trace| - 1
      ensures Continues(trace[i])
    {
      assert trace[..|trace| - 1][i] == trace[i];
    }
  }

  // ----------------------------------------------------------- one invocation

  function Requested(role: Role, routed: string): string {
    var declared := Dedupe(Declared(role));
    if routed != "" || declared == [] then routed else declared[0].tag
  }

  function Narrowed(ordered: seq<Candidate>, requested: string, scoped: bool, pinned: string): seq<Candidate> {
    var own := if scoped then Select(ordered, requested, true) else ordered;
    if pinned != "" then Select(own, pinned, true) else own
  }

  /** The declared candidates with the routed one in front. */
  function Ordered(role: Role, routed: string): seq<Candidate> {
    RoutedFirst(Dedupe(Declared(role)), routed)
  }

  /** The candidates the loop walks through: routed tag first, then narrowed to
      the requested model inside a code-development scope (`scoped`) and to the
      admitted model when the caller pins one. */
  function Plan(role: Role, routed: string, scoped: bool, pinned: string): seq<Candidate> {
    Narrowed(Ordered(role, routed), Requested(role, routed), scoped, pinned)
  }

  lemma {:induction false} SelectIsSubsequence(cs: seq<Candidate>, tag: string, n: nat)
    requires n <= |cs|
    ensures IsSubsequence(Tags(Selected(cs, tag, true, n)), Tags(cs[..n]))
    ensures forall t :: t in Tags(Selected(cs, tag, true, n)) ==> t == tag
  {
    if n > 0 {
      SelectIsSubsequence(cs, tag, n - 1);
      var chosen, last := Selected(cs, tag, true, n - 1), cs[n - 1];
      assert Tags(cs[..n]) == Tags(cs[..n - 1]) + [last.tag];
      assert Tags(chosen + [last]) == Tags(chosen) + [last.tag];
      assert Selected(cs, tag, true, n) == if last.tag == tag then chosen + [last] else chosen;
      SubsequenceGrows(Tags(chosen), Tags(cs[..n - 1]), last.tag);
    }
  }

  lemma {:induction false} PlanIsSubsequence(role: Role, routed: string, scoped: bool, pinned: string)
    ensures IsSubsequence(Tags(Plan(role, routed, scoped, pinned)), Tags(Ordered(role, routed)))
  {
    var all, requested := Ordered(role, routed), Requested(role, routed);
    var own := if scoped then Select(all, requested, true) else all;
    SelectIsSubsequence(all, requested, |all|);
    assert all[..|all|] == all;
    SubsequenceOfItself(Tags(all));
    assert IsSubsequence(Tags(own), Tags(all));
    SelectIsSubsequence(own, pinned, |own|);
    assert own[..|own|] == own;
    SubsequenceOfItself(Tags(own));
    SubsequenceTransitive(Tags(Plan(role, routed, scoped, pinned)), Tags(own), Tags(all));
  }

  /** The requested tag is the routed one, or without a route the first that is declared. */
  lemma {:induction false} RequestedExact(role: Role, routed: string)
    requires Declared(role) != []
    ensures Requested(role, routed) == if routed != "" then routed else Declared(role)[0].tag
  {
    FirstIsKept(Declared(role));
  }

  /** The loop walks through exactly the first declarations that the scope and the pin
      leave: inside a code-development scope only the requested model, with a pin only
      the admitted one. */
  lemma {:induction false} PlanExact(role: Role, routed: string, scoped: bool, pinned: string, c: Candidate)
    ensures c in Plan(role, routed, scoped, pinned) <==>
            && IsFirst(Declared(role), c)
            && (scoped ==> c.tag == if routed != "" then routed else Declared(role)[0].tag)
            && (pinned != "" ==> c.tag == pinned)
    ensures !scoped && pinned == "" ==> Plan(role, routed, scoped, pinned) == Ordered(role, routed)
  {
    var declared := Dedupe(Declared(role));
    var ordered := Ordered(role, routed);
    var requested := Requested(role, routed);
    var own := if scoped then Select(ordered, requested, true) else ordered;
    DedupeExact(Declared(role), c);
    RoutedFirstKeeps(declared, routed, c);
    SelectedExact(ordered, requested, true, |ordered|, c);
    SelectedExact(own, pinned, true, |own|, c);
    assert ordered[..|ordered|] == ordered && own[..|own|] == own;
    if Declared(role) != [] {
      RequestedExact(role, routed);
    } else {
      assert !IsFirst(Declared(role), c);
    }
  }

  /** Routing and narrowing reorder and drop candidates but never repeat one. */
  lemma {:induction false} PlanShape(role: Role, routed: string, scoped: bool, pinned: string)
    ensures IsSubsequence(Tags(Plan(role, routed, scoped, pinned)), Tags(Ordered(role, routed)))
    ensures DistinctTags(Plan(role, routed, scoped, pinned))
    ensures forall tag :: tag in Tags(Plan(role, routed, scoped, pinned)) ==>
              tag in Tags(Declared(role)) && (scoped ==> tag == Requested(role, routed)) && (pinned != "" ==> tag == pinned)
  {
    var plan := Plan(role, routed, scoped, pinned);
    DedupeKeepsFirsts(Declared(role));
    RoutedFirstKeepsTags(Dedupe(Declared(role)), routed);
    PlanIsSubsequence(role, routed, scoped, pinned);
    SubsequenceInherits(Tags(plan), Tags(Ordered(role, routed)));
    forall i, j | 0 <= i < j < |plan|
      ensures plan[i].tag != plan[j].tag
    {
      assert Tags(plan)[i] != Tags(plan)[j];
    }
    forall k | 0 <= k < |plan|
      ensures plan[k].tag in Tags(Declared(role))
      ensures (scoped ==> plan[k].tag == Requested(role, routed)) && (pinned != "" ==> plan[k].tag == pinned)
    {
      PlanExact(role, routed, scoped, pinned, plan[k]);
      RequestedExact(role, routed);
    }
  }

  lemma {:induction false} PlanIsEmptyWhen(role: Role, routed: string)
    ensures Ordered(role, routed) == [] <==> Declared(role) == []
  {
    var declared := Dedupe(Declared(role));
    DedupeKeepsFirsts(Declared(role));
    RoutedFirstMoves(declared, routed);
    if Declared(role) != [] {
      assert Tags(Declared(role))[0] in Tags(declared);
    } else {
      assert declared == [];
    }
  }

  /** What the provider is asked is a duplicate-free subsequence of the declared
      candidates with the routed one in front. */
  lemma {:induction false} CalledFromPlan(trace: seq<Step>, role: Role, routed: string, scoped: bool, pinned: string,
                                          env: Environment, account: Option<Account>)
    requires SoundTrace(trace, Plan(role, routed, scoped, pinned), env, account)
    ensures IsSubsequence(CalledTags(trace), Tags(Ordered(role, routed)))
    ensures NoRepeats(CalledTags(trace))
  {
    var plan := Plan(role, routed, scoped, pinned);
    PlanShape(role, routed, scoped, pinned);
    CalledOnce(trace, plan, env, account);
    SubsequenceTransitive(CalledTags(trace), Tags(plan), Tags(Ordered(role, routed)));
  }

  /** Declared candidates with the routed one in front, and the requested tag. */
  method OrderCandidates(role: Role, routed: string) returns (ordered: seq<Candidate>, requested: string)
    ensures ordered == Ordered(role, routed) && requested == Requested(role, routed)
    ensures ordered == [] <==> Declared(role) == []
  {
    var declared := BuildRuntimeCandidates(role);
    ordered := RoutedFirst(declared, routed);
    requested := if routed != "" || declared == [] then routed else declared[0].tag;
    PlanIsEmptyWhen(role, routed);
  }

  /** The narrowing of the ordered candidates. */
  method Narrow(ordered: seq<Candidate>, requested: string, scoped: bool,
                pinned: string) returns (candidates: seq<Candidate>)
    ensures candidates == Narrowed(ordered, requested, scoped, pinned)
  {
    candidates := ordered;
    if scoped {
      candidates := Select(candidates, requested, true);
    }
    if pinned != "" {
      candidates := Select(candidates, pinned, true);
    }
  }

  /** How an invocation ends: without candidates, before any of them, or as the
      loop over the narrowed plan does. */
  function RunInvocation(ordered: seq<Candidate>, plan: seq<Candidate>, env: Environment,
                         account: Option<Account>): (r: Ending)
    ensures r.account.Some? == account.Some?
  {
    if ordered == [] then Ending([], NoCandidates, account)
    else if EarlyStop(env) then Ending([], Stopped(EarlyReason(env)), account)
    else RunLoop(plan, env, account)
  }

  ghost predicate Invoked(ordered: seq<Candidate>, plan: seq<Candidate>, env: Environment, account: Option<Account>,
                          trace: seq<Step>, outcome: Outcome)
  {
    && SoundTrace(trace, plan, env, account)
    && (if ordered == [] then trace == [] && outcome == NoCandidates
        else if env.cancelled || env.start >= env.deadline then
          trace == [] && outcome == Stopped(if env.cancelledAgain then OperatorCancelled else DeadlineExceeded)
        else Explains(trace, outcome, plan, env, account))
  }

  /** From the ordered candidates on. */
  method InvokeOrdered(ordered: seq<Candidate>, requested: string, scoped: bool, pinned: string, env: Environment,
                       compute: RequestCompute?)
    returns (outcome: Outcome, trace: seq<Step>, reasons: seq<Reason>)
    requires ClockRuns(env) && (compute != null ==> compute.Inv())
    modifies compute
    ensures var plan := Narrowed(ordered, requested, scoped, pinned);
            && Ending(trace, outcome, Held(compute)) == RunInvocation(ordered, plan, env, old(Held(compute)))
            && Invoked(ordered, plan, env, old(Held(compute)), trace, outcome)
    ensures reasons == BlockReasons(ordered, env, scoped, trace, outcome)
    ensures compute != null ==> compute.Inv() || compute.FaultedInv()
    ensures compute != null ==> (compute.faulted <==> CrashedIn(trace, outcome) && Handles(compute.decision) != {})
  {
    if ordered == [] {
      return NoCandidates, [], env.routeReasons;
    }
    if env.cancelled || env.start >= env.deadline {
      var reason := if env.cancelledAgain then OperatorCancelled else DeadlineExceeded;
      return Stopped(reason), [], env.routeReasons + [CancelledOrExpired] + [reason];
    }
    var candidates := Narrow(ordered, requested, scoped, pinned);
    outcome, trace, reasons := TryCandidates(candidates, scoped, env, compute);
  }

  /** `invoke_model` from the candidate list on. */
  method InvokeModel(role: Role, routed: string, scoped: bool, pinned: string, env: Environment,
                     compute: RequestCompute?)
    returns (outcome: Outcome, trace: seq<Step>, reasons: seq<Reason>)
    requires ClockRuns(env) && (compute != null ==> compute.Inv())
    modifies compute
    ensures var ordered, plan := Ordered(role, routed), Plan(role, routed, scoped, pinned);
            && Ending(trace, outcome, Held(compute)) == RunInvocation(ordered, plan, env, old(Held(compute)))
            && Invoked(ordered, plan, env, old(Held(compute)), trace, outcome)
            && reasons == BlockReasons(ordered, env, scoped, trace, outcome)
    ensures compute != null ==> compute.Inv() || compute.FaultedInv()
    ensures compute != null ==> (compute.faulted <==> CrashedIn(trace, outcome) && Handles(compute.decision) != {})
  {
    var ordered, requested := OrderCandidates(role, routed);
    outcome, trace, reasons := InvokeOrdered(ordered, requested, scoped, pinned, env, compute);
  }
}
