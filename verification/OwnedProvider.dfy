/** The request-owned provider process of core/owned_model_provider.py, with the
    outcome that core/model_invoker.py derives from it.

    The main thread (`__enter__`, the provider exchange, `close`), the watcher
    thread and any number of resource-guard callbacks run as interleaved atomic
    steps over the shared fields. Taking and releasing the re-entrant lock,
    recording a reason and sending SIGKILL are separate steps, so every
    interleaving around them is covered. */
module OwnedProvider {
  import opened Wrappers

  datatype Reason = OperatorCancelled | WallDeadline | LogLimit | ScopeFinished | ResourceCutoff(detail: string)

  datatype Thread = Main | Watcher | Guard(id: nat)

  /** Where a thread stands inside `abort` or `check`; `checking` says that the
      abort was called from `check`, which afterwards tests the reason. */
  datatype Call =
    | Idle
    | Acquiring(cause: Reason, checking: bool)
    | Recording(cause: Reason, checking: bool)
    | Killing(checking: bool)
    | Releasing(checking: bool)
    | Testing

  /** What the provider exchange returned: an answer, or a failure with the flags
      it sets of its own accord. */
  datatype Chat = Answer | NoAnswer(cancelled: bool, timedOut: bool, limited: bool)

  /** How control leaves the `with` block of the caller. */
  datatype Exit = Returned(chat: Chat) | Failed | Escaped

  datatype Outcome = Reported(ok: bool, cancelled: bool, timedOut: bool, limited: bool) | Propagated

  datatype MainPoint =
    | EnterCheck | StartingGuard | Preparing
    | LockingStart | CheckingLocked | Launching | Unlocking(launchedNow: bool, onFailure: Exit)
    | StartingWatcher | WaitingReady | InScope
    | Closing(exit: Exit) | CloseAborting(exit: Exit) | Reaping(exit: Exit) | Scanning(exit: Exit)
    | Dropping(exit: Exit) | Reporting(exit: Exit) | Finished(exit: Exit, outcome: Outcome)

  /** The re-entrant lock. */
  datatype Lock = Lock(holder: Option<Thread>, depth: nat)

  /** The provider's process group: `handle` is `self.process is not None`, and
      `members` are the processes of the group that are still active. */
  datatype Group = Group(handle: bool, launched: bool, killed: bool, leader: nat, members: set<nat>)

  datatype Receipt = Receipt(termination: Option<Reason>, remaining: Option<set<nat>>)

  datatype State = State(
    reason: Option<Reason>, lock: Lock, group: Group, receipt: Receipt,
    stop: bool, watching: bool, main: MainPoint, calls: map<Thread, Call>)

  const INITIAL := State(None, Lock(None, 0), Group(false, false, false, 0, {}), Receipt(None, None),
                         false, false, EnterCheck, map[])

  /** What `check` reads before it tests the reason. */
  datatype Reading = Clear | Cancelled | Expired

  /** What the environment decides at a step of the main thread. */
  datatype Choice =
    | Proceed | Raise(how: Exit)
    | Launch(pid: nat)
    | ChatReturned(chat: Chat)
    | Scan(found: set<nat>, again: bool)

  datatype Action =
    | Advance(t: Thread)
    | Trip(id: nat, why: Reason)
    | WatcherCheck(seen: Reading) | WatcherLogLimit | WatcherStops
    | MainCheck(seen: Reading) | MainGoes(choice: Choice)
    | Fork(pid: nat) | Die(pid: nat)

  // ---------------------------------------------------------- abort and check

  function CallIn(calls: map<Thread, Call>, t: Thread): Call {
    if t in calls then calls[t] else Idle
  }

  function CallOf(s: State, t: Thread): Call {
    CallIn(s.calls, t)
  }

  function SetCall(s: State, t: Thread, c: Call): State {
    s.(calls := s.calls[t := c])
  }

  function Acquire(s: State, t: Thread): State {
    s.(lock := Lock(Some(t), s.lock.depth + 1))
  }

  function Release(s: State): State {
    s.(lock := if s.lock.depth <= 1 then Lock(None, 0) else s.lock.(depth := s.lock.depth - 1))
  }

  predicate CanAcquire(s: State, t: Thread) {
    s.lock.holder == None || s.lock.holder == Some(t)
  }

  function FirstReason(current: Option<Reason>, cause: Reason): Option<Reason> {
    if current.None? then Some(cause) else current
  }

  function BeginCheck(seen: Reading): Call {
    match seen
    case Clear => Testing
    case Cancelled => Acquiring(OperatorCancelled, true)
    case Expired => Acquiring(WallDeadline, true)
  }

  /** Where `check` leaves the main thread when no reason is recorded. */
  function AfterPass(m: MainPoint): MainPoint {
    if m.EnterCheck? then StartingGuard
    else if m.CheckingLocked? then Launching
    else m
  }

  /** ... and when it raises. */
  function AfterRaise(m: MainPoint): MainPoint {
    if m.CheckingLocked? then Unlocking(false, Failed) else Closing(Failed)
  }

  function Verdict(s: State, t: Thread): State {
    match t
    case Main => s.(main := if s.reason.Some? then AfterRaise(s.main) else AfterPass(s.main))
    case Watcher => if s.reason.Some? then s.(watching := false) else s
    case Guard(_) => s
  }

  /** `killpg(pid, SIGKILL)` if there is a process to signal. */
  function Signalled(g: Group): Group {
    g.(killed := g.killed || g.handle)
  }

  function AdvanceCall(s: State, t: Thread): Option<State> {
    match CallOf(s, t)
    case Idle => None
    case Acquiring(cause, checking) =>
      if CanAcquire(s, t) then Some(SetCall(Acquire(s, t), t, Recording(cause, checking))) else None
    case Recording(cause, checking) =>
      Some(SetCall(s.(reason := FirstReason(s.reason, cause)), t, Killing(checking)))
    case Killing(checking) =>
      Some(SetCall(s.(group := Signalled(s.group)), t, Releasing(checking)))
    case Releasing(checking) =>
      Some(SetCall(Release(s), t, if checking then Testing else Idle))
    case Testing =>
      Some(Verdict(SetCall(s, t, Idle), t))
  }

  // -------------------------------------------------------------- main thread

  predicate ChecksHere(m: MainPoint) {
    m.EnterCheck? || m.StartingGuard? || m.CheckingLocked? || m.WaitingReady?
  }

  /** The flags that the exchange itself reported. */
  function ReportedBy(exit: Exit): Chat {
    if exit.Returned? then exit.chat else NoAnswer(false, false, false)
  }

  /** The result dictionary starts from what the exchange returned; a reason other
      than scope completion, or a process that survived clean-up, revokes its
      success and adds a flag. */
  function Conclude(exit: Exit, termination: Option<Reason>, remaining: Option<set<nat>>): Outcome {
    if exit.Escaped? then Propagated
    else
      var chat := ReportedBy(exit);
      var stopped := termination.Some? && termination.value != ScopeFinished;
      var leftover := remaining.Some? && remaining.value != {};
      Reported(
        chat.Answer? && !stopped && !leftover,
        (chat.NoAnswer? && chat.cancelled) || (stopped && termination.value == OperatorCancelled),
        (chat.NoAnswer? && chat.timedOut) || (stopped && termination.value == WallDeadline),
        (chat.NoAnswer? && chat.limited)
          || (stopped && termination.value != OperatorCancelled && termination.value != WallDeadline) || leftover)
  }

  function At(s: State, m: MainPoint): Option<State> {
    Some(s.(main := m))
  }

  /** Leaving the `with` block early by an exception. */
  function RaisesFrom(s: State, choice: Choice): Option<State>
    requires choice.Raise?
  {
    if !choice.how.Returned? then At(s, Closing(choice.how)) else None
  }

  /** `__enter__` up to the locked launch. */
  function StartStep(s: State, choice: Choice): Option<State> {
    if choice.Raise? && (s.main.StartingGuard? || s.main.Preparing?) then RaisesFrom(s, choice)
    else if !choice.Proceed? then None
    else if s.main.StartingGuard? then At(s, Preparing)
    else if s.main.Preparing? then At(s, LockingStart)
    else if s.main.LockingStart? && CanAcquire(s, Main) then At(Acquire(s, Main), CheckingLocked)
    else None
  }

  function LaunchStep(s: State, choice: Choice): Option<State> {
    if choice.Launch? then
      At(s.(group := Group(true, true, s.group.killed, choice.pid, {choice.pid})), Unlocking(true, Failed))
    else if choice.Raise? && !choice.how.Returned? then At(s, Unlocking(false, choice.how))
    else None
  }

  function UnlockStep(s: State, launchedNow: bool, onFailure: Exit): Option<State> {
    At(Release(s), if launchedNow then StartingWatcher else Closing(onFailure))
  }

  /** From the launched process to the end of the provider exchange. */
  function ScopeStep(s: State, choice: Choice): Option<State> {
    if choice.Raise? then RaisesFrom(s, choice)
    else if s.main.StartingWatcher? && choice.Proceed? then At(s.(watching := true), WaitingReady)
    else if s.main.WaitingReady? && choice.Proceed? then At(s, InScope)
    else if s.main.InScope? && choice.ChatReturned? then At(s, Closing(Returned(choice.chat)))
    else None
  }

  function ScanStep(s: State, exit: Exit, choice: Choice): Option<State> {
    // A process alive when the scan ends was alive throughout it.
    if choice.Scan? && s.group.members <= choice.found then
      if choice.found == {} || !choice.again then
        At(s.(receipt := s.receipt.(remaining := Some(choice.found))), Dropping(exit))
      else Some(s)
    else None
  }

  function AbortStep(s: State, exit: Exit): Option<State> {
    At(SetCall(s.(stop := true), Main, Acquiring(ScopeFinished, false)), CloseAborting(exit))
  }

  function ReapStep(s: State, exit: Exit, choice: Choice): Option<State> {
    if choice.Raise? then At(s, Finished(exit, Propagated))
    else if s.group.leader !in s.group.members then At(s, Scanning(exit))
    else None
  }

  function DropStep(s: State, exit: Exit): Option<State> {
    if CanAcquire(s, Main) then At(s.(group := s.group.(handle := false)), Reporting(exit)) else None
  }

  function ReportStep(s: State, exit: Exit): Option<State> {
    At(s.(receipt := s.receipt.(termination := s.reason)), Finished(exit, Conclude(exit, s.reason, s.receipt.remaining)))
  }

  /** `close()` and the report built from its receipt. */
  function CloseStep(s: State, choice: Choice): Option<State> {
    if s.main.Closing? then AbortStep(s, s.main.exit)
    else if s.main.CloseAborting? then At(s, if s.group.handle then Reaping(s.main.exit) else Reporting(s.main.exit))
    else if s.main.Reaping? then ReapStep(s, s.main.exit, choice)
    else if s.main.Scanning? then ScanStep(s, s.main.exit, choice)
    else if s.main.Dropping? then DropStep(s, s.main.exit)
    else if s.main.Reporting? then ReportStep(s, s.main.exit)
    else None
  }

  predicate BeforeLaunch(m: MainPoint) {
    m.EnterCheck? || m.StartingGuard? || m.Preparing? || m.LockingStart? || m.CheckingLocked? || m.Launching?
    || (m.Unlocking? && !m.launchedNow)
  }

  predicate Running(m: MainPoint) {
    (m.Unlocking? && m.launchedNow) || m.StartingWatcher? || m.WaitingReady? || m.InScope?
  }

  function MainStep(s: State, choice: Choice): Option<State> {
    if s.main.Launching? then LaunchStep(s, choice)
    else if s.main.Unlocking? then UnlockStep(s, s.main.launchedNow, s.main.onFailure)
    else if BeforeLaunch(s.main) then StartStep(s, choice)
    else if Running(s.main) then ScopeStep(s, choice)
    else CloseStep(s, choice)
  }

  /** One atomic step of some thread or of the operating system. */
  function Next(s: State, a: Action): Option<State> {
    match a
    case Advance(t) => AdvanceCall(s, t)
    case Trip(id, why) =>
      if CallOf(s, Guard(id)).Idle? then Some(SetCall(s, Guard(id), Acquiring(why, false))) else None
    case WatcherCheck(seen) =>
      if s.watching && CallOf(s, Watcher).Idle? then Some(SetCall(s, Watcher, BeginCheck(seen))) else None
    case WatcherLogLimit =>
      if s.watching && CallOf(s, Watcher).Idle? then Some(SetCall(s, Watcher, Acquiring(LogLimit, false))) else None
    case WatcherStops =>
      if s.watching && s.stop && CallOf(s, Watcher).Idle? then Some(s.(watching := false)) else None
    case MainCheck(seen) =>
      if ChecksHere(s.main) && CallOf(s, Main).Idle? then Some(SetCall(s, Main, BeginCheck(seen))) else None
    case MainGoes(choice) =>
      if CallOf(s, Main).Idle? then MainStep(s, choice) else None
    case Fork(pid) =>
      if s.group.members != {} && !s.group.killed then
        Some(s.(group := s.group.(members := s.group.members + {pid})))
      else None
    case Die(pid) => Some(s.(group := s.group.(members := s.group.members - {pid})))
  }

  /** The state after a schedule, if every step of it was enabled. */
  function Run(s: State, schedule: seq<Action>): Option<State> {
    if schedule == [] then Some(s)
    else
      var before := Run(s, schedule[..|schedule| - 1]);
      if before.None? then None else Next(before.value, schedule[|schedule| - 1])
  }

  // ---------------------------------------------------------------- invariant

  predicate HoldsInCall(c: Call) {
    c.Recording? || c.Killing? || c.Releasing?
  }

  predicate HoldsInMain(m: MainPoint) {
    m.CheckingLocked? || m.Launching? || m.Unlocking?
  }

  /** How often a thread has entered the locked region. */
  function Entered(calls: map<Thread, Call>, mainHolds: bool, t: Thread): nat {
    (if HoldsInCall(CallIn(calls, t)) then 1 else 0) + (if t.Main? && mainHolds then 1 else 0)
  }

  /** The lock is held by exactly the thread that is inside a locked region. */
  ghost predicate LockInv(lock: Lock, calls: map<Thread, Call>, mainHolds: bool) {
    && (lock.holder == None <==> lock.depth == 0)
    && (forall t :: t in calls && HoldsInCall(calls[t]) ==> lock.holder == Some(t))
    && (mainHolds ==> lock.holder == Some(Main))
    && (lock.holder.Some? ==> lock.depth == Entered(calls, mainHolds, lock.holder.value))
  }

  /** A live process whose owner has a reason has been sent SIGKILL, or the thread
      that recorded the reason still holds the lock and is about to send it. */
  ghost predicate KillInv(holder: Option<Thread>, calls: map<Thread, Call>, reason: Option<Reason>, handle: bool,
                          killed: bool)
  {
    && (forall t :: t in calls && (calls[t].Killing? || calls[t].Releasing?) ==> reason.Some?)
    && (forall t :: t in calls && calls[t].Releasing? && handle ==> killed)
    && (handle && reason.Some? && !killed ==> holder.Some? && CallIn(calls, holder.value).Killing?)
  }

  predicate AfterReap(m: MainPoint) {
    m.Reaping? || m.Scanning? || m.Dropping?
  }

  predicate AfterDrop(m: MainPoint) {
    m.Reporting? || (m.Finished? && m.outcome.Reported?)
  }

  /** Which calls the main thread can be making where. */
  ghost predicate MainCallInv(m: MainPoint, c: Call) {
    && (!c.Idle? ==> ChecksHere(m) || m.CloseAborting?)
    && (m.CloseAborting? ==> !c.Testing? && (c.Idle? || !c.checking))
    && (ChecksHere(m) && !c.Idle? ==> c.Testing? || c.checking)
  }

  ghost predicate ReasonInv(m: MainPoint, c: Call, reason: Option<Reason>) {
    && (m.Launching? || (m.Unlocking? && m.launchedNow) ==> reason.None?)
    && (m.CloseAborting? && c.Idle? ==> reason.Some?)
    && (AfterReap(m) || AfterDrop(m) ==> reason.Some?)
  }

  ghost predicate GroupInv(m: MainPoint, c: Call, g: Group) {
    && (g.handle ==> g.launched)
    && (g.launched && !g.handle ==> g.killed)
    && (!g.launched ==> g.members == {} && !g.killed)
    && (BeforeLaunch(m) ==> !g.launched)
    && (Running(m) ==> g.handle)
    && (m.Closing? || m.CloseAborting? ==> g.handle == g.launched)
    && (AfterReap(m) ==> g.handle && g.killed)
    && (AfterDrop(m) ==> !g.handle)
    && (m.CloseAborting? && c.Idle? && g.handle ==> g.killed)
  }

  predicate CutOff(reason: Option<Reason>) {
    reason != Some(ScopeFinished) && reason != Some(OperatorCancelled) && reason != Some(WallDeadline)
  }

  /** Each flag is set exactly when the recorded reason calls for it, the exchange
      reported it, or (for `limited`) a process survived; success needs an answer,
      scope completion as the reason and no surviving process. */
  ghost predicate FlagsExplained(o: Outcome, exit: Exit, reason: Option<Reason>, remaining: Option<set<nat>>)
    requires o.Reported?
  {
    var chat, leftover := ReportedBy(exit), remaining.Some? && remaining.value != {};
    && (o.cancelled <==> reason == Some(OperatorCancelled) || (chat.NoAnswer? && chat.cancelled))
    && (o.timedOut <==> reason == Some(WallDeadline) || (chat.NoAnswer? && chat.timedOut))
    && (o.limited <==> CutOff(reason) || leftover || (chat.NoAnswer? && chat.limited))
    && (o.ok <==> chat.Answer? && reason == Some(ScopeFinished) && !leftover)
  }

  ghost predicate ReceiptInv(m: MainPoint, reason: Option<Reason>, g: Group, receipt: Receipt) {
    && (receipt.termination.Some? ==> receipt.termination == reason)
    && (m.Dropping? ==> receipt.remaining.Some?)
    && (AfterDrop(m) && g.launched ==> receipt.remaining.Some?)
    && (receipt.remaining.Some? ==> g.killed && g.members <= receipt.remaining.value)
    && (m.Unlocking? ==> !m.onFailure.Returned?)
    && ((m.Closing? || m.CloseAborting? || AfterReap(m) || m.Reporting?) && m.exit.Returned? ==> g.launched)
    && (m.Finished? && m.outcome.Reported? ==> FlagsExplained(m.outcome, m.exit, reason, receipt.remaining))
    && (m.Finished? && m.outcome.Reported? && m.outcome.ok ==>
          g.launched && receipt.termination == Some(ScopeFinished) && receipt.remaining == Some({}))
  }

  ghost predicate PhaseInv(m: MainPoint, c: Call, reason: Option<Reason>, g: Group, receipt: Receipt) {
    MainCallInv(m, c) && ReasonInv(m, c, reason) && GroupInv(m, c, g) && ReceiptInv(m, reason, g, receipt)
  }

  ghost predicate Inv(s: State) {
    && LockInv(s.lock, s.calls, HoldsInMain(s.main))
    && KillInv(s.lock.holder, s.calls, s.reason, s.group.handle, s.group.killed)
    && PhaseInv(s.main, CallOf(s, Main), s.reason, s.group, s.receipt)
  }

  lemma {:induction false} InitialInv()
    ensures Inv(INITIAL)
  {
  }

  lemma {:induction false} AcquireKeepsInv(s: State, t: Thread)
    requires Inv(s) && CallOf(s, t).Acquiring? && CanAcquire(s, t)
    ensures Inv(AdvanceCall(s, t).value)
  {
  }

  lemma {:induction false} RecordKeepsInv(s: State, t: Thread)
    requires Inv(s) && CallOf(s, t).Recording?
    ensures Inv(AdvanceCall(s, t).value)
  {
  }

  lemma {:induction false} KillKeepsInv(s: State, t: Thread)
    requires Inv(s) && CallOf(s, t).Killing?
    ensures Inv(AdvanceCall(s, t).value)
  {
  }

  lemma {:induction false} ReleaseKeepsInv(s: State, t: Thread)
    requires Inv(s) && CallOf(s, t).Releasing?
    ensures Inv(AdvanceCall(s, t).value)
  {
  }

  lemma {:induction false} TestKeepsInv(s: State, t: Thread)
    requires Inv(s) && CallOf(s, t).Testing?
    ensures Inv(AdvanceCall(s, t).value)
  {
    var s' := SetCall(s, t, Idle);
    assert LockInv(s'.lock, s'.calls, HoldsInMain(s.main));
    assert KillInv(s'.lock.holder, s'.calls, s'.reason, s'.group.handle, s'.group.killed);
    if t.Main? {
      assert ChecksHere(s.main);
      var m := if s.reason.Some? then AfterRaise(s.main) else AfterPass(s.main);
      assert HoldsInMain(m) == HoldsInMain(s.main);
      assert PhaseInv(m, Idle, s.reason, s.group, s.receipt);
    }
  }

  lemma {:induction false} BeginKeepsInv(s: State, t: Thread, c: Call)
    requires Inv(s) && CallOf(s, t).Idle? && (c.Acquiring? || c.Testing?)
    requires t.Main? ==> ChecksHere(s.main) && (c.Testing? || c.checking)
    ensures Inv(SetCall(s, t, c))
  {
  }

  /** A move of the main thread that neither takes nor leaves the lock. */
  lemma {:induction false} MoveKeepsInv(s: State, m: MainPoint)
    requires Inv(s) && HoldsInMain(m) == HoldsInMain(s.main)
    requires PhaseInv(m, CallOf(s, Main), s.reason, s.group, s.receipt)
    ensures Inv(s.(main := m))
  {
  }

  lemma {:induction false} EnterKeepsInv(s: State)
    requires Inv(s) && CallOf(s, Main).Idle? && s.main.LockingStart? && CanAcquire(s, Main)
    ensures Inv(Acquire(s, Main).(main := CheckingLocked))
  {
  }

  lemma {:induction false} StartKeepsInv(s: State, choice: Choice)
    requires Inv(s) && CallOf(s, Main).Idle? && StartStep(s, choice).Some?
    ensures Inv(StartStep(s, choice).value)
  {
    if s.main.LockingStart? {
      EnterKeepsInv(s);
    } else {
      MoveKeepsInv(s, StartStep(s, choice).value.main);
    }
  }

  lemma {:induction false} LaunchKeepsInv(s: State, choice: Choice)
    requires Inv(s) && CallOf(s, Main).Idle? && s.main.Launching? && LaunchStep(s, choice).Some?
    ensures Inv(LaunchStep(s, choice).value)
  {
  }

  lemma {:induction false} UnlockKeepsInv(s: State, launchedNow: bool, onFailure: Exit)
    requires Inv(s) && CallOf(s, Main).Idle? && s.main == Unlocking(launchedNow, onFailure)
    ensures Inv(UnlockStep(s, launchedNow, onFailure).value)
  {
  }

  lemma {:induction false} ScopeKeepsInv(s: State, choice: Choice)
    requires Inv(s) && CallOf(s, Main).Idle? && ScopeStep(s, choice).Some?
    requires Running(s.main) && !s.main.Unlocking?
    ensures Inv(ScopeStep(s, choice).value)
  {
  }

  lemma {:induction false} ReapKeepsInv(s: State, exit: Exit, choice: Choice)
    requires Inv(s) && CallOf(s, Main).Idle? && s.main == Reaping(exit) && ReapStep(s, exit, choice).Some?
    ensures Inv(ReapStep(s, exit, choice).value)
  {
  }

  lemma {:induction false} ScanKeepsInv(s: State, exit: Exit, choice: Choice)
    requires Inv(s) && CallOf(s, Main).Idle? && s.main == Scanning(exit) && ScanStep(s, exit, choice).Some?
    ensures Inv(ScanStep(s, exit, choice).value)
  {
  }

  lemma {:induction false} DropKeepsInv(s: State, exit: Exit)
    requires Inv(s) && CallOf(s, Main).Idle? && s.main == Dropping(exit) && DropStep(s, exit).Some?
    ensures Inv(DropStep(s, exit).value)
  {
  }

  lemma {:induction false} ReportKeepsInv(s: State, exit: Exit)
    requires Inv(s) && CallOf(s, Main).Idle? && s.main == Reporting(exit)
    ensures Inv(ReportStep(s, exit).value)
  {
  }

  lemma {:induction false} CloseKeepsInv(s: State, choice: Choice)
    requires Inv(s) && CallOf(s, Main).Idle? && CloseStep(s, choice).Some?
    ensures Inv(CloseStep(s, choice).value)
  {
    if s.main.Reaping? {
      ReapKeepsInv(s, s.main.exit, choice);
    } else if s.main.Scanning? {
      ScanKeepsInv(s, s.main.exit, choice);
    } else if s.main.Dropping? {
      DropKeepsInv(s, s.main.exit);
    } else if s.main.Reporting? {
      ReportKeepsInv(s, s.main.exit);
    }
  }

  lemma {:induction false} AdvanceKeepsInv(s: State, t: Thread)
    requires Inv(s) && AdvanceCall(s, t).Some?
    ensures Inv(AdvanceCall(s, t).value)
  {
    match CallOf(s, t)
    case Acquiring(_, _) => AcquireKeepsInv(s, t);
    case Recording(_, _) => RecordKeepsInv(s, t);
    case Killing(_) => KillKeepsInv(s, t);
    case Releasing(_) => ReleaseKeepsInv(s, t);
    case Testing => TestKeepsInv(s, t);
  }

  lemma {:induction false} MainKeepsInv(s: State, choice: Choice)
    requires Inv(s) && CallOf(s, Main).Idle? && MainStep(s, choice).Some?
    ensures Inv(MainStep(s, choice).value)
  {
    if s.main.Launching? {
      LaunchKeepsInv(s, choice);
    } else if s.main.Unlocking? {
      UnlockKeepsInv(s, s.main.launchedNow, s.main.onFailure);
    } else if BeforeLaunch(s.main) {
      StartKeepsInv(s, choice);
    } else if Running(s.main) {
      ScopeKeepsInv(s, choice);
    } else {
      CloseKeepsInv(s, choice);
    }
  }

  lemma {:induction false} OutsideKeepsInv(s: State, a: Action)
    requires Inv(s) && Next(s, a).Some? && (a.WatcherStops? || a.Fork? || a.Die?)
    ensures Inv(Next(s, a).value)
  {
  }

  /** Every step of every thread keeps the invariant. */
  lemma {:induction false} StepKeepsInv(s: State, a: Action)
    requires Inv(s) && Next(s, a).Some?
    ensures Inv(Next(s, a).value)
  {
    match a
    case Advance(t) => AdvanceKeepsInv(s, t);
    case MainGoes(choice) => MainKeepsInv(s, choice);
    case Trip(id, why) => BeginKeepsInv(s, Guard(id), Acquiring(why, false));
    case WatcherCheck(seen) => BeginKeepsInv(s, Watcher, BeginCheck(seen));
    case WatcherLogLimit => BeginKeepsInv(s, Watcher, Acquiring(LogLimit, false));
    case MainCheck(seen) => BeginKeepsInv(s, Main, BeginCheck(seen));
    case _ => OutsideKeepsInv(s, a);
  }

  // ---------------------------------------------------------------- whole runs

  lemma {:induction false} RunKeepsInv(s: State, schedule: seq<Action>)
    requires Inv(s) && Run(s, schedule).Some?
    ensures Inv(Run(s, schedule).value)
  {
    if schedule != [] {
      var before := schedule[..|schedule| - 1];
      RunKeepsInv(s, before);
      StepKeepsInv(Run(s, before).value, schedule[|schedule| - 1]);
    }
  }

  /** A prefix of an enabled schedule is enabled. */
  lemma {:induction false} PrefixRuns(s: State, schedule: seq<Action>, i: nat)
    requires Run(s, schedule).Some? && i <= |schedule|
    ensures Run(s, schedule[..i]).Some?
    decreases |schedule|
  {
    if i == |schedule| {
      assert schedule[..i] == schedule;
    } else {
      var before := schedule[..|schedule| - 1];
      PrefixRuns(s, before, i);
      assert before[..i] == schedule[..i];
    }
  }

  /** A schedule that ran this far runs on to any longer enabled one. */
  lemma {:induction false} RunsOn(s: State, schedule: seq<Action>, i: nat)
    requires Run(s, schedule).Some? && i <= |schedule|
    ensures Run(s, schedule[..i]).Some?
    ensures Run(Run(s, schedule[..i]).value, schedule[i..]) == Run(s, schedule)
    decreases |schedule|
  {
    PrefixRuns(s, schedule, i);
    if i == |schedule| {
      assert schedule[..i] == schedule;
    } else {
      var n := |schedule| - 1;
      var before := schedule[..n];
      RunsOn(s, before, i);
      assert before[..i] == schedule[..i] && before[i..] == schedule[i..][..n - i];
    }
  }

  /** What no later step takes back. */
  ghost predicate Settled(s: State, later: State) {
    && (s.reason.Some? ==> later.reason == s.reason)
    && (s.reason.Some? ==> later.group.launched == s.group.launched)
    && (s.group.killed ==> later.group.killed && later.group.members <= s.group.members)
    && (s.main.Finished? ==> later.main == s.main && later.receipt == s.receipt)
  }

  lemma {:induction false} CloseStepSettles(s: State, choice: Choice)
    requires Inv(s) && CloseStep(s, choice).Some?
    ensures Settled(s, CloseStep(s, choice).value)
  {
  }

  lemma {:induction false} MainStepSettles(s: State, choice: Choice)
    requires Inv(s) && CallOf(s, Main).Idle? && MainStep(s, choice).Some?
    ensures Settled(s, MainStep(s, choice).value)
  {
    if s.main.Launching? || s.main.Unlocking? {
      assert s.reason.None? || !s.main.Launching?;
    } else if BeforeLaunch(s.main) {
      assert StartStep(s, choice).value.group == s.group;
    } else if Running(s.main) {
      assert ScopeStep(s, choice).value.group == s.group;
    } else {
      CloseStepSettles(s, choice);
    }
  }

  lemma {:induction false} CallStepSettles(s: State, t: Thread)
    requires MainCallInv(s.main, CallOf(s, Main)) && AdvanceCall(s, t).Some?
    ensures Settled(s, AdvanceCall(s, t).value)
  {
    match CallOf(s, t)
    case Testing =>
      var s' := SetCall(s, t, Idle);
      assert Settled(s, s');
      assert t.Main? ==> !s.main.Finished?;
      assert Settled(s', Verdict(s', t));
    case _ =>
  }

  lemma {:induction false} StepSettles(s: State, a: Action)
    requires Inv(s) && Next(s, a).Some?
    ensures Settled(s, Next(s, a).value)
  {
    match a
    case Advance(t) => CallStepSettles(s, t);
    case MainGoes(choice) => MainStepSettles(s, choice);
    case _ =>
  }

  lemma {:induction false} RunSettles(s: State, schedule: seq<Action>)
    requires Inv(s) && Run(s, schedule).Some?
    ensures Settled(s, Run(s, schedule).value)
  {
    if schedule != [] {
      var before := schedule[..|schedule| - 1];
      RunSettles(s, before);
      RunKeepsInv(s, before);
      StepSettles(Run(s, before).value, schedule[|schedule| - 1]);
    }
  }

  /** From start-up, in every interleaving: once a reason is recorded it never
      changes and no process is started afterwards. */
  lemma {:induction false} ReasonIsFinal(schedule: seq<Action>, i: nat)
    requires Run(INITIAL, schedule).Some? && i <= |schedule|
    ensures Run(INITIAL, schedule[..i]).Some?
    ensures var s := Run(INITIAL, schedule[..i]).value;
            var later := Run(INITIAL, schedule).value;
            s.reason.Some? ==> later.reason == s.reason && later.group.launched == s.group.launched
  {
    RunsOn(INITIAL, schedule, i);
    InitialInv();
    RunKeepsInv(INITIAL, schedule[..i]);
    RunSettles(Run(INITIAL, schedule[..i]).value, schedule[i..]);
  }

  /** Whenever nobody holds the lock, a launched process whose owner has a reason
      has been sent SIGKILL or has been dropped after it was reaped. */
  lemma {:induction false} KilledOrGone(schedule: seq<Action>)
    requires Run(INITIAL, schedule).Some?
    ensures var s := Run(INITIAL, schedule).value;
            s.lock.holder.None? && s.reason.Some? && s.group.launched ==> s.group.killed
  {
    InitialInv();
    RunKeepsInv(INITIAL, schedule);
  }

  /** The thread is between acquiring and releasing the lock. */
  ghost predicate Inside(s: State, t: Thread) {
    Entered(s.calls, HoldsInMain(s.main), t) > 0
  }

  /** Mutual exclusion of the lock's regions. */
  lemma {:induction false} OneHolder(schedule: seq<Action>, t: Thread, u: Thread)
    requires Run(INITIAL, schedule).Some?
    requires Inside(Run(INITIAL, schedule).value, t) && Inside(Run(INITIAL, schedule).value, u)
    ensures t == u && Run(INITIAL, schedule).value.lock.holder == Some(t)
  {
    InitialInv();
    RunKeepsInv(INITIAL, schedule);
  }

  /** A result reported as ok means that the scope simply completed, and that no
      process of the group is active then or at any later time. */
  lemma {:induction false} OkMeansCleanStop(schedule: seq<Action>, i: nat)
    requires Run(INITIAL, schedule).Some? && i <= |schedule|
    ensures Run(INITIAL, schedule[..i]).Some?
    ensures var s := Run(INITIAL, schedule[..i]).value;
            var later := Run(INITIAL, schedule).value;
            s.main.Finished? && s.main.outcome.Reported? && s.main.outcome.ok ==>
              later.reason == Some(ScopeFinished) && later.group.killed && later.group.members == {} && later.main == s.main
  {
    RunsOn(INITIAL, schedule, i);
    InitialInv();
    RunKeepsInv(INITIAL, schedule[..i]);
    RunSettles(Run(INITIAL, schedule[..i]).value, schedule[i..]);
  }

  /** In every interleaving, what is reported is explained exactly by the recorded
      reason, the exchange's own report and the surviving processes. */
  lemma {:induction false} OutcomeIsExplained(schedule: seq<Action>)
    requires Run(INITIAL, schedule).Some?
    ensures var s := Run(INITIAL, schedule).value;
            s.main.Finished? && s.main.outcome.Reported? ==>
              s.reason.Some? && FlagsExplained(s.main.outcome, s.main.exit, s.reason, s.receipt.remaining)
  {
    InitialInv();
    RunKeepsInv(INITIAL, schedule);
  }

  /** A recorded cut-off is reported under its own flag and never as success, and
      neither is a surviving process. */
  lemma {:induction false} CutOffIsReported(schedule: seq<Action>)
    requires Run(INITIAL, schedule).Some?
    ensures var s := Run(INITIAL, schedule).value;
            s.main.Finished? && s.main.outcome.Reported? ==>
              && (s.reason == Some(OperatorCancelled) ==> s.main.outcome.cancelled)
              && (s.reason == Some(WallDeadline) ==> s.main.outcome.timedOut)
              && (CutOff(s.reason) ==> s.main.outcome.limited)
              && (s.reason != Some(ScopeFinished) ==> !s.main.outcome.ok)
              && (s.receipt.remaining.Some? && s.receipt.remaining.value != {} ==> s.main.outcome.limited && !s.main.outcome.ok)
  {
    OutcomeIsExplained(schedule);
  }

  // ------------------------------------------------- where a reason comes from

  /** The action asks for the provider to be stopped for this cause: a check that read
      it, a log grown too large, or a guard callback that names it. */
  predicate AsksFor(a: Action, why: Reason) {
    match a
    case WatcherCheck(seen) => (seen.Cancelled? && why == OperatorCancelled) || (seen.Expired? && why == WallDeadline)
    case MainCheck(seen) => (seen.Cancelled? && why == OperatorCancelled) || (seen.Expired? && why == WallDeadline)
    case WatcherLogLimit => why == LogLimit
    case Trip(_, cause) => why == cause
    case Advance(_) => false
    case WatcherStops => false
    case MainGoes(_) => false
    case Fork(_) => false
    case Die(_) => false
  }

  /** `close` has begun. */
  predicate Closes(m: MainPoint) {
    m.CloseAborting? || m.Reaping? || m.Scanning? || m.Dropping? || m.Reporting? || m.Finished?
  }

  ghost predicate Asked(schedule: seq<Action>, why: Reason) {
    exists k :: 0 <= k < |schedule| && AsksFor(schedule[k], why)
  }

  /** The schedule holds a request for this cause, or the scope is being closed. */
  ghost predicate Caused(schedule: seq<Action>, m: MainPoint, why: Reason) {
    Asked(schedule, why) || (why == ScopeFinished && Closes(m))
  }

  /** The cause that a call of `abort` carries until it is recorded. */
  ghost predicate CallCaused(schedule: seq<Action>, m: MainPoint, c: Call) {
    c.Acquiring? || c.Recording? ==> Caused(schedule, m, c.cause)
  }

  ghost predicate OriginInv(schedule: seq<Action>, s: State) {
    && (s.reason.Some? ==> Caused(schedule, s.main, s.reason.value))
    && forall t :: t in s.calls ==> CallCaused(schedule, s.main, s.calls[t])
  }

  lemma {:induction false} CausedLater(before: seq<Action>, m: MainPoint, a: Action, later: MainPoint, why: Reason)
    requires Caused(before, m, why) && (Closes(m) ==> Closes(later))
    ensures Caused(before + [a], later, why)
  {
    if Asked(before, why) {
      var k :| 0 <= k < |before| && AsksFor(before[k], why);
      assert AsksFor((before + [a])[k], why);
    }
  }

  lemma {:induction false} AskedNow(before: seq<Action>, a: Action, why: Reason)
    requires AsksFor(a, why)
    ensures Asked(before + [a], why)
  {
    assert AsksFor((before + [a])[|before|], why);
  }

  /** Once `close` has begun it goes on. */
  lemma {:induction false} ClosingGoesOn(s: State, a: Action)
    requires Inv(s) && Next(s, a).Some? && Closes(s.main)
    ensures Closes(Next(s, a).value.main)
  {
    if a.Advance? && a.t.Main? {
      assert !CallOf(s, Main).Testing?;
    }
  }

  /** What one step may add: a call for a cause that this very action asks for, the
      call that closes the scope, or the cause of a call already made. */
  ghost predicate AddsOnlyAsked(s: State, a: Action, later: State) {
    && (later.reason.Some? && later.reason != s.reason ==>
          exists t :: t in s.calls && s.calls[t].Recording? && later.reason == Some(s.calls[t].cause))
    && (forall t :: t in later.calls && (later.calls[t].Acquiring? || later.calls[t].Recording?) ==>
          || (t in s.calls && (s.calls[t].Acquiring? || s.calls[t].Recording?) && s.calls[t].cause == later.calls[t].cause)
          || AsksFor(a, later.calls[t].cause)
          || (later.calls[t].cause == ScopeFinished && Closes(later.main)))
  }

  lemma {:induction false} AdvanceAddsOnlyAsked(s: State, t: Thread)
    requires AdvanceCall(s, t).Some?
    ensures AddsOnlyAsked(s, Advance(t), AdvanceCall(s, t).value)
  {
    var later := AdvanceCall(s, t).value;
    match CallOf(s, t)
    case Acquiring(cause, checking) => assert later.calls == s.calls[t := Recording(cause, checking)];
    case Recording(cause, checking) => assert later.calls == s.calls[t := Killing(checking)];
    case Killing(checking) => assert later.calls == s.calls[t := Releasing(checking)];
    case Releasing(checking) => assert later.calls == s.calls[t := if checking then Testing else Idle];
    case Testing => assert later.calls == s.calls[t := Idle] && later.reason == s.reason;
  }

  lemma {:induction false} MainAddsOnlyAsked(s: State, choice: Choice)
    requires CallOf(s, Main).Idle? && MainStep(s, choice).Some?
    ensures AddsOnlyAsked(s, MainGoes(choice), MainStep(s, choice).value)
  {
    var later := MainStep(s, choice).value;
    if !s.main.Closing? {
      assert later.calls == s.calls && later.reason == s.reason;
    }
  }

  lemma {:induction false} StepAddsOnlyAsked(s: State, a: Action)
    requires Next(s, a).Some?
    ensures AddsOnlyAsked(s, a, Next(s, a).value)
  {
    match a
    case Advance(t) => AdvanceAddsOnlyAsked(s, t);
    case MainGoes(choice) => MainAddsOnlyAsked(s, choice);
    case _ =>
  }

  lemma {:induction false} StepKeepsOrigins(before: seq<Action>, s: State, a: Action)
    requires Inv(s) && Next(s, a).Some? && OriginInv(before, s)
    ensures OriginInv(before + [a], Next(s, a).value)
  {
    var later := Next(s, a).value;
    StepAddsOnlyAsked(s, a);
    if Closes(s.main) {
      ClosingGoesOn(s, a);
    }
    if later.reason.Some? {
      if later.reason == s.reason {
        CausedLater(before, s.main, a, later.main, s.reason.value);
      } else {
        var t :| t in s.calls && s.calls[t].Recording? && later.reason == Some(s.calls[t].cause);
        CausedLater(before, s.main, a, later.main, s.calls[t].cause);
      }
    }
    forall t | t in later.calls && (later.calls[t].Acquiring? || later.calls[t].Recording?)
      ensures Caused(before + [a], later.main, later.calls[t].cause)
    {
      if AsksFor(a, later.calls[t].cause) {
        AskedNow(before, a, later.calls[t].cause);
      } else if t in s.calls && (s.calls[t].Acquiring? || s.calls[t].Recording?) && s.calls[t].cause == later.calls[t].cause {
        CausedLater(before, s.main, a, later.main, s.calls[t].cause);
      }
    }
  }

  lemma {:induction false} RunKeepsOrigins(schedule: seq<Action>)
    requires Run(INITIAL, schedule).Some?
    ensures OriginInv(schedule, Run(INITIAL, schedule).value)
  {
    if schedule != [] {
      var before := schedule[..|schedule| - 1];
      RunKeepsOrigins(before);
      InitialInv();
      RunKeepsInv(INITIAL, before);
      StepKeepsOrigins(before, Run(INITIAL, before).value, schedule[|schedule| - 1]);
      assert before + [schedule[|schedule| - 1]] == schedule;
    }
  }

  ghost predicate Read(schedule: seq<Action>, seen: Reading) {
    exists k :: 0 <= k < |schedule| && (schedule[k] == WatcherCheck(seen) || schedule[k] == MainCheck(seen))
  }

  ghost predicate Tripped(schedule: seq<Action>, why: Reason) {
    exists k, id :: 0 <= k < |schedule| && schedule[k] == Trip(id, why)
  }

  ghost predicate LogGrew(schedule: seq<Action>) {
    exists k :: 0 <= k < |schedule| && schedule[k] == WatcherLogLimit
  }

  lemma {:induction false} AskedIsNamed(schedule: seq<Action>, k: nat, why: Reason)
    requires k < |schedule| && AsksFor(schedule[k], why)
    ensures || Tripped(schedule, why) || (why == OperatorCancelled && Read(schedule, Cancelled))
            || (why == WallDeadline && Read(schedule, Expired)) || (why == LogLimit && LogGrew(schedule))
  {
    if schedule[k].Trip? {
      assert schedule[k] == Trip(schedule[k].id, why);
    }
  }

  /** In every interleaving a recorded reason has its cause: a cancellation was read,
      an expired deadline was read, the log had grown too large, the scope is being
      closed, or a guard callback named that reason. */
  lemma {:induction false} ReasonHasItsCause(schedule: seq<Action>)
    requires Run(INITIAL, schedule).Some? && Run(INITIAL, schedule).value.reason.Some?
    ensures var s := Run(INITIAL, schedule).value;
            match s.reason.value
            case OperatorCancelled => Read(schedule, Cancelled) || Tripped(schedule, OperatorCancelled)
            case WallDeadline => Read(schedule, Expired) || Tripped(schedule, WallDeadline)
            case LogLimit => LogGrew(schedule) || Tripped(schedule, LogLimit)
            case ScopeFinished => Closes(s.main) || Tripped(schedule, ScopeFinished)
            case ResourceCutoff(detail) => Tripped(schedule, ResourceCutoff(detail))
  {
    RunKeepsOrigins(schedule);
    var s := Run(INITIAL, schedule).value;
    if Asked(schedule, s.reason.value) {
      var k :| 0 <= k < |schedule| && AsksFor(schedule[k], s.reason.value);
      AskedIsNamed(schedule, k, s.reason.value);
    }
  }

  /** No cut-off is blamed on the wrong party: a reported cancellation was read, named
      by a guard or reported by the exchange, and so was a reported deadline. */
  lemma {:induction false} FlagsHaveTheirCause(schedule: seq<Action>)
    requires Run(INITIAL, schedule).Some?
    ensures var s := Run(INITIAL, schedule).value;
            s.main.Finished? && s.main.outcome.Reported? ==>
              var chat := ReportedBy(s.main.exit);
              && (s.main.outcome.cancelled ==>
                    || Read(schedule, Cancelled) || Tripped(schedule, OperatorCancelled)
                    || (chat.NoAnswer? && chat.cancelled))
              && (s.main.outcome.timedOut ==>
                    || Read(schedule, Expired) || Tripped(schedule, WallDeadline)
                    || (chat.NoAnswer? && chat.timedOut))
  {
    OutcomeIsExplained(schedule);
    if Run(INITIAL, schedule).value.reason.Some? {
      ReasonHasItsCause(schedule);
    }
  }

  /** No deadlock: until the main thread has finished, it or the thread that
      holds the lock has an enabled step. */
  lemma {:induction false} NeverStuck(schedule: seq<Action>) returns (a: Action)
    requires Run(INITIAL, schedule).Some? && !Run(INITIAL, schedule).value.main.Finished?
    ensures Next(Run(INITIAL, schedule).value, a).Some?
    ensures a.MainGoes? || a.MainCheck? || a == Advance(Main) ||
            (a.Advance? && Run(INITIAL, schedule).value.lock.holder == Some(a.t))
  {
    InitialInv();
    RunKeepsInv(INITIAL, schedule);
    var s := Run(INITIAL, schedule).value;
    if s.lock.holder.Some? && !s.lock.holder.value.Main? {
      a := Advance(s.lock.holder.value);
    } else if !CallOf(s, Main).Idle? {
      a := Advance(Main);
    } else if s.main.EnterCheck? || s.main.CheckingLocked? {
      a := MainCheck(Clear);
    } else if s.main.Launching? {
      a := MainGoes(Launch(0));
    } else if s.main.InScope? {
      a := MainGoes(ChatReturned(Answer));
    } else if s.main.Reaping? {
      a := MainGoes(Raise(Escaped));
    } else if s.main.Scanning? {
      a := MainGoes(Scan(s.group.members, false));
    } else {
      a := MainGoes(Proceed);
    }
  }

  // ------------------------------------------------------- the object, undisturbed

  /** The steps of one call of `abort`. */
  function AbortSteps(t: Thread): seq<Action> {
    [Advance(t), Advance(t), Advance(t), Advance(t)]
  }

  ghost predicate CallsAbort(s: State, t: Thread, why: Reason) {
    s.lock == Lock(None, 0) && CallOf(s, t) == Acquiring(why, false)
  }

  lemma {:induction false} RunOne(s: State, a: Action, later: State)
    requires Next(s, a) == Some(later)
    ensures Run(s, [a]) == Some(later)
  {
    assert [a][..0] == [] && Run(s, []) == Some(s);
  }

  lemma {:induction false} RunTwice(s: State, a: seq<Action>, b: seq<Action>)
    requires Run(s, a).Some?
    ensures Run(s, a + b) == Run(Run(s, a).value, b)
  {
    if b == [] {
      assert a + b == a;
    } else {
      var n := |b| - 1;
      RunTwice(s, a, b[..n]);
      assert (a + b)[..|a| + n] == a + b[..n];
    }
  }

  /** The steps of `abort` behind a lock that is free or the thread's own. */
  lemma {:induction false} AbortRuns(s: State, t: Thread, why: Reason, checking: bool)
    requires CallOf(s, t) == Acquiring(why, checking)
    requires s.lock == Lock(None, 0) || (s.lock.holder == Some(t) && s.lock.depth > 0)
    ensures Run(s, AbortSteps(t)) ==
            Some(s.(reason := FirstReason(s.reason, why), group := Signalled(s.group),
                    calls := s.calls[t := if checking then Testing else Idle]))
  {
    var schedule := AbortSteps(t);
    var s1 := SetCall(Acquire(s, t), t, Recording(why, checking));
    var s2 := SetCall(s1.(reason := FirstReason(s.reason, why)), t, Killing(checking));
    var s3 := SetCall(s2.(group := Signalled(s.group)), t, Releasing(checking));
    var last := if checking then Testing else Idle;
    assert schedule[..3][..2] == schedule[..2] && schedule[..2][..1] == schedule[..1] && schedule[..1][..0] == [];
    assert Run(s, schedule[..1]) == Some(s1);
    assert Run(s, schedule[..2]) == Some(s2);
    assert Run(s, schedule[..3]) == Some(s3);
    assert s.calls[t := Recording(why, checking)][t := Killing(checking)][t := Releasing(checking)][t := last]
        == s.calls[t := last];
  }

  /** A call of `abort` that nobody interrupts is the four steps of the machine. */
  lemma {:induction false} AbortUninterrupted(s: State, t: Thread, why: Reason)
    requires CallsAbort(s, t, why)
    ensures Run(s, AbortSteps(t)) ==
            Some(s.(reason := FirstReason(s.reason, why), group := Signalled(s.group), calls := s.calls[t := Idle]))
  {
    AbortRuns(s, t, why, false);
  }

  /** The steps of one call of `check` by the main thread or the watcher. */
  function CheckSteps(t: Thread, seen: Reading): seq<Action> {
    [if t.Main? then MainCheck(seen) else WatcherCheck(seen)]
    + (if seen.Clear? then [] else [Advance(t), Advance(t), Advance(t), Advance(t)]) + [Advance(t)]
  }

  /** A thread is about to call `check` and nobody else holds the lock. */
  ghost predicate MayCheck(s: State, t: Thread) {
    && CallOf(s, t).Idle? && (if t.Main? then ChecksHere(s.main) else t.Watcher? && s.watching)
    && (s.lock == Lock(None, 0) || (s.lock.holder == Some(t) && s.lock.depth > 0))
  }

  /** The first reason on record after a check. */
  function ReasonAfter(reason: Option<Reason>, seen: Reading): Option<Reason> {
    if reason.Some? || seen.Clear? then reason
    else if seen.Cancelled? then Some(OperatorCancelled)
    else Some(WallDeadline)
  }

  /** The state in which an undisturbed check tests the reason. */
  ghost function Tested(s: State, t: Thread, seen: Reading): State {
    s.(reason := ReasonAfter(s.reason, seen),
       group := s.group.(killed := s.group.killed || (!seen.Clear? && s.group.handle)),
       calls := s.calls[t := Testing])
  }

  lemma {:induction false} CheckIsTested(s: State, t: Thread, seen: Reading)
    requires MayCheck(s, t)
    ensures Run(s, CheckSteps(t, seen)[..|CheckSteps(t, seen)| - 1]) == Some(Tested(s, t, seen))
  {
    var schedule := CheckSteps(t, seen);
    var n := |schedule| - 1;
    var began := SetCall(s, t, BeginCheck(seen));
    RunOne(s, schedule[0], began);
    if seen.Clear? {
      assert schedule[..n] == [schedule[0]];
    } else {
      AbortRuns(began, t, if seen.Cancelled? then OperatorCancelled else WallDeadline, true);
      RunTwice(s, [schedule[0]], AbortSteps(t));
      assert schedule[..n] == [schedule[0]] + AbortSteps(t);
      assert s.calls[t := BeginCheck(seen)][t := Testing] == s.calls[t := Testing];
    }
  }

  lemma {:induction false} TestDecides(s: State, t: Thread, seen: Reading)
    requires MayCheck(s, t)
    ensures var tested := Tested(s, t, seen);
            Next(tested, Advance(t)) == Some(Verdict(tested.(calls := s.calls[t := Idle]), t))
  {
    assert s.calls[t := Testing][t := Idle] == s.calls[t := Idle];
  }

  /** A check that nobody interrupts records what it read unless a reason stands, kills
      a running process when it read something, and raises exactly with a reason: then
      the watcher stops, and the main thread closes, behind the lock if it holds it. */
  lemma {:induction false} CheckUninterrupted(s: State, t: Thread, seen: Reading)
    requires MayCheck(s, t)
    ensures Run(s, CheckSteps(t, seen)).Some?
    ensures var later := Run(s, CheckSteps(t, seen)).value;
            var raises := ReasonAfter(s.reason, seen).Some?;
            && later.reason == ReasonAfter(s.reason, seen)
            && later.group == s.group.(killed := s.group.killed || (!seen.Clear? && s.group.handle))
            && later.lock == s.lock && later.calls == s.calls[t := Idle] && later.receipt == s.receipt
            && later.watching == (s.watching && !(t.Watcher? && raises))
            && later.main ==
                 if t.Watcher? then s.main
                 else if raises then if s.main.CheckingLocked? then Unlocking(false, Failed) else Closing(Failed)
                 else if s.main.EnterCheck? then StartingGuard
                 else if s.main.CheckingLocked? then Launching
                 else s.main
  {
    var schedule := CheckSteps(t, seen);
    CheckIsTested(s, t, seen);
    TestDecides(s, t, seen);
    assert schedule[|schedule| - 1] == Advance(t);
  }

  /** The provider object as one thread sees it. `kills` counts the SIGKILLs sent. */
  class Provider {
    var process: Option<nat>
    var reason: Option<Reason>
    var kills: nat
    var termination: Option<Reason>
    var remaining: Option<set<nat>>

    /** The object's fields are those of the machine in state `s`. */
    ghost predicate Represents(s: State)
      reads this
    {
      && s.reason == reason && s.receipt == Receipt(termination, remaining)
      && s.group.handle == process.Some? && s.group.killed == (kills > 0)
    }

    constructor ()
      ensures process.None? && reason.None? && kills == 0 && termination.None? && remaining.None?
      ensures Represents(INITIAL)
    {
      process, reason, kills, termination, remaining := None, None, 0, None, None;
    }

    /** The body of `abort` takes the object where the four steps take the machine. */
    method Abort(why: Reason)
      modifies this`reason, this`kills
      ensures reason == FirstReason(old(reason), why)
      ensures kills == old(kills) + (if process.Some? then 1 else 0)
      ensures forall s: State, t: Thread :: old(Represents(s)) && CallsAbort(s, t, why) ==>
                Run(s, AbortSteps(t)).Some? && Represents(Run(s, AbortSteps(t)).value)
    {
      if reason.None? {
        reason := Some(why);
      }
      if process.Some? {
        kills := kills + 1;
      }
      forall s: State, t: Thread | old(Represents(s)) && CallsAbort(s, t, why)
        ensures Run(s, AbortSteps(t)).Some? && Represents(Run(s, AbortSteps(t)).value)
      {
        AbortUninterrupted(s, t, why);
      }
    }

    /** `raised` tells whether `check` raised the recorded reason. The object is taken
        where an undisturbed check takes the machine. */
    method Check(cancelled: bool, expired: bool) returns (raised: bool)
      modifies this`reason, this`kills
      ensures raised <==> reason.Some?
      ensures raised <==> old(reason).Some? || cancelled || expired
      ensures cancelled ==> reason == FirstReason(old(reason), OperatorCancelled)
      ensures !cancelled && expired ==> reason == FirstReason(old(reason), WallDeadline)
      ensures !cancelled && !expired ==> reason == old(reason) && kills == old(kills)
      ensures (cancelled || expired) && process.Some? ==> kills == old(kills) + 1
      ensures forall s: State, t: Thread :: old(Represents(s)) && MayCheck(s, t) ==>
                var seen := if cancelled then Cancelled else if expired then Expired else Clear;
                Run(s, CheckSteps(t, seen)).Some? && Represents(Run(s, CheckSteps(t, seen)).value)
    {
      if cancelled {
        Abort(OperatorCancelled);
      } else if expired {
        Abort(WallDeadline);
      }
      raised := reason.Some?;
      var seen := if cancelled then Cancelled else if expired then Expired else Clear;
      forall s: State, t: Thread | old(Represents(s)) && MayCheck(s, t)
        ensures Run(s, CheckSteps(t, seen)).Some? && Represents(Run(s, CheckSteps(t, seen)).value)
      {
        CheckUninterrupted(s, t, seen);
      }
    }

    /** `waitExpires`: the killed leader was not reaped in time, and `close` raises.
        `scans(k)` is the k-th look at the process group and `lastScan` the first one
        made after the clean-up deadline. A second `Close` signals nothing. */
    method Close(waitExpires: bool, scans: nat -> set<nat>, lastScan: nat) returns (raised: bool)
      modifies this
      ensures reason == FirstReason(old(reason), ScopeFinished)
      ensures kills == old(kills) + (if old(process).Some? then 1 else 0)
      ensures raised <==> waitExpires && old(process).Some?
      ensures raised ==> process == old(process) && remaining == old(remaining) && termination == old(termination)
      ensures !raised ==> process.None? && termination == reason
      ensures old(process).None? ==> remaining == old(remaining)
      ensures !raised && old(process).Some? ==>
                exists k: nat :: k <= lastScan && remaining == Some(scans(k)) && (scans(k) == {} || k == lastScan)
                  && forall j: nat :: j < k ==> scans(j) != {}
    {
      Abort(ScopeFinished);
      raised := false;
      if process.Some? {
        if waitExpires {
          return true;
        }
        var k: nat := 0;
        while scans(k) != {} && k < lastScan
          invariant k <= lastScan
          invariant forall j: nat :: j < k ==> scans(j) != {}
          decreases lastScan - k
        {
          k := k + 1;
        }
        remaining := Some(scans(k));
        process := None;
      }
      termination := reason;
    }
  }
}
