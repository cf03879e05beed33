/** The order in which the main thread of core/owned_model_provider.py goes through its
    points, and the run of a scope in which nothing goes wrong. */
module ProviderRuns {
  import opened OwnedProvider
  import opened Wrappers

  // ------------------------------------------------------- order of the points

  /** The `with` block or its entry is left by an exception. */
  ghost predicate LeavesEarly(m: MainPoint) {
    m.Closing? && !m.exit.Returned?
  }

  /** Where the main thread may be after `before`: entry, guard and preparation, the
      launch behind the lock, the watcher, readiness, the exchange, and the close with
      what the exchange came to. */
  ghost predicate Follows(before: MainPoint, after: MainPoint) {
    match before
    case EnterCheck => after.StartingGuard? || after == Closing(Failed)
    case StartingGuard => after.Preparing? || LeavesEarly(after)
    case Preparing => after.LockingStart? || LeavesEarly(after)
    case LockingStart => after.CheckingLocked?
    case CheckingLocked => after.Launching? || after == Unlocking(false, Failed)
    case Launching => after.Unlocking? && (after.launchedNow || !after.onFailure.Returned?)
    case Unlocking(launchedNow, onFailure) =>
      if launchedNow then after.StartingWatcher? else after == Closing(onFailure)
    case StartingWatcher => after.WaitingReady? || LeavesEarly(after)
    case WaitingReady => after.InScope? || LeavesEarly(after)
    case InScope => after.Closing?
    case Closing(exit) => after == CloseAborting(exit)
    case CloseAborting(exit) => after == Reaping(exit) || after == Reporting(exit)
    case Reaping(exit) => after == Scanning(exit) || after == Finished(exit, Propagated)
    case Scanning(exit) => after == Dropping(exit)
    case Dropping(exit) => after == Reporting(exit)
    case Reporting(exit) => after.Finished? && after.exit == exit
    case Finished(_, _) => false
  }

  lemma {:induction false} CloseFollows(s: State, choice: Choice)
    requires !BeforeLaunch(s.main) && !Running(s.main) && CloseStep(s, choice).Some?
    ensures var later := CloseStep(s, choice).value;
            later.main == s.main || Follows(s.main, later.main)
  {
  }

  lemma {:induction false} MainStepFollows(s: State, choice: Choice)
    requires MainStep(s, choice).Some?
    ensures var later := MainStep(s, choice).value;
            later.main == s.main || Follows(s.main, later.main)
  {
    if !BeforeLaunch(s.main) && !Running(s.main) {
      CloseFollows(s, choice);
    }
  }

  /** Whatever the threads do, the main thread takes its points in this order. */
  lemma {:induction false} MainFollowsProgram(s: State, a: Action)
    requires Inv(s) && Next(s, a).Some?
    ensures var later := Next(s, a).value;
            later.main == s.main || Follows(s.main, later.main)
  {
    if a.MainGoes? {
      MainStepFollows(s, a.choice);
    }
  }

  // ------------------------------------------------------------------ a quiet run

  lemma {:induction false} Then(s: State, schedule: seq<Action>, middle: State, a: Action, later: State)
    requires Run(s, schedule) == Some(middle) && Next(middle, a) == Some(later)
    ensures Run(s, schedule + [a]) == Some(later)
  {
    assert (schedule + [a])[..|schedule|] == schedule;
  }

  /** The main thread idle at a point of an undisturbed scope. */
  ghost function Quiet(m: MainPoint, lock: Lock, group: Group, watching: bool): State {
    INITIAL.(main := m, lock := lock, group := group, watching := watching, calls := map[Main := Idle])
  }

  const FREE := Lock(None, 0)
  const HELD := Lock(Some(Main), 1)

  ghost function Up(pid: nat): Group {
    Group(true, true, false, pid, {pid})
  }

  /** From the first check to the lock. */
  ghost function LockSteps(): seq<Action> {
    CheckSteps(Main, Clear) + [MainGoes(Proceed)] + [MainGoes(Proceed)] + [MainGoes(Proceed)]
  }

  lemma {:induction false} Locks()
    ensures Run(INITIAL, LockSteps()) == Some(Quiet(CheckingLocked, HELD, INITIAL.group, false))
  {
    var g, steps := INITIAL.group, CheckSteps(Main, Clear);
    var s1, s2 := Quiet(StartingGuard, FREE, g, false), Quiet(Preparing, FREE, g, false);
    var s3 := Quiet(LockingStart, FREE, g, false);
    CheckUninterrupted(INITIAL, Main, Clear);
    assert Run(INITIAL, steps).value == s1;
    Then(INITIAL, steps, s1, MainGoes(Proceed), s2);
    Then(INITIAL, steps + [MainGoes(Proceed)], s2, MainGoes(Proceed), s3);
    Then(INITIAL, steps + [MainGoes(Proceed)] + [MainGoes(Proceed)], s3, MainGoes(Proceed),
         Quiet(CheckingLocked, HELD, g, false));
  }

  /** From the first check to the launch. */
  ghost function EnterSteps(): seq<Action> {
    LockSteps() + CheckSteps(Main, Clear)
  }

  lemma {:induction false} Enters()
    ensures Run(INITIAL, EnterSteps()) == Some(Quiet(Launching, HELD, INITIAL.group, false))
  {
    var locked := Quiet(CheckingLocked, HELD, INITIAL.group, false);
    Locks();
    CheckUninterrupted(locked, Main, Clear);
    assert Run(locked, CheckSteps(Main, Clear)).value == Quiet(Launching, HELD, INITIAL.group, false);
    RunTwice(INITIAL, LockSteps(), CheckSteps(Main, Clear));
  }

  /** From the launch to the start of the watcher. */
  ghost function LaunchSteps(pid: nat): seq<Action> {
    [] + [MainGoes(Launch(pid))] + [MainGoes(Proceed)]
  }

  lemma {:induction false} Launches(pid: nat)
    ensures Run(Quiet(Launching, HELD, INITIAL.group, false), LaunchSteps(pid)) ==
            Some(Quiet(StartingWatcher, FREE, Up(pid), false))
  {
    var s, s1 := Quiet(Launching, HELD, INITIAL.group, false), Quiet(Unlocking(true, Failed), HELD, Up(pid), false);
    Then(s, [], s, MainGoes(Launch(pid)), s1);
    Then(s, [] + [MainGoes(Launch(pid))], s1, MainGoes(Proceed), Quiet(StartingWatcher, FREE, Up(pid), false));
  }

  /** From there to the answer of the exchange. */
  ghost function ServeSteps(chat: Chat): seq<Action> {
    [] + [MainGoes(Proceed)] + [MainGoes(Proceed)] + [MainGoes(ChatReturned(chat))]
  }

  lemma {:induction false} Serves(pid: nat, chat: Chat)
    ensures Run(Quiet(StartingWatcher, FREE, Up(pid), false), ServeSteps(chat)) ==
            Some(Quiet(Closing(Returned(chat)), FREE, Up(pid), true))
  {
    var s := Quiet(StartingWatcher, FREE, Up(pid), false);
    var s1, s2 := Quiet(WaitingReady, FREE, Up(pid), true), Quiet(InScope, FREE, Up(pid), true);
    Then(s, [], s, MainGoes(Proceed), s1);
    Then(s, [] + [MainGoes(Proceed)], s1, MainGoes(Proceed), s2);
    Then(s, [] + [MainGoes(Proceed)] + [MainGoes(Proceed)], s2, MainGoes(ChatReturned(chat)),
         Quiet(Closing(Returned(chat)), FREE, Up(pid), true));
  }

  /** The kill of the group when the scope closes. */
  ghost function KillSteps(): seq<Action> {
    [] + [MainGoes(Proceed)] + AbortSteps(Main) + [MainGoes(Proceed)]
  }

  /** The scope as `close` leaves it behind the kill. */
  ghost function Closed(m: MainPoint, group: Group, receipt: Receipt): State {
    State(Some(ScopeFinished), FREE, group, receipt, true, true, m, map[Main := Idle])
  }

  lemma {:induction false} Kills(pid: nat, exit: Exit)
    ensures Run(Quiet(Closing(exit), FREE, Up(pid), true), KillSteps()) ==
            Some(Closed(Reaping(exit), Up(pid).(killed := true), Receipt(None, None)))
  {
    var s := Quiet(Closing(exit), FREE, Up(pid), true);
    var begun := s.(main := CloseAborting(exit), stop := true, calls := map[Main := Acquiring(ScopeFinished, false)]);
    var killed := Closed(CloseAborting(exit), Up(pid).(killed := true), Receipt(None, None));
    assert s.calls[Main := Acquiring(ScopeFinished, false)] == begun.calls;
    Then(s, [], s, MainGoes(Proceed), begun);
    AbortRuns(begun, Main, ScopeFinished, false);
    assert Run(begun, AbortSteps(Main)).value == killed;
    RunTwice(s, [] + [MainGoes(Proceed)], AbortSteps(Main));
    Then(s, [] + [MainGoes(Proceed)] + AbortSteps(Main), killed, MainGoes(Proceed),
         killed.(main := Reaping(exit)));
  }

  /** The leader dies and is reaped, and a scan finds nothing. */
  ghost function ScanSteps(pid: nat): seq<Action> {
    [] + [Die(pid)] + [MainGoes(Proceed)] + [MainGoes(Scan({}, false))]
  }

  ghost function Gone(pid: nat): Group {
    Group(true, true, true, pid, {})
  }

  lemma {:induction false} Scans(pid: nat, exit: Exit)
    ensures Run(Closed(Reaping(exit), Up(pid).(killed := true), Receipt(None, None)), ScanSteps(pid)) ==
            Some(Closed(Dropping(exit), Gone(pid), Receipt(None, Some({}))))
  {
    var none := Receipt(None, None);
    var s := Closed(Reaping(exit), Up(pid).(killed := true), none);
    var s1, s2 := Closed(Reaping(exit), Gone(pid), none), Closed(Scanning(exit), Gone(pid), none);
    assert {pid} - {pid} == {};
    Then(s, [], s, Die(pid), s1);
    Then(s, [] + [Die(pid)], s1, MainGoes(Proceed), s2);
    Then(s, [] + [Die(pid)] + [MainGoes(Proceed)], s2, MainGoes(Scan({}, false)),
         Closed(Dropping(exit), Gone(pid), Receipt(None, Some({}))));
  }

  ghost function ReportSteps(): seq<Action> {
    [] + [MainGoes(Proceed)] + [MainGoes(Proceed)]
  }

  lemma {:induction false} Reports(pid: nat, exit: Exit)
    ensures var r := Run(Closed(Dropping(exit), Gone(pid), Receipt(None, Some({}))), ReportSteps());
            && r.Some? && r.value.main == Finished(exit, Conclude(exit, Some(ScopeFinished), Some({})))
            && r.value.receipt == Receipt(Some(ScopeFinished), Some({}))
  {
    var s := Closed(Dropping(exit), Gone(pid), Receipt(None, Some({})));
    var s1 := Closed(Reporting(exit), Gone(pid).(handle := false), s.receipt);
    Then(s, [], s, MainGoes(Proceed), s1);
    Then(s, [] + [MainGoes(Proceed)], s1, MainGoes(Proceed),
         Closed(Finished(exit, Conclude(exit, Some(ScopeFinished), Some({}))), s1.group,
                Receipt(Some(ScopeFinished), Some({}))));
  }

  /** The exchange of a launched scope and its close. */
  ghost function ScopeSteps(pid: nat, chat: Chat): seq<Action> {
    ServeSteps(chat) + KillSteps() + ScanSteps(pid) + ReportSteps()
  }

  lemma {:induction false} ScopeRuns(pid: nat, chat: Chat)
    ensures var r := Run(Quiet(StartingWatcher, FREE, Up(pid), false), ScopeSteps(pid, chat));
            && r.Some?
            && r.value.main == Finished(Returned(chat), Conclude(Returned(chat), Some(ScopeFinished), Some({})))
            && r.value.receipt == Receipt(Some(ScopeFinished), Some({}))
  {
    var s, exit := Quiet(StartingWatcher, FREE, Up(pid), false), Returned(chat);
    Serves(pid, chat);
    Kills(pid, exit);
    Scans(pid, exit);
    Reports(pid, exit);
    RunTwice(s, ServeSteps(chat), KillSteps());
    RunTwice(s, ServeSteps(chat) + KillSteps(), ScanSteps(pid));
    RunTwice(s, ServeSteps(chat) + KillSteps() + ScanSteps(pid), ReportSteps());
  }

  ghost function QuietSteps(pid: nat, chat: Chat): seq<Action> {
    EnterSteps() + LaunchSteps(pid) + ScopeSteps(pid, chat)
  }

  /** A scope that nobody disturbs reports just what the exchange returned: success for
      an answer, and for a failure its own flags. */
  lemma {:induction false} QuietScopeReportsExchange(pid: nat, chat: Chat)
    ensures var r := Run(INITIAL, QuietSteps(pid, chat));
            && r.Some? && r.value.main.Finished?
            && r.value.receipt == Receipt(Some(ScopeFinished), Some({}))
            && r.value.main.outcome ==
                 if chat.Answer? then Reported(true, false, false, false)
                 else Reported(false, chat.cancelled, chat.timedOut, chat.limited)
  {
    Enters();
    Launches(pid);
    ScopeRuns(pid, chat);
    RunTwice(INITIAL, EnterSteps(), LaunchSteps(pid));
    RunTwice(INITIAL, EnterSteps() + LaunchSteps(pid), ScopeSteps(pid, chat));
  }
}
