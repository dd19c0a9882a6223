// scripts/lib/dev-electron-launcher.ts:181-188 with scripts/lib/dev-electron-launcher.terminate.ts:42-153: the
// launcher's machine and the process code agree on how long each termination takes.
module TerminationTrace {
  import opened Prelude
  import opened ProcessTree
  import opened LauncherModel
  import opened LauncherHost
  import opened Launcher
  import opened AppTermination
  import LauncherLife
  import LauncherProcesses

  // --- Answers ---

  const NOT_YET := Answers(false, false, false, false, false, false)
  const NOTHING_TO_DO := NOT_YET.(idle := true)

  function Waiting(n: nat): seq<Answers> {
    seq(n, _ => NOT_YET)
  }

  lemma WaitingNext(answers: seq<Answers>, n: nat)
    ensures answers + Waiting(n + 1) == answers + Waiting(n) + [NOT_YET]
    ensures answers + Waiting(0) == answers
  {
  }

  // What the looks of a termination show, told as answers to the launcher's machine: the last look of the
  // graceful wait, the one at the kill and the first after it are made at one moment, and are one answer.
  ghost function AnswersOf(report: Report, world: nat -> Look, app: Pid, lookedAt: seq<nat>): seq<Answers>
    requires report.from < report.killLook < |lookedAt|
    requires report.killed != [] ==> report.killLook + 1 < |lookedAt|
  {
    var last := |lookedAt| - 1;
    Waiting(report.killLook - 1 - report.from) +
    [KillAnswer(report, world, app, lookedAt)] +
    if report.killed == [] || last == report.killLook + 1 then []
    else Waiting(last - report.killLook - 2) + [NOT_YET.(gone := Remaining(report.killed, app, world(last)) == {})]
  }

  ghost function KillAnswer(report: Report, world: nat -> Look, app: Pid, lookedAt: seq<nat>): Answers
    requires report.from < report.killLook < |lookedAt|
  {
    var met := SettledAt(world, lookedAt, report.from, report.killLook - 1, report.tracked, app, report.backendTree);
    var survivors := Survivors(report.tracked, app, world(report.killLook)) != {};
    var gone := Remaining(report.killed, app, world(report.killLook + 1)) == {};
    Answers(false, met, survivors, survivors && gone, false, false)
  }

  // --- The waits ---

  function FirstWait(b: Begun, wakeAt: nat): Termination {
    Termination(b.app, b.mode, b.thenStart, if b.windows then TaskKill else Graceful, b.at + GRACEFUL_STOP_MS, wakeAt)
  }

  function LastWait(b: Begun, killAt: nat, wakeAt: nat): Termination {
    Termination(b.app, b.mode, b.thenStart, Settle, killAt + FORCE_SETTLE_MS, wakeAt)
  }

  // The first wait looks when `waitFor` polls.
  lemma {:induction false} FirstWaitPolls(b: Begun, n: nat)
    requires b.windows ==> b.mode == Stop
    requires forall i :: 0 <= i < n ==> PollTime(b.at, GRACEFUL_STOP_MS, i) < b.at + GRACEFUL_STOP_MS
    ensures var at := PollTime(b.at, GRACEFUL_STOP_MS, n);
      LooksAt(b, Waiting(n)) == Some(at) && (n > 0 ==> WaitAfter(b, Waiting(n)) == Some(FirstWait(b, at)))
  {
    if n > 0 {
      FirstWaitPolls(b, n - 1);
      NextPollTime(b.at, GRACEFUL_STOP_MS, n - 1);
      assert Waiting(n)[..n - 1] == Waiting(n - 1);
    }
  }

  // So does the wait after a kill. `before` are the answers up to the kill.
  lemma {:induction false} LastWaitPolls(b: Begun, before: seq<Answers>, killAt: nat, n: nat)
    requires before != [] && WaitAfter(b, before) == Some(LastWait(b, killAt, PollTime(killAt, FORCE_SETTLE_MS, 1)))
    requires forall i :: 0 <= i < n + 1 ==> PollTime(killAt, FORCE_SETTLE_MS, i) < killAt + FORCE_SETTLE_MS
    ensures var at := PollTime(killAt, FORCE_SETTLE_MS, n + 1);
      WaitAfter(b, before + Waiting(n)) == Some(LastWait(b, killAt, at))
  {
    WaitingNext(before, if n > 0 then n - 1 else 0);
    if n > 0 {
      LastWaitPolls(b, before, killAt, n - 1);
      NextPollTime(killAt, FORCE_SETTLE_MS, n);
      assert (before + Waiting(n))[..|before| + n - 1] == before + Waiting(n - 1);
    }
  }

  lemma SurvivorsAreKilled(report: Report, world: nat -> Look, app: Pid)
    requires KillsRightly(report, world, app)
    ensures report.killed == [] <==> Survivors(report.tracked, app, world(report.killLook)) == {}
  {
    hide Running;
    var look := world(report.killLook);
    if m :| m in Survivors(report.tracked, app, look) {
      WhoDies(report.tracked, app, look, m);
    } else {
      assert report.killed != [] ==> MustDie(report.tracked, app, look, report.killed[0]);
    }
  }

  // The answer at the kill ends the graceful wait, and the termination with it if nothing is left to wait for.
  lemma KillEndsWait(b: Begun, n: nat, a: Answers)
    requires !b.windows && !a.idle
    requires forall i :: 0 <= i < n ==> PollTime(b.at, GRACEFUL_STOP_MS, i) < b.at + GRACEFUL_STOP_MS
    requires a.met || PollTime(b.at, GRACEFUL_STOP_MS, n) == b.at + GRACEFUL_STOP_MS
    ensures var killAt := PollTime(b.at, GRACEFUL_STOP_MS, n);
      WaitAfter(b, Waiting(n) + [a]) ==
        if !a.survivors || a.gone then None else Some(LastWait(b, killAt, PollTime(killAt, FORCE_SETTLE_MS, 1)))
  {
    var killAt := PollTime(b.at, GRACEFUL_STOP_MS, n);
    FirstWaitPolls(b, n);
    NextPollTime(killAt, FORCE_SETTLE_MS, 0);
    assert (Waiting(n) + [a])[..n] == Waiting(n);
    assert (Waiting(n) + [a])[n] == a;
  }

  // Whatever the looks show, the launcher's machine, told so, has the termination that the process code
  // makes: it waits for the same looks, and ends at the same moment.
  lemma PosixFollows(report: Report, world: nat -> Look, app: Pid, lookedAt: seq<nat>, b: Begun, ended: nat)
    requires !b.windows && report.from < report.killLook < |lookedAt|
    requires KillsRightly(report, world, app) && WaitsRightly(report, world, app, lookedAt, b.at)
    requires EndsRightly(report, world, app, lookedAt, ended)
    ensures EndsWith(b, AnswersOf(report, world, app, lookedAt), ended)
  {
    hide Survivors, Remaining, SettledAt, NotSettled, KillsRightly, WaitAfter;
    var n, a, last := report.killLook - 1 - report.from, KillAnswer(report, world, app, lookedAt), |lookedAt| - 1;
    var before := Waiting(n) + [a];
    FirstPolls(report, world, app, lookedAt, b.at);
    SurvivorsAreKilled(report, world, app);
    KillEndsWait(b, n, a);
    FirstWaitPolls(b, n);
    assert before[..n] == Waiting(n);
    if report.killed == [] || last == report.killLook + 1 {
      assert AnswersOf(report, world, app, lookedAt) == before;
    } else {
      var m := last - report.killLook - 2;
      var end := NOT_YET.(gone := Remaining(report.killed, app, world(last)) == {});
      LastPolls(report, world, app, lookedAt);
      LastWaitPolls(b, before, report.killAt, m);
      assert AnswersOf(report, world, app, lookedAt) == before + Waiting(m) + [end];
      LastAnswer(b, before + Waiting(m), end, report.killAt, ended);
    }
  }

  lemma FirstPolls(report: Report, world: nat -> Look, app: Pid, lookedAt: seq<nat>, began: nat)
    requires report.from < report.killLook < |lookedAt| && WaitsRightly(report, world, app, lookedAt, began)
    ensures var n := report.killLook - 1 - report.from;
      && PollTime(began, GRACEFUL_STOP_MS, n) == report.killAt
      && forall i :: 0 <= i < n ==> PollTime(began, GRACEFUL_STOP_MS, i) < began + GRACEFUL_STOP_MS
  {
    hide SettledAt, NotSettled, PollTime;
    var n := report.killLook - 1 - report.from;
    forall i | 0 <= i < n ensures PollTime(began, GRACEFUL_STOP_MS, i) < began + GRACEFUL_STOP_MS {
      assert lookedAt[report.from + i] < began + GRACEFUL_STOP_MS;
    }
  }

  lemma LastPolls(report: Report, world: nat -> Look, app: Pid, lookedAt: seq<nat>)
    requires report.killLook + 1 < |lookedAt| - 1
    requires SettlesAfter(report.killed, world, app, lookedAt, report.killLook, report.killAt)
    ensures var m := |lookedAt| - 1 - report.killLook - 2;
      && PollTime(report.killAt, FORCE_SETTLE_MS, m + 1) == lookedAt[|lookedAt| - 1]
      && forall i :: 0 <= i < m + 1 ==> PollTime(report.killAt, FORCE_SETTLE_MS, i) < report.killAt + FORCE_SETTLE_MS
    ensures Remaining(report.killed, app, world(report.killLook + 1)) != {}
  {
    hide Remaining, PollTime;
    forall i | 0 <= i < |lookedAt| - 1 - report.killLook - 1
      ensures PollTime(report.killAt, FORCE_SETTLE_MS, i) < report.killAt + FORCE_SETTLE_MS
    {
      assert lookedAt[report.killLook + 1 + i] < report.killAt + FORCE_SETTLE_MS;
    }
  }

  lemma LastAnswer(b: Begun, before: seq<Answers>, end: Answers, killAt: nat, ended: nat)
    requires before != [] && WaitAfter(b, before) == Some(LastWait(b, killAt, ended))
    requires end.gone || ended == killAt + FORCE_SETTLE_MS
    ensures EndsWith(b, before + [end], ended)
  {
    assert (before + [end])[..|before|] == before;
  }

  // On Windows it waits for the exit event.
  lemma WindowsFollows(world: nat -> Look, lookedAt: seq<nat>, from: nat, b: Begun)
    requires b.windows && b.mode == Stop && from < |lookedAt| && ExitAwaited(world, lookedAt, from, b.at)
    ensures var last := |lookedAt| - 1;
      EndsWith(b, Waiting(last - from) + [NOT_YET.(met := world(last).appExited)], lookedAt[last])
  {
    var last := |lookedAt| - 1;
    var n, a := last - from, NOT_YET.(met := world(last).appExited);
    hide PollTime, EndsWith;
    forall i | 0 <= i < n ensures PollTime(b.at, GRACEFUL_STOP_MS, i) < b.at + GRACEFUL_STOP_MS {
      assert lookedAt[from + i] < b.at + GRACEFUL_STOP_MS;
    }
    ExitEndsWait(b, n, a);
  }

  lemma ExitEndsWait(b: Begun, n: nat, a: Answers)
    requires b.windows && b.mode == Stop && !a.idle
    requires forall i :: 0 <= i < n ==> PollTime(b.at, GRACEFUL_STOP_MS, i) < b.at + GRACEFUL_STOP_MS
    requires a.met || PollTime(b.at, GRACEFUL_STOP_MS, n) == b.at + GRACEFUL_STOP_MS
    ensures EndsWith(b, Waiting(n) + [a], PollTime(b.at, GRACEFUL_STOP_MS, n))
  {
    FirstWaitPolls(b, n);
    assert (Waiting(n) + [a])[..n] == Waiting(n);
    assert (Waiting(n) + [a])[n] == a;
  }

  // Where there is nothing to do, both end at once.
  lemma NothingFollows(b: Begun)
    ensures EndsWith(b, [NOTHING_TO_DO], b.at)
    ensures b.windows && b.mode == Reap ==> EndsWith(b, [NOT_YET], b.at)
  {
  }

  // --- The shutdown ---

  lemma {:induction false} OverStaysOver(b: Begun, answers: seq<Answers>, i: nat, j: nat)
    requires 0 < i <= j <= |answers| && WaitAfter(b, answers[..i]) == None
    ensures WaitAfter(b, answers[..j]) == None
    decreases j
  {
    if i < j {
      OverStaysOver(b, answers, i, j - 1);
      assert answers[..j][..j - 1] == answers[..j - 1];
    }
  }

  // The machine has joined its queue but for the termination in flight.
  predicate OnlyTerminates(s: State) {
    Inv(s) && s.shuttingDown && s.join.Draining? && s.queue == [] && s.current == None
  }

  // Woken when its wait is due, and given these answers, such a machine has no termination left at `at`.
  lemma {:induction false} MachineFollows(s: State, b: Begun, answers: seq<Answers>, i: nat, at: nat)
    returns (events: seq<Event>)
    requires OnlyTerminates(s) && !b.thenStart && EndsWith(b, answers, at) && 0 < i <= |answers|
    requires s.running == WaitAfter(b, answers[..i]) && LooksAt(b, answers[..i - 1]) == Some(s.now)
    ensures Possible(s, events)
    ensures var t := After(s, events); OnlyTerminates(t) && t.running == None && t.now == at
    decreases |answers| - i
  {
    hide Inv, WakeTermination;
    if s.running == None {
      if i < |answers| {
        OverStaysOver(b, answers, i, |answers| - 1);
      }
      assert answers[..|answers|] == answers;
      events := [];
    } else {
      var t := s.running.value;
      assert i < |answers| by {
        assert answers[..|answers|] == answers;
      }
      WakeIsDue(s, answers[i]);
      var later := Step(s, Advance(t.wakeAt - s.now));
      var next := Step(later, TerminationWakes(answers[i]));
      assert answers[..i + 1][..i] == answers[..i];
      WaitKeepsApp(b, answers[..i]);
      WokenOnlyTerminates(later, answers[i]);
      var rest := MachineFollows(next, b, answers, i + 1, at);
      events := [Advance(t.wakeAt - s.now), TerminationWakes(answers[i])] + rest;
      assert events[1..][1..] == rest;
    }
  }

  lemma WakeIsDue(s: State, a: Answers)
    requires OnlyTerminates(s) && s.running.Some?
    ensures s.now <= s.running.value.wakeAt
    ensures var e := Advance(s.running.value.wakeAt - s.now);
      && Enabled(s, e) && OnlyTerminates(Step(s, e)) && Step(s, e).running == s.running
      && Enabled(Step(s, e), TerminationWakes(a))
  {
    AdvanceKeeps(s, s.running.value.wakeAt - s.now);
  }

  lemma {:induction false} WaitKeepsApp(b: Begun, answers: seq<Answers>)
    requires answers != [] && WaitAfter(b, answers).Some?
    ensures WaitAfter(b, answers).value.thenStart == b.thenStart
    decreases |answers|
  {
    if |answers| > 1 {
      WaitKeepsApp(b, answers[..|answers| - 1]);
    }
  }

  lemma WokenOnlyTerminates(s: State, a: Answers)
    requires OnlyTerminates(s) && Enabled(s, TerminationWakes(a)) && !s.running.value.thenStart
    ensures var next := Step(s, TerminationWakes(a));
      && OnlyTerminates(next) && next.now == s.now
      && next.running == WakeTermination(s.now, s.running.value, a)
  {
    TerminationKeeps(s, a);
  }

  // A run from a shutdown call to the moment the launcher turns to its other children.
  ghost predicate IsShutdownRun(s: State, code: int, events: seq<Event>, at: nat) {
    && events != [] && events[0] == ShutdownCalled(code) && Possible(s, events)
    && var t := After(s, events);
       JoinReady(t) && t.now == at && t.firstShutdown == Some((code, s.now))
  }

  // What the run does once the launcher is told to shut down with an app running.
  lemma RunFromShutdown(s: State, code: int, answers: seq<Answers>, at: nat) returns (events: seq<Event>)
    requires Inv(s) && Enabled(s, ShutdownCalled(code)) && !s.shuttingDown && s.running == None && s.current.Some?
    requires EndsWith(Begun(s.windows, s.now, s.current.value.id, Stop, false), answers, at)
    ensures IsShutdownRun(s, code, events, at)
  {
    hide Inv, WakeTermination, BeginTermination;
    var b := Begun(s.windows, s.now, s.current.value.id, Stop, false);
    var begun := BeginsShutdown(s, code, answers[0]);
    assert answers[..1] == [answers[0]] && answers[..0] == [];
    var rest := MachineFollows(begun, b, answers, 1, at);
    events := [ShutdownCalled(code), RunReadyTask(answers[0])] + rest;
    RunsTwo(s, ShutdownCalled(code), RunReadyTask(answers[0]), rest);
    FirstShutdownStays(begun, rest);
  }

  lemma RunsTwo(s: State, e: Event, f: Event, rest: seq<Event>)
    requires Enabled(s, e) && Enabled(Step(s, e), f) && Possible(Step(Step(s, e), f), rest)
    ensures Possible(s, [e, f] + rest) && After(s, [e, f] + rest) == After(Step(Step(s, e), f), rest)
  {
    hide Step, Enabled;
    assert ([e, f] + rest)[1..] == [f] + rest && ([f] + rest)[1..] == rest;
  }

  lemma BeginsShutdown(s: State, code: int, a: Answers) returns (begun: State)
    requires Inv(s) && Enabled(s, ShutdownCalled(code)) && !s.shuttingDown && s.running == None && s.current.Some?
    ensures Enabled(Step(s, ShutdownCalled(code)), RunReadyTask(a))
    ensures begun == Step(Step(s, ShutdownCalled(code)), RunReadyTask(a))
    ensures OnlyTerminates(begun) && begun.now == s.now && begun.firstShutdown == Some((code, s.now))
    ensures begun.running == BeginTermination(s.windows, s.now, s.current.value.id, Stop, false, a)
  {
    hide Inv, BeginTermination;
    var called := Step(s, ShutdownCalled(code));
    InvKept(s, ShutdownCalled(code));
    InvKept(called, RunReadyTask(a));
    begun := Step(called, RunReadyTask(a));
  }

  // A shutdown that finds an app running terminates it for exactly as long as the process code does, and
  // then turns to the launcher's other children.
  lemma ShutdownFollows(windows: bool, before: seq<Event>, code: int, answers: seq<Answers>, at: nat)
    requires Possible(Init(windows), before)
    requires var s := After(Init(windows), before);
      && Enabled(s, ShutdownCalled(code)) && !s.shuttingDown && s.running == None && s.current.Some?
      && EndsWith(Begun(windows, s.now, s.current.value.id, Stop, false), answers, at)
    ensures exists events :: IsShutdownRun(After(Init(windows), before), code, events, at)
  {
    hide Inv, Enabled, EndsWith, IsShutdownRun;
    InvAlways(Init(windows), before);
    WindowsStays(Init(windows), before);
    var events := RunFromShutdown(After(Init(windows), before), code, answers, at);
  }

  // So wherever a termination of the app, begun by a shutdown, has left the looks and kills its contract
  // promises, the machine has a run that ends it at that moment.
  lemma ShutdownTakesAsLong(before: seq<Event>, code: int, report: Report, world: nat -> Look, app: Pid,
                            lookedAt: seq<nat>, ended: nat)
    requires Possible(Init(false), before)
    requires var s := After(Init(false), before);
      && Enabled(s, ShutdownCalled(code)) && !s.shuttingDown && s.running == None && s.current.Some?
      && report.from < report.killLook < |lookedAt|
      && KillsRightly(report, world, app) && WaitsRightly(report, world, app, lookedAt, s.now)
      && EndsRightly(report, world, app, lookedAt, ended)
    ensures exists events :: IsShutdownRun(After(Init(false), before), code, events, ended)
  {
    hide Inv, Step, Enabled, KillsRightly, WaitsRightly, EndsWith, SettlesAfter, Remaining,
         IsShutdownRun;
    var s := After(Init(false), before);
    PosixFollows(report, world, app, lookedAt, Begun(false, s.now, s.current.value.id, Stop, false), ended);
    ShutdownFollows(false, before, code, AnswersOf(report, world, app, lookedAt), ended);
  }

  // --- The other children ---

  // What the rounds of checks from `first` to `n` show.
  function RoundAnswers(alive: nat -> set<Pid>, pids: seq<Pid>, first: nat, n: nat): seq<Answers>
    requires first <= n
  {
    seq(n - first + 1, i requires 0 <= i => NOT_YET.(gone := StillAlive(alive, first + i, pids) == []))
  }

  // The n-th round is the one with which the wait ends: the first at the end of the budget, or the last.
  lemma {:induction false} RoundsPoll(alive: nat -> set<Pid>, checkedAt: seq<nat>, first: nat, last: nat, pids: seq<Pid>,
                                      began: nat, i: nat) returns (n: nat)
    requires last < |checkedAt| && first <= i <= last
    requires LauncherProcesses.RoundsRightly(alive, checkedAt, first, last, pids, began, began + CHILD_GRACE_MS)
    requires forall j :: first <= j <= i ==> checkedAt[j] == PollTime(began, CHILD_GRACE_MS, j - first)
    requires forall j :: first <= j < i ==> checkedAt[j] < began + CHILD_GRACE_MS
    ensures i <= n <= last && (n == last || checkedAt[n] == began + CHILD_GRACE_MS)
    ensures forall j :: first <= j <= n ==> checkedAt[j] == PollTime(began, CHILD_GRACE_MS, j - first)
    ensures forall j :: first <= j < n ==> checkedAt[j] < began + CHILD_GRACE_MS
    decreases last - i
  {
    hide PollTime;
    PollsWithin(began, i - first);
    if i == last || checkedAt[i] == began + CHILD_GRACE_MS {
      n := i;
    } else {
      NextPollTime(began, CHILD_GRACE_MS, i - first);
      assert LauncherProcesses.GoesOn(alive, checkedAt, i, pids, began + CHILD_GRACE_MS);
      n := RoundsPoll(alive, checkedAt, first, last, pids, began, i + 1);
    }
  }

  lemma PollsWithin(began: nat, i: nat)
    ensures PollTime(began, CHILD_GRACE_MS, i) <= began + CHILD_GRACE_MS && PollTime(began, CHILD_GRACE_MS, 0) == began
  {
  }

  lemma {:induction false} AtTheEnd(alive: nat -> set<Pid>, checkedAt: seq<nat>, first: nat, last: nat, pids: seq<Pid>,
                                    began: nat, n: nat)
    requires last < |checkedAt| && first <= n <= last && checkedAt[n] == began + CHILD_GRACE_MS
    requires LauncherProcesses.RoundsRightly(alive, checkedAt, first, last, pids, began, began + CHILD_GRACE_MS)
    ensures checkedAt[last] == began + CHILD_GRACE_MS
    decreases last - n
  {
    if n < last {
      assert LauncherProcesses.GoesOn(alive, checkedAt, n, pids, began + CHILD_GRACE_MS);
      AtTheEnd(alive, checkedAt, first, last, pids, began, n + 1);
    }
  }

  // Whatever the rounds of checks show, the machine, told so, waits for the same rounds and exits at the
  // moment at which the process code has ended its wait.
  lemma ChildrenTakeAsLong(s: State, alive: nat -> set<Pid>, checkedAt: seq<nat>, first: nat, last: nat, pids: seq<Pid>)
    returns (events: seq<Event>)
    requires LauncherLife.LooksForChildren(s) && s.restartAt == None && last < |checkedAt|
    requires LauncherProcesses.RoundsRightly(alive, checkedAt, first, last, pids, s.now, s.now + CHILD_GRACE_MS)
    requires StillAlive(alive, last, pids) == [] || checkedAt[last] == s.now + CHILD_GRACE_MS
    ensures Possible(s, events)
    ensures var t := After(s, events); t.join == Exited && t.exits == s.exits + [(s.exitCode, checkedAt[last])]
  {
    PollsWithin(s.now, 0);
    var n := RoundsPoll(alive, checkedAt, first, last, pids, s.now, first);
    if checkedAt[n] == s.now + CHILD_GRACE_MS {
      AtTheEnd(alive, checkedAt, first, last, pids, s.now, n);
    }
    var answers := RoundAnswers(alive, pids, first, n);
    forall i | 0 <= i < |answers| - 1
      ensures !answers[i].gone && PollTime(s.now, CHILD_GRACE_MS, i) < s.now + CHILD_GRACE_MS
    {
      assert LauncherProcesses.GoesOn(alive, checkedAt, first + i, pids, s.now + CHILD_GRACE_MS);
      assert checkedAt[first + i] < s.now + CHILD_GRACE_MS;
    }
    events := LauncherLife.ChildrenFollow(s, answers, checkedAt[last]);
  }

  lemma {:induction false} WindowsStays(s: State, events: seq<Event>)
    requires Possible(s, events)
    ensures After(s, events).windows == s.windows
    decreases |events|
  {
    hide BeginTermination, WakeTermination;
    if events != [] {
      WindowsStays(Step(s, events[0]), events[1..]);
    }
  }

  lemma {:induction false} FirstShutdownStays(s: State, events: seq<Event>)
    requires Possible(s, events) && s.shuttingDown
    ensures After(s, events).firstShutdown == s.firstShutdown
    decreases |events|
  {
    hide BeginTermination, WakeTermination;
    if events != [] {
      FirstShutdownStays(Step(s, events[0]), events[1..]);
    }
  }
}
