// scripts/lib/dev-electron-launcher.ts: the stop/restart state machine of the dev Electron launcher.
//
// Time is exact and host calls take none. The promise queue runs to completion: while a queued task
// is ready, or the shutdown loop can go on, no timer fires and no host event arrives. What the
// process table shows is up to the environment, which answers each look through `Answers`.
module Launcher {
  import opened Prelude
  import opened LauncherModel

  datatype Mode = Stop | Reap

  datatype Task =
    | Restart          // stop the app, then start one
    | StopApp
    | ReapApp(app: nat)
    | StartApp
    | EndSession       // stop the dev runner, then shut down

  // The wait a termination is in: for the tree to drain, for SIGKILL to take, or for taskkill.
  datatype Phase = Graceful | Settle | TaskKill

  datatype Termination = Termination(app: nat, mode: Mode, thenStart: bool, phase: Phase, deadline: nat, wakeAt: nat)

  datatype App = App(id: nat, pollAt: Option<nat>)

  // The shutdown loop: not begun, joining the queue, waiting for leftover children, done.
  datatype Join = NotJoining | Draining | ChildWait(deadline: nat, wakeAt: nat) | Exited

  datatype State = State(
    windows: bool,
    now: nat,
    spawned: nat,
    current: Option<App>,
    restartAt: Option<nat>,
    queue: seq<Task>,
    running: Option<Termination>,
    shuttingDown: bool,
    exitCode: int,
    join: Join,
    firstShutdown: Option<(int, nat)>,  // code and time of the first shutdown call
    exits: seq<(int, nat)>)             // every exit call: code and time

  function Init(windows: bool): State {
    State(windows, 0, 0, None, None, [], None, false, 0, NotJoining, None, [])
  }

  // What the environment shows. `idle`: there is nothing to terminate. `met`: the awaited condition
  // holds now. `survivors`: something must be killed. `gone`: what was killed has gone.
  // `noChildren`: the launcher has no other children. `spawns`: spawnApp returns an app.
  datatype Answers = Answers(idle: bool, met: bool, survivors: bool, gone: bool, noChildren: bool, spawns: bool)

  // --- Terminating an app tree: only its waits matter here ---

  function AfterGraceful(now: nat, app: nat, mode: Mode, thenStart: bool, a: Answers): Option<Termination> {
    if !a.survivors || a.gone then None
    else Some(Termination(app, mode, thenStart, Settle, now + FORCE_SETTLE_MS, NextPoll(now, now + FORCE_SETTLE_MS)))
  }

  function BeginTermination(windows: bool, now: nat, app: nat, mode: Mode, thenStart: bool, a: Answers)
    : Option<Termination>
  {
    var deadline := now + GRACEFUL_STOP_MS;
    if a.idle || (windows && mode == Reap) then None
    else if windows then
      if a.met then None
      else Some(Termination(app, mode, thenStart, TaskKill, deadline, NextPoll(now, deadline)))
    else if a.met then AfterGraceful(now, app, mode, thenStart, a)
    else Some(Termination(app, mode, thenStart, Graceful, deadline, NextPoll(now, deadline)))
  }

  function WakeTermination(now: nat, t: Termination, a: Answers): Option<Termination> {
    var done := if t.phase == Settle then a.gone else a.met;
    if !done && now < t.deadline then Some(t.(wakeAt := NextPoll(now, t.deadline)))
    else if t.phase == Graceful then AfterGraceful(now, t.app, t.mode, t.thenStart, a)
    else None
  }

  // A termination as it is begun.
  datatype Begun = Begun(windows: bool, at: nat, app: nat, mode: Mode, thenStart: bool)

  // The wait it is in after these answers, the first given when it begins and one at each wake.
  function WaitAfter(b: Begun, answers: seq<Answers>): Option<Termination>
    requires answers != []
  {
    var last := |answers| - 1;
    if last == 0 then BeginTermination(b.windows, b.at, b.app, b.mode, b.thenStart, answers[0])
    else match WaitAfter(b, answers[..last])
      case None => None
      case Some(t) => WakeTermination(t.wakeAt, t, answers[last])
  }

  // When it looks again after these answers.
  function LooksAt(b: Begun, answers: seq<Answers>): Option<nat> {
    if answers == [] then Some(b.at)
    else match WaitAfter(b, answers) case None => None case Some(t) => Some(t.wakeAt)
  }

  // It takes exactly these answers, the last of them at `at`, and then has ended.
  predicate EndsWith(b: Begun, answers: seq<Answers>, at: nat) {
    answers != [] && LooksAt(b, answers[..|answers| - 1]) == Some(at) && WaitAfter(b, answers) == None
  }

  // --- The launcher's own methods ---

  function Spawn(s: State, a: Answers): State {
    if s.shuttingDown || s.current.Some? || !a.spawns then s
    else
      var pollAt := if s.windows then None else Some(s.now + SNAPSHOT_INTERVAL_MS);
      s.(current := Some(App(s.spawned, pollAt)), spawned := s.spawned + 1)
  }

  function StopCurrent(s: State, thenStart: bool, a: Answers): State {
    var t := if s.current.Some? then BeginTermination(s.windows, s.now, s.current.value.id, Stop, thenStart, a) else None;
    var stopped := s.(current := None, running := t);
    if t == None && thenStart then Spawn(stopped, a) else stopped
  }

  function Shutdown(s: State, code: int): State {
    if s.shuttingDown then s
    else s.(shuttingDown := true, exitCode := code, restartAt := None, queue := s.queue + [StopApp], join := Draining,
            firstShutdown := Some((code, s.now)))
  }

  function RunTask(s: State, a: Answers): State
    requires s.queue != []
  {
    var rest := s.(queue := s.queue[1..]);
    match s.queue[0]
    case Restart => StopCurrent(rest, true, a)
    case StopApp => StopCurrent(rest, false, a)
    case ReapApp(app) => rest.(running := BeginTermination(s.windows, s.now, app, Reap, false, a))
    case StartApp => Spawn(rest, a)
    case EndSession => Shutdown(rest, 0)
  }

  function Exit(s: State): State {
    s.(join := Exited, exits := s.exits + [(s.exitCode, s.now)])
  }

  function StopChildren(s: State, a: Answers): State {
    if s.windows || a.noChildren || a.gone then Exit(s)
    else s.(join := ChildWait(s.now + CHILD_GRACE_MS, NextPoll(s.now, s.now + CHILD_GRACE_MS)))
  }

  // What follows an unexpected end of the current app. `code` is None when a signal ended it.
  function AfterExit(code: Option<int>): seq<Task> {
    if code == Some(RESTART_EXIT_CODE) then [StartApp]
    else if code == Some(FATAL_EXIT_CODE) then []
    else if code == Some(0) then [EndSession]
    else [StartApp]
  }

  function AppGone(s: State, code: Option<int>): State
    requires s.current.Some?
  {
    var gone := s.(current := None);
    var reap := [ReapApp(s.current.value.id)];
    if s.shuttingDown then gone.(queue := s.queue + reap)
    else if code == Some(DUPLICATE_INSTANCE_EXIT_CODE) then gone
    else gone.(queue := s.queue + reap + AfterExit(code))
  }

  function FinishTermination(s: State, t: Option<Termination>, thenStart: bool, a: Answers): State {
    var next := s.(running := t);
    if t == None && thenStart then Spawn(next, a) else next
  }

  // --- Events ---

  datatype Event =
    | Start(a: Answers)
    | RunReadyTask(a: Answers)
    | JoinContinues(a: Answers)
    | BuildChanged
    | ShutdownCalled(code: int)
    | AppEnds(exitCode: Option<int>)
    | DebounceFires
    | PollFires
    | TerminationWakes(a: Answers)
    | ChildWaitWakes(a: Answers)
    | Advance(ms: nat)

  predicate TaskReady(s: State) {
    s.running == None && s.queue != []
  }

  predicate JoinReady(s: State) {
    s.running == None && s.queue == [] && s.join.Draining?
  }

  // Nothing is left to run before the next timer or host event.
  predicate Quiescent(s: State) {
    !TaskReady(s) && !JoinReady(s) && !s.join.Exited?
  }

  function Timers(s: State): set<nat> {
    (if s.restartAt.Some? then {s.restartAt.value} else {}) +
    (if s.current.Some? && s.current.value.pollAt.Some? then {s.current.value.pollAt.value} else {}) +
    (if s.running.Some? then {s.running.value.wakeAt} else {}) +
    (if s.join.ChildWait? then {s.join.wakeAt} else {})
  }

  predicate Enabled(s: State, e: Event) {
    match e
    // The script calls start() once, before anything else.
    case Start(_) => s == Init(s.windows)
    case RunReadyTask(_) => TaskReady(s) && !s.join.Exited?
    case JoinContinues(_) => JoinReady(s)
    case BuildChanged => Quiescent(s)
    case ShutdownCalled(_) => Quiescent(s)
    case AppEnds(_) => Quiescent(s) && s.current.Some?
    case DebounceFires => Quiescent(s) && s.restartAt == Some(s.now)
    case PollFires => Quiescent(s) && s.current.Some? && s.current.value.pollAt == Some(s.now)
    case TerminationWakes(_) => Quiescent(s) && s.running.Some? && s.running.value.wakeAt == s.now
    case ChildWaitWakes(_) => Quiescent(s) && s.join.ChildWait? && s.join.wakeAt == s.now
    case Advance(ms) => Quiescent(s) && forall t :: t in Timers(s) ==> s.now + ms <= t
  }

  function Step(s: State, e: Event): State
    requires Enabled(s, e)
  {
    match e
    case Start(a) => Spawn(s, a)
    case RunReadyTask(a) => RunTask(s, a)
    case JoinContinues(a) => StopChildren(s, a)
    case BuildChanged => if s.shuttingDown then s else s.(restartAt := Some(s.now + RESTART_DEBOUNCE_MS))
    case ShutdownCalled(code) => Shutdown(s, code)
    case AppEnds(code) => AppGone(s, code)
    case DebounceFires => s.(restartAt := None, queue := s.queue + [Restart])
    case PollFires => s.(current := Some(s.current.value.(pollAt := Some(s.now + SNAPSHOT_INTERVAL_MS))))
    case TerminationWakes(a) =>
      FinishTermination(s, WakeTermination(s.now, s.running.value, a), s.running.value.thenStart, a)
    case ChildWaitWakes(a) =>
      if a.gone || s.now >= s.join.deadline then Exit(s)
      else s.(join := ChildWait(s.join.deadline, NextPoll(s.now, s.join.deadline)))
    case Advance(ms) => s.(now := s.now + ms)
  }

  // --- What every reachable state satisfies ---

  predicate Ordinary(t: Task) {
    t.Restart? || t.StopApp? || t.StartApp?
  }

  // A reap waits only at the head of the queue, an end of session only there or behind its reap.
  predicate QueueShape(queue: seq<Task>) {
    forall i :: 0 <= i < |queue| && !Ordinary(queue[i]) ==>
      i == 0 || (i == 1 && queue[i].EndSession? && queue[0].ReapApp?)
  }

  // The latest a termination in flight can end.
  function Ceiling(t: Termination): nat {
    if t.phase == Graceful then t.deadline + FORCE_SETTLE_MS else t.deadline
  }

  predicate TerminationInv(s: State, t: Termination) {
    s.now <= t.wakeAt <= t.deadline && Ceiling(t) <= s.now + GRACEFUL_STOP_MS + FORCE_SETTLE_MS
  }

  predicate RunningInv(s: State) {
    && QueueShape(s.queue)
    && (s.queue != [] && !Ordinary(s.queue[0]) ==> s.current == None)
    && (s.running.Some? ==>
          s.current == None && TerminationInv(s, s.running.value) && (s.queue != [] ==> !s.queue[0].ReapApp?) &&
          (s.running.value.thenStart && s.queue != [] ==> Ordinary(s.queue[0])))
    && (s.restartAt.Some? ==> s.now <= s.restartAt.value && !s.shuttingDown)
    && (s.current.Some? && s.current.value.pollAt.Some? ==> s.now <= s.current.value.pollAt.value)
  }

  predicate ShutdownInv(s: State) {
    if !s.shuttingDown then s.join.NotJoining? && s.firstShutdown == None && s.exits == []
    else
      && s.firstShutdown.Some? && s.exitCode == s.firstShutdown.value.0
      && var t0 := s.firstShutdown.value.1;
      && t0 <= s.now
      && (s.queue != [] ==> !s.queue[0].ReapApp?)
      && (s.current.Some? ==> s.queue == [StopApp] && s.running == None && s.now == t0)
      && (match s.join
          case NotJoining => false
          case Draining =>
            && s.exits == []
            && (s.running.Some? ==> Ceiling(s.running.value) <= t0 + GRACEFUL_STOP_MS + FORCE_SETTLE_MS)
            && s.now <= t0 + GRACEFUL_STOP_MS + FORCE_SETTLE_MS
          case ChildWait(deadline, wakeAt) =>
            s.exits == [] && s.queue == [] && s.running == None &&
            s.now <= wakeAt <= deadline <= t0 + MAX_SHUTDOWN_MS
          case Exited =>
            s.queue == [] && s.running == None && |s.exits| == 1 && s.exits[0].0 == s.exitCode &&
            t0 <= s.exits[0].1 <= t0 + MAX_SHUTDOWN_MS)
  }

  predicate Inv(s: State) {
    RunningInv(s) && ShutdownInv(s)
  }

  lemma NextTermination(now: nat, t: Termination, a: Answers)
    requires now == t.wakeAt <= t.deadline && Ceiling(t) <= now + GRACEFUL_STOP_MS + FORCE_SETTLE_MS
    ensures var n := WakeTermination(now, t, a);
      n.Some? ==> now <= n.value.wakeAt <= n.value.deadline && Ceiling(n.value) <= Ceiling(t)
  {
  }

  lemma QueueTail(s: State)
    requires RunningInv(s) && s.queue != []
    ensures QueueShape(s.queue[1..])
    ensures s.queue[1..] != [] ==> !s.queue[1..][0].ReapApp?
    ensures s.queue[1..] != [] && !Ordinary(s.queue[1..][0]) ==> s.current == None
  {
  }

  lemma StopCurrentKeeps(s: State, thenStart: bool, a: Answers)
    requires RunningInv(s) && s.running == None && s.join != Exited && !s.join.ChildWait?
    requires s.queue != [] ==> Ordinary(s.queue[0])
    requires ShutdownInv(s.(queue := [if thenStart then Restart else StopApp] + s.queue))
    ensures Inv(StopCurrent(s, thenStart, a))
  {
  }

  lemma RunTaskKeeps(s: State, a: Answers)
    requires Inv(s) && TaskReady(s) && !s.join.Exited?
    ensures Inv(RunTask(s, a))
  {
    QueueTail(s);
    var rest := s.(queue := s.queue[1..]);
    match s.queue[0]
    case Restart => assert [Restart] + rest.queue == s.queue; StopCurrentKeeps(rest, true, a);
    case StopApp => assert [StopApp] + rest.queue == s.queue; StopCurrentKeeps(rest, false, a);
    case ReapApp(app) =>
    case StartApp =>
    case EndSession =>
  }

  lemma AppGoneKeeps(s: State, code: Option<int>)
    requires Inv(s) && Quiescent(s) && s.current.Some?
    ensures Inv(AppGone(s, code))
  {
    assert s.queue == [];
  }

  lemma AdvanceKeeps(s: State, ms: nat)
    requires Inv(s) && Enabled(s, Advance(ms))
    ensures Inv(s.(now := s.now + ms))
  {
    assert s.restartAt.Some? ==> s.restartAt.value in Timers(s);
    assert s.current.Some? && s.current.value.pollAt.Some? ==> s.current.value.pollAt.value in Timers(s);
    assert s.running.Some? ==> s.running.value.wakeAt in Timers(s);
    assert s.join.ChildWait? ==> s.join.wakeAt in Timers(s);
  }

  lemma TerminationKeeps(s: State, a: Answers)
    requires Inv(s) && Enabled(s, TerminationWakes(a))
    ensures Inv(Step(s, TerminationWakes(a)))
  {
    NextTermination(s.now, s.running.value, a);
  }

  predicate LeavesTasks(e: Event) {
    e.Start? || e.JoinContinues? || e.BuildChanged? || e.DebounceFires? || e.PollFires? || e.ChildWaitWakes?
  }

  lemma OthersKeep(s: State, e: Event)
    requires Inv(s) && Enabled(s, e) && LeavesTasks(e)
    ensures Inv(Step(s, e))
  {
    hide BeginTermination, AfterGraceful, RunTask, StopCurrent, WakeTermination;
  }

  lemma ShutdownKeeps(s: State, code: int)
    requires Inv(s) && Enabled(s, ShutdownCalled(code))
    ensures Inv(Step(s, ShutdownCalled(code)))
  {
    hide BeginTermination, AfterGraceful, RunTask, StopCurrent, WakeTermination;
  }

  lemma InvKept(s: State, e: Event)
    requires Inv(s) && Enabled(s, e)
    ensures Inv(Step(s, e))
  {
    hide Inv, RunTask, AppGone, FinishTermination, Shutdown, Spawn, StopChildren;
    match e
    case RunReadyTask(a) => RunTaskKeeps(s, a);
    case TerminationWakes(a) => TerminationKeeps(s, a);
    case AppEnds(code) => AppGoneKeeps(s, code);
    case Advance(ms) => AdvanceKeeps(s, ms);
    case ShutdownCalled(code) => ShutdownKeeps(s, code);
    case _ => OthersKeep(s, e);
  }

  // --- Whole runs ---

  predicate Possible(s: State, events: seq<Event>)
    decreases |events|
  {
    events == [] || (Enabled(s, events[0]) && Possible(Step(s, events[0]), events[1..]))
  }

  function After(s: State, events: seq<Event>): State
    requires Possible(s, events)
    decreases |events|
  {
    if events == [] then s else After(Step(s, events[0]), events[1..])
  }

  lemma {:induction false} InvAlways(s: State, events: seq<Event>)
    requires Inv(s) && Possible(s, events)
    ensures Inv(After(s, events))
    decreases |events|
  {
    if events != [] {
      InvKept(s, events[0]);
      InvAlways(Step(s, events[0]), events[1..]);
    }
  }

  // The launcher exits at most once, with the first shutdown's code, after the queue has drained; and no
  // time beyond MAX_SHUTDOWN_MS after the first shutdown call passes without the exit.
  lemma ExitsOnceNeverLate(windows: bool, events: seq<Event>)
    requires Possible(Init(windows), events)
    ensures var s := After(Init(windows), events);
      && (s.firstShutdown.Some? && s.exits == [] ==> s.now <= s.firstShutdown.value.1 + MAX_SHUTDOWN_MS)
      && |s.exits| <= 1
      && (s.exits != [] ==>
            && s.firstShutdown.Some? && s.exits[0].0 == s.firstShutdown.value.0
            && s.exits[0].1 <= s.firstShutdown.value.1 + MAX_SHUTDOWN_MS
            && s.queue == [] && s.running == None && s.current == None)
  {
    InvAlways(Init(windows), events);
  }

  // --- The exit comes ---

  predicate IsStopping(s: State) {
    s.shuttingDown && !s.join.Exited?
  }

  // What the event loop does by itself: run what is ready, fire what is due, let time pass.
  predicate IsProgress(e: Event) {
    || e.RunReadyTask? || e.JoinContinues? || e.TerminationWakes? || e.ChildWaitWakes?
    || (e.Advance? && e.ms > 0)
  }

  function NextProgress(s: State, a: Answers): Event {
    if TaskReady(s) then RunReadyTask(a)
    else if JoinReady(s) then JoinContinues(a)
    else if s.running.Some? && s.running.value.wakeAt == s.now then TerminationWakes(a)
    else if s.join.ChildWait? && s.join.wakeAt == s.now then ChildWaitWakes(a)
    else Advance(1)
  }

  // A launcher that is shutting down is never stuck: what the event loop does next is possible.
  lemma ShutdownGoesOn(windows: bool, events: seq<Event>, a: Answers)
    requires Possible(Init(windows), events) && IsStopping(After(Init(windows), events))
    ensures var s := After(Init(windows), events); var e := NextProgress(s, a);
      IsProgress(e) && Enabled(s, e)
  {
    InvAlways(Init(windows), events);
    NextIsEnabled(After(Init(windows), events), a);
  }

  lemma NextIsEnabled(s: State, a: Answers)
    requires Inv(s) && IsStopping(s)
    ensures IsProgress(NextProgress(s, a)) && Enabled(s, NextProgress(s, a))
  {
  }

  function Due(at: nat, now: nat): nat {
    if at == now then 1 else 0
  }

  function TerminationRank(t: Termination, now: nat): nat {
    (if t.phase == Graceful then 4 else 2) + Due(t.wakeAt, now)
  }

  // What is still to be done before the exit at one moment.
  function Rank(s: State): nat {
    match s.join
    case Exited => 0
    case ChildWait(_, wakeAt) => 1 + Due(wakeAt, s.now)
    case _ => 3 + 6 * |s.queue| + if s.running.Some? then TerminationRank(s.running.value, s.now) else 0
  }

  // How many steps of progress the exit can still be away.
  function Patience(s: State): nat
    requires Inv(s) && IsStopping(s)
  {
    2 * (s.firstShutdown.value.1 + MAX_SHUTDOWN_MS - s.now) + Rank(s)
  }

  // While the launcher is shutting down, progress lowers its patience and nothing raises it.
  lemma ProgressLowers(s: State, e: Event)
    requires Inv(s) && IsStopping(s) && Enabled(s, e)
    ensures var next := Step(s, e);
      Inv(next) && next.shuttingDown && next.firstShutdown == s.firstShutdown &&
      (IsStopping(next) ==>
         Patience(next) <= Patience(s) && (IsProgress(e) ==> Patience(next) < Patience(s)))
  {
    hide RunTask, WakeTermination, BeginTermination;
    InvKept(s, e);
    match e
    case RunReadyTask(a) => TaskLowers(s, a);
    case TerminationWakes(a) => WakeLowers(s, a);
    case _ =>
  }

  lemma TaskLowers(s: State, a: Answers)
    requires Inv(s) && IsStopping(s) && Enabled(s, RunReadyTask(a))
    ensures var next := RunTask(s, a);
      && next.shuttingDown && next.firstShutdown == s.firstShutdown && next.now == s.now && next.join == s.join
      && Rank(next) < Rank(s)
  {
  }

  lemma WakeLowers(s: State, a: Answers)
    requires Inv(s) && IsStopping(s) && Enabled(s, TerminationWakes(a))
    ensures var next := Step(s, TerminationWakes(a));
      && next.shuttingDown && next.firstShutdown == s.firstShutdown && next.now == s.now && next.join == s.join
      && Rank(next) < Rank(s)
  {
  }

  function ProgressIn(events: seq<Event>): nat {
    if events == [] then 0 else (if IsProgress(events[0]) then 1 else 0) + ProgressIn(events[1..])
  }

  lemma {:induction false} PatienceRunsOut(s: State, events: seq<Event>)
    requires Inv(s) && s.shuttingDown && Possible(s, events)
    ensures var t := After(s, events);
      Inv(t) && t.shuttingDown && t.firstShutdown == s.firstShutdown &&
      (IsStopping(t) ==> IsStopping(s) && ProgressIn(events) + Patience(t) <= Patience(s))
    decreases |events|
  {
    hide Inv, Step, Enabled, Patience;
    if events != [] {
      if s.join.Exited? {
        NothingAfterExit(s, events);
      }
      ProgressLowers(s, events[0]);
      PatienceRunsOut(Step(s, events[0]), events[1..]);
    }
  }

  lemma PatienceIsPositive(s: State)
    requires Inv(s) && IsStopping(s)
    ensures Patience(s) > 0
  {
  }

  lemma NothingAfterExit(s: State, events: seq<Event>)
    requires Inv(s) && s.join.Exited? && Possible(s, events)
    ensures events == []
  {
  }

  predicate HasExited(s: State) {
    && s.join.Exited? && s.firstShutdown.Some?
    && |s.exits| == 1 && s.exits[0].0 == s.firstShutdown.value.0
    && s.firstShutdown.value.1 <= s.exits[0].1 <= s.firstShutdown.value.1 + MAX_SHUTDOWN_MS
    && s.queue == [] && s.running == None && s.current == None
  }

  // However a run goes on after the first shutdown call, only so much progress can be made before the
  // one exit, which has that call's code and comes within MAX_SHUTDOWN_MS of it; and as long as it has
  // not come, more progress is possible.
  lemma ExitsInTime(windows: bool, events: seq<Event>, later: seq<Event>, a: Answers)
    requires Possible(Init(windows), events) && After(Init(windows), events).shuttingDown
    requires Possible(After(Init(windows), events), later)
    ensures var s := After(Init(windows), events); var t := After(s, later);
      && t.firstShutdown == s.firstShutdown
      && (t.join.Exited? ==> HasExited(t))
      && (!t.join.Exited? ==>
            && Inv(s) && IsStopping(s) && ProgressIn(later) < Patience(s)
            && IsProgress(NextProgress(t, a)) && Enabled(t, NextProgress(t, a)))
  {
    hide Step, Enabled, Possible, After;
    InvAlways(Init(windows), events);
    var s := After(Init(windows), events);
    PatienceRunsOut(s, later);
    var t := After(s, later);
    if !t.join.Exited? {
      PatienceIsPositive(t);
      NextIsEnabled(t, a);
    }
  }

  // The event loop left to itself; the n-th answer of the environment is `answers(n)`.
  function Loop(s: State, answers: nat -> Answers, n: nat): seq<Event>
    requires Inv(s) && s.shuttingDown
    decreases if IsStopping(s) then Patience(s) else 0
  {
    if s.join.Exited? then []
    else
      var e := NextProgress(s, answers(n));
      NextIsEnabled(s, answers(n));
      ProgressLowers(s, e);
      PatienceIsPositive(s);
      [e] + Loop(Step(s, e), answers, n + 1)
  }

  lemma {:induction false} LoopExits(s: State, answers: nat -> Answers, n: nat)
    requires Inv(s) && s.shuttingDown
    ensures Possible(s, Loop(s, answers, n)) && Inv(After(s, Loop(s, answers, n)))
    ensures After(s, Loop(s, answers, n)).join.Exited?
    ensures After(s, Loop(s, answers, n)).firstShutdown == s.firstShutdown
    decreases if IsStopping(s) then Patience(s) else 0
  {
    hide Inv, Step, Enabled, Patience;
    if !s.join.Exited? {
      var e := NextProgress(s, answers(n));
      NextIsEnabled(s, answers(n));
      ProgressLowers(s, e);
      PatienceIsPositive(s);
      LoopExits(Step(s, e), answers, n + 1);
      assert Loop(s, answers, n)[1..] == Loop(Step(s, e), answers, n + 1);
    }
  }

  // Left to itself after the first shutdown call, the event loop reaches that exit, whatever the
  // environment shows at each look.
  lemma ShutdownExits(windows: bool, events: seq<Event>, answers: nat -> Answers)
    requires Possible(Init(windows), events) && After(Init(windows), events).shuttingDown
    ensures Inv(After(Init(windows), events))
    ensures var s := After(Init(windows), events);
      && Possible(s, Loop(s, answers, 0)) && HasExited(After(s, Loop(s, answers, 0)))
      && After(s, Loop(s, answers, 0)).firstShutdown == s.firstShutdown
  {
    hide Step, Enabled, Possible, After, Loop;
    InvAlways(Init(windows), events);
    LoopExits(After(Init(windows), events), answers, 0);
  }

  // A new app is spawned only when nothing of an earlier one is being terminated or still to be,
  // and never after the first shutdown.
  lemma SpawnsOnlyWhenClear(windows: bool, events: seq<Event>, e: Event)
    requires Possible(Init(windows), events) && Enabled(After(Init(windows), events), e)
    requires Step(After(Init(windows), events), e).spawned != After(Init(windows), events).spawned
    ensures var s := After(Init(windows), events); var next := Step(s, e);
      && next.spawned == s.spawned + 1 && next.current.Some?
      && s.firstShutdown == None
      && next.running == None
      && forall i :: 0 <= i < |next.queue| ==> !next.queue[i].ReapApp?
  {
    InvAlways(Init(windows), events);
    SpawnStep(After(Init(windows), events), e);
  }

  lemma SpawnStep(s: State, e: Event)
    requires Inv(s) && Enabled(s, e) && Step(s, e).spawned != s.spawned
    ensures var next := Step(s, e);
      && next.spawned == s.spawned + 1 && next.current.Some?
      && s.firstShutdown == None
      && next.running == None
      && forall i :: 0 <= i < |next.queue| ==> !next.queue[i].ReapApp?
  {
    hide WakeTermination, BeginTermination;
    InvKept(s, e);
    if e.RunReadyTask? {
      QueueTail(s);
    }
  }

  // While a termination is in flight no app is current, and no second one can begin.
  lemma OneTerminationAtATime(windows: bool, events: seq<Event>)
    requires Possible(Init(windows), events)
    ensures var s := After(Init(windows), events);
      s.running.Some? ==> s.current == None && !TaskReady(s) && forall i :: 0 <= i < |s.queue| ==> !s.queue[i].ReapApp?
  {
    InvAlways(Init(windows), events);
  }

  // The microtask order makes the reap of an app that ends during shutdown unnecessary: shutdown
  // has taken the current app before any event can end it.
  lemma NoUnexpectedEndDuringShutdown(windows: bool, events: seq<Event>, code: Option<int>)
    requires Possible(Init(windows), events) && Enabled(After(Init(windows), events), AppEnds(code))
    ensures !After(Init(windows), events).shuttingDown
  {
    InvAlways(Init(windows), events);
  }
}
