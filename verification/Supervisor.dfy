// scripts/dev-supervise.lib.ts: the dev-task supervisor's shutdown state machine.
//
// Time is exact and host calls take none. The environment says, at each call, which processes a
// child's tree holds (`Forest`) and which PIDs are alive.
module Supervisor {
  import opened Prelude

  type Pid = int

  const ORPHAN_POLL_MS: nat := 250
  const DRAIN_POLL_MS: nat := 50

  datatype ShutdownSignal = SIGINT | SIGTERM | SIGHUP

  function SignalExitCode(signal: ShutdownSignal): int {
    match signal
    case SIGINT => 130
    case SIGTERM => 143
    case SIGHUP => 129
  }

  datatype Child = Child(pid: Option<Pid>, exited: bool)

  // processTree(pid) of each child; None where the call throws.
  type Forest = Pid -> Option<seq<Pid>>

  // What happened to the supervisor before it began to stop.
  datatype Stimulus = ChildExited(child: nat, code: Option<int>) | Signalled(signal: ShutdownSignal) | Orphaned

  datatype State = State(
    graceMs: nat,
    now: nat,
    running: seq<Child>,
    targets: seq<Pid>,               // a JavaScript Set: no duplicates, in insertion order
    stopping: bool,
    finished: bool,
    exitCode: int,
    orphanAt: Option<nat>,
    graceAt: Option<nat>,
    drainAt: Option<nat>,
    h: History)

  // What has happened so far.
  datatype History = History(
    log: seq<Stimulus>,              // until the first stop
    firstStop: Option<nat>,
    collected: set<Pid>,             // every PID ever put into `targets`
    seenDead: set<Pid>,
    asked: map<Pid, ShutdownSignal>, // what the first stop sent to whom
    killed: set<Pid>,                // sent SIGKILL
    exits: seq<(int, nat)>)          // every exit call: code and time

  function Init(graceMs: nat, pids: seq<Option<Pid>>): State {
    State(graceMs, 0, seq(|pids|, i requires 0 <= i < |pids| => Child(pids[i], false)), [], false, false, 0,
          Some(ORPHAN_POLL_MS), None, None, History([], None, {}, {}, map[], {}, []))
  }

  // --- The methods as functions of the state ---

  function AddNew(targets: seq<Pid>, members: seq<Pid>): seq<Pid>
    decreases |members|
  {
    if members == [] then targets
    else AddNew(if members[0] in targets then targets else targets + [members[0]], members[1..])
  }

  lemma {:induction false} AddNewExact(targets: seq<Pid>, members: seq<Pid>)
    ensures forall p :: p in AddNew(targets, members) <==> p in targets || p in members
    ensures Distinct(targets) ==> Distinct(AddNew(targets, members))
    decreases |members|
  {
    if members != [] {
      AddNewExact(if members[0] in targets then targets else targets + [members[0]], members[1..]);
    }
  }

  function Members(c: Child, forest: Forest): seq<Pid> {
    if c.pid == None || c.exited then []
    else match forest(c.pid.value)
      case Some(tree) => tree
      case None => [c.pid.value]
  }

  function Collect(targets: seq<Pid>, running: seq<Child>, forest: Forest): seq<Pid>
    decreases |running|
  {
    if running == [] then targets
    else Collect(AddNew(targets, Members(running[0], forest)), running[1..], forest)
  }

  function Elems(s: seq<Pid>): set<Pid> {
    set p | p in s
  }

  function CollectTargets(s: State, forest: Forest): State {
    var targets := Collect(s.targets, s.running, forest);
    s.(targets := targets, h := s.h.(collected := s.h.collected + Elems(targets)))
  }

  // The check deletes dead targets until it meets a live one.
  function DropDead(targets: seq<Pid>, alive: Pid -> bool): seq<Pid> {
    if targets == [] || alive(targets[0]) then targets else DropDead(targets[1..], alive)
  }

  lemma {:induction false} DropDeadExact(targets: seq<Pid>, alive: Pid -> bool) returns (k: nat)
    ensures k <= |targets| && DropDead(targets, alive) == targets[k..]
    ensures forall i :: 0 <= i < k ==> !alive(targets[i])
    ensures k < |targets| ==> alive(targets[k])
  {
    if targets == [] || alive(targets[0]) {
      k := 0;
    } else {
      k := DropDeadExact(targets[1..], alive);
      k := k + 1;
    }
  }

  predicate AllExited(running: seq<Child>) {
    forall i :: 0 <= i < |running| ==> running[i].exited
  }

  function Check(s: State, alive: Pid -> bool): State {
    if !AllExited(s.running) then s
    else
      var left := DropDead(s.targets, alive);
      s.(targets := left, h := s.h.(seenDead := s.h.seenDead + (Elems(s.targets) - Elems(left))))
  }

  predicate Drained(s: State, alive: Pid -> bool) {
    AllExited(s.running) && Check(s, alive).targets == []
  }

  function Finish(s: State): State {
    if s.finished then s
    else s.(finished := true, orphanAt := None, graceAt := None, drainAt := None,
            h := s.h.(exits := s.h.exits + [(s.exitCode, s.now)]))
  }

  function CheckDrained(s: State, alive: Pid -> bool): State {
    var checked := Check(s, alive);
    if Drained(s, alive) then Finish(checked) else checked
  }

  // stop up to its first look at what is alive.
  function BeginStop(s: State, signal: ShutdownSignal, code: int, forest: Forest): State {
    var began := s.(stopping := true, exitCode := code, orphanAt := None, h := s.h.(firstStop := Some(s.now)));
    var collected := CollectTargets(began, forest);
    collected.(h := collected.h.(asked := Each(collected.targets, signal)), graceAt := Some(s.now + s.graceMs),
               drainAt := Some(s.now + DRAIN_POLL_MS))
  }

  function Each(pids: seq<Pid>, signal: ShutdownSignal): (asked: map<Pid, ShutdownSignal>)
    ensures asked.Keys == Elems(pids) && forall p :: p in asked ==> asked[p] == signal
  {
    map p | p in pids :: signal
  }

  function Stop(s: State, signal: ShutdownSignal, code: int, forest: Forest, alive: Pid -> bool): State {
    if s.stopping then s else CheckDrained(BeginStop(s, signal, code, forest), alive)
  }

  function FailureCode(code: Option<int>): int {
    if code.Some? && code.value > 0 then code.value else 1
  }

  // `code` is None when a signal ended the child.
  function ChildExit(s: State, i: nat, code: Option<int>, forest: Forest, alive: Pid -> bool): State
    requires i < |s.running|
  {
    var gone := s.(running := s.running[i := s.running[i].(exited := true)]);
    if s.stopping then gone
    else
      var logged := gone.(h := s.h.(log := s.h.log + [ChildExited(i, code)]));
      if code != Some(0) then Stop(logged, SIGTERM, FailureCode(code), forest, alive)
      else if AllExited(gone.running) then Stop(logged, SIGTERM, 0, forest, alive)
      else logged
  }

  function Log(s: State, what: Stimulus): State {
    if s.stopping then s else s.(h := s.h.(log := s.h.log + [what]))
  }

  datatype Event =
    | SignalArrives(signal: ShutdownSignal, forest: Forest, alive: Pid -> bool)
    | OrphanPoll(reparented: bool, forest: Forest, alive: Pid -> bool)
    | ChildExits(child: nat, code: Option<int>, forest: Forest, alive: Pid -> bool)
    | GraceEnds(forest: Forest)
    | DrainPoll(alive: Pid -> bool)
    | Advance(ms: nat)

  function Timers(s: State): set<nat> {
    (if s.orphanAt.Some? then {s.orphanAt.value} else {}) +
    (if s.graceAt.Some? then {s.graceAt.value} else {}) +
    (if s.drainAt.Some? then {s.drainAt.value} else {})
  }

  predicate Enabled(s: State, e: Event) {
    !s.finished &&
    match e
    case SignalArrives(_, _, _) => true
    case OrphanPoll(_, _, _) => s.orphanAt == Some(s.now)
    case ChildExits(i, _, _, _) => i < |s.running|
    case GraceEnds(_) => s.graceAt == Some(s.now)
    case DrainPoll(_) => s.drainAt == Some(s.now)
    case Advance(ms) => forall t :: t in Timers(s) ==> s.now + ms <= t
  }

  function Step(s: State, e: Event): State
    requires Enabled(s, e)
  {
    match e
    case SignalArrives(signal, forest, alive) => Stop(Log(s, Signalled(signal)), signal, SignalExitCode(signal), forest, alive)
    case OrphanPoll(reparented, forest, alive) =>
      var polled := s.(orphanAt := Some(s.now + ORPHAN_POLL_MS));
      if reparented then Stop(Log(polled, Orphaned), SIGTERM, SignalExitCode(SIGTERM), forest, alive) else polled
    case ChildExits(i, code, forest, alive) => ChildExit(s, i, code, forest, alive)
    case GraceEnds(forest) => KillAll(s, forest)
    case DrainPoll(alive) => CheckDrained(s.(drainAt := Some(s.now + DRAIN_POLL_MS)), alive)
    case Advance(ms) => s.(now := s.now + ms)
  }

  function KillAll(s: State, forest: Forest): State {
    var collected := CollectTargets(s.(graceAt := None), forest);
    Finish(collected.(h := collected.h.(killed := s.h.killed + Elems(collected.targets))))
  }

  // --- What every reachable state satisfies ---

  // Every child has exited with code 0, and nothing else has happened.
  ghost predicate AllClean(log: seq<Stimulus>, children: nat) {
    && (forall k :: 0 <= k < |log| ==> log[k].ChildExited? && log[k].code == Some(0))
    && (forall i :: 0 <= i < children ==> ExitedIn(log, i))
  }

  ghost predicate ExitedIn(log: seq<Stimulus>, i: nat) {
    exists k :: 0 <= k < |log| && log[k].ChildExited? && log[k].child == i
  }

  ghost predicate LogInv(s: State) {
    && (!s.stopping ==>
          && (forall k :: 0 <= k < |s.h.log| ==> s.h.log[k].ChildExited? && s.h.log[k].code == Some(0))
          && (forall i :: 0 <= i < |s.running| ==> (s.running[i].exited <==> ExitedIn(s.h.log, i)))
          && (s.h.log != [] ==> !AllExited(s.running)))
    && (s.stopping ==> (s.exitCode == 0 <==> AllClean(s.h.log, |s.running|) && s.h.log != []))
  }

  ghost predicate TargetInv(s: State) {
    && Distinct(s.targets)
    && s.h.collected <= Elems(s.targets) + s.h.seenDead + s.h.killed
    && (!s.stopping ==> s.h.collected == {} && s.targets == [])
    && (s.stopping ==> s.h.asked.Keys <= s.h.collected)
  }

  predicate TimeInv(s: State) {
    && (s.stopping <==> s.h.firstStop.Some?)
    && (!s.stopping ==> !s.finished && s.h.exits == [] && s.graceAt == None && s.drainAt == None)
    && (s.stopping ==> s.orphanAt == None)
    && (s.stopping && !s.finished ==>
          && s.h.exits == [] && s.graceAt == Some(s.h.firstStop.value + s.graceMs) && s.now <= s.graceAt.value
          && s.drainAt.Some? && s.now <= s.drainAt.value)
    && (s.finished ==>
          && s.graceAt == None && s.drainAt == None
          && s.stopping && |s.h.exits| == 1 && s.h.exits[0].0 == s.exitCode
          && s.h.firstStop.value <= s.h.exits[0].1 <= s.h.firstStop.value + s.graceMs
          && s.h.collected <= s.h.seenDead + s.h.killed)
    && (s.h.firstStop.Some? ==> s.h.firstStop.value <= s.now)
  }

  ghost predicate Inv(s: State) {
    LogInv(s) && TargetInv(s) && TimeInv(s)
  }

  lemma CheckKeeps(s: State, alive: Pid -> bool)
    requires Inv(s) && s.stopping
    ensures Inv(Check(s, alive))
  {
    if AllExited(s.running) {
      var k := DropDeadExact(s.targets, alive);
      var left := DropDead(s.targets, alive);
      forall p | p in s.h.collected ensures p in Elems(left) || p in Check(s, alive).h.seenDead || p in s.h.killed {
        assert p in Elems(s.targets) + s.h.seenDead + s.h.killed;
      }
    }
  }

  // Whatever the check takes out of the targets was found dead.
  lemma SeenDeadIsDead(s: State, alive: Pid -> bool, pid: Pid)
    requires pid in Check(s, alive).h.seenDead && pid !in s.h.seenDead
    ensures pid in s.targets && !alive(pid)
  {
    var k := DropDeadExact(s.targets, alive);
    forall i | k <= i < |s.targets| ensures s.targets[i] in DropDead(s.targets, alive) {
      assert s.targets[i] == s.targets[k..][i - k];
    }
  }

  lemma CheckDrainedKeeps(s: State, alive: Pid -> bool)
    requires Inv(s) && s.stopping
    ensures Inv(CheckDrained(s, alive))
  {
    CheckKeeps(s, alive);
    var checked := Check(s, alive);
    if Drained(s, alive) {
      assert Elems(checked.targets) == {};
    }
  }

  lemma {:induction false} CollectGrows(targets: seq<Pid>, running: seq<Child>, forest: Forest)
    ensures forall p :: p in targets ==> p in Collect(targets, running, forest)
    ensures Distinct(targets) ==> Distinct(Collect(targets, running, forest))
    decreases |running|
  {
    if running != [] {
      AddNewExact(targets, Members(running[0], forest));
      CollectGrows(AddNew(targets, Members(running[0], forest)), running[1..], forest);
    }
  }

  lemma BeginStopKeeps(s: State, signal: ShutdownSignal, code: int, forest: Forest)
    requires TargetInv(s) && TimeInv(s) && !s.stopping
    requires code == 0 <==> AllClean(s.h.log, |s.running|) && s.h.log != []
    ensures Inv(BeginStop(s, signal, code, forest))
  {
    CollectGrows(s.targets, s.running, forest);
  }

  lemma StopKeeps(s: State, signal: ShutdownSignal, code: int, forest: Forest, alive: Pid -> bool)
    requires TargetInv(s) && TimeInv(s) && (s.stopping ==> LogInv(s))
    requires !s.stopping ==> (code == 0 <==> AllClean(s.h.log, |s.running|) && s.h.log != [])
    ensures Inv(Stop(s, signal, code, forest, alive))
  {
    if !s.stopping {
      BeginStopKeeps(s, signal, code, forest);
      CheckDrainedKeeps(BeginStop(s, signal, code, forest), alive);
    }
  }

  lemma ChildExitKeeps(s: State, i: nat, code: Option<int>, forest: Forest, alive: Pid -> bool)
    requires Inv(s) && i < |s.running| && !s.finished
    ensures Inv(ChildExit(s, i, code, forest, alive))
  {
    var gone := s.(running := s.running[i := s.running[i].(exited := true)]);
    if !s.stopping {
      var logged := gone.(h := s.h.(log := s.h.log + [ChildExited(i, code)]));
      assert logged.h.log[|s.h.log|] == ChildExited(i, code);
      forall j | 0 <= j < |gone.running| && code == Some(0)
        ensures gone.running[j].exited <==> ExitedIn(logged.h.log, j)
      {
        if ExitedIn(s.h.log, j) {
          var k :| 0 <= k < |s.h.log| && s.h.log[k].ChildExited? && s.h.log[k].child == j;
          assert logged.h.log[k] == s.h.log[k];
        }
      }
      if code != Some(0) {
        StopKeeps(logged, SIGTERM, FailureCode(code), forest, alive);
      } else if AllExited(gone.running) {
        StopKeeps(logged, SIGTERM, 0, forest, alive);
      }
    }
  }

  lemma KillAllKeeps(s: State, forest: Forest)
    requires Inv(s) && s.graceAt == Some(s.now) && !s.finished
    ensures Inv(KillAll(s, forest))
  {
    var targets := Collect(s.targets, s.running, forest);
    CollectGrows(s.targets, s.running, forest);
    forall p | p in s.h.collected ensures p in s.h.seenDead || p in Elems(targets) || p in s.h.killed {
      assert p in Elems(s.targets) + s.h.seenDead + s.h.killed;
    }
  }

  lemma LoggedStopKeeps(s: State, what: Stimulus, signal: ShutdownSignal, code: int, forest: Forest, alive: Pid -> bool)
    requires Inv(s) && code != 0 && !what.ChildExited?
    ensures Inv(Stop(Log(s, what), signal, code, forest, alive))
  {
    var logged := Log(s, what);
    assert !s.stopping ==> logged.h.log[|s.h.log|] == what;
    StopKeeps(logged, signal, code, forest, alive);
  }

  lemma OrphanPollKeeps(s: State, reparented: bool, forest: Forest, alive: Pid -> bool)
    requires Inv(s) && Enabled(s, OrphanPoll(reparented, forest, alive))
    ensures Inv(Step(s, OrphanPoll(reparented, forest, alive)))
  {
    hide Stop;
    var polled := s.(orphanAt := Some(s.now + ORPHAN_POLL_MS));
    LoggedStopKeeps(polled, Orphaned, SIGTERM, SignalExitCode(SIGTERM), forest, alive);
  }

  lemma DrainPollKeeps(s: State, alive: Pid -> bool)
    requires Inv(s) && Enabled(s, DrainPoll(alive))
    ensures Inv(Step(s, DrainPoll(alive)))
  {
    hide CheckDrained;
    CheckDrainedKeeps(s.(drainAt := Some(s.now + DRAIN_POLL_MS)), alive);
  }

  lemma AdvanceKeeps(s: State, ms: nat)
    requires Inv(s) && Enabled(s, Advance(ms))
    ensures Inv(Step(s, Advance(ms)))
  {
    assert s.graceAt.Some? ==> s.graceAt.value in Timers(s);
    assert s.drainAt.Some? ==> s.drainAt.value in Timers(s);
  }

  lemma InvKept(s: State, e: Event)
    requires Inv(s) && Enabled(s, e)
    ensures Inv(Step(s, e))
  {
    hide Stop, KillAll, ChildExit, CheckDrained, LogInv, TargetInv;
    match e
    case SignalArrives(signal, forest, alive) =>
      LoggedStopKeeps(s, Signalled(signal), signal, SignalExitCode(signal), forest, alive);
    case OrphanPoll(reparented, forest, alive) => OrphanPollKeeps(s, reparented, forest, alive);
    case ChildExits(i, code, forest, alive) => ChildExitKeeps(s, i, code, forest, alive);
    case GraceEnds(forest) => KillAllKeeps(s, forest);
    case DrainPoll(alive) => DrainPollKeeps(s, alive);
    case Advance(ms) => AdvanceKeeps(s, ms);
  }

  // --- Who is signalled ---

  // The tree of a child that runs, or the child alone where its tree cannot be listed.
  ghost predicate InSomeTree(running: seq<Child>, forest: Forest, pid: Pid) {
    exists i :: 0 <= i < |running| && InTreeOf(running[i], forest, pid)
  }

  predicate InTreeOf(c: Child, forest: Forest, pid: Pid) {
    && !c.exited && c.pid.Some?
    && match forest(c.pid.value) case Some(tree) => pid in tree case None => pid == c.pid.value
  }

  lemma {:induction false} CollectExact(targets: seq<Pid>, running: seq<Child>, forest: Forest, pid: Pid)
    ensures pid in Collect(targets, running, forest) <==> pid in targets || InSomeTree(running, forest, pid)
    decreases |running|
  {
    if running != [] {
      AddNewExact(targets, Members(running[0], forest));
      CollectExact(AddNew(targets, Members(running[0], forest)), running[1..], forest, pid);
      if InSomeTree(running[1..], forest, pid) {
        var i :| 0 <= i < |running| - 1 && InTreeOf(running[1..][i], forest, pid);
        assert InTreeOf(running[i + 1], forest, pid);
      }
      if InSomeTree(running, forest, pid) && pid !in Members(running[0], forest) {
        var i :| 0 <= i < |running| && InTreeOf(running[i], forest, pid);
        assert InTreeOf(running[1..][i - 1], forest, pid);
      }
    }
  }

  // The first stop signals exactly the trees of the children that have not exited.
  lemma StopAsksEveryTree(s: State, signal: ShutdownSignal, code: int, forest: Forest, alive: Pid -> bool, pid: Pid)
    requires TargetInv(s) && !s.stopping
    ensures var asked := Stop(s, signal, code, forest, alive).h.asked;
      (pid in asked <==> InSomeTree(s.running, forest, pid)) && (pid in asked ==> asked[pid] == signal)
  {
    CollectExact([], s.running, forest, pid);
  }

  // The end of the grace period kills what is left, and every tree as it is by then.
  lemma GraceKillsEveryTree(s: State, forest: Forest, pid: Pid)
    ensures pid in KillAll(s, forest).h.killed <==>
            pid in s.h.killed || pid in s.targets || InSomeTree(s.running, forest, pid)
  {
    CollectExact(s.targets, s.running, forest, pid);
  }

  // --- Whole runs ---

  predicate Possible(s: State, events: seq<Event>)
    decreases |events|
  {
    events == [] || (Enabled(s, events[0]) && Possible(Step(s, events[0]), events[1..]))
  }

  function After(s: State, events: seq<Event>): State
    requires Possible(s, events)
    decreases |events|
  {
    if events == [] then s else After(Step(s, events[0]), events[1..])
  }

  lemma {:induction false} InvAlways(s: State, events: seq<Event>)
    requires Inv(s) && Possible(s, events)
    ensures Inv(After(s, events))
    decreases |events|
  {
    if events != [] {
      InvKept(s, events[0]);
      InvAlways(Step(s, events[0]), events[1..]);
    }
  }

  lemma InitInv(graceMs: nat, pids: seq<Option<Pid>>)
    ensures Inv(Init(graceMs, pids))
  {
  }

  // In every run the supervisor exits at most once, and no time passes beyond the grace period after
  // the first stop without its exit.
  lemma ExitsOnceNeverLate(graceMs: nat, pids: seq<Option<Pid>>, events: seq<Event>)
    requires Possible(Init(graceMs, pids), events)
    ensures var s := After(Init(graceMs, pids), events);
      && |s.h.exits| <= 1 && (s.h.exits != [] ==> Timers(s) == {})
      && (s.h.firstStop.Some? && s.h.exits == [] ==> s.now <= s.h.firstStop.value + s.graceMs)
      && (s.h.exits != [] ==>
            s.h.firstStop.Some? && s.h.firstStop.value <= s.h.exits[0].1 <= s.h.firstStop.value + s.graceMs)
  {
    InvAlways(Init(graceMs, pids), events);
  }

  // --- The exit comes ---

  predicate IsEnding(s: State) {
    s.stopping && !s.finished
  }

  // What the event loop does by itself: fire what is due, let time pass.
  predicate IsProgress(e: Event) {
    e.GraceEnds? || e.DrainPoll? || (e.Advance? && e.ms > 0)
  }

  // A host: what each child's tree holds and who is alive.
  datatype Answers = Answers(forest: Forest, alive: Pid -> bool)

  function NextProgress(s: State, a: Answers): Event {
    if s.graceAt == Some(s.now) then GraceEnds(a.forest)
    else if s.drainAt == Some(s.now) then DrainPoll(a.alive)
    else Advance(1)
  }

  lemma NextIsEnabled(s: State, a: Answers)
    requires Inv(s) && IsEnding(s)
    ensures IsProgress(NextProgress(s, a)) && Enabled(s, NextProgress(s, a))
  {
  }

  // How many steps of progress the exit can still be away.
  function Patience(s: State): nat
    requires TimeInv(s) && IsEnding(s)
  {
    2 * (s.graceAt.value - s.now) + (if s.drainAt == Some(s.now) then 1 else 0) + 1
  }

  // Once the supervisor stops, progress lowers its patience and nothing raises it; the end of the grace
  // period is the exit.
  lemma ProgressLowers(s: State, e: Event)
    requires Inv(s) && IsEnding(s) && Enabled(s, e)
    ensures var next := Step(s, e);
      Inv(next) && next.stopping && next.graceMs == s.graceMs && next.h.firstStop == s.h.firstStop &&
      (e.GraceEnds? ==> next.finished) &&
      (IsEnding(next) ==> Patience(next) <= Patience(s) && (IsProgress(e) ==> Patience(next) < Patience(s)))
  {
    InvKept(s, e);
  }

  function ProgressIn(events: seq<Event>): nat {
    if events == [] then 0 else (if IsProgress(events[0]) then 1 else 0) + ProgressIn(events[1..])
  }

  lemma {:induction false} PatienceRunsOut(s: State, events: seq<Event>)
    requires Inv(s) && s.stopping && Possible(s, events)
    ensures var t := After(s, events);
      Inv(t) && t.stopping && t.graceMs == s.graceMs && t.h.firstStop == s.h.firstStop &&
      (IsEnding(t) ==> IsEnding(s) && ProgressIn(events) + Patience(t) <= Patience(s))
    decreases |events|
  {
    hide LogInv, TargetInv, TimeInv, Step, Patience;
    if events != [] {
      ProgressLowers(s, events[0]);
      PatienceRunsOut(Step(s, events[0]), events[1..]);
    }
  }

  predicate HasExited(s: State) {
    && s.finished && s.h.firstStop.Some? && |s.h.exits| == 1 && s.h.exits[0].0 == s.exitCode
    && s.h.firstStop.value <= s.h.exits[0].1 <= s.h.firstStop.value + s.graceMs
  }

  // However a run goes on after the first stop, only so much progress can be made before the one exit,
  // which comes within the grace period; and as long as it has not come, more progress is possible.
  lemma ExitsWithinGrace(graceMs: nat, pids: seq<Option<Pid>>, events: seq<Event>, later: seq<Event>, a: Answers)
    requires Possible(Init(graceMs, pids), events) && After(Init(graceMs, pids), events).stopping
    requires Possible(After(Init(graceMs, pids), events), later)
    ensures var s := After(Init(graceMs, pids), events); var t := After(s, later);
      && t.h.firstStop == s.h.firstStop && t.graceMs == s.graceMs
      && (t.finished ==> HasExited(t))
      && (!t.finished ==>
            && Inv(s) && IsEnding(s) && ProgressIn(later) < Patience(s)
            && IsProgress(NextProgress(t, a)) && Enabled(t, NextProgress(t, a)))
  {
    hide Step, Enabled, Possible, After, LogInv, TargetInv;
    InitInv(graceMs, pids);
    InvAlways(Init(graceMs, pids), events);
    PatienceRunsOut(After(Init(graceMs, pids), events), later);
    var t := After(After(Init(graceMs, pids), events), later);
    if !t.finished {
      NextIsEnabled(t, a);
    }
  }

  // The event loop left to itself; the n-th answer of the host is `answers(n)`.
  ghost function Loop(s: State, answers: nat -> Answers, n: nat): seq<Event>
    requires Inv(s) && s.stopping
    decreases if IsEnding(s) then Patience(s) else 0
  {
    if s.finished then []
    else
      var e := NextProgress(s, answers(n));
      NextIsEnabled(s, answers(n));
      ProgressLowers(s, e);
      [e] + Loop(Step(s, e), answers, n + 1)
  }

  lemma {:induction false} LoopExits(s: State, answers: nat -> Answers, n: nat)
    requires Inv(s) && s.stopping
    ensures var t := Loop(s, answers, n);
      && Possible(s, t) && Inv(After(s, t)) && After(s, t).finished
      && After(s, t).h.firstStop == s.h.firstStop && After(s, t).graceMs == s.graceMs
    decreases if IsEnding(s) then Patience(s) else 0
  {
    hide LogInv, TargetInv, Step, Enabled;
    if !s.finished {
      var e := NextProgress(s, answers(n));
      NextIsEnabled(s, answers(n));
      ProgressLowers(s, e);
      LoopExits(Step(s, e), answers, n + 1);
      assert Loop(s, answers, n)[1..] == Loop(Step(s, e), answers, n + 1);
    }
  }

  // Left to itself after the first stop, the event loop reaches that exit, whatever the host answers.
  lemma StopExits(graceMs: nat, pids: seq<Option<Pid>>, events: seq<Event>, answers: nat -> Answers)
    requires Possible(Init(graceMs, pids), events) && After(Init(graceMs, pids), events).stopping
    ensures Inv(After(Init(graceMs, pids), events))
    ensures var s := After(Init(graceMs, pids), events); var t := Loop(s, answers, 0);
      Possible(s, t) && HasExited(After(s, t)) && After(s, t).h.firstStop == s.h.firstStop
  {
    hide Step, Enabled, Possible, After, Loop, LogInv, TargetInv;
    InitInv(graceMs, pids);
    InvAlways(Init(graceMs, pids), events);
    LoopExits(After(Init(graceMs, pids), events), answers, 0);
  }

  // When it exits, every PID that it asked to stop, or collected since, has been seen dead or sent SIGKILL.
  lemma NothingLeftBehind(graceMs: nat, pids: seq<Option<Pid>>, events: seq<Event>, pid: Pid)
    requires Possible(Init(graceMs, pids), events)
    requires After(Init(graceMs, pids), events).h.exits != []
    requires pid in After(Init(graceMs, pids), events).h.collected || pid in After(Init(graceMs, pids), events).h.asked
    ensures var s := After(Init(graceMs, pids), events); pid in s.h.seenDead || pid in s.h.killed
  {
    InvAlways(Init(graceMs, pids), events);
  }

  // It exits with 0 if and only if, before its first stop, every child exited with code 0 and no
  // signal, failure or loss of the parent came first.
  lemma ExitCodeExact(graceMs: nat, pids: seq<Option<Pid>>, events: seq<Event>)
    requires Possible(Init(graceMs, pids), events)
    requires After(Init(graceMs, pids), events).h.exits != []
    ensures var s := After(Init(graceMs, pids), events);
      s.h.exits[0].0 == 0 <==> AllClean(s.h.log, |s.running|) && s.h.log != []
  {
    InvAlways(Init(graceMs, pids), events);
  }

  // A stopping supervisor exits at a look exactly if every command has exited and no target is alive.
  lemma ExitsOnceDrained(graceMs: nat, pids: seq<Option<Pid>>, events: seq<Event>, alive: Pid -> bool)
    requires Possible(Init(graceMs, pids), events) && Enabled(After(Init(graceMs, pids), events), DrainPoll(alive))
    ensures var s := After(Init(graceMs, pids), events); var t := Step(s, DrainPoll(alive));
      && (t.finished <==> (forall i :: 0 <= i < |s.running| ==> s.running[i].exited)
                          && forall p :: p in s.targets ==> !alive(p))
      && (t.finished ==> t.h.exits == [(s.exitCode, s.now)])
      && (!t.finished ==> t.drainAt == Some(s.now + 50))
  {
    InvAlways(Init(graceMs, pids), events);
    DrainDecides(After(Init(graceMs, pids), events), alive);
  }

  lemma DrainDecides(s: State, alive: Pid -> bool)
    requires TimeInv(s) && Enabled(s, DrainPoll(alive))
    ensures var t := Step(s, DrainPoll(alive));
      && (t.finished <==> AllExited(s.running) && forall p :: p in s.targets ==> !alive(p))
      && (t.finished ==> t.h.exits == [(s.exitCode, s.now)])
      && (!t.finished ==> t.drainAt == Some(s.now + 50))
  {
    hide DropDead;
    var left := DropDead(s.targets, alive);
    var k := DropDeadExact(s.targets, alive);
    if k < |s.targets| {
      assert left[0] == s.targets[k] && s.targets[k] in s.targets;
    } else {
      assert left == [];
    }
  }

  // --- The first stop ---

  // The i-th command's child has exited within the first k events.
  ghost predicate ExitedBy(events: seq<Event>, k: nat, i: nat)
    requires k <= |events|
  {
    exists j :: 0 <= j < k && IsExitOf(events[j], i)
  }

  ghost predicate AllExitedBy(n: nat, events: seq<Event>, k: nat)
    requires k <= |events|
  {
    forall i: nat :: i < n ==> ExitedBy(events, k, i)
  }

  predicate IsExitOf(e: Event, i: nat) {
    e.ChildExits? && e.child == i
  }

  // The k-th event stops a supervisor of n commands that runs: a signal, the loss of the parent, a failure, or
  // the last clean exit.
  ghost predicate Stops(n: nat, events: seq<Event>, k: nat)
    requires k < |events|
  {
    match events[k]
    case SignalArrives(_, _, _) => true
    case OrphanPoll(reparented, _, _) => reparented
    case ChildExits(_, code, _, _) => code != Some(0) || AllExitedBy(n, events, k + 1)
    case _ => false
  }

  ghost predicate IsFirstStop(n: nat, events: seq<Event>, k: nat) {
    k < |events| && Stops(n, events, k) && forall j :: 0 <= j < k ==> !Stops(n, events, j)
  }

  // What it exits with, and what it sends.
  function CodeFor(e: Event): int {
    match e
    case SignalArrives(SIGINT, _, _) => 130
    case SignalArrives(SIGTERM, _, _) => 143
    case SignalArrives(SIGHUP, _, _) => 129
    case OrphanPoll(_, _, _) => 143
    case ChildExits(_, code, _, _) => if code.Some? && code.value >= 0 then code.value else 1
    case _ => 0
  }

  function SignalFor(e: Event): ShutdownSignal {
    if e.SignalArrives? then e.signal else SIGTERM
  }

  function ForestOf(e: Event): Forest {
    match e
    case SignalArrives(_, forest, _) => forest
    case OrphanPoll(_, forest, _) => forest
    case ChildExits(_, _, forest, _) => forest
    case GraceEnds(forest) => forest
    case _ => _ => None
  }

  // Who is in the tree of a command that has not exited by the k-th event, that one included.
  ghost predicate ToBeAsked(pids: seq<Option<Pid>>, events: seq<Event>, k: nat, p: Pid)
    requires k < |events|
  {
    exists i: nat :: i < |pids| && InTreeOf(Child(pids[i], ExitedBy(events, k + 1, i)), ForestOf(events[k]), p)
  }

  ghost predicate StoppedBy(s: State, pids: seq<Option<Pid>>, events: seq<Event>, k: nat)
    requires k < |events|
  {
    && s.stopping && s.exitCode == CodeFor(events[k])
    && (forall p :: p in s.h.asked <==> ToBeAsked(pids, events, k, p))
    && (forall p :: p in s.h.asked ==> s.h.asked[p] == SignalFor(events[k]))
  }

  ghost predicate Follows(s: State, pids: seq<Option<Pid>>, events: seq<Event>) {
    && |s.running| == |pids|
    && (forall i :: 0 <= i < |pids| ==> s.running[i] == Child(pids[i], ExitedBy(events, |events|, i)))
    && ((forall k :: 0 <= k < |events| ==> !Stops(|pids|, events, k)) ==> !s.stopping)
    && forall k: nat :: IsFirstStop(|pids|, events, k) ==> StoppedBy(s, pids, events, k)
  }

  lemma ExitedNext(events: seq<Event>, e: Event, i: nat)
    ensures ExitedBy(events + [e], |events| + 1, i) <==> ExitedBy(events, |events|, i) || IsExitOf(e, i)
  {
    var next := events + [e];
    assert IsExitOf(e, i) ==> IsExitOf(next[|events|], i);
    ExitedSame(events, e, |events|, i);
  }

  lemma ExitedSame(events: seq<Event>, e: Event, k: nat, i: nat)
    requires k <= |events|
    ensures ExitedBy(events + [e], k, i) <==> ExitedBy(events, k, i)
  {
    var next := events + [e];
    if ExitedBy(events, k, i) {
      var j :| 0 <= j < k && IsExitOf(events[j], i);
      assert IsExitOf(next[j], i);
    }
  }

  lemma StopsSame(n: nat, events: seq<Event>, e: Event, k: nat)
    requires k < |events|
    ensures Stops(n, events + [e], k) <==> Stops(n, events, k)
  {
    var next, m := events + [e], k + 1;
    forall i: nat ensures ExitedBy(next, m, i) <==> ExitedBy(events, m, i) {
      ExitedSame(events, e, m, i);
    }
    assert (events + [e])[k] == events[k];
  }

  lemma AskedSame(pids: seq<Option<Pid>>, events: seq<Event>, e: Event, k: nat, p: Pid)
    requires k < |events|
    ensures ToBeAsked(pids, events + [e], k, p) <==> ToBeAsked(pids, events, k, p)
  {
    hide InTreeOf;
    var next, m := events + [e], k + 1;
    forall i: nat ensures ExitedBy(next, m, i) <==> ExitedBy(events, m, i) {
      ExitedSame(events, e, m, i);
    }
    assert (events + [e])[k] == events[k];
  }

  // What a stop has decided stays decided.
  lemma StoppedStays(s: State, e: Event)
    requires s.stopping && Enabled(s, e)
    ensures var t := Step(s, e);
      && t.stopping && t.exitCode == s.exitCode && t.h.asked == s.h.asked
      && |t.running| == |s.running|
      && forall i :: 0 <= i < |s.running| ==>
           t.running[i] == s.running[i].(exited := s.running[i].exited || IsExitOf(e, i))
  {
    hide Collect, DropDead, AddNew, Elems;
  }

  // The first stop is what the event calls for.
  lemma StopStep(s: State, pids: seq<Option<Pid>>, events: seq<Event>, e: Event)
    requires Inv(s) && !s.stopping && Enabled(s, e) && Follows(s, pids, events)
    ensures var t := Step(s, e);
      && |t.running| == |s.running|
      && (forall i :: 0 <= i < |s.running| ==>
            t.running[i] == s.running[i].(exited := s.running[i].exited || IsExitOf(e, i)))
      && (t.stopping <==> Stops(|pids|, events + [e], |events|))
      && (t.stopping ==>
            && t.exitCode == CodeFor(e)
            && (forall p :: p in t.h.asked <==> InSomeTree(t.running, ForestOf(e), p))
            && (forall p :: p in t.h.asked ==> t.h.asked[p] == SignalFor(e)))
  {
    hide Stop;
    var next := events + [e];
    assert next[|events|] == e;
    match e
    case SignalArrives(signal, forest, alive) =>
      StopIs(Log(s, Signalled(signal)), signal, SignalExitCode(signal), forest, alive);
    case OrphanPoll(reparented, forest, alive) =>
      var polled := Log(s.(orphanAt := Some(s.now + ORPHAN_POLL_MS)), Orphaned);
      StopIs(polled, SIGTERM, SignalExitCode(SIGTERM), forest, alive);
    case ChildExits(i, code, forest, alive) =>
      var gone := s.(running := s.running[i := s.running[i].(exited := true)],
                     h := s.h.(log := s.h.log + [ChildExited(i, code)]));
      StopIs(gone, SIGTERM, FailureCode(code), forest, alive);
      StopIs(gone, SIGTERM, 0, forest, alive);
      forall j: nat | j < |pids|
        ensures ExitedBy(next, |events| + 1, j) <==> gone.running[j].exited
      {
        ExitedNext(events, e, j);
      }
    case _ =>
  }

  lemma StopIs(s: State, signal: ShutdownSignal, code: int, forest: Forest, alive: Pid -> bool)
    requires TargetInv(s) && !s.stopping
    ensures var t := Stop(s, signal, code, forest, alive);
      && t.running == s.running && t.stopping && t.exitCode == code
      && (forall p :: p in t.h.asked <==> InSomeTree(s.running, forest, p))
      && (forall p :: p in t.h.asked ==> t.h.asked[p] == signal)
  {
    hide InSomeTree;
    var t := Stop(s, signal, code, forest, alive);
    forall p ensures (p in t.h.asked <==> InSomeTree(s.running, forest, p)) && (p in t.h.asked ==> t.h.asked[p] == signal) {
      StopAsksEveryTree(s, signal, code, forest, alive, p);
    }
    StopRuns(s, signal, code, forest, alive);
  }

  lemma StopRuns(s: State, signal: ShutdownSignal, code: int, forest: Forest, alive: Pid -> bool)
    requires !s.stopping
    ensures var t := Stop(s, signal, code, forest, alive); t.running == s.running && t.stopping && t.exitCode == code
  {
    hide Collect, DropDead, Elems;
  }

  lemma FollowsNext(s: State, pids: seq<Option<Pid>>, events: seq<Event>, e: Event)
    requires Inv(s) && Follows(s, pids, events) && Enabled(s, e)
    ensures Follows(Step(s, e), pids, events + [e])
  {
    hide Inv, Step, Enabled, Stops, ExitedBy, ToBeAsked, InSomeTree, ForestOf;
    var t, next, n := Step(s, e), events + [e], |events|;
    forall k | 0 <= k < n ensures Stops(|pids|, next, k) <==> Stops(|pids|, events, k) {
      StopsSame(|pids|, events, e, k);
    }
    forall i: nat | i < |pids| ensures ExitedBy(next, n + 1, i) <==> ExitedBy(events, n, i) || IsExitOf(e, i) {
      ExitedNext(events, e, i);
    }
    if s.stopping {
      StoppedStays(s, e);
      forall k: nat | IsFirstStop(|pids|, next, k) ensures StoppedBy(t, pids, next, k) {
        StoppedIsStopped(s, pids, events, k, e);
        forall p ensures ToBeAsked(pids, next, k, p) <==> ToBeAsked(pids, events, k, p) {
          AskedSame(pids, events, e, k, p);
        }
      }
    } else {
      StopStep(s, pids, events, e);
      if t.stopping {
        forall k: nat | IsFirstStop(|pids|, next, k) ensures StoppedBy(t, pids, next, k) {
          assert k == n by {
            if k < n {
              NotStoppedYet(s, pids, events, k);
            }
          }
          forall p ensures ToBeAsked(pids, next, n, p) <==> InSomeTree(t.running, ForestOf(e), p) {
            AskedIs(t, pids, next, n, p);
          }
        }
      } else {
        forall k | 0 <= k < n ensures !Stops(|pids|, events, k) {
          NotStoppedYet(s, pids, events, k);
        }
      }
    }
  }

  lemma AskedIs(t: State, pids: seq<Option<Pid>>, events: seq<Event>, k: nat, p: Pid)
    requires k + 1 == |events| && |t.running| == |pids|
    requires forall i :: 0 <= i < |pids| ==> t.running[i] == Child(pids[i], ExitedBy(events, k + 1, i))
    ensures ToBeAsked(pids, events, k, p) <==> InSomeTree(t.running, ForestOf(events[k]), p)
  {
    hide ExitedBy, InTreeOf, ForestOf;
    if InSomeTree(t.running, ForestOf(events[k]), p) {
      var i :| 0 <= i < |t.running| && InTreeOf(t.running[i], ForestOf(events[k]), p);
      assert InTreeOf(Child(pids[i], ExitedBy(events, k + 1, i)), ForestOf(events[k]), p);
    }
    if ToBeAsked(pids, events, k, p) {
      var i: nat :| i < |pids| && InTreeOf(Child(pids[i], ExitedBy(events, k + 1, i)), ForestOf(events[k]), p);
      assert InTreeOf(t.running[i], ForestOf(events[k]), p);
    }
  }

  lemma NotStoppedYet(s: State, pids: seq<Option<Pid>>, events: seq<Event>, k: nat)
    requires Follows(s, pids, events) && !s.stopping && k < |events|
    ensures !Stops(|pids|, events, k)
  {
    hide Stops, ExitedBy, ToBeAsked;
    if Stops(|pids|, events, k) {
      var j := EarliestStop(|pids|, events, k);
    }
  }

  lemma {:induction false} EarliestStop(n: nat, events: seq<Event>, k: nat) returns (j: nat)
    requires k < |events| && Stops(n, events, k)
    ensures IsFirstStop(n, events, j)
    decreases k
  {
    hide Stops;
    if i: nat :| i < k && Stops(n, events, i) {
      j := EarliestStop(n, events, i);
    } else {
      j := k;
    }
  }

  // A supervisor that is stopping was stopped by one of its events.
  lemma StoppedIsStopped(s: State, pids: seq<Option<Pid>>, events: seq<Event>, k: nat, e: Event)
    requires Follows(s, pids, events) && s.stopping && IsFirstStop(|pids|, events + [e], k)
    ensures k < |events| && IsFirstStop(|pids|, events, k)
  {
    hide Stops, ExitedBy, ToBeAsked;
    var n := |events|;
    forall j | 0 <= j < n ensures Stops(|pids|, events + [e], j) <==> Stops(|pids|, events, j) {
      StopsSame(|pids|, events, e, j);
    }
    var j :| 0 <= j < n && Stops(|pids|, events, j);
    assert Stops(|pids|, events + [e], j);
  }

  lemma {:induction false} FollowsAlways(s: State, pids: seq<Option<Pid>>, before: seq<Event>, events: seq<Event>)
    requires Inv(s) && Follows(s, pids, before) && Possible(s, events)
    ensures Follows(After(s, events), pids, before + events)
    decreases |events|
  {
    hide Inv, Step, Enabled, Follows;
    if events == [] {
      assert before + [] == before;
    } else {
      InvKept(s, events[0]);
      FollowsNext(s, pids, before, events[0]);
      FollowsAlways(Step(s, events[0]), pids, before + [events[0]], events[1..]);
      assert before + [events[0]] + events[1..] == before + events;
    }
  }

  // In every run the supervisor stops exactly by the first signal, loss of its parent, failing exit or last
  // clean exit. It then has the exit code of that event, and has sent its signal to exactly the trees of the
  // commands that had not exited.
  lemma StopsAsToldTo(graceMs: nat, pids: seq<Option<Pid>>, events: seq<Event>)
    requires Possible(Init(graceMs, pids), events)
    ensures var s := After(Init(graceMs, pids), events);
      && (s.stopping <==> exists k: nat :: IsFirstStop(|pids|, events, k))
      && forall k: nat :: IsFirstStop(|pids|, events, k) ==> StoppedBy(s, pids, events, k)
  {
    hide Inv, Step, Enabled, Stops, ExitedBy, StoppedBy;
    InitFollows(graceMs, pids);
    FollowsAlways(Init(graceMs, pids), pids, [], events);
    assert [] + events == events;
    var s := After(Init(graceMs, pids), events);
    if k :| 0 <= k < |events| && Stops(|pids|, events, k) {
      var j := EarliestStop(|pids|, events, k);
      StoppedByStops(s, pids, events, j);
    }
  }

  lemma StoppedByStops(s: State, pids: seq<Option<Pid>>, events: seq<Event>, k: nat)
    requires k < |events| && StoppedBy(s, pids, events, k)
    ensures s.stopping
  {
  }

  lemma InitFollows(graceMs: nat, pids: seq<Option<Pid>>)
    ensures Inv(Init(graceMs, pids)) && Follows(Init(graceMs, pids), pids, [])
  {
    InitInv(graceMs, pids);
  }
}
