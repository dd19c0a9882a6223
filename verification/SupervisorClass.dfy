// scripts/dev-supervise.lib.ts: `DevSupervisor` itself. Every method changes the fields as the
// `Supervisor` transition it is named after, so that module's results about whole runs hold of it.
module SupervisorClass {
  import opened Prelude
  import opened Supervisor

  class DevSupervisor {
    const graceMs: nat
    var now: nat
    var running: seq<Child>
    var targets: seq<Pid>
    var stopping: bool
    var finished: bool
    var exitCode: int
    var orphanTimer: Option<nat>
    var graceTimer: Option<nat>
    var drainTimer: Option<nat>
    ghost var history: History

    ghost function Abs(): State
      reads this
    {
      State(graceMs, now, running, targets, stopping, finished, exitCode, orphanTimer, graceTimer, drainTimer, history)
    }

    // The constructor and start(), which spawns every command.
    constructor (graceMs: nat, pids: seq<Option<Pid>>)
      ensures Abs() == Init(graceMs, pids)
    {
      this.graceMs := graceMs;
      now, targets, stopping, finished, exitCode := 0, [], false, false, 0;
      orphanTimer, graceTimer, drainTimer := Some(ORPHAN_POLL_MS), None, None;
      history := History([], None, {}, {}, map[], {}, []);
      var spawned: seq<Child> := [];
      for i := 0 to |pids|
        invariant |spawned| == i && forall j :: 0 <= j < i ==> spawned[j] == Child(pids[j], false)
      {
        spawned := spawned + [Child(pids[i], false)];
      }
      running := spawned;
    }

    method CollectTargets(forest: Forest)
      modifies this`targets, this`history
      ensures targets == Collect(old(targets), running, forest)
      ensures history == old(history).(collected := old(history).collected + Elems(targets))
    {
      for i := 0 to |running|
        invariant running == old(running)
        invariant Collect(targets, running[i..], forest) == Collect(old(targets), running, forest)
        invariant history == old(history)
      {
        targets := AddNew(targets, Members(running[i], forest));
        assert running[i..][0] == running[i] && running[i..][1..] == running[i + 1..];
      }
      history := history.(collected := history.collected + Elems(targets));
    }

    method IsDrained(alive: Pid -> bool) returns (drained: bool)
      modifies this`targets, this`history
      ensures drained <==> AllExited(running) && targets == []
      ensures !AllExited(running) ==> targets == old(targets) && history == old(history)
      ensures AllExited(running) ==>
        && targets == DropDead(old(targets), alive)
        && history == old(history).(seenDead := old(history).seenDead + (Elems(old(targets)) - Elems(targets)))
    {
      if !forall i :: 0 <= i < |running| ==> running[i].exited {
        return false;
      }
      var left := targets;
      while left != [] && !alive(left[0])
        invariant DropDead(left, alive) == DropDead(targets, alive)
        decreases |left|
      {
        left := left[1..];   // targets.delete
      }
      history := history.(seenDead := history.seenDead + (Elems(targets) - Elems(left)));
      targets := left;
      drained := targets == [];
    }

    method Finish()
      modifies this
      ensures Abs() == Supervisor.Finish(old(Abs()))
    {
      if finished {
        return;
      }
      finished := true;
      orphanTimer, graceTimer, drainTimer := None, None, None;
      history := history.(exits := history.exits + [(exitCode, now)]);
    }

    method FinishIfDrained(alive: Pid -> bool)
      modifies this
      ensures Abs() == CheckDrained(old(Abs()), alive)
    {
      var drained := IsDrained(alive);
      if drained {
        Finish();
      }
    }

    // stop up to its first look at what is alive.
    method BeginStopping(signal: ShutdownSignal, code: int, forest: Forest)
      modifies this
      ensures Abs() == BeginStop(old(Abs()), signal, code, forest)
    {
      hide Collect, Elems, Each;
      stopping, exitCode, orphanTimer := true, code, None;
      history := history.(firstStop := Some(now));
      CollectTargets(forest);
      history := history.(asked := Each(targets, signal));
      graceTimer, drainTimer := Some(now + graceMs), Some(now + DRAIN_POLL_MS);
    }

    method Stop(signal: ShutdownSignal, code: int, forest: Forest, alive: Pid -> bool)
      modifies this
      ensures Abs() == Supervisor.Stop(old(Abs()), signal, code, forest, alive)
    {
      if stopping {
        return;
      }
      BeginStopping(signal, code, forest);
      FinishIfDrained(alive);
    }

    method OnSignal(signal: ShutdownSignal, forest: Forest, alive: Pid -> bool)
      requires Enabled(Abs(), SignalArrives(signal, forest, alive))
      modifies this
      ensures Abs() == Step(old(Abs()), SignalArrives(signal, forest, alive))
    {
      if !stopping {
        history := history.(log := history.log + [Signalled(signal)]);
      }
      Stop(signal, SignalExitCode(signal), forest, alive);
    }

    method OrphanTimerFires(reparented: bool, forest: Forest, alive: Pid -> bool)
      requires Enabled(Abs(), OrphanPoll(reparented, forest, alive))
      modifies this
      ensures Abs() == Step(old(Abs()), OrphanPoll(reparented, forest, alive))
    {
      orphanTimer := Some(now + ORPHAN_POLL_MS);
      if !reparented {
        return;
      }
      if !stopping {
        history := history.(log := history.log + [Orphaned]);
      }
      Stop(SIGTERM, SignalExitCode(SIGTERM), forest, alive);
    }

    method OnChildExit(i: nat, code: Option<int>, forest: Forest, alive: Pid -> bool)
      requires Enabled(Abs(), ChildExits(i, code, forest, alive))
      modifies this
      ensures Abs() == Step(old(Abs()), ChildExits(i, code, forest, alive))
    {
      running := running[i := running[i].(exited := true)];
      if stopping {
        return;
      }
      history := history.(log := history.log + [ChildExited(i, code)]);
      if code != Some(0) {
        Stop(SIGTERM, FailureCode(code), forest, alive);
        return;
      }
      if forall j :: 0 <= j < |running| ==> running[j].exited {
        Stop(SIGTERM, 0, forest, alive);
      }
    }

    method GraceTimerFires(forest: Forest)
      requires Enabled(Abs(), GraceEnds(forest))
      modifies this
      ensures Abs() == Step(old(Abs()), GraceEnds(forest))
    {
      graceTimer := None;
      CollectTargets(forest);
      history := history.(killed := history.killed + Elems(targets));
      Finish();
    }

    method DrainTimerFires(alive: Pid -> bool)
      requires Enabled(Abs(), DrainPoll(alive))
      modifies this
      ensures Abs() == Step(old(Abs()), DrainPoll(alive))
    {
      drainTimer := Some(now + DRAIN_POLL_MS);
      FinishIfDrained(alive);
    }
  }
}
