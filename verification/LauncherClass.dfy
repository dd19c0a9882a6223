// scripts/lib/dev-electron-launcher.ts: `DevElectronLauncher` itself. Every method changes the
// fields as the `Launcher` transition it is named after, so all of that module's results about
// whole runs hold of it.
module LauncherClass {
  import opened Prelude
  import opened LauncherModel
  import opened Launcher

  class RunningApp {
    const id: nat
    var exited: bool
    var expected: bool
    var pollTimer: Option<nat>

    constructor (id: nat, pollTimer: Option<nat>)
      ensures this.id == id && !exited && !expected && this.pollTimer == pollTimer
    {
      this.id := id;
      exited, expected := false, false;
      this.pollTimer := pollTimer;
    }
  }

  class DevElectronLauncher {
    const windows: bool
    var now: nat
    var spawned: nat
    var current: RunningApp?
    var restartTimer: Option<nat>
    var queue: seq<Task>
    var running: Option<Termination>
    var shuttingDown: bool
    var exitCode: int
    var join: Join
    ghost var firstShutdown: Option<(int, nat)>
    ghost var exits: seq<(int, nat)>
    // Every app ever started.
    ghost var entries: set<RunningApp>

    ghost predicate Valid()
      reads this, entries
    {
      && (current != null ==> current in entries && !current.exited && !current.expected)
      && (forall e :: e in entries && e != current ==> (e.exited || e.expected) && e.pollTimer == None)
    }

    ghost function Abs(): State
      reads this, entries
      requires Valid()
    {
      var app := if current == null then None else Some(App(current.id, current.pollTimer));
      State(windows, now, spawned, app, restartTimer, queue, running, shuttingDown, exitCode, join, firstShutdown, exits)
    }

    constructor (windows: bool)
      ensures Valid() && fresh(entries) && Abs() == Init(windows)
    {
      this.windows := windows;
      now, spawned, current, restartTimer, queue, running := 0, 0, null, None, [], None;
      shuttingDown, exitCode, join := false, 0, NotJoining;
      firstShutdown, exits, entries := None, [], {};
    }

    method StartApp(a: Answers)
      requires Valid()
      modifies this
      ensures Valid() && fresh(entries - old(entries)) && old(entries) <= entries
      ensures Abs() == Spawn(old(Abs()), a)
    {
      if shuttingDown || current != null || !a.spawns {
        return;
      }
      var entry := new RunningApp(spawned, if windows then None else Some(now + SNAPSHOT_INTERVAL_MS));
      spawned := spawned + 1;
      current := entry;
      entries := entries + {entry};
    }

    // The part of stopApp before its await; `thenStart` is the rest of the restart task.
    method StopApp(thenStart: bool, a: Answers)
      requires Valid() && running == None
      modifies this, entries
      ensures Valid() && fresh(entries - old(entries)) && old(entries) <= entries
      ensures Abs() == StopCurrent(old(Abs()), thenStart, a)
    {
      var entry := current;
      if entry != null {
        current := null;
        entry.expected := true;
        entry.pollTimer := None;
        if !entry.exited {
          running := BeginTermination(windows, now, entry.id, Stop, thenStart, a);
        }
      }
      if running == None && thenStart {
        StartApp(a);
      }
    }

    method Enqueue(task: Task)
      modifies this`queue
      ensures queue == old(queue) + [task]
    {
      queue := queue + [task];
    }

    method OnBuildOutputChanged()
      requires Valid()
      modifies this`restartTimer
      ensures Valid()
      ensures Abs() == if shuttingDown then old(Abs()) else old(Abs()).(restartAt := Some(now + RESTART_DEBOUNCE_MS))
    {
      if shuttingDown {
        return;
      }
      restartTimer := Some(now + RESTART_DEBOUNCE_MS);
    }

    method RestartTimerFires()
      requires Valid() && restartTimer == Some(now)
      modifies this`restartTimer, this`queue
      ensures Valid() && Abs() == old(Abs()).(restartAt := None, queue := old(queue) + [Restart])
    {
      restartTimer := None;
      Enqueue(Restart);
    }

    method PollFires()
      requires Valid() && current != null && current.pollTimer == Some(now)
      modifies current
      ensures Valid() && Abs() == old(Abs()).(current := Some(App(current.id, Some(now + SNAPSHOT_INTERVAL_MS))))
    {
      current.pollTimer := None;
      if current.exited || current.expected {
        return;
      }
      current.pollTimer := Some(now + SNAPSHOT_INTERVAL_MS);
    }

    // The part of shutdown before its first await.
    method BeginShutdown(code: int)
      requires Valid()
      modifies this
      ensures Valid() && entries == old(entries) && Abs() == Shutdown(old(Abs()), code)
    {
      if shuttingDown {
        return;
      }
      shuttingDown := true;
      exitCode := code;
      firstShutdown := Some((code, now));
      restartTimer := None;
      Enqueue(Task.StopApp);
      join := Draining;
    }

    // An exit or error event of any app ever started; only the current one's has an effect.
    method OnAppGone(entry: RunningApp, code: Option<int>)
      requires Valid() && entry in entries
      modifies this`current, this`queue, entry
      ensures Valid()
      ensures Abs() == if entry == old(current) then AppGone(old(Abs()), code) else old(Abs())
    {
      if entry.exited {
        return;
      }
      entry.exited := true;
      entry.pollTimer := None;
      if current == entry {
        current := null;
      }
      if entry.expected {
        return;
      }
      if shuttingDown {
        Enqueue(ReapApp(entry.id));
        return;
      }
      if code == Some(DUPLICATE_INSTANCE_EXIT_CODE) {
        return;
      }
      Enqueue(ReapApp(entry.id));
      if code == Some(RESTART_EXIT_CODE) {
        Enqueue(Task.StartApp);
      } else if code == Some(FATAL_EXIT_CODE) {
      } else if code == Some(0) {
        Enqueue(EndSession);
      } else {
        Enqueue(Task.StartApp);
      }
    }

    method RunNextTask(a: Answers)
      requires Valid() && TaskReady(Abs())
      modifies this, entries
      ensures Valid() && fresh(entries - old(entries)) && old(entries) <= entries
      ensures Abs() == RunTask(old(Abs()), a)
    {
      var task := queue[0];
      queue := queue[1..];
      match task {
        case Restart => StopApp(true, a);
        case StopApp => StopApp(false, a);
        case ReapApp(app) => running := BeginTermination(windows, now, app, Reap, false, a);
        case StartApp => StartApp(a);
        case EndSession => BeginShutdown(0);
      }
    }

    // A waitFor timer of the termination in flight, and the rest of its task once it ends.
    method TerminationTimerFires(a: Answers)
      requires Valid() && running.Some? && running.value.wakeAt == now
      modifies this
      ensures Valid() && fresh(entries - old(entries)) && old(entries) <= entries
      ensures Abs() == FinishTermination(old(Abs()), WakeTermination(now, old(running).value, a),
                                         old(running).value.thenStart, a)
    {
      var thenStart := running.value.thenStart;
      running := WakeTermination(now, running.value, a);
      if running == None && thenStart {
        StartApp(a);
      }
    }

    // shutdown after its loop has seen the queue drained.
    method StopLauncherChildren(a: Answers)
      requires Valid() && JoinReady(Abs())
      modifies this`join, this`exits
      ensures Valid() && Abs() == StopChildren(old(Abs()), a)
    {
      if windows || a.noChildren || a.gone {
        HostExit();
        return;
      }
      join := ChildWait(now + CHILD_GRACE_MS, NextPoll(now, now + CHILD_GRACE_MS));
    }

    method ChildTimerFires(a: Answers)
      requires Valid() && Enabled(Abs(), ChildWaitWakes(a))
      modifies this`join, this`exits
      ensures Valid() && Abs() == Step(old(Abs()), ChildWaitWakes(a))
    {
      if a.gone || now >= join.deadline {
        HostExit();
        return;
      }
      join := ChildWait(join.deadline, NextPoll(now, join.deadline));
    }

    method HostExit()
      requires Valid()
      modifies this`join, this`exits
      ensures Valid() && Abs() == Exit(old(Abs()))
    {
      join := Exited;
      exits := exits + [(exitCode, now)];
    }
  }
}
