// scripts/lib/checkpoint-node-tests.process.ts: the executor and one run's closures. Every method
// changes the closure variables as the `OwnedExecutor` function it is named after, and sets the
// shared `blocked` latch exactly when that run latches.
module OwnedExecutorClass {
  import opened Prelude
  import opened Bytes
  import opened OwnedExecutor

  class NodeExecutor {
    var blocked: bool

    constructor ()
      ensures !blocked
    {
      blocked := false;
    }

    method Execute(options: Options, now: nat, alreadyAborted: bool) returns (result: Result<OwnedRun, Code>)
      ensures alreadyAborted ==> result == Err(CANCELLED)
      ensures !alreadyAborted && blocked ==> result == Err(CLEANUP_UNKNOWN)
      ensures !alreadyAborted && !blocked ==>
        result.Ok? && fresh(result.value) && result.value.executor == this && result.value.Abs() == Launch(options, now)
    {
      if alreadyAborted {
        return Err(CANCELLED);
      }
      if blocked {
        return Err(CLEANUP_UNKNOWN);
      }
      var run := new OwnedRun(this, options, now);
      result := Ok(run);
    }
  }

  class OwnedRun {
    const executor: NodeExecutor
    const options: Options
    const startedAt: nat
    var group: bool
    var reaped: bool
    var spawned: bool
    var signalAttempted: bool
    var settled: bool
    var failure: Option<Code>
    var cleanupPending: bool
    var closeCode: Option<Option<int>>
    var output: seq<byte>
    var errors: seq<byte>
    var cancelTimer: bool
    var joinTimer: bool
    var gone: bool
    var aborted: bool
    ghost var history: History

    ghost function Abs(): Run
      reads this
    {
      Run(options, startedAt, group, reaped, spawned, signalAttempted, settled, failure, cleanupPending, closeCode,
          output, errors, cancelTimer, joinTimer, gone, aborted, history)
    }

    // A run that has latched has set the shared latch.
    ghost predicate Valid()
      reads this, executor
    {
      history.latched ==> executor.blocked
    }

    constructor (executor: NodeExecutor, options: Options, now: nat)
      ensures this.executor == executor && Abs() == Launch(options, now)
    {
      this.executor, this.options, this.startedAt := executor, options, now;
      group, reaped, spawned, signalAttempted, settled, failure := false, false, false, false, false, None;
      cleanupPending, closeCode, output, errors := false, None, [], [];
      cancelTimer, joinTimer, gone, aborted := true, true, false, false;
      history := History(NotBegun, [], false, None, [], []);
    }

    method Finish(now: nat, code: Option<int>)
      modifies this`settled, this`cancelTimer, this`joinTimer, this`history
      ensures old(settled || cleanupPending) ==> unchanged(this)
      ensures !old(settled || cleanupPending) ==>
        settled && !cancelTimer && !joinTimer &&
        history == old(history).(outcome := Some((Settles(failure, code, output, errors), now)))
    {
      if settled || cleanupPending {
        return;
      }
      settled := true;
      cancelTimer, joinTimer := false, false;
      var outcome := Settles(failure, code, output, errors);
      history := history.(outcome := Some((outcome, now)));
    }

    method Unknown(now: nat)
      modifies this`cleanupPending, this`failure, this`settled, this`cancelTimer, this`joinTimer, this`history
      modifies executor`blocked
      ensures Abs() == OwnedExecutor.Unknown(old(Abs()), now) && executor.blocked && history.latched
    {
      hide Settles;
      executor.blocked := true;
      cleanupPending := false;
      failure := Some(CLEANUP_UNKNOWN);
      history := history.(latched := true);
      Finish(now, None);
    }

    // `works`: the group signal is delivered, or the taskkill helper could be started.
    method Cancel(now: nat, reason: Code, works: bool)
      requires Valid()
      modifies this, executor`blocked
      ensures Abs() == OwnedExecutor.Cancel(old(Abs()), now, reason, works)
      ensures executor.blocked == (old(executor.blocked) || history.latched)
    {
      hide OwnedExecutor.TryToTerminate;
      if settled || signalAttempted {
        return;
      }
      failure := Some(reason);
      signalAttempted := true;
      assert Abs() == old(Abs()).(failure := Some(reason), signalAttempted := true);
      TryToTerminate(now, works);
    }

    method TryToTerminate(now: nat, works: bool)
      requires Valid()
      modifies this, executor`blocked
      ensures Abs() == OwnedExecutor.TryToTerminate(old(Abs()), now, works)
      ensures executor.blocked == (old(executor.blocked) || history.latched)
    {
      if group && !reaped && !gone {
        var begun := Terminate(works);
        if begun {
          return;
        }
      }
      Unknown(now);
    }

    // One signal to the group, or one taskkill.
    method Terminate(works: bool) returns (begun: bool)
      modifies this`cleanupPending, this`history
      ensures begun == works && Abs() == OwnedExecutor.Terminate(old(Abs()), works)
      ensures history.latched == old(history).latched
    {
      history := history.(attempts := history.attempts + [Attempt(group, reaped || gone)]);
      if options.windows {
        cleanupPending := cleanupPending || works;
        history := history.(taskkill := if works then Unresolved else Failed);
      }
      begun := works;
    }

    method Capture(now: nat, chunk: seq<byte>, stderr: bool, works: bool)
      requires Valid()
      modifies this, executor`blocked
      ensures Abs() == OwnedExecutor.Capture(old(Abs()), now, chunk, stderr, works)
      ensures executor.blocked == (old(executor.blocked) || history.latched)
    {
      var held := if stderr then |errors| else |output|;
      Hear(chunk, stderr);
      if settled || signalAttempted {
        return;
      }
      Keep(chunk, stderr);
      if held + |chunk| > options.maxBuffer {
        Cancel(now, OUTPUT_LIMIT, works);
      }
    }

    ghost method Hear(chunk: seq<byte>, stderr: bool)
      modifies this`history
      ensures Abs() == OwnedExecutor.Hear(old(Abs()), chunk, stderr) && history.latched == old(history).latched
    {
      if !settled {
        history := if stderr then history.(receivedErr := history.receivedErr + chunk)
                   else history.(received := history.received + chunk);
      }
    }

    method Keep(chunk: seq<byte>, stderr: bool)
      modifies this`output, this`errors
      ensures Abs() == OwnedExecutor.Keep(old(Abs()), chunk, stderr)
    {
      if stderr {
        errors := errors + Retained(chunk, |errors|, options.maxBuffer);
      } else {
        output := output + Retained(chunk, |output|, options.maxBuffer);
      }
    }

    method Abort(now: nat, works: bool)
      requires Valid()
      modifies this, executor`blocked
      ensures Abs() == OwnedExecutor.Abort(old(Abs()), now, works)
      ensures executor.blocked == (old(executor.blocked) || history.latched)
    {
      if !spawned && !reaped {
        return;
      }
      Cancel(now, CANCELLED, works);
    }

    method OnSpawn(now: nat, usablePid: bool, works: bool)
      requires Valid() && Enabled(Abs(), now, Event.Spawn(usablePid, works))
      modifies this, executor`blocked
      ensures Abs() == Step(old(Abs()), now, Event.Spawn(usablePid, works))
      ensures executor.blocked == (old(executor.blocked) || history.latched)
    {
      MarkSpawned(usablePid);
      if aborted {
        Abort(now, works);
      }
    }

    method MarkSpawned(usablePid: bool)
      modifies this`spawned, this`group
      ensures Abs() == OwnedExecutor.MarkSpawned(old(Abs()), usablePid)
    {
      spawned := true;
      if usablePid {
        group := true;
      }
    }

    method MarkAborted()
      modifies this`aborted
      ensures Abs() == OwnedExecutor.MarkAborted(old(Abs()))
    {
      aborted := true;
    }

    method OnExit(now: nat)
      requires Valid()
      modifies this`reaped, this`group, this`gone
      ensures Abs() == Step(old(Abs()), now, Exit)
    {
      gone := true;
      reaped := true;
      group := false;
    }

    method OnError(now: nat, works: bool)
      requires Valid()
      modifies this, executor`blocked
      ensures Abs() == Step(old(Abs()), now, Error(works))
      ensures executor.blocked == (old(executor.blocked) || history.latched)
    {
      if group && !reaped {
        Cancel(now, NODE_SPAWN, works);
      } else {
        FailToSpawn(now);
      }
    }

    method FailToSpawn(now: nat)
      modifies this`failure, this`settled, this`cancelTimer, this`joinTimer, this`history
      ensures Abs() == OwnedExecutor.FailToSpawn(old(Abs()), now) && history.latched == old(history).latched
    {
      hide Settles;
      failure := Some(NODE_SPAWN);
      Finish(now, None);
    }

    method OnClose(now: nat, code: Option<int>)
      requires Valid() && Enabled(Abs(), now, Close(code))
      modifies this
      ensures Abs() == Step(old(Abs()), now, Close(code)) && Valid()
    {
      hide Settles;
      closeCode := Some(code);
      Finish(now, code);
    }

    method OnStreamError(now: nat, works: bool)
      requires Valid()
      modifies this, executor`blocked
      ensures Abs() == Step(old(Abs()), now, StreamError(works))
      ensures executor.blocked == (old(executor.blocked) || history.latched)
    {
      Cancel(now, NODE_EXIT, works);
    }

    method OnCallerAborts(now: nat, works: bool)
      requires Valid() && Enabled(Abs(), now, CallerAborts(works))
      modifies this, executor`blocked
      ensures Abs() == Step(old(Abs()), now, CallerAborts(works))
      ensures executor.blocked == (old(executor.blocked) || history.latched)
    {
      MarkAborted();
      Abort(now, works);
    }

    method CancelTimerFires(now: nat, works: bool)
      requires Valid() && Enabled(Abs(), now, Event.CancelTimerFires(works))
      modifies this, executor`blocked
      ensures Abs() == Step(old(Abs()), now, Event.CancelTimerFires(works))
      ensures executor.blocked == (old(executor.blocked) || history.latched)
    {
      hide OwnedExecutor.Cancel;
      SpendCancelTimer();
      Cancel(now, TIMEOUT, works);
    }

    method SpendCancelTimer()
      modifies this`cancelTimer
      ensures Abs() == old(Abs()).(cancelTimer := false)
    {
      cancelTimer := false;
    }

    method JoinTimerFires(now: nat)
      requires Valid() && Enabled(Abs(), now, Event.JoinTimerFires)
      modifies this, executor`blocked
      ensures Abs() == Step(old(Abs()), now, Event.JoinTimerFires)
      ensures executor.blocked == (old(executor.blocked) || history.latched)
    {
      hide OwnedExecutor.Unknown;
      SpendJoinTimer();
      if !settled {
        Unknown(now);
      }
    }

    method SpendJoinTimer()
      modifies this`joinTimer
      ensures Abs() == old(Abs()).(joinTimer := false)
    {
      joinTimer := false;
    }

    method OnTaskkillResult(now: nat, confirmed: bool)
      requires Valid() && Enabled(Abs(), now, TaskkillEnds(confirmed))
      modifies this, executor`blocked
      ensures Abs() == Step(old(Abs()), now, TaskkillEnds(confirmed))
      ensures executor.blocked == (old(executor.blocked) || history.latched)
    {
      history := history.(taskkill := if confirmed then Confirmed else Failed);
      if settled {
        return;
      }
      JoinAfterTaskkill(now, confirmed);
    }

    method JoinAfterTaskkill(now: nat, confirmed: bool)
      requires Valid()
      modifies this, executor`blocked
      ensures Abs() == OwnedExecutor.JoinAfterTaskkill(old(Abs()), now, confirmed)
      ensures executor.blocked == (old(executor.blocked) || history.latched)
    {
      cleanupPending := false;
      if confirmed {
        FinishIfClosed(now);
      } else {
        Unknown(now);
      }
    }

    method FinishIfClosed(now: nat)
      modifies this`settled, this`cancelTimer, this`joinTimer, this`history
      ensures Abs() == OwnedExecutor.FinishIfClosed(old(Abs()), now) && history.latched == old(history).latched
    {
      if closeCode.Some? {
        Finish(now, closeCode.value);
      }
    }
  }
}
