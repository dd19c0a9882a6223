// scripts/lib/checkpoint-node-tests.windows.ts: one bounded taskkill for a tree that is still owned.
module WindowsCleanup {
  import opened Prelude

  // The taskkill helper: not launched, running, exited (its exit code or signal is set), or closed.
  datatype Helper = NotLaunched | HelperRuns | HelperExited | HelperClosed

  class TreeCleanup {
    const deadline: nat
    var now: nat
    var settled: bool
    var killAttempted: bool
    var helper: Helper
    var timer: Option<nat>
    ghost var results: seq<(bool, nat)>    // every time the result promise took a value
    ghost var helperKills: nat
    ghost var cleanClose: bool             // the helper closed with code 0 and no signal

    // What every sequence of events keeps: one result, no later than the deadline, and `true` only
    // for a clean close before it; the helper is killed at most once, and only while it runs.
    ghost predicate Valid()
      reads this
    {
      && |results| <= 1 && (settled <==> results != [])
      && (results != [] && results[0].0 ==> cleanClose && results[0].1 < deadline && helperKills == 0)
      && (!settled ==> helper != NotLaunched && timer == Some(deadline) && now <= deadline && !killAttempted)
      && (settled ==> timer == None && (results[0].1 <= deadline || helper == NotLaunched))
      && helperKills == (if killAttempted then 1 else 0)
      && (killAttempted ==> settled)
    }

    // `owned` sums up the PID, identity and exit-status checks; `launches` is false if spawn throws.
    constructor (now: nat, deadline: nat, owned: bool, launches: bool)
      ensures Valid() && this.now == now && this.deadline == deadline
      ensures settled <==> !(owned && now < deadline && launches)
      ensures settled ==> results == [(false, now)] && helper == NotLaunched
    {
      this.deadline, this.now := deadline, now;
      settled, killAttempted, helper, timer := false, false, HelperRuns, Some(deadline);
      results, helperKills, cleanClose := [], 0, false;
      new;
      if !owned || now >= deadline || !launches {
        helper := NotLaunched;
        Dispose();
      }
    }

    method Dispose()
      requires settled ==> Valid()
      requires !settled ==> results == [] && helperKills == 0 && !killAttempted && (helper == NotLaunched || now <= deadline)
      modifies this`settled, this`timer, this`killAttempted, this`helperKills, this`results
      ensures Valid() && settled
      ensures old(settled) ==> unchanged(this)
      ensures !old(settled) ==> results == [(false, now)]
      ensures !old(settled) ==> helperKills == (if helper == HelperRuns then 1 else 0)
    {
      if settled {
        return;
      }
      settled := true;
      timer := None;
      if helper == HelperRuns && !killAttempted {
        killAttempted := true;
        helperKills := helperKills + 1;
      }
      results := [(false, now)];
    }

    method OnHelperError()
      requires Valid()
      modifies this
      ensures Valid() && settled && now == old(now) && helper == old(helper)
      ensures old(settled) ==> unchanged(this)
      ensures !old(settled) ==> results == [(false, now)] && helperKills == (if helper == HelperRuns then 1 else 0)
    {
      Dispose();
    }

    // From now on `exitCode` or `signalCode` of the helper is set, though it has not closed.
    method OnHelperExit()
      requires Valid() && helper == HelperRuns
      modifies this`helper
      ensures Valid() && helper == HelperExited
    {
      helper := HelperExited;
    }

    // `clean`: exit code 0 and no signal.
    method OnHelperClose(clean: bool)
      requires Valid() && (helper == HelperRuns || helper == HelperExited)
      modifies this
      ensures Valid() && settled && now == old(now) && helper == HelperClosed && helperKills == old(helperKills)
      ensures old(settled) ==> results == old(results)
      ensures !old(settled) ==> results == [(clean && now < deadline, now)]
    {
      helper := HelperClosed;
      if settled {
        return;
      }
      cleanClose := clean;
      settled := true;
      timer := None;
      results := [(clean && now < deadline, now)];
    }

    method TimerFires()
      requires Valid() && timer == Some(now)
      modifies this
      ensures Valid() && settled && results == [(false, deadline)]
      ensures helperKills == old(helperKills) + (if helper == HelperRuns then 1 else 0)
    {
      Dispose();
    }

    // Time passes, but not beyond an armed timer.
    method Advance(ms: nat)
      requires Valid() && (timer.Some? ==> now + ms <= timer.value)
      modifies this`now
      ensures Valid() && now == old(now) + ms
    {
      now := now + ms;
    }
  }
}
