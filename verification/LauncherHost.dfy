// The launcher's host (scripts/lib/dev-electron-launcher.model.ts) as its process code sees it: an
// exact clock, a process table that changes by itself, and signals, which are recorded.
module LauncherHost {
  import opened Prelude
  import opened ProcessTree

  datatype Signal = SIGINT | SIGTERM | SIGKILL | TREE_KILL

  datatype Sent = Sent(pid: Pid, signal: Signal, at: nat)

  // What one listing shows, and which exits had been delivered by then.
  datatype Look = Look(table: ProcessTable, appExited: bool)

  class Host {
    // The n-th look. Nothing is assumed of it, so it may react to every signal sent before.
    const world: nat -> Look
    // Who the n-th round of `alive` checks finds alive.
    const alive: nat -> set<Pid>
    var now: nat
    var looks: nat
    var checks: nat
    ghost var lookedAt: seq<nat>
    ghost var checkedAt: seq<nat>
    ghost var signals: seq<Sent>

    constructor (world: nat -> Look, alive: nat -> set<Pid>)
      ensures Valid() && this.world == world && this.alive == alive && signals == []
    {
      this.world, this.alive := world, alive;
      now, looks, checks, lookedAt, checkedAt, signals := 0, 0, 0, [], [], [];
    }

    ghost predicate Valid()
      reads this
    {
      && |lookedAt| == looks && (forall j :: 0 <= j < looks ==> lookedAt[j] <= now)
      && |checkedAt| == checks && forall j :: 0 <= j < checks ==> checkedAt[j] <= now
    }

    method ListProcesses() returns (look: Look)
      requires Valid()
      modifies this`looks, this`lookedAt
      ensures Valid() && looks == old(looks) + 1 && lookedAt == old(lookedAt) + [now]
      ensures look == world(old(looks))
    {
      look := world(looks);
      looks := looks + 1;
      lookedAt := lookedAt + [now];
    }

    // One round of `alive` checks.
    method CheckAlive(pids: seq<Pid>) returns (rest: seq<Pid>)
      requires Valid()
      modifies this`checks, this`checkedAt
      ensures Valid() && checks == old(checks) + 1 && checkedAt == old(checkedAt) + [now]
      ensures rest == StillAlive(alive, old(checks), pids)
    {
      rest := StillAlive(alive, checks, pids);
      checks := checks + 1;
      checkedAt := checkedAt + [now];
    }

    method Sleep(ms: nat)
      requires Valid()
      modifies this`now
      ensures Valid() && now == old(now) + ms
    {
      now := now + ms;
    }

    method SignalQuietly(pid: Pid, signal: Signal)
      requires Valid()
      modifies this`signals
      ensures Valid() && signals == old(signals) + [Sent(pid, signal, now)]
    {
      signals := signals + [Sent(pid, signal, now)];
    }

    method SignalAll(pids: seq<Pid>, signal: Signal)
      requires Valid()
      modifies this`signals
      ensures Valid() && signals == old(signals) + Each(pids, signal, now)
    {
      for i := 0 to |pids|
        invariant Valid() && signals == old(signals) + Each(pids[..i], signal, now)
      {
        SignalQuietly(pids[i], signal);
        assert pids[..i + 1] == pids[..i] + [pids[i]];
      }
      assert pids[..|pids|] == pids;
    }
  }

  // The processes of `pids` that the n-th round finds alive.
  function StillAlive(alive: nat -> set<Pid>, n: nat, pids: seq<Pid>): seq<Pid> {
    Filter(pids, pid => pid in alive(n))
  }

  function Each(pids: seq<Pid>, signal: Signal, at: nat): (sent: seq<Sent>)
    ensures |sent| == |pids|
    ensures forall i :: 0 <= i < |pids| ==> sent[i].pid == pids[i] && sent[i].signal == signal && sent[i].at == at
  {
    seq(|pids|, i requires 0 <= i < |pids| => Sent(pids[i], signal, at))
  }
}
