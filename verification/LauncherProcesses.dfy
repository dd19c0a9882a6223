// scripts/lib/dev-electron-launcher.ts: what the launcher does to processes other than the app's own
// tree: its dev runner, and any other child of its own.
module LauncherProcesses {
  import opened Prelude
  import opened ProcessTree
  import opened LauncherModel
  import opened LauncherHost

  const MAX_DEPTH: nat := 64

  // The ancestor `n` parent steps above `pid`, while the table knows the way.
  function Up(table: ProcessTable, pid: Pid, n: nat): Option<Pid> {
    if n == 0 then Some(pid)
    else match Up(table, pid, n - 1)
      case Some(p) => if p in table then Some(table[p].ppid) else None
      case None => None
  }

  // 1 to 64 steps up, with every PID on the way above 1.
  ghost predicate IsAncestorOf(table: ProcessTable, launcher: Pid, pid: Pid) {
    exists n: nat :: 1 <= n <= MAX_DEPTH && Up(table, launcher, n) == Some(pid) && AllAboveOne(table, launcher, n)
  }

  ghost predicate AllAboveOne(table: ProcessTable, launcher: Pid, n: nat) {
    forall m: nat :: 1 <= m <= n ==> AboveOne(table, launcher, m)
  }

  predicate AboveOne(table: ProcessTable, launcher: Pid, m: nat) {
    Up(table, launcher, m).Some? && Up(table, launcher, m).value > 1
  }

  method IsAncestor(table: ProcessTable, launcher: Pid, pid: Pid) returns (found: bool)
    ensures found <==> IsAncestorOf(table, launcher, pid)
  {
    var cursor := if launcher in table then Some(table[launcher].ppid) else None;
    var depth: nat := 0;
    assert Up(table, launcher, 0) == Some(launcher);
    while cursor.Some? && cursor.value > 1 && depth < MAX_DEPTH
      invariant depth <= MAX_DEPTH && cursor == Up(table, launcher, depth + 1)
      invariant AllAboveOne(table, launcher, depth)
      invariant forall n: nat :: 1 <= n <= depth ==> Up(table, launcher, n) != Some(pid)
      decreases MAX_DEPTH - depth
    {
      assert AllAboveOne(table, launcher, depth + 1);
      if cursor.value == pid {
        return true;
      }
      cursor := if cursor.value in table then Some(table[cursor.value].ppid) else None;
      depth := depth + 1;
    }
    forall n: nat | depth < n <= MAX_DEPTH ensures !AllAboveOne(table, launcher, n) {
      assert AllAboveOne(table, launcher, n) ==> AboveOne(table, launcher, depth + 1);
    }
    found := false;
  }

  // Any n-th ancestor's tree holds the process, so a runner found by isAncestor is one whose
  // collectDescendants contains the launcher.
  lemma {:induction false} AncestorHoldsDescendant(table: ProcessTable, pid: Pid, n: nat)
    requires Up(table, pid, n).Some?
    ensures InTree(table, {Up(table, pid, n).value}, pid)
  {
    if n == 0 {
      RootInTree(table, {pid}, pid);
    } else {
      var mid := Up(table, pid, n - 1).value;
      var top := table[mid].ppid;
      AncestorHoldsDescendant(table, pid, n - 1);
      var path :| path != [] && path[0] in {mid} && path[|path| - 1] == pid && Lineage(table, path);
      var longer := [top] + path;
      forall i, j | 0 <= i < j < |longer| && j == i + 1 ensures IsChild(table, longer[i], longer[j]) {
        if i > 0 {
          assert IsChild(table, path[i - 1], path[j - 1]);
        }
      }
      assert Lineage(table, longer);
    }
  }

  lemma AncestorCollectsLauncher(table: ProcessTable, children: Children, launcher: Pid, runner: Pid)
    requires ChildrenOf(children, table) && IsAncestorOf(table, launcher, runner)
    ensures Reachable(children, [runner], launcher)
  {
    var n: nat :| 1 <= n <= MAX_DEPTH && Up(table, launcher, n) == Some(runner) && AllAboveOne(table, launcher, n);
    AncestorHoldsDescendant(table, launcher, n);
    assert RootSet([runner]) == {runner};
    ReachableIsInTree(children, table, [runner], launcher);
  }

  // endDevSession: the runner is interrupted only if the launcher runs under it.
  method EndDevSession(host: Host, windows: bool, launcher: Pid, runner: Option<Pid>)
    requires host.Valid()
    modifies host`looks, host`lookedAt, host`signals
    ensures host.Valid()
    ensures host.signals == old(host.signals) +
      (if runner == None then []
       else if windows then [Sent(runner.value, TREE_KILL, host.now)]
       else if IsAncestorOf(host.world(old(host.looks)).table, launcher, runner.value) then
         [Sent(runner.value, SIGINT, host.now)]
       else [])
  {
    if runner == None {
      return;
    }
    if windows {
      host.SignalQuietly(runner.value, TREE_KILL);
      return;
    }
    var look := host.ListProcesses();
    var above := IsAncestor(look.table, launcher, runner.value);
    if !above {
      return;
    }
    host.SignalQuietly(runner.value, SIGINT);
  }

  // The rounds of checks from `first` to `last`: one at once, then one every STOP_POLL_MS up to the
  // deadline while somebody is alive, and one more at the deadline itself.
  ghost predicate RoundsRightly(alive: nat -> set<Pid>, checkedAt: seq<nat>, first: nat, last: nat, pids: seq<Pid>,
                                began: nat, deadline: nat)
    requires last < |checkedAt|
  {
    && first <= last && checkedAt[first] == began
    && forall i :: first <= i < last ==> GoesOn(alive, checkedAt, i, pids, deadline)
  }

  // The i-th round found somebody alive, and the next one was made when it was due.
  predicate GoesOn(alive: nat -> set<Pid>, checkedAt: seq<nat>, i: nat, pids: seq<Pid>, deadline: nat)
    requires i + 1 < |checkedAt|
  {
    && StillAlive(alive, i, pids) != []
    && checkedAt[i] <= deadline && checkedAt[i + 1] == NextRound(checkedAt[i], deadline)
  }

  function NextRound(at: nat, deadline: nat): nat {
    if at < deadline then NextPoll(at, deadline) else at
  }

  lemma FirstRound(alive: nat -> set<Pid>, checkedAt: seq<nat>, first: nat, pids: seq<Pid>, began: nat,
                   deadline: nat)
    requires first < |checkedAt| && checkedAt[first] == began
    ensures RoundsRightly(alive, checkedAt, first, first, pids, began, deadline)
  {
  }

  lemma RoundAdded(alive: nat -> set<Pid>, checkedAt: seq<nat>, first: nat, last: nat, pids: seq<Pid>, began: nat,
                   deadline: nat, now: nat)
    requires last + 1 == |checkedAt| && RoundsRightly(alive, checkedAt, first, last, pids, began, deadline)
    requires StillAlive(alive, last, pids) != [] && checkedAt[last] <= deadline
    requires now == NextRound(checkedAt[last], deadline)
    ensures RoundsRightly(alive, checkedAt + [now], first, last + 1, pids, began, deadline)
  {
    hide StillAlive, NextRound;
    forall i | first <= i < last + 1 ensures GoesOn(alive, checkedAt + [now], i, pids, deadline) {
      assert i < last ==> GoesOn(alive, checkedAt, i, pids, deadline);
    }
  }

  // stopLauncherChildren: SIGTERM to every descendant, and after CHILD_GRACE_MS SIGKILL to exactly
  // those of them that the round of checks made then finds alive.
  method StopLauncherChildren(host: Host, windows: bool, self: Pid)
    returns (ghost leftovers: seq<Pid>, ghost killed: seq<Pid>)
    requires host.Valid()
    modifies host`now, host`looks, host`lookedAt, host`checks, host`checkedAt, host`signals
    ensures host.Valid() && old(host.now) <= host.now <= old(host.now) + CHILD_GRACE_MS
    ensures windows ==> leftovers == []
    ensures !windows ==> Distinct(leftovers)
    ensures !windows ==>
      forall pid :: pid in leftovers <==> pid != self && InTree(host.world(old(host.looks)).table, {self}, pid)
    ensures host.signals == old(host.signals) + Each(leftovers, SIGTERM, old(host.now)) + Each(killed, SIGKILL, host.now)
    ensures leftovers == [] ==> killed == [] && host.now == old(host.now) && host.checks == old(host.checks)
    // The last round decides: it found nobody alive, or it was made when the time was up.
    ensures leftovers != [] ==>
      && old(host.checks) < host.checks
      && RoundsRightly(host.alive, host.checkedAt, old(host.checks), host.checks - 1, leftovers, old(host.now),
                       old(host.now) + CHILD_GRACE_MS)
      && host.checkedAt[host.checks - 1] == host.now
      && killed == StillAlive(host.alive, host.checks - 1, leftovers)
      && (killed != [] ==>
            && old(host.checks) < host.checks - 1
            && host.checkedAt[host.checks - 2] == host.now == old(host.now) + CHILD_GRACE_MS)
  {
    hide InTree, RoundsRightly, StillAlive;
    leftovers, killed := [], [];
    assert Each([], SIGTERM, host.now) == [];
    assert Each([], SIGKILL, host.now) == [];
    if windows {
      return;
    }
    var look := host.ListProcesses();
    var tree := Tree(look.table, [self]);
    assert RootSet([self]) == {self};
    var mine := Filter(tree, pid => pid != self);
    leftovers := mine;
    if mine == [] {
      return;
    }
    host.SignalAll(mine, SIGTERM);
    killed := KillAfterGrace(host, mine);
  }

  // The wait for the children to go, and the kill of those that have not.
  method KillAfterGrace(host: Host, pids: seq<Pid>) returns (rest: seq<Pid>)
    requires host.Valid()
    modifies host`now, host`checks, host`checkedAt, host`signals
    ensures host.Valid() && old(host.now) <= host.now <= old(host.now) + CHILD_GRACE_MS
    ensures host.signals == old(host.signals) + Each(rest, SIGKILL, host.now)
    ensures old(host.checks) < host.checks
    ensures RoundsRightly(host.alive, host.checkedAt, old(host.checks), host.checks - 1, pids, old(host.now),
                          old(host.now) + CHILD_GRACE_MS)
    ensures host.checkedAt[host.checks - 1] == host.now
    ensures rest == StillAlive(host.alive, host.checks - 1, pids)
    ensures rest != [] ==>
      && old(host.checks) < host.checks - 1
      && host.checkedAt[host.checks - 2] == host.now == old(host.now) + CHILD_GRACE_MS
  {
    hide StillAlive, RoundsRightly;
    ghost var first, began := host.checks, host.now;
    var deadline := host.now + CHILD_GRACE_MS;
    rest := host.CheckAlive(pids);
    assert RoundsRightly(host.alive, host.checkedAt, first, first, pids, began, deadline) by {
      FirstRound(host.alive, host.checkedAt, first, pids, began, deadline);
    }
    while rest != [] && host.now < deadline
      invariant host.Valid() && old(host.now) <= host.now <= deadline && old(host.checks) < host.checks
      invariant RoundsRightly(host.alive, host.checkedAt, old(host.checks), host.checks - 1, pids, old(host.now), deadline)
      invariant host.checkedAt[host.checks - 1] == host.now && rest == StillAlive(host.alive, host.checks - 1, pids)
      invariant host.signals == old(host.signals)
      decreases deadline - host.now
    {
      ghost var before := host.checkedAt;
      host.Sleep(NextPoll(host.now, deadline) - host.now);
      rest := host.CheckAlive(pids);
      RoundAdded(host.alive, before, first, |before| - 1, pids, began, deadline, host.now);
    }
    assert Each([], SIGKILL, host.now) == [];
    if rest == [] {
      return;
    }
    ghost var before := host.checkedAt;
    rest := host.CheckAlive(pids);
    RoundAdded(host.alive, before, first, |before| - 1, pids, began, deadline, host.now);
    host.SignalAll(rest, SIGKILL);
  }
}
