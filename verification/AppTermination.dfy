// scripts/lib/dev-electron-launcher.terminate.ts: snapshots of the app tree, the graceful wait and
// the forced kill.
module AppTermination {
  import opened Prelude
  import opened ProcessTree
  import opened LauncherModel
  import opened LauncherHost
  import opened Launcher

  class AppEntry {
    const pid: Option<Pid>
    const exitSignal: bool     // a signal, not an exit code, ended it
    var snapshot: map<Pid, string>
    var directChildren: seq<Pid>

    ghost predicate Valid()
      reads this
    {
      Distinct(directChildren)
    }

    constructor (pid: Option<Pid>, exitSignal: bool)
      ensures Valid() && this.pid == pid && this.exitSignal == exitSignal && snapshot == map[] && directChildren == []
    {
      this.pid, this.exitSignal, snapshot, directChildren := pid, exitSignal, map[], [];
    }
  }

  // The start times of the app's whole tree, as `table` shows them.
  ghost predicate SnapshotOf(snapshot: map<Pid, string>, table: ProcessTable, pid: Pid) {
    && (forall m :: m in snapshot <==> InTree(table, {pid}, m))
    && (forall m :: m in snapshot ==> m in table && snapshot[m] == table[m].started)
  }

  lemma TreeInTable(table: ProcessTable, pid: Pid, m: Pid)
    requires pid in table && InTree(table, {pid}, m)
    ensures m in table
  {
    var path :| path != [] && path[0] in {pid} && path[|path| - 1] == m && Lineage(table, path);
    if |path| > 1 {
      assert IsChild(table, path[|path| - 2], path[|path| - 1]);
    }
  }

  // The app's whole tree, and its direct children.
  method Subtree(table: ProcessTable, pid: Pid) returns (tree: seq<Pid>, direct: seq<Pid>)
    requires pid in table
    ensures forall m :: m in tree <==> InTree(table, {pid}, m)
    ensures forall m :: m in tree ==> m in table
    ensures Distinct(direct) && forall c :: c in direct <==> IsChild(table, pid, c)
  {
    var children := ChildrenByParent(table);
    tree := TreeIn(children, table, [pid]);
    assert RootSet([pid]) == {pid};
    forall m | m in tree ensures m in table {
      TreeInTable(table, pid, m);
    }
    direct := Kids(children, pid);
  }

  method CaptureSnapshot(entry: AppEntry, table: ProcessTable)
    requires entry.Valid()
    modifies entry
    ensures entry.Valid()
    ensures entry.pid == None || entry.pid.value !in table ==>
      entry.snapshot == old(entry.snapshot) && entry.directChildren == old(entry.directChildren)
    ensures entry.pid.Some? && entry.pid.value in table ==>
      && SnapshotOf(entry.snapshot, table, entry.pid.value)
      && forall c :: c in entry.directChildren <==> IsChild(table, entry.pid.value, c)
  {
    if entry.pid == None || entry.pid.value !in table {
      return;
    }
    var tree, children := Subtree(table, entry.pid.value);
    entry.snapshot := map m | m in tree :: table[m].started;
    entry.directChildren := children;
  }

  // --- Which processes are the launcher's to end ---

  // Snapshotted PIDs that still name the same process.
  function Tracked(snapshot: map<Pid, string>, table: ProcessTable): map<Pid, string> {
    map m | m in snapshot && m in table && table[m].started == snapshot[m] :: snapshot[m]
  }

  // A tracked process that has not ended. A zombie has, and so has an app whose exit was delivered.
  predicate Running(tracked: map<Pid, string>, app: Pid, look: Look, m: Pid) {
    && m in tracked
    && !(m == app && look.appExited)
    && m in look.table && look.table[m].started == tracked[m] && !look.table[m].zombie
  }

  function Survivors(tracked: map<Pid, string>, app: Pid, look: Look): set<Pid> {
    set m | m in tracked && Running(tracked, app, look, m)
  }

  // Something tracked still runs, but nothing of the backend's tree does.
  predicate BackendDrained(tracked: map<Pid, string>, app: Pid, backendTree: set<Pid>, look: Look) {
    backendTree != {} && Survivors(tracked, app, look) != {} && Survivors(tracked, app, look) !! backendTree
  }

  // What must be killed: survivors and their live descendants, except a tracked PID that has been
  // reused since.
  ghost predicate MustDie(tracked: map<Pid, string>, app: Pid, look: Look, m: Pid) {
    && InTree(look.table, Survivors(tracked, app, look), m)
    && MayKill(tracked, look, m)
  }

  predicate MayKill(tracked: map<Pid, string>, look: Look, m: Pid) {
    m in look.table && !look.table[m].zombie && (m in tracked ==> tracked[m] == look.table[m].started)
  }

  // Every tracked process still running is killed; a zombie or a reused PID never is; whatever else
  // is killed descends from a survivor.
  lemma WhoDies(tracked: map<Pid, string>, app: Pid, look: Look, m: Pid)
    ensures m in Survivors(tracked, app, look) ==> MustDie(tracked, app, look, m)
    ensures m in Survivors(tracked, app, look) <==>
      && m in tracked && m in look.table && look.table[m].started == tracked[m]
      && !look.table[m].zombie && !(m == app && look.appExited)
    ensures m in look.table && look.table[m].zombie ==> !MustDie(tracked, app, look, m)
    ensures m in tracked && m in look.table && look.table[m].started != tracked[m] ==> !MustDie(tracked, app, look, m)
    ensures MustDie(tracked, app, look, m) && m !in Survivors(tracked, app, look) ==>
      m in look.table && IsLiveDescendant(tracked, app, look, m)
    ensures InTree(look.table, Survivors(tracked, app, look), m) && m in look.table && !look.table[m].zombie ==>
      (m !in tracked || tracked[m] == look.table[m].started <==> MustDie(tracked, app, look, m))
  {
    if Running(tracked, app, look, m) {
      RootInTree(look.table, Survivors(tracked, app, look), m);
    }
    if MustDie(tracked, app, look, m) && !Running(tracked, app, look, m) {
      var path :|
        path != [] && path[0] in Survivors(tracked, app, look) && path[|path| - 1] == m && Lineage(look.table, path);
      assert |path| > 1;
      var up := path[..|path| - 1];
      assert Lineage(look.table, up) && up[|up| - 1] == look.table[m].ppid by {
        assert IsChild(look.table, path[|path| - 2], path[|path| - 1]);
      }
    }
  }

  ghost predicate IsLiveDescendant(tracked: map<Pid, string>, app: Pid, look: Look, m: Pid)
    requires m in look.table
  {
    !look.table[m].zombie && InTree(look.table, Survivors(tracked, app, look), look.table[m].ppid)
  }

  // --- Waiting ---

  // Two of the looks from `from` up to `to`, at least APP_QUIT_GRACE_MS apart, both showed the
  // backend drained.
  ghost predicate SeenDrained(world: nat -> Look, lookedAt: seq<nat>, from: nat, to: nat,
                              tracked: map<Pid, string>, app: Pid, backendTree: set<Pid>)
    requires to <= |lookedAt|
  {
    exists i, j :: from <= i <= j < to && lookedAt[i] + APP_QUIT_GRACE_MS <= lookedAt[j] &&
      BackendDrained(tracked, app, backendTree, world(i)) && BackendDrained(tracked, app, backendTree, world(j))
  }

  // The looks of a `waitFor` loop: one at once, then one every STOP_POLL_MS and at the end of the budget.
  ghost predicate Polled(lookedAt: seq<nat>, first: nat, last: nat, began: nat, budget: nat)
    requires last < |lookedAt|
  {
    && first <= last
    && (forall i :: first <= i <= last ==> lookedAt[i] == PollTime(began, budget, i - first))
    && (forall i :: first <= i < last ==> lookedAt[i] < began + budget)
  }

  // `settled()` at the i-th look, if the wait's first look was `from`.
  ghost predicate SettledAt(world: nat -> Look, lookedAt: seq<nat>, from: nat, i: nat,
                            tracked: map<Pid, string>, app: Pid, backendTree: set<Pid>)
    requires i < |lookedAt|
  {
    || Survivors(tracked, app, world(i)) == {}
    || (BackendDrained(tracked, app, backendTree, world(i)) &&
        exists j :: from <= j <= i && lookedAt[j] + APP_QUIT_GRACE_MS <= lookedAt[i] &&
          BackendDrained(tracked, app, backendTree, world(j)))
  }

  // The next look of a `waitFor` loop is due.
  ghost predicate LookDue(lookedAt: seq<nat>, first: nat, now: nat, began: nat, budget: nat) {
    if |lookedAt| <= first then |lookedAt| == first && now == began
    else
      var last := |lookedAt| - 1;
      Polled(lookedAt, first, last, began, budget) && lookedAt[last] < began + budget
      && now == NextPoll(lookedAt[last], began + budget)
  }

  lemma LookIsMade(lookedAt: seq<nat>, first: nat, now: nat, began: nat, budget: nat)
    requires LookDue(lookedAt, first, now, began, budget)
    ensures Polled(lookedAt + [now], first, |lookedAt|, began, budget) && began <= now <= began + budget
  {
    if |lookedAt| > first {
      NextPollTime(began, budget, |lookedAt| - 1 - first);
    }
  }

  // What `backendDrainedAt` says: the time of the first look that showed the backend drained.
  ghost predicate IsDrainedAt(world: nat -> Look, lookedAt: seq<nat>, from: nat, drainedAt: Option<nat>,
                              tracked: map<Pid, string>, app: Pid, backendTree: set<Pid>)
  {
    && (forall j :: from <= j < |lookedAt| && BackendDrained(tracked, app, backendTree, world(j)) ==>
          drainedAt.Some? && drainedAt.value <= lookedAt[j])
    && (drainedAt.Some? ==>
          exists j :: from <= j < |lookedAt| && lookedAt[j] == drainedAt.value &&
            BackendDrained(tracked, app, backendTree, world(j)))
  }

  lemma DrainedAtNext(world: nat -> Look, lookedAt: seq<nat>, from: nat, drainedAt: Option<nat>, now: nat,
                      tracked: map<Pid, string>, app: Pid, backendTree: set<Pid>)
    requires IsDrainedAt(world, lookedAt, from, drainedAt, tracked, app, backendTree) && from <= |lookedAt|
    requires forall j :: from <= j < |lookedAt| ==> lookedAt[j] <= now
    ensures var drained := BackendDrained(tracked, app, backendTree, world(|lookedAt|));
      IsDrainedAt(world, lookedAt + [now], from, if drained && drainedAt == None then Some(now) else drainedAt,
                  tracked, app, backendTree)
  {
    hide BackendDrained;
    var after := lookedAt + [now];
    assert after[|lookedAt|] == now && forall j :: 0 <= j < |lookedAt| ==> after[j] == lookedAt[j];
  }

  lemma SettledIs(world: nat -> Look, lookedAt: seq<nat>, from: nat, drainedAt: Option<nat>,
                  tracked: map<Pid, string>, app: Pid, backendTree: set<Pid>)
    requires IsDrainedAt(world, lookedAt, from, drainedAt, tracked, app, backendTree) && from < |lookedAt|
    requires forall j :: from <= j < |lookedAt| ==> lookedAt[j] <= lookedAt[|lookedAt| - 1]
    ensures var last := |lookedAt| - 1;
      SettledAt(world, lookedAt, from, last, tracked, app, backendTree) <==>
        || Survivors(tracked, app, world(last)) == {}
        || (BackendDrained(tracked, app, backendTree, world(last)) &&
            drainedAt.value + APP_QUIT_GRACE_MS <= lookedAt[last])
  {
    hide BackendDrained, Survivors;
  }

  // Looking again does not change what earlier looks showed.
  lemma SettledStays(world: nat -> Look, before: seq<nat>, after: seq<nat>, from: nat, i: nat,
                     tracked: map<Pid, string>, app: Pid, backendTree: set<Pid>)
    requires before <= after && i < |before|
    ensures SettledAt(world, before, from, i, tracked, app, backendTree)
       <==> SettledAt(world, after, from, i, tracked, app, backendTree)
  {
    hide BackendDrained, Survivors;
  }

  lemma SettledIsSeen(world: nat -> Look, lookedAt: seq<nat>, from: nat, i: nat,
                      tracked: map<Pid, string>, app: Pid, backendTree: set<Pid>)
    requires i < |lookedAt| && SettledAt(world, lookedAt, from, i, tracked, app, backendTree)
    ensures Survivors(tracked, app, world(i)) == {} ||
            SeenDrained(world, lookedAt, from, i + 1, tracked, app, backendTree)
  {
    hide BackendDrained, Survivors;
  }

  // No look from `from` up to `to` shows it settled.
  ghost predicate NotSettled(world: nat -> Look, lookedAt: seq<nat>, from: nat, to: nat,
                             tracked: map<Pid, string>, app: Pid, backendTree: set<Pid>)
    requires to <= |lookedAt|
  {
    forall i :: from <= i < to ==> !SettledAt(world, lookedAt, from, i, tracked, app, backendTree)
  }

  lemma NotSettledStays(world: nat -> Look, before: seq<nat>, after: seq<nat>, from: nat, to: nat,
                        tracked: map<Pid, string>, app: Pid, backendTree: set<Pid>)
    requires before <= after && to <= |before|
    requires NotSettled(world, before, from, to, tracked, app, backendTree)
    ensures NotSettled(world, after, from, to, tracked, app, backendTree)
  {
    hide SettledAt;
    forall i | from <= i < to ensures !SettledAt(world, after, from, i, tracked, app, backendTree) {
      SettledStays(world, before, after, from, i, tracked, app, backendTree);
    }
  }

  // `await waitFor(host, settled, GRACEFUL_STOP_MS)`: ends with the first look that shows it settled, or
  // with its budget.
  method WaitUntilSettled(host: Host, tracked: map<Pid, string>, app: Pid, backendTree: set<Pid>)
    requires host.Valid()
    modifies host`now, host`looks, host`lookedAt
    ensures host.Valid() && old(host.now) <= host.now <= old(host.now) + GRACEFUL_STOP_MS
    ensures old(host.looks) < host.looks && host.lookedAt[host.looks - 1] == host.now
    ensures Polled(host.lookedAt, old(host.looks), host.looks - 1, old(host.now), GRACEFUL_STOP_MS)
    ensures NotSettled(host.world, host.lookedAt, old(host.looks), host.looks - 1, tracked, app, backendTree)
    ensures
      || host.now == old(host.now) + GRACEFUL_STOP_MS
      || SettledAt(host.world, host.lookedAt, old(host.looks), host.looks - 1, tracked, app, backendTree)
  {
    hide Running, Survivors, Polled, SettledAt, IsDrainedAt;
    ghost var from, began := host.looks, host.now;
    var deadline := host.now + GRACEFUL_STOP_MS;
    var drainedAt: Option<nat> := None;
    NothingDrained(host.world, host.lookedAt, tracked, app, backendTree);
    while true
      invariant host.Valid() && from <= host.looks && began <= host.now <= deadline
      invariant LookDue(host.lookedAt, from, host.now, began, GRACEFUL_STOP_MS)
      invariant IsDrainedAt(host.world, host.lookedAt, from, drainedAt, tracked, app, backendTree)
      invariant NotSettled(host.world, host.lookedAt, from, host.looks, tracked, app, backendTree)
      decreases deadline - host.now
    {
      ghost var before := host.lookedAt;
      LookIsMade(before, from, host.now, began, GRACEFUL_STOP_MS);
      DrainedAtNext(host.world, before, from, drainedAt, host.now, tracked, app, backendTree);
      var look := host.ListProcesses();
      NotSettledStays(host.world, before, host.lookedAt, from, host.looks - 1, tracked, app, backendTree);
      var left := Survivors(tracked, app, look);
      var drained := left != {} && backendTree != {} && left !! backendTree;
      if drained && drainedAt == None {
        drainedAt := Some(host.now);
      }
      SettledIs(host.world, host.lookedAt, from, drainedAt, tracked, app, backendTree);
      if left == {} || (drained && host.now - drainedAt.value >= APP_QUIT_GRACE_MS) || deadline - host.now <= 0 {
        return;
      }
      host.Sleep(NextPoll(host.now, deadline) - host.now);
    }
  }

  lemma NothingDrained(world: nat -> Look, lookedAt: seq<nat>, tracked: map<Pid, string>, app: Pid,
                       backendTree: set<Pid>)
    ensures IsDrainedAt(world, lookedAt, |lookedAt|, None, tracked, app, backendTree)
    ensures NotSettled(world, lookedAt, |lookedAt|, |lookedAt|, tracked, app, backendTree)
  {
  }

  // Drained is a backend of which nothing tracked still runs while something else tracked does.
  lemma DrainedExactly(tracked: map<Pid, string>, app: Pid, backendTree: set<Pid>, look: Look)
    ensures BackendDrained(tracked, app, backendTree, look) <==>
      && backendTree != {} && (exists m :: m in Survivors(tracked, app, look))
      && forall m :: m in Survivors(tracked, app, look) ==> m !in backendTree
  {
    hide Survivors;
    var left := Survivors(tracked, app, look);
    if left != {} {
      var some := SomeElement(left);
    }
    if forall m :: m in left ==> m !in backendTree {
      assert left * backendTree == {};
    }
  }

  // What a killed process still leaves: `remaining()` in the source.
  function Remaining(killed: seq<Pid>, app: Pid, look: Look): set<Pid> {
    set m | m in killed && m in look.table && !look.table[m].zombie && !(m == app && look.appExited)
  }

  // A killed process remains until it is gone from the table, a zombie, or the app and its exit is known.
  lemma RemainsExactly(killed: seq<Pid>, app: Pid, look: Look, m: Pid)
    requires m in killed
    ensures m !in Remaining(killed, app, look) <==>
      m !in look.table || look.table[m].zombie || (m == app && look.appExited)
  {
  }

  // Ends with the first look at which nothing killed remains, or with its budget.
  method WaitUntilGone(host: Host, killed: seq<Pid>, app: Pid)
    requires host.Valid()
    modifies host`now, host`looks, host`lookedAt
    ensures host.Valid() && old(host.now) <= host.now <= old(host.now) + FORCE_SETTLE_MS
    ensures old(host.looks) < host.looks && old(host.lookedAt) <= host.lookedAt && host.lookedAt[host.looks - 1] == host.now
    ensures Polled(host.lookedAt, old(host.looks), host.looks - 1, old(host.now), FORCE_SETTLE_MS)
    ensures forall i :: old(host.looks) <= i < host.looks - 1 ==> Remaining(killed, app, host.world(i)) != {}
    ensures host.now == old(host.now) + FORCE_SETTLE_MS || Remaining(killed, app, host.world(host.looks - 1)) == {}
  {
    hide Polled, Remaining;
    ghost var from, began := host.looks, host.now;
    var deadline := host.now + FORCE_SETTLE_MS;
    while true
      invariant host.Valid() && from <= host.looks && began <= host.now <= deadline
      invariant old(host.lookedAt) <= host.lookedAt && LookDue(host.lookedAt, from, host.now, began, FORCE_SETTLE_MS)
      invariant forall i :: from <= i < host.looks ==> Remaining(killed, app, host.world(i)) != {}
      decreases deadline - host.now
    {
      LookIsMade(host.lookedAt, from, host.now, began, FORCE_SETTLE_MS);
      var look := host.ListProcesses();
      if Remaining(killed, app, look) == {} || deadline - host.now <= 0 {
        return;
      }
      host.Sleep(NextPoll(host.now, deadline) - host.now);
    }
  }

  // Windows: wait for the exit event after taskkill.
  method WaitUntilExited(host: Host)
    requires host.Valid()
    modifies host`now, host`looks, host`lookedAt
    ensures host.Valid() && old(host.now) <= host.now <= old(host.now) + GRACEFUL_STOP_MS
    ensures old(host.looks) < host.looks && host.lookedAt[host.looks - 1] == host.now
    ensures ExitAwaited(host.world, host.lookedAt, old(host.looks), old(host.now))
  {
    hide Polled;
    ghost var from, began := host.looks, host.now;
    var deadline := host.now + GRACEFUL_STOP_MS;
    while true
      invariant host.Valid() && from <= host.looks && began <= host.now <= deadline
      invariant LookDue(host.lookedAt, from, host.now, began, GRACEFUL_STOP_MS)
      invariant forall i :: from <= i < host.looks ==> !host.world(i).appExited
      decreases deadline - host.now
    {
      LookIsMade(host.lookedAt, from, host.now, began, GRACEFUL_STOP_MS);
      var look := host.ListProcesses();
      if look.appExited || deadline - host.now <= 0 {
        return;
      }
      host.Sleep(NextPoll(host.now, deadline) - host.now);
    }
  }

  // --- terminateAppTree ---

  // What a termination found and did.
  datatype Report = Report(tracked: map<Pid, string>, asked: seq<Pid>, backendTree: set<Pid>, from: nat, killLook: nat,
                           killAt: nat, killed: seq<Pid>)

  // Who gets a SIGTERM, once each. A stop asks only the app. A reap asks those of the app's own children that
  // are still the same processes, if a signal ended the app.
  ghost predicate AsksRightly(asked: seq<Pid>, entry: AppEntry, mode: Mode, tracked: map<Pid, string>)
    reads entry
  {
    && Distinct(asked)
    && (mode == Stop ==> entry.pid.Some? && asked == [entry.pid.value])
    && (mode == Reap ==>
          forall m :: m in asked <==> entry.exitSignal && m in entry.directChildren && m in tracked)
  }

  // `before` is the last snapshot taken while the app ran, `now` the one the termination uses.
  ghost predicate TrackedRightly(tracked: map<Pid, string>, now: map<Pid, string>, before: map<Pid, string>, app: Pid,
                                 look: Look) {
    && (forall m :: m in tracked <==> m in now && m in look.table && look.table[m].started == now[m])
    && (forall m :: m in tracked ==> tracked[m] == now[m])
    && (if look.appExited || app !in look.table then now == before else SnapshotOf(now, look.table, app))
  }

  ghost predicate BackendRightly(backendTree: set<Pid>, table: ProcessTable, backend: Option<Pid>) {
    forall m :: m in backendTree <==> backend.Some? && InTree(table, {backend.value}, m)
  }

  ghost predicate KillsRightly(report: Report, world: nat -> Look, app: Pid) {
    && Distinct(report.killed)
    && (forall m :: m in report.killed <==> MustDie(report.tracked, app, world(report.killLook), m))
  }

  predicate InTime(report: Report, began: nat, ended: nat) {
    began <= report.killAt <= began + GRACEFUL_STOP_MS && report.killAt <= ended <= report.killAt + FORCE_SETTLE_MS
  }

  // After a kill the wait ends with its budget, or with a look at which nothing killed remains.
  ghost predicate EndsRightly(report: Report, world: nat -> Look, app: Pid, lookedAt: seq<nat>, ended: nat) {
    if report.killed == [] then ended == report.killAt && |lookedAt| == report.killLook + 1
    else
      && report.killLook + 1 < |lookedAt|
      && SettlesAfter(report.killed, world, app, lookedAt, report.killLook, report.killAt)
      && lookedAt[|lookedAt| - 1] == ended
      && (ended == report.killAt + FORCE_SETTLE_MS || Remaining(report.killed, app, world(|lookedAt| - 1)) == {})
  }

  // The looks before the kill: polled from the start, none but the last of them settled, and the last
  // settled unless the budget is spent.
  ghost predicate WaitsRightly(report: Report, world: nat -> Look, app: Pid, lookedAt: seq<nat>, began: nat)
    requires report.from < report.killLook < |lookedAt|
  {
    && Polled(lookedAt, report.from, report.killLook - 1, began, GRACEFUL_STOP_MS)
    && lookedAt[report.killLook - 1] == report.killAt
    && NotSettled(world, lookedAt, report.from, report.killLook - 1, report.tracked, app, report.backendTree)
    && (report.killAt == began + GRACEFUL_STOP_MS ||
        SettledAt(world, lookedAt, report.from, report.killLook - 1, report.tracked, app, report.backendTree))
  }

  // The looks after a kill, up to the first that shows nothing killed left.
  ghost predicate SettlesAfter(killed: seq<Pid>, world: nat -> Look, app: Pid, lookedAt: seq<nat>, killLook: nat,
                               killAt: nat)
    requires killLook + 1 < |lookedAt|
  {
    && Polled(lookedAt, killLook + 1, |lookedAt| - 1, killAt, FORCE_SETTLE_MS)
    && forall i :: killLook + 1 <= i < |lookedAt| - 1 ==> Remaining(killed, app, world(i)) != {}
  }

  // Windows: the looks up to the first after the exit event, or to the end of the budget.
  ghost predicate ExitAwaited(world: nat -> Look, lookedAt: seq<nat>, from: nat, began: nat)
    requires from < |lookedAt|
  {
    var last := |lookedAt| - 1;
    && Polled(lookedAt, from, last, began, GRACEFUL_STOP_MS)
    && (forall i :: from <= i < last ==> !world(i).appExited)
    && (lookedAt[last] == began + GRACEFUL_STOP_MS || world(last).appExited)
  }

  // A process that has stopped running does not run again.
  ghost predicate StaysStopped(world: nat -> Look, tracked: map<Pid, string>, app: Pid) {
    forall i: nat, j: nat, m :: i <= j && Running(tracked, app, world(j), m) ==> Running(tracked, app, world(i), m)
  }

  method TerminateAppTree(host: Host, entry: AppEntry, mode: Mode, windows: bool, findBackend: seq<Pid> -> Option<Pid>)
    returns (ghost report: Report)
    requires host.Valid() && entry.Valid()
    modifies host`now, host`looks, host`lookedAt, host`signals, entry
    ensures host.Valid() && entry.Valid() && old(host.now) <= host.now <= old(host.now) + GRACEFUL_STOP_MS + FORCE_SETTLE_MS
    // Nothing to do.
    ensures entry.pid == None || (windows && mode == Reap) ==> host.signals == old(host.signals) && host.now == old(host.now)
    ensures entry.pid.Some? && windows && mode == Stop ==>
      && host.signals == old(host.signals) + [Sent(entry.pid.value, TREE_KILL, old(host.now))]
      && old(host.looks) < host.looks && host.lookedAt[host.looks - 1] == host.now
      && ExitAwaited(host.world, host.lookedAt, old(host.looks), old(host.now))
    // The processes tracked are those of the snapshot, refreshed while the app still runs.
    ensures entry.pid.Some? && !windows ==>
      TrackedRightly(report.tracked, entry.snapshot, old(entry.snapshot), entry.pid.value, host.world(old(host.looks)))
    ensures entry.pid.Some? && !windows && report.tracked == map[] ==>
      host.signals == old(host.signals) && host.now == old(host.now)
    // One SIGTERM at most to each, then one SIGKILL to each that must die, all at one time.
    ensures entry.pid.Some? && !windows && report.tracked != map[] ==>
      && host.signals == old(host.signals)
           + Each(report.asked, SIGTERM, old(host.now)) + Each(report.killed, SIGKILL, report.killAt)
      && AsksRightly(report.asked, entry, mode, report.tracked)
      && KillsRightly(report, host.world, entry.pid.value)
      && InTime(report, old(host.now), host.now)
    // Not before the graceful budget is spent, unless the backend has been seen drained.
    ensures entry.pid.Some? && !windows && report.tracked != map[] ==>
      && old(host.looks) < report.from < report.killLook < |host.lookedAt|
      && host.lookedAt[report.killLook] == report.killAt
      && WaitsRightly(report, host.world, entry.pid.value, host.lookedAt, old(host.now))
      && EndsRightly(report, host.world, entry.pid.value, host.lookedAt, host.now)
      && (report.killed != [] && StaysStopped(host.world, report.tracked, entry.pid.value) ==>
            || report.killAt == old(host.now) + GRACEFUL_STOP_MS
            || SeenDrained(host.world, host.lookedAt, report.from, report.killLook, report.tracked, entry.pid.value,
                           report.backendTree))
    ensures entry.pid.Some? && !windows && report.tracked != map[] ==>
      BackendRightly(report.backendTree, host.world(old(host.looks)).table,
                     if mode == Stop then findBackend(entry.directChildren) else None)
  {
    hide TrackedRightly, AsksRightly, BackendRightly, KillsRightly, WaitsRightly, EndsRightly, ExitAwaited, SeenDrained,
         StaysStopped, Each;
    report := Report(map[], [], {}, 0, 0, host.now, []);
    if entry.pid == None {
      return;
    }
    var pid := entry.pid.value;
    if windows {
      if mode == Reap {
        return;
      }
      host.SignalQuietly(pid, TREE_KILL);
      WaitUntilExited(host);
      return;
    }
    var tracked, backendTree, asked := BeginPosix(host, entry, mode, findBackend);
    report := report.(tracked := tracked);
    if tracked == map[] {
      return;
    }
    report := DrainThenKill(host, tracked, asked, pid, backendTree);
  }

  // What a termination does before its first wait.
  method BeginPosix(host: Host, entry: AppEntry, mode: Mode, findBackend: seq<Pid> -> Option<Pid>)
    returns (tracked: map<Pid, string>, backendTree: set<Pid>, ghost asked: seq<Pid>)
    requires host.Valid() && entry.Valid() && entry.pid.Some?
    modifies host`looks, host`lookedAt, host`signals, entry
    ensures host.Valid() && entry.Valid() && host.looks == old(host.looks) + 1
    ensures TrackedRightly(tracked, entry.snapshot, old(entry.snapshot), entry.pid.value, host.world(old(host.looks)))
    ensures tracked == map[] ==> host.signals == old(host.signals)
    ensures tracked != map[] ==>
      && host.signals == old(host.signals) + Each(asked, SIGTERM, host.now)
      && AsksRightly(asked, entry, mode, tracked)
      && BackendRightly(backendTree, host.world(old(host.looks)).table,
                        if mode == Stop then findBackend(entry.directChildren) else None)
  {
    var look := host.ListProcesses();
    if !look.appExited {
      CaptureSnapshot(entry, look.table);
    }
    tracked := Tracked(entry.snapshot, look.table);
    backendTree, asked := {}, [];
    if tracked == map[] {
      return;
    }
    backendTree := BackendTree(look.table, if mode == Stop then findBackend(entry.directChildren) else None);
    if mode == Stop {
      asked := [entry.pid.value];
      host.SignalQuietly(entry.pid.value, SIGTERM);
    } else if entry.exitSignal {
      var mine := Filter(entry.directChildren, m => m in tracked);
      asked := mine;
      host.SignalAll(mine, SIGTERM);
    }
  }

  // The graceful wait, then the forced kill of what is left.
  method DrainThenKill(host: Host, tracked: map<Pid, string>, ghost asked: seq<Pid>, app: Pid, backendTree: set<Pid>)
    returns (ghost report: Report)
    requires host.Valid()
    modifies host`now, host`looks, host`lookedAt, host`signals
    ensures host.Valid() && report.tracked == tracked && report.asked == asked && report.backendTree == backendTree
    ensures host.signals == old(host.signals) + Each(report.killed, SIGKILL, report.killAt)
    ensures KillsRightly(report, host.world, app)
    ensures report.from == old(host.looks) && InTime(report, old(host.now), host.now)
    // Who is killed is read off the table at the moment of the kill.
    ensures report.from < report.killLook < |host.lookedAt| && host.lookedAt[report.killLook] == report.killAt
    ensures WaitsRightly(report, host.world, app, host.lookedAt, old(host.now))
    ensures EndsRightly(report, host.world, app, host.lookedAt, host.now)
    ensures report.killed != [] && StaysStopped(host.world, tracked, app) ==>
      || report.killAt == old(host.now) + GRACEFUL_STOP_MS
      || SeenDrained(host.world, host.lookedAt, report.from, report.killLook, tracked, app, backendTree)
  {
    hide InTree, Running, BackendDrained, MustDie, Remaining, StaysStopped, SeenDrained, Survivors, Each, Polled,
         NotSettled, SettledAt, SettlesAfter;
    ghost var from := host.looks;
    WaitUntilSettled(host, tracked, app, backendTree);
    ghost var waited, killLook, killAt := host.lookedAt, host.looks, host.now;
    if SettledAt(host.world, waited, from, killLook - 1, tracked, app, backendTree) {
      SettledIsSeen(host.world, waited, from, killLook - 1, tracked, app, backendTree);
    }
    if StaysStopped(host.world, tracked, app) {
      StoppedBefore(host.world, tracked, app, killLook - 1, killLook);
    }
    var killed := KillSurvivors(host, tracked, app);
    report := Report(tracked, asked, backendTree, from, killLook, killAt, killed);
    LaterLooks(host.world, waited, host.lookedAt, from, killLook, tracked, app, backendTree);
    PolledStays(waited, host.lookedAt, from, killLook - 1, old(host.now), GRACEFUL_STOP_MS);
    SettledStays(host.world, waited, host.lookedAt, from, killLook - 1, tracked, app, backendTree);
    NotSettledStays(host.world, waited, host.lookedAt, from, killLook - 1, tracked, app, backendTree);
  }

  lemma PolledStays(before: seq<nat>, after: seq<nat>, first: nat, last: nat, began: nat, budget: nat)
    requires before <= after && last < |before| && Polled(before, first, last, began, budget)
    ensures Polled(after, first, last, began, budget)
  {
  }

  // What is left by a last look is killed at once.
  method KillSurvivors(host: Host, tracked: map<Pid, string>, app: Pid) returns (killed: seq<Pid>)
    requires host.Valid()
    modifies host`now, host`looks, host`lookedAt, host`signals
    ensures host.Valid() && old(host.now) <= host.now <= old(host.now) + FORCE_SETTLE_MS
    ensures host.signals == old(host.signals) + Each(killed, SIGKILL, old(host.now))
    ensures Distinct(killed) && forall m :: m in killed <==> MustDie(tracked, app, host.world(old(host.looks)), m)
    ensures killed == [] <==> Survivors(tracked, app, host.world(old(host.looks))) == {}
    ensures old(host.looks) < host.looks && old(host.lookedAt) + [old(host.now)] <= host.lookedAt
    ensures killed == [] ==> host.now == old(host.now) && host.looks == old(host.looks) + 1
    ensures killed != [] ==>
      && old(host.looks) + 1 < host.looks
      && SettlesAfter(killed, host.world, app, host.lookedAt, old(host.looks), old(host.now))
      && host.lookedAt[host.looks - 1] == host.now
      && (host.now == old(host.now) + FORCE_SETTLE_MS || Remaining(killed, app, host.world(host.looks - 1)) == {})
  {
    hide InTree, Survivors, MustDie, Remaining, Polled;
    var latest := host.ListProcesses();
    killed := Killed(tracked, app, latest);
    assert Each([], SIGKILL, host.now) == [];
    if killed != [] {
      host.SignalAll(killed, SIGKILL);
      WaitUntilGone(host, killed, app);
    }
  }

  lemma StoppedBefore(world: nat -> Look, tracked: map<Pid, string>, app: Pid, i: nat, j: nat)
    requires StaysStopped(world, tracked, app) && i <= j
    ensures Survivors(tracked, app, world(j)) <= Survivors(tracked, app, world(i))
  {
    forall m | m in Survivors(tracked, app, world(j)) ensures m in Survivors(tracked, app, world(i)) {
      assert Running(tracked, app, world(i), m);
    }
  }

  // Looking again takes nothing away from what has been seen.
  lemma LaterLooks(world: nat -> Look, before: seq<nat>, after: seq<nat>, from: nat, to: nat,
                   tracked: map<Pid, string>, app: Pid, backendTree: set<Pid>)
    requires before <= after && to <= |before|
    ensures SeenDrained(world, before, from, to, tracked, app, backendTree) ==>
            SeenDrained(world, after, from, to, tracked, app, backendTree)
  {
    if SeenDrained(world, before, from, to, tracked, app, backendTree) {
      var i, j :| from <= i <= j < to && before[i] + APP_QUIT_GRACE_MS <= before[j] &&
        BackendDrained(tracked, app, backendTree, world(i)) && BackendDrained(tracked, app, backendTree, world(j));
      assert after[i] + APP_QUIT_GRACE_MS <= after[j];
    }
  }

  method BackendTree(table: ProcessTable, backend: Option<Pid>) returns (tree: set<Pid>)
    ensures BackendRightly(tree, table, backend)
  {
    if backend == None {
      return {};
    }
    var members := Tree(table, [backend.value]);
    assert RootSet([backend.value]) == {backend.value};
    tree := set m | m in members;
  }

  method Killed(tracked: map<Pid, string>, app: Pid, latest: Look) returns (killed: seq<Pid>)
    ensures Distinct(killed)
    ensures forall m :: m in killed <==> MustDie(tracked, app, latest, m)
    ensures killed == [] <==> Survivors(tracked, app, latest) == {}
  {
    var survivors := Elements(Survivors(tracked, app, latest));
    if survivors == [] {
      return [];
    }
    var tree := Tree(latest.table, survivors);
    killed := Filter(tree, m => MayKill(tracked, latest, m));
    forall x ensures x in RootSet(survivors) <==> x in Survivors(tracked, app, latest) {}
    assert RootSet(survivors) == Survivors(tracked, app, latest);
    WhoDies(tracked, app, latest, survivors[0]);
    RootInTree(latest.table, RootSet(survivors), survivors[0]);
    assert survivors[0] in tree;
    assert survivors[0] in killed;
  }
}
