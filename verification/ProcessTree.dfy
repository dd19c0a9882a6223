// scripts/lib/dev-process-tree.ts: parent and child links of the process table and their closure.
module ProcessTree {
  import opened Prelude

  type Pid = int

  datatype ProcessEntry = ProcessEntry(ppid: Pid, started: string, zombie: bool)

  type ProcessTable = map<Pid, ProcessEntry>

  // Child PIDs by parent. The order of one parent's children is the table's own order, which
  // nothing below depends on.
  type Children = map<Pid, seq<Pid>>

  function Kids(children: Children, pid: Pid): seq<Pid> {
    if pid in children then children[pid] else []
  }

  // `children` lists, for every parent, exactly the table's PIDs with that parent, each once.
  ghost predicate ChildrenOf(children: Children, table: ProcessTable) {
    && (forall p, c :: c in Kids(children, p) <==> c in table && table[c].ppid == p)
    && (forall p :: Distinct(Kids(children, p)))
  }

  method ChildrenByParent(table: ProcessTable) returns (children: Children)
    ensures ChildrenOf(children, table)
  {
    children := map[];
    var rest := table;
    while rest != map[]
      invariant forall pid :: pid in rest ==> pid in table && rest[pid] == table[pid]
      invariant ChildrenOf(children, table - rest.Keys)
      decreases |rest|
    {
      ghost var some := SomeKey(rest);
      var pid :| pid in rest;
      var ppid := rest[pid].ppid;
      ChildAdded(children, table - rest.Keys, pid, table[pid]);
      children := children[ppid := Kids(children, ppid) + [pid]];
      assert table - (rest - {pid}).Keys == (table - rest.Keys)[pid := table[pid]];
      rest := rest - {pid};
    }
    assert table - rest.Keys == table;
  }

  lemma ChildAdded(children: Children, part: ProcessTable, pid: Pid, entry: ProcessEntry)
    requires ChildrenOf(children, part) && pid !in part
    ensures ChildrenOf(children[entry.ppid := Kids(children, entry.ppid) + [pid]], part[pid := entry])
  {
    var more := children[entry.ppid := Kids(children, entry.ppid) + [pid]];
    forall p ensures Kids(more, p) == if p == entry.ppid then Kids(children, p) + [pid] else Kids(children, p) {}
    forall p ensures Distinct(Kids(more, p)) {
      assert pid !in Kids(children, p);
    }
  }

  // A chain of parent-to-child steps.
  ghost predicate Path(children: Children, path: seq<Pid>) {
    forall i, j :: 0 <= i < j < |path| && j == i + 1 ==> path[j] in Kids(children, path[i])
  }

  ghost predicate PathFrom(children: Children, roots: seq<Pid>, path: seq<Pid>, pid: Pid) {
    path != [] && path[0] in roots && path[|path| - 1] == pid && Path(children, path)
  }

  ghost predicate Reachable(children: Children, roots: seq<Pid>, pid: Pid) {
    exists path :: PathFrom(children, roots, path, pid)
  }

  lemma ReachableStep(children: Children, roots: seq<Pid>, pid: Pid, child: Pid)
    requires Reachable(children, roots, pid) && child in Kids(children, pid)
    ensures Reachable(children, roots, child)
  {
    var path :| PathFrom(children, roots, path, pid);
    assert PathFrom(children, roots, path + [child], child);
  }

  lemma RootsReachable(children: Children, roots: seq<Pid>)
    ensures forall r :: r in roots ==> Reachable(children, roots, r)
  {
    forall r | r in roots ensures Reachable(children, roots, r) {
      assert PathFrom(children, roots, [r], r);
    }
  }

  // A set that holds the roots and is closed under children holds everything reachable.
  lemma ClosedContainsReachable(children: Children, roots: seq<Pid>, s: set<Pid>, path: seq<Pid>, pid: Pid)
    requires forall r :: r in roots ==> r in s
    requires forall p, c :: p in s && c in Kids(children, p) ==> c in s
    requires PathFrom(children, roots, path, pid)
    ensures pid in s
    decreases |path|
  {
    if |path| > 1 {
      var prefix := path[..|path| - 1];
      assert PathFrom(children, roots, prefix, path[|path| - 2]);
      ClosedContainsReachable(children, roots, s, prefix, path[|path| - 2]);
    }
  }

  function AllPids(children: Children, roots: seq<Pid>): set<Pid> {
    (set r | r in roots) + (set p, c | p in children && c in children[p] :: c)
  }

  // What the stack loop keeps: `tree` lists the visited PIDs, everything visited or pending is
  // reachable, and no child of a visited PID has been lost.
  ghost predicate Walk(children: Children, roots: seq<Pid>, seen: set<Pid>, pending: seq<Pid>, tree: seq<Pid>) {
    && (forall p :: p in seen <==> p in tree)
    && Distinct(tree)
    && (forall p :: p in seen || p in pending ==> Reachable(children, roots, p))
    && (forall r :: r in roots ==> r in seen || r in pending)
    && (forall p, c :: p in seen && c in Kids(children, p) ==> c in seen || c in pending)
    && (forall p :: p in pending ==> p in roots || ChildOfSome(children, tree, p))
    && (forall i :: 0 <= i < |tree| ==> tree[i] in roots || ChildOfSome(children, tree[..i], tree[i]))
  }

  ghost predicate ChildOfSome(children: Children, parents: seq<Pid>, pid: Pid) {
    exists q :: q in parents && pid in Kids(children, q)
  }

  lemma WalkStep(children: Children, roots: seq<Pid>, seen: set<Pid>, pending: seq<Pid>, tree: seq<Pid>, pid: Pid)
    requires Walk(children, roots, seen, pending + [pid], tree)
    ensures pid in seen ==> Walk(children, roots, seen, pending, tree)
    ensures pid !in seen ==> Walk(children, roots, seen + {pid}, pending + Kids(children, pid), tree + [pid])
  {
    if pid in seen {
      forall p ensures p in pending + [pid] <==> p in pending || p == pid {}
    } else {
      WalkVisit(children, roots, seen, pending, tree, pid);
    }
  }

  lemma WalkVisit(children: Children, roots: seq<Pid>, seen: set<Pid>, pending: seq<Pid>, tree: seq<Pid>, pid: Pid)
    requires Walk(children, roots, seen, pending + [pid], tree) && pid !in seen
    ensures Walk(children, roots, seen + {pid}, pending + Kids(children, pid), tree + [pid])
  {
    hide Reachable;
    var tree' := tree + [pid];
    var pending' := pending + Kids(children, pid);
    assert pid in pending + [pid];
    forall p | p in pending' ensures Reachable(children, roots, p) && (p in roots || ChildOfSome(children, tree', p)) {
      if p in Kids(children, pid) {
        ReachableStep(children, roots, pid, p);
        assert pid in tree';
      } else {
        assert p in pending + [pid];
        if p !in roots {
          var q :| q in tree && p in Kids(children, q);
          assert q in tree';
        }
      }
    }
    forall i | 0 <= i < |tree'| ensures tree'[i] in roots || ChildOfSome(children, tree'[..i], tree'[i]) {
      assert tree'[..i] == tree[..i];
      assert tree[..|tree|] == tree;
    }
  }

  lemma WalkDone(children: Children, roots: seq<Pid>, seen: set<Pid>, tree: seq<Pid>)
    requires Walk(children, roots, seen, [], tree)
    ensures forall pid :: pid in tree <==> Reachable(children, roots, pid)
  {
    forall pid | Reachable(children, roots, pid) ensures pid in seen {
      var path :| PathFrom(children, roots, path, pid);
      ClosedContainsReachable(children, roots, seen, path, pid);
    }
  }

  // The first root's whole subtree comes before anything else the other roots add.
  ghost predicate FirstSubtreeFirst(children: Children, root: Pid, tree: seq<Pid>, k: nat) {
    k <= |tree| && forall pid :: pid in tree[..k] <==> Reachable(children, [root], pid)
  }

  // Until the first root's subtree is complete (`k`), the stack still holds the other roots below.
  ghost predicate FirstPhase(children: Children, root: Pid, others: seq<Pid>, seen: set<Pid>, pending: seq<Pid>,
                             tree: seq<Pid>, k: Option<nat>) {
    match k
    case None => others <= pending && Walk(children, [root], seen, pending[|others|..], tree)
    case Some(n) => FirstSubtreeFirst(children, root, tree, n)
  }

  lemma FirstPhaseStep(children: Children, root: Pid, others: seq<Pid>, seen: set<Pid>, pending: seq<Pid>,
                       tree: seq<Pid>, k: Option<nat>, pid: Pid) returns (k': Option<nat>)
    requires FirstPhase(children, root, others, seen, pending + [pid], tree, k)
    ensures pid in seen ==> FirstPhase(children, root, others, seen, pending, tree, k')
    ensures pid !in seen ==>
      FirstPhase(children, root, others, seen + {pid}, pending + Kids(children, pid), tree + [pid], k')
  {
    hide Reachable, ChildOfSome, Kids;
    k' := k;
    if k == None && |pending| + 1 == |others| {
      assert (pending + [pid])[|others|..] == [];
      WalkDone(children, [root], seen, tree);
      assert tree[..|tree|] == tree && (tree + [pid])[..|tree|] == tree;
      k' := Some(|tree|);
    } else if k == None {
      var top := pending[|others|..];
      assert (pending + [pid])[|others|..] == top + [pid];
      assert (pending + Kids(children, pid))[|others|..] == top + Kids(children, pid);
      WalkStep(children, [root], seen, top, tree, pid);
      assert others <= pending;
    } else {
      assert (tree + [pid])[..k.value] == tree[..k.value];
    }
  }

  lemma FirstPhaseDone(children: Children, root: Pid, others: seq<Pid>, seen: set<Pid>, tree: seq<Pid>, k: Option<nat>)
    requires FirstPhase(children, root, others, seen, [], tree, k)
    ensures exists n: nat :: FirstSubtreeFirst(children, root, tree, n)
  {
    if k == None {
      WalkDone(children, [root], seen, tree);
      assert tree[..|tree|] == tree;
      assert FirstSubtreeFirst(children, root, tree, |tree|);
    }
  }

  lemma WalkBegins(children: Children, roots: seq<Pid>)
    ensures Walk(children, roots, {}, Reversed(roots), [])
    ensures roots != [] ==>
      FirstPhase(children, roots[0], Reversed(roots)[..|roots| - 1], {}, Reversed(roots), [], None)
  {
    hide Reachable, ChildOfSome, Kids, Reversed;
    ReversedSameElements(roots);
    RootsReachable(children, roots);
    if roots != [] {
      FirstRootOnTop(children, roots);
    }
  }

  lemma WalkOfOne(children: Children, root: Pid)
    ensures Walk(children, [root], {}, [root], [])
  {
    hide Reachable, ChildOfSome, Kids;
    RootsReachable(children, [root]);
  }

  lemma FirstRootOnTop(children: Children, roots: seq<Pid>)
    requires roots != []
    ensures FirstPhase(children, roots[0], Reversed(roots)[..|roots| - 1], {}, Reversed(roots), [], None)
  {
    hide Walk, Reversed;
    var pending := Reversed(roots);
    WalkOfOne(children, roots[0]);
    assert pending[|roots| - 1..] == [roots[0]];
    assert pending[..|roots| - 1] <= pending;
  }

  lemma NothingSeen(children: Children, roots: seq<Pid>, seen: set<Pid>, pending: seq<Pid>)
    requires Walk(children, roots, seen, pending, [])
    ensures seen == {}
  {
    assert forall p :: p !in seen;
  }

  lemma InUniverse(children: Children, roots: seq<Pid>, pid: Pid)
    ensures pid in roots ==> pid in AllPids(children, roots)
    ensures forall c :: c in Kids(children, pid) ==> c in AllPids(children, roots)
  {
    forall c | c in Kids(children, pid) ensures c in AllPids(children, roots) {
      assert pid in children && c in children[pid];
    }
  }

  method CollectDescendants(children: Children, roots: seq<Pid>) returns (tree: seq<Pid>)
    ensures Distinct(tree)
    ensures forall pid :: pid in tree <==> Reachable(children, roots, pid)
    ensures forall i :: 0 <= i < |tree| ==> tree[i] in roots || ChildOfSome(children, tree[..i], tree[i])
    ensures roots != [] ==> tree != [] && tree[0] == roots[0]
    ensures roots != [] ==> exists n: nat :: FirstSubtreeFirst(children, roots[0], tree, n)
  {
    hide Reachable, ChildOfSome, AllPids, FirstPhase, FirstSubtreeFirst, Kids;
    tree := [];
    var seen: set<Pid> := {};
    var pending := Reversed(roots);
    WalkBegins(children, roots);
    if roots == [] {
      WalkDone(children, roots, {}, []);
      return;
    }
    ReversedSameElements(roots);
    ghost var universe, others := AllPids(children, roots), pending[..|roots| - 1];
    ghost var k: Option<nat> := None;
    forall p | p in pending ensures p in universe {
      InUniverse(children, roots, p);
    }
    while pending != []
      invariant Walk(children, roots, seen, pending, tree)
      invariant FirstPhase(children, roots[0], others, seen, pending, tree, k)
      invariant seen <= universe && forall p :: p in pending ==> p in universe
      invariant if tree == [] then pending == Reversed(roots) else tree[0] == roots[0]
      decreases universe - seen, |pending|
    {
      hide Walk;
      var pid := pending[|pending| - 1];
      assert pending == pending[..|pending| - 1] + [pid];
      pending := pending[..|pending| - 1];
      WalkStep(children, roots, seen, pending, tree, pid);
      k := FirstPhaseStep(children, roots[0], others, seen, pending, tree, k, pid);
      InUniverse(children, roots, pid);
      if tree == [] {
        NothingSeen(children, roots, seen, pending + [pid]);
      }
      if pid !in seen {
        seen := seen + {pid};
        tree := tree + [pid];
        pending := pending + Kids(children, pid);
      }
    }
    WalkDone(children, roots, seen, tree);
    FirstPhaseDone(children, roots[0], others, seen, tree, k);
  }

  function RootSet(roots: seq<Pid>): set<Pid> {
    set r | r in roots
  }

  // --- The same closure, read off the process table ---

  ghost predicate Lineage(table: ProcessTable, path: seq<Pid>) {
    forall i, j :: 0 <= i < j < |path| && j == i + 1 ==> IsChild(table, path[i], path[j])
  }

  predicate IsChild(table: ProcessTable, parent: Pid, pid: Pid) {
    pid in table && table[pid].ppid == parent
  }

  // `pid` is one of the roots or descends from one, by parent links of `table`.
  ghost predicate InTree(table: ProcessTable, roots: set<Pid>, pid: Pid) {
    exists path: seq<Pid> :: path != [] && path[0] in roots && path[|path| - 1] == pid && Lineage(table, path)
  }

  lemma PathIsLineage(children: Children, table: ProcessTable, path: seq<Pid>)
    requires ChildrenOf(children, table)
    ensures Path(children, path) <==> Lineage(table, path)
  {
    forall p, c ensures c in Kids(children, p) <==> IsChild(table, p, c) {}
    if Lineage(table, path) {
      forall i, j | 0 <= i < j < |path| && j == i + 1 ensures path[j] in Kids(children, path[i]) {
        assert IsChild(table, path[i], path[j]);
      }
    }
  }

  lemma ReachableIsInTree(children: Children, table: ProcessTable, roots: seq<Pid>, pid: Pid)
    requires ChildrenOf(children, table)
    ensures Reachable(children, roots, pid) <==> InTree(table, RootSet(roots), pid)
  {
    if Reachable(children, roots, pid) {
      var path :| PathFrom(children, roots, path, pid);
      PathIsLineage(children, table, path);
    }
    if InTree(table, RootSet(roots), pid) {
      var path :| path != [] && path[0] in roots && path[|path| - 1] == pid && Lineage(table, path);
      PathIsLineage(children, table, path);
      assert PathFrom(children, roots, path, pid);
    }
  }

  // collectDescendants on the children of a table.
  method TreeIn(children: Children, ghost table: ProcessTable, roots: seq<Pid>) returns (tree: seq<Pid>)
    requires ChildrenOf(children, table)
    ensures Distinct(tree)
    ensures forall pid :: pid in tree <==> InTree(table, RootSet(roots), pid)
  {
    tree := CollectDescendants(children, roots);
    forall pid ensures Reachable(children, roots, pid) <==> InTree(table, RootSet(roots), pid) {
      ReachableIsInTree(children, table, roots, pid);
    }
  }

  method Tree(table: ProcessTable, roots: seq<Pid>) returns (tree: seq<Pid>)
    ensures Distinct(tree)
    ensures forall pid :: pid in tree <==> InTree(table, RootSet(roots), pid)
  {
    var children := ChildrenByParent(table);
    tree := TreeIn(children, table, roots);
  }

  lemma RootInTree(table: ProcessTable, roots: set<Pid>, pid: Pid)
    requires pid in roots
    ensures InTree(table, roots, pid)
  {
    assert Lineage(table, [pid]);
  }
}
