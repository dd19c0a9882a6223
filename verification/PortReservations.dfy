// packages/shared/src/DevPortCoordinator.ts (reservations), apps/web/dev.ports.ts and
// scripts/dev-runner.coordination.ts: check and reserve a development port under the bakery lock.
module PortReservations {
  import opened Prelude
  import Lock = BakeryLock

  type Token = Lock.Token

  datatype Kind = Web | Mobile

  // One reservation file. Its name is its token, and the token carries the owner's PID.
  datatype Reservation = Reservation(token: Token, port: int, kind: Kind, parent: Option<Token>)

  const MAX_PORT := 65535

  // `r` may sit beside `o` on one port: under its parent, or under the same parent in one process.
  predicate MayShare(o: Reservation, r: Reservation) {
    r.parent.Some? &&
    (o.token == r.parent.value || (o.kind.Web? && o.parent == r.parent && o.token.owner == r.token.owner))
  }

  predicate IsParent(o: Reservation, r: Reservation) {
    r.parent == Some(o.token) && o.kind.Web? && o.port == r.port && o.parent == None
  }

  predicate IsLiveParent(o: Reservation, r: Reservation, dead: set<int>) {
    IsParent(o, r) && o.token.owner !in dead
  }

  // reserveDevPort's decision on the reservations it has read.
  predicate Admits(seen: set<Reservation>, dead: set<int>, r: Reservation) {
    && 1 <= r.port <= MAX_PORT
    && (r.parent.Some? ==> r.kind.Web? && exists o :: o in seen && IsLiveParent(o, r, dead))
    && (forall o :: o in seen && o.port == r.port ==> MayShare(o, r))
  }

  // What is left of that decision when its parent may have died since.
  predicate Fits(seen: set<Reservation>, r: Reservation) {
    && (r.parent.Some? ==> r.kind.Web? && exists o :: o in seen && IsParent(o, r))
    && (forall o :: o in seen && o.port == r.port ==> MayShare(o, r))
  }

  // --- Launchers, the lock and the reservation directory together ---

  // `files` is the directory, `published` everything that was ever put there, `read` what the
  // acquisition holding the lock has read since it last published, and `checked` the reservation it has
  // decided to publish.
  datatype State = State(
    lock: Lock.State,
    files: map<Token, Reservation>,
    published: map<Token, Reservation>,
    read: map<Token, set<Reservation>>,
    checked: map<Token, Reservation>)

  const INIT := State(Lock.INIT, map[], map[], map[], map[])

  datatype Event =
    | LockStep(e: Lock.Event)
    | ReadFiles(holder: Token, seen: set<Reservation>)
    | Check(holder: Token, r: Reservation)
    | Publish(holder: Token)
    | Release(token: Token)      // by its owner, with or without the lock
    | Sweep(token: Token)        // any reader removes a confirmed-dead owner's file

  // As a launcher sees it: the owner's PID names a process.
  predicate LiveFile(s: State, t: Token) {
    t in s.files && t.owner !in s.lock.dead
  }

  predicate Holds(s: State, p: Token) {
    Lock.Live(s.lock, p) && s.lock.phases[p].Critical?
  }

  ghost predicate Enabled(s: State, e: Event) {
    match e
    case LockStep(le) => Lock.Enabled(s.lock, le)
    case ReadFiles(p, seen) =>
      // A listing is not atomic: files released or swept meanwhile may still show.
      && Holds(s, p) && p !in s.checked
      && (forall t :: LiveFile(s, t) ==> s.files[t] in seen)
      && (forall r :: r in seen ==> r.token in s.published && s.published[r.token] == r)
    case Check(p, r) =>
      Holds(s, p) && p in s.read && p !in s.checked && r.token !in s.published && r.token.owner == p.owner &&
      Admits(s.read[p], s.lock.dead, r)
    // Meanwhile the parent may have died, or given its reservation back.
    case Publish(p) => Holds(s, p) && p in s.checked
    case Release(t) => t in s.files
    case Sweep(t) => t in s.files && t.owner in s.lock.dead
  }

  ghost function Step(s: State, e: Event): State
    requires Enabled(s, e)
  {
    match e
    case LockStep(le) =>
      var left := match le case Exit(p) => {p} case _ => {};
      s.(lock := Lock.Step(s.lock, le), read := s.read - left, checked := s.checked - left)
    // A dead owner's file that was not read was removed.
    case ReadFiles(p, seen) => s.(read := s.read[p := seen], files := map t | t in s.files && s.files[t] in seen :: s.files[t])
    case Check(p, r) => s.(checked := s.checked[p := r])
    case Publish(p) =>
      var r := s.checked[p];
      s.(files := s.files[r.token := r], published := s.published[r.token := r], read := s.read - {p},
         checked := s.checked - {p})
    case Release(t) => s.(files := s.files - {t})
    case Sweep(t) => s.(files := s.files - {t})
  }

  // Two reservations of one family: a web parent and a child attached to it, or two children that
  // one process attached to the same parent.
  predicate Family(a: Reservation, b: Reservation) {
    && a.kind.Web? && b.kind.Web?
    && (ParentAndChild(a, b) || ParentAndChild(b, a) ||
        (a.parent.Some? && a.parent == b.parent && a.token.owner == b.token.owner))
  }

  predicate ParentAndChild(a: Reservation, b: Reservation) {
    a.parent == None && b.parent == Some(a.token)
  }

  ghost predicate Inv(s: State) {
    Lock.Inv(s.lock) && RecordsInv(s.files, s.published) && ReadingInv(s)
  }

  ghost predicate RecordsInv(files: map<Token, Reservation>, published: map<Token, Reservation>) {
    && (forall t :: t in published ==> WellFormed(published, t))
    && (forall t :: t in files ==> t in published && published[t] == files[t])
    && (forall t, u :: t in files && u in files && t != u && files[t].port == files[u].port ==> Family(files[t], files[u]))
  }

  ghost predicate ReadingInv(s: State) {
    && (forall p :: p in s.read ==> PhaseOr(s, p).Critical? || PhaseOr(s, p).Lost?)
    && (forall p :: p in s.checked ==> p in s.read)
    && (forall p, t :: p in s.read && Holds(s, p) && t in s.files ==> s.files[t] in s.read[p])
    && (forall p, r :: p in s.read && r in s.read[p] ==> r.token in s.published && s.published[r.token] == r)
    && (forall p :: p in s.checked && Holds(s, p) ==> s.checked[p].token !in s.published && Fits(s.read[p], s.checked[p]))
  }

  predicate WellFormed(published: map<Token, Reservation>, t: Token)
    requires t in published
  {
    var r := published[t];
    r.token == t &&
    (r.parent.Some? ==>
      var p := r.parent.value;
      r.kind.Web? && p in published &&
      published[p].kind.Web? && published[p].parent == None && published[p].port == r.port)
  }

  function PhaseOr(s: State, p: Token): Lock.Phase {
    if p in s.lock.phases then s.lock.phases[p] else Lock.Gone
  }

  lemma InvKept(s: State, e: Event)
    requires Inv(s) && Enabled(s, e)
    ensures Inv(Step(s, e))
  {
    hide Inv;
    match e
    case LockStep(le) => LockStepKeeps(s, le);
    case ReadFiles(p, seen) => ReadKeeps(s, p, seen);
    case Check(p, r) => CheckKeeps(s, p, r);
    case Publish(p) => PublishKeeps(s, p);
    case _ => RemovalKeeps(s, e);
  }

  lemma FewerFiles(files: map<Token, Reservation>, fewer: map<Token, Reservation>, published: map<Token, Reservation>)
    requires RecordsInv(files, published) && forall t :: t in fewer ==> t in files && fewer[t] == files[t]
    ensures RecordsInv(fewer, published)
  {
    hide Family, WellFormed;
  }

  lemma ReadKeeps(s: State, p: Token, seen: set<Reservation>)
    requires Inv(s) && Enabled(s, ReadFiles(p, seen))
    ensures Inv(Step(s, ReadFiles(p, seen)))
  {
    hide Lock.Inv, RecordsInv, Fits;
    FewerFiles(s.files, Step(s, ReadFiles(p, seen)).files, s.published);
    OnlyHolder(s, p);
  }

  // Nobody else holds the lock.
  lemma OnlyHolder(s: State, p: Token)
    requires Lock.Inv(s.lock) && Holds(s, p)
    ensures forall q :: Holds(s, q) ==> q == p
  {
    forall q | Holds(s, q) ensures q == p {
      Lock.AtMostOneCritical(s.lock, p, q);
    }
  }

  lemma AdmittedFits(seen: set<Reservation>, dead: set<int>, r: Reservation)
    requires Admits(seen, dead, r)
    ensures Fits(seen, r)
  {
  }

  lemma CheckKeeps(s: State, p: Token, r: Reservation)
    requires Inv(s) && Enabled(s, Check(p, r))
    ensures Inv(Step(s, Check(p, r)))
  {
    hide Lock.Inv, RecordsInv, Fits, Admits;
    AdmittedFits(s.read[p], s.lock.dead, r);
  }

  lemma RemovalKeeps(s: State, e: Event)
    requires Inv(s) && Enabled(s, e) && (e.Release? || e.Sweep?)
    ensures Inv(Step(s, e))
  {
    hide Lock.Inv, RecordsInv, Fits;
    FewerFiles(s.files, Step(s, e).files, s.published);
  }

  lemma LockStepKeeps(s: State, le: Lock.Event)
    requires Inv(s) && Lock.Enabled(s.lock, le)
    ensures Inv(Step(s, LockStep(le)))
  {
    hide Lock.Inv, RecordsInv, Fits, Lock.Step, Lock.Enabled;
    Lock.InvKept(s.lock, le);
    var s' := Step(s, LockStep(le));
    forall p | p in s'.read
      ensures p in s.read && (PhaseOr(s', p).Critical? || PhaseOr(s', p).Lost?)
      ensures Holds(s', p) ==> Holds(s, p)
    {
      CriticalStays(s, le, p);
    }
  }

  // An acquisition in its action leaves it only by its own exit, or by dying.
  lemma CriticalStays(s: State, le: Lock.Event, p: Token)
    requires Lock.Enabled(s.lock, le) && p in s.read
    requires PhaseOr(s, p).Critical? || PhaseOr(s, p).Lost?
    ensures var s' := Step(s, LockStep(le));
      p in s'.read ==> (PhaseOr(s', p).Critical? || PhaseOr(s', p).Lost?) && (Holds(s', p) ==> Holds(s, p))
  {
  }

  lemma PublishKeeps(s: State, p: Token)
    requires Inv(s) && Enabled(s, Publish(p))
    ensures Inv(Step(s, Publish(p)))
  {
    hide Lock.Inv, RecordsInv, ReadingInv;
    PublishReading(s, p);
    PublishRecords(s, p);
  }

  lemma PublishReading(s: State, p: Token)
    requires Inv(s) && Enabled(s, Publish(p))
    ensures ReadingInv(Step(s, Publish(p)))
  {
    hide Lock.Inv, RecordsInv, Fits;
    var s' := Step(s, Publish(p));
    OnlyHolder(s, p);
    forall q | Holds(s', q) ensures q == p {
      assert Holds(s, q);
    }
  }

  lemma PublishRecords(s: State, p: Token)
    requires Inv(s) && Enabled(s, Publish(p))
    ensures RecordsInv(Step(s, Publish(p)).files, Step(s, Publish(p)).published)
  {
    hide Lock.Inv, Family;
    var r, published := s.checked[p], Step(s, Publish(p)).published;
    forall t | t in published ensures WellFormed(published, t) {
      if t != r.token {
        assert WellFormed(s.published, t);
      } else if r.parent.Some? {
        ParentIsRecorded(s, p);
      }
    }
    forall t | t in s.files && s.files[t].port == r.port ensures Family(s.files[t], r) && Family(r, s.files[t]) {
      SharedIsFamily(s, p, t);
    }
  }

  lemma ParentIsRecorded(s: State, p: Token)
    requires Inv(s) && Holds(s, p) && p in s.checked && s.checked[p].parent.Some?
    ensures var r := s.checked[p];
      r.kind.Web? && r.parent.value in s.published && IsParent(s.published[r.parent.value], r)
  {
    hide Lock.Inv, RecordsInv;
    var o :| o in s.read[p] && IsParent(o, s.checked[p]);
    assert s.published[o.token] == o;
  }

  // What the new reservation shares its port with is of its family.
  lemma SharedIsFamily(s: State, p: Token, t: Token)
    requires Inv(s) && Holds(s, p) && p in s.checked && t in s.files && s.files[t].port == s.checked[p].port
    ensures Family(s.files[t], s.checked[p]) && Family(s.checked[p], s.files[t])
  {
    hide Lock.Inv;
    var r, o := s.checked[p], s.files[t];
    assert o in s.read[p] && MayShare(o, r);
    assert WellFormed(s.published, t);
    ParentIsRecorded(s, p);
  }

  ghost predicate Possible(s: State, events: seq<Event>)
    decreases |events|
  {
    events == [] || (Enabled(s, events[0]) && Possible(Step(s, events[0]), events[1..]))
  }

  ghost function After(s: State, events: seq<Event>): State
    requires Possible(s, events)
    decreases |events|
  {
    if events == [] then s else After(Step(s, events[0]), events[1..])
  }

  lemma {:induction false} InvAlways(s: State, events: seq<Event>)
    requires Inv(s) && Possible(s, events)
    ensures Inv(After(s, events))
    decreases |events|
  {
    if events != [] {
      InvKept(s, events[0]);
      InvAlways(Step(s, events[0]), events[1..]);
    }
  }

  // In every interleaving of runners, web and mobile listeners, two reservations share a port only inside
  // one web family, whether their owners still live or not; a mobile reservation never shares its port.
  lemma LivePortsAreDisjoint(events: seq<Event>, t: Token, u: Token)
    requires Possible(INIT, events)
    requires t in After(INIT, events).files && u in After(INIT, events).files && t != u
    requires After(INIT, events).files[t].port == After(INIT, events).files[u].port
    ensures Family(After(INIT, events).files[t], After(INIT, events).files[u])
  {
    InvAlways(INIT, events);
  }

  // --- What the directory holds ---

  // The steps that a run of the whole takes of the lock.
  function LockEvents(events: seq<Event>): seq<Lock.Event> {
    if events == [] then []
    else (if events[0].LockStep? then [events[0].e] else []) + LockEvents(events[1..])
  }

  // The lock in it runs as the lock alone does.
  lemma {:induction false} LockRuns(s: State, events: seq<Event>)
    requires Possible(s, events)
    ensures Lock.Possible(s.lock, LockEvents(events))
    ensures After(s, events).lock == Lock.After(s.lock, LockEvents(events))
    decreases |events|
  {
    hide Lock.Step, Lock.Enabled;
    if events != [] {
      LockRuns(Step(s, events[0]), events[1..]);
      if events[0].LockStep? {
        assert LockEvents(events)[0] == events[0].e && LockEvents(events)[1..] == LockEvents(events[1..]);
      } else {
        assert LockEvents(events) == LockEvents(events[1..]);
      }
    }
  }

  // The k-th event publishes the reservation that the j-th checked.
  ghost predicate PublishedAt(events: seq<Event>, j: nat, k: nat, t: Token, r: Reservation) {
    && j < k < |events| && events[j].Check? && events[j].r == r && r.token == t && events[k] == Publish(events[j].holder)
    && forall i :: j < i < k ==>
         events[i] != Publish(events[j].holder) && !IsCheckBy(events[i], events[j].holder)
         && events[i] != LockStep(Lock.Exit(events[j].holder))
  }

  predicate IsCheckBy(e: Event, p: Token) {
    e.Check? && e.holder == p
  }

  // An event that takes the file away: its release, or its removal as a dead owner's.
  predicate TakesAway(e: Event, t: Token, r: Reservation) {
    match e
    case Release(token) => token == t
    case Sweep(token) => token == t
    case ReadFiles(_, seen) => r !in seen
    case _ => false
  }

  ghost predicate IsThere(events: seq<Event>, j: nat, k: nat, t: Token, r: Reservation) {
    PublishedAt(events, j, k, t, r) && forall i :: k < i < |events| ==> !TakesAway(events[i], t, r)
  }

  ghost predicate IsChecked(events: seq<Event>, j: nat, p: Token, r: Reservation) {
    && j < |events| && events[j] == Check(p, r)
    && forall i :: j < i < |events| ==>
         events[i] != Publish(p) && !IsCheckBy(events[i], p) && events[i] != LockStep(Lock.Exit(p))
  }

  // The reservation is checked, but not yet published; or it is in the directory: by the events, and in fact.
  ghost predicate ToldChecked(events: seq<Event>, p: Token, r: Reservation) {
    exists j: nat :: IsChecked(events, j, p, r)
  }

  ghost predicate ToldThere(events: seq<Event>, t: Token, r: Reservation) {
    exists j: nat, k: nat :: IsThere(events, j, k, t, r)
  }

  predicate HasChecked(s: State, p: Token, r: Reservation) {
    p in s.checked && s.checked[p] == r
  }

  predicate HasFile(s: State, t: Token, r: Reservation) {
    t in s.files && s.files[t] == r
  }

  ghost predicate Told(s: State, events: seq<Event>) {
    && (forall p, r :: HasChecked(s, p, r) <==> ToldChecked(events, p, r))
    && (forall t, r :: HasFile(s, t, r) <==> ToldThere(events, t, r))
  }

  lemma CheckedNext(events: seq<Event>, e: Event, p: Token, r: Reservation)
    ensures ToldChecked(events + [e], p, r) <==>
      || e == Check(p, r)
      || (ToldChecked(events, p, r)
          && e != Publish(p) && !IsCheckBy(e, p) && e != LockStep(Lock.Exit(p)))
  {
    var next := events + [e];
    assert next[|events|] == e;
    if e == Check(p, r) {
      assert IsChecked(next, |events|, p, r);
    }
    if j: nat :| IsChecked(events, j, p, r) {
      if e != Publish(p) && !IsCheckBy(e, p) && e != LockStep(Lock.Exit(p)) {
        assert next[j] == events[j];
        assert IsChecked(next, j, p, r);
      }
    }
    if j: nat :| IsChecked(next, j, p, r) && j < |events| {
      assert forall i :: 0 <= i < |events| ==> next[i] == events[i];
      assert IsChecked(events, j, p, r);
    }
  }

  lemma ThereNext(events: seq<Event>, e: Event, t: Token, r: Reservation)
    ensures ToldThere(events + [e], t, r) <==>
      || (e.Publish? && r.token == t && ToldChecked(events, e.holder, r))
      || (ToldThere(events, t, r) && !TakesAway(e, t, r))
  {
    var next := events + [e];
    assert next[|events|] == e && forall i :: 0 <= i < |events| ==> next[i] == events[i];
    if e.Publish? && r.token == t {
      if j: nat :| IsChecked(events, j, e.holder, r) {
        assert IsThere(next, j, |events|, t, r);
      }
    }
    if j: nat, k: nat :| IsThere(events, j, k, t, r) {
      if !TakesAway(e, t, r) {
        assert IsThere(next, j, k, t, r);
      }
    }
    if j: nat, k: nat :| IsThere(next, j, k, t, r) {
      if k == |events| {
        assert IsChecked(events, j, e.holder, r);
      } else {
        assert IsThere(events, j, k, t, r);
      }
    }
  }

  lemma ToldNext(s: State, events: seq<Event>, e: Event)
    requires Inv(s) && Told(s, events) && Enabled(s, e)
    ensures Told(Step(s, e), events + [e])
  {
    hide ToldChecked, ToldThere, HasChecked, HasFile, Inv, Step, Enabled;
    var t, next := Step(s, e), events + [e];
    forall p, r ensures HasChecked(t, p, r) <==> ToldChecked(next, p, r) {
      CheckedNext(events, e, p, r);
      CheckedStep(s, e, p, r);
    }
    forall u, r ensures HasFile(t, u, r) <==> ToldThere(next, u, r) {
      ThereNext(events, e, u, r);
      FilesStep(s, e, u, r);
    }
  }

  lemma CheckedStep(s: State, e: Event, p: Token, r: Reservation)
    requires Enabled(s, e)
    ensures HasChecked(Step(s, e), p, r) <==>
      || e == Check(p, r)
      || (HasChecked(s, p, r) && e != Publish(p) && !IsCheckBy(e, p) && e != LockStep(Lock.Exit(p)))
  {
    hide Lock.Step, Lock.Enabled;
  }

  lemma FilesStep(s: State, e: Event, u: Token, r: Reservation)
    requires Inv(s) && Enabled(s, e)
    ensures HasFile(Step(s, e), u, r) <==>
      || (e.Publish? && r.token == u && HasChecked(s, e.holder, r))
      || (HasFile(s, u, r) && !TakesAway(e, u, r))
  {
    hide Lock.Step, Lock.Enabled, Lock.Inv;
  }

  lemma {:induction false} ToldAlways(s: State, before: seq<Event>, events: seq<Event>)
    requires Inv(s) && Told(s, before) && Possible(s, events)
    ensures Told(After(s, events), before + events)
    decreases |events|
  {
    hide Told, Inv, Step, Enabled;
    if events == [] {
      assert before + [] == before;
    } else {
      InvKept(s, events[0]);
      ToldNext(s, before, events[0]);
      ToldAlways(Step(s, events[0]), before + [events[0]], events[1..]);
      assert before + [events[0]] + events[1..] == before + events;
    }
  }

  // In every run a reservation is on disk exactly if it was checked and then published, and has been neither
  // released nor removed as a dead owner's since.
  lemma FilesExact(events: seq<Event>, t: Token, r: Reservation)
    requires Possible(INIT, events)
    ensures HasFile(After(INIT, events), t, r) <==> exists j: nat, k: nat :: IsThere(events, j, k, t, r)
  {
    assert Inv(INIT) && Told(INIT, []);
    hide Inv, Step, Enabled, IsThere;
    ToldAlways(INIT, [], events);
    assert [] + events == events;
    assert HasFile(After(INIT, events), t, r) <==> ToldThere(events, t, r);
  }

  // Whoever has read the directory can publish a reservation of its own exactly if what it has read admits it.
  lemma AdmittedIsPublished(s: State, p: Token, seen: set<Reservation>, r: Reservation)
    requires Enabled(s, ReadFiles(p, seen)) && r.token !in s.published && r.token.owner == p.owner
    ensures var read := Step(s, ReadFiles(p, seen));
      && (Enabled(read, Check(p, r)) <==> Admits(seen, s.lock.dead, r))
      && (Admits(seen, s.lock.dead, r) ==>
            var checked := Step(read, Check(p, r));
            Enabled(checked, Publish(p)) && HasFile(Step(checked, Publish(p)), r.token, r))
  {
    hide Admits;
  }

  // A child is admitted only beside a parent that is live, and nothing else shares its port but its family.
  lemma AdmitsExactly(seen: set<Reservation>, dead: set<int>, r: Reservation)
    ensures Admits(seen, dead, r) <==>
      && 1 <= r.port <= 65535
      && (r.parent.Some? ==>
            r.kind.Web? && exists o ::
              o in seen && o.token == r.parent.value && o.kind.Web? && o.port == r.port && o.parent == None
              && o.token.owner !in dead)
      && (forall o :: o in seen && o.port == r.port ==>
            r.parent.Some? &&
            (o.token == r.parent.value
             || (o.kind.Web? && o.parent == r.parent && o.token.owner == r.token.owner)))
  {
  }

  // --- Attached children ---

  ghost predicate Siblings(a: Reservation, b: Reservation) {
    a.parent.Some? && a.parent == b.parent
  }

  // A holder that has read exactly the live files can attach to a live parent if and only if every
  // other child of that parent belongs to its own process.
  lemma AttachmentExact(s: State, seen: set<Reservation>, o: Reservation, r: Reservation)
    requires Inv(s) && forall x :: x in seen <==> LiveFile(s, x.token) && s.files[x.token] == x
    requires o in seen && IsLiveParent(o, r, s.lock.dead) && r.kind.Web? && 1 <= r.port <= MAX_PORT
    ensures Admits(seen, s.lock.dead, r) <==>
            forall c :: c in seen && Siblings(c, r) ==> c.token.owner == r.token.owner
  {
    forall c | c in seen && c.port == r.port && c != o ensures Siblings(c, r) && c.kind.Web? {
      assert WellFormed(s.published, c.token) && WellFormed(s.published, o.token);
      assert Family(s.files[c.token], s.files[o.token]);
    }
    forall c | c in seen && Siblings(c, r) ensures c.port == r.port && c.token != r.parent.value {
      assert WellFormed(s.published, c.token) && WellFormed(s.published, o.token);
    }
  }

  // So a second child is not always rejected: one process may attach two.
  lemma OneProcessMayAttachTwice(port: int, runner: Token, first: Token, second: Token)
    requires 1 <= port <= MAX_PORT && first.owner == second.owner && runner != first && second != first
    ensures var parent := Reservation(runner, port, Web, None);
            var child := Reservation(first, port, Web, Some(runner));
            Admits({parent, child}, {}, Reservation(second, port, Web, Some(runner)))
  {
    var parent := Reservation(runner, port, Web, None);
    assert IsLiveParent(parent, Reservation(second, port, Web, Some(runner)), {});
  }

  // Sharing is always between a parent and its child exactly while nobody has attached twice.
  lemma StrictSharingExact(s: State)
    requires Inv(s)
    ensures (forall t, u :: LiveFile(s, t) && LiveFile(s, u) && t != u && s.files[t].port == s.files[u].port ==>
               ParentAndChild(s.files[t], s.files[u]) || ParentAndChild(s.files[u], s.files[t])) <==>
            (forall t, u :: LiveFile(s, t) && LiveFile(s, u) && t != u ==> !Siblings(s.files[t], s.files[u]))
  {
    forall t, u | LiveFile(s, t) && LiveFile(s, u) && Siblings(s.files[t], s.files[u])
      ensures s.files[t].port == s.files[u].port
    {
      assert WellFormed(s.published, t) && WellFormed(s.published, u);
    }
  }

  // --- The participants' own code, run by whoever holds the lock ---

  function Seen(files: map<Token, Reservation>): (seen: set<Reservation>) {
    set t | t in files :: files[t]
  }

  predicate Taken(files: map<Token, Reservation>, port: int) {
    exists t :: t in files && files[t].port == port
  }

  // A fresh web listener can use this port.
  predicate Free(files: map<Token, Reservation>, available: int -> bool, port: int) {
    !Taken(files, port) && available(port)
  }

  class DevPortDirectory {
    var files: map<Token, Reservation>

    constructor ()
      ensures files == map[]
    {
      files := map[];
    }

    ghost predicate Valid()
      reads this
    {
      forall t :: t in files ==> files[t].token == t
    }

    method ReadDevPortReservations(dead: set<int>) returns (seen: set<Reservation>)
      requires Valid()
      modifies this
      ensures Valid() && files == (map t | t in old(files) && t.owner !in dead :: old(files)[t])
      ensures seen == Seen(files)
    {
      files := map t | t in files && t.owner !in dead :: files[t];
      seen := set t | t in files :: files[t];
    }

    method ReserveDevPort(dead: set<int>, token: Token, port: int, kind: Kind, parent: Option<Token>)
      returns (result: Result<Reservation, string>)
      requires Valid() && token !in files && token.owner !in dead
      modifies this
      ensures Valid()
      ensures var live := map t | t in old(files) && t.owner !in dead :: old(files)[t];
              var r := Reservation(token, port, kind, parent);
              && (result.Ok? <==> Admits(Seen(live), dead, r))
              && (result.Ok? ==> result.value == r && files == live[token := r])
              && (result.Err? ==> files == live || files == old(files))
    {
      var r := Reservation(token, port, kind, parent);
      if port < 1 || port > MAX_PORT {
        return Err("Development port must be between 1 and 65535");
      }
      if parent.Some? && kind != Web {
        return Err("Only web reservations accept a valid parent token");
      }
      var seen := ReadDevPortReservations(dead);
      if parent.Some? && !exists o :: o in seen && IsLiveParent(o, r, dead) {
        return Err("Development port parent reservation is not live or does not match");
      }
      if exists o :: o in seen && o.port == port && !MayShare(o, r) {
        return Err("Development port is already reserved");
      }
      files := files[token := r];
      result := Ok(r);
    }

    // apps/web/dev.ports.ts. Without a parent, the lowest usable port from `startPort` up.
    method ReserveWebDevPort(dead: set<int>, token: Token, startPort: int, parent: Option<Token>, available: int -> bool)
      returns (result: Result<Reservation, string>)
      requires Valid() && token !in files && token.owner !in dead
      modifies this
      ensures Valid()
      ensures var live := map t | t in old(files) && t.owner !in dead :: old(files)[t];
        && (result.Ok? ==>
              && result.value == Reservation(token, result.value.port, Web, parent)
              && files == live[token := result.value])
        && (result.Err? ==> files == live)
        && (parent.Some? ==>
              && (result.Ok? ==> result.value.port == startPort)
              && (result.Ok? <==> Admits(Seen(live), dead, Reservation(token, startPort, Web, parent))))
        && (parent == None ==>
              && (result.Ok? ==>
                    1 <= result.value.port <= MAX_PORT && startPort <= result.value.port &&
                    Free(live, available, result.value.port) &&
                    forall q :: startPort <= q < result.value.port ==> !Free(live, available, q))
              && (result.Err? ==>
                    (forall q :: startPort <= q <= MAX_PORT ==> !Free(live, available, q)) ||
                    (exists q :: startPort <= q <= 0 && Free(live, available, q))))
    {
      var seen := ReadDevPortReservations(dead);
      ghost var live := files;
      assert forall t :: t in live ==> t.owner !in dead;
      if parent.Some? {
        if !exists o :: o in seen && o.token == parent.value && o.kind.Web? && o.port == startPort {
          return Err("Web development reservation does not match port");
        }
        result := ReserveDevPort(dead, token, startPort, Web, parent);
        assert (map t | t in live && t.owner !in dead :: live[t]) == live;
        return;
      }
      var port := startPort;
      while port <= MAX_PORT
        invariant startPort <= port && files == live && seen == Seen(live) && Valid()
        invariant forall q :: startPort <= q < port ==> !Free(live, available, q)
      {
        if (exists o :: o in seen && o.port == port) || !available(port) {
          port := port + 1;
          continue;
        }
        result := ReserveDevPort(dead, token, port, Web, None);
        assert (map t | t in live && t.owner !in dead :: live[t]) == live;
        assert Free(live, available, port);
        assert port >= 1 ==> Admits(Seen(live), dead, Reservation(token, port, Web, None));
        return;
      }
      result := Err("No web development port available");
    }
  }
}
