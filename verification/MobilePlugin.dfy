// apps/mobile-web/dev.coordination.ts: the mobile Vite plugin. Every server generation of one
// `vite` process wraps `listen` and `close`, and all of them share one port lease.
//
// A step runs one server's code up to its next await. Steps of all servers interleave freely. The
// coordinator's lock admits one holder; other processes may hold it too.
module MobilePlugin {
  import opened Prelude

  datatype Lease = Lease(token: nat, port: int)

  // Where a `listen` call is. From Checking to Publishing it holds the lock.
  datatype Pending =
    | Idle
    | Queued(port: int)
    | Checking(port: int)
    | Reserving(port: int, previous: Option<Lease>)
    | ReleasingOld(port: int, previous: Option<Lease>)
    | Binding(port: int)
    | Publishing(port: int)

  // Where a `close` call is.
  datatype Closing = NotClosing | Joining | ClosingServer | Releasing(lease: Option<Lease>) | Settled

  datatype Server = Server(closed: bool, hookRan: bool, registered: bool, closing: Closing, pending: Pending)

  datatype Holder = Nobody | OtherProcess | Listener(server: nat)

  // `held` is the reservation files of this process that have not been released.
  datatype Shared = Shared(generations: int, lease: Option<Lease>, lock: Holder, held: set<nat>, used: set<nat>)

  const FRESH := Server(false, false, false, NotClosing, Idle)

  predicate Locked(p: Pending) {
    !p.Idle? && !p.Queued?
  }

  predicate ValidPort(port: int) {
    1 <= port <= 65535
  }

  // --- One server's code, as functions of the shared state and its own ---

  function Unlock(h: Shared): Shared {
    h.(lock := Nobody)
  }

  // The final post-hook: a construction that was closed or failed takes no reference.
  function PostHook(h: Shared, s: Server): (Shared, Server) {
    if s.closed then (h, s.(hookRan := true))
    else (h.(generations := h.generations + 1), s.(hookRan := true, registered := true))
  }

  function CallListen(h: Shared, s: Server, port: int): (Shared, Server) {
    if s.closed || s.pending != Idle then (h, s) else (h, s.(pending := Queued(port)))
  }

  function GrantLock(h: Shared, s: Server, i: nat): (Shared, Server)
    requires s.pending.Queued?
  {
    if s.closed then (h, s.(pending := Idle)) else (h.(lock := Listener(i)), s.(pending := Checking(s.pending.port)))
  }

  // `withLock` rejects before its action has begun.
  function GiveUpLock(h: Shared, s: Server): (Shared, Server) {
    (h, s.(pending := Idle))
  }

  // `free`: not the sibling's port, not reserved by anyone else, and available.
  function EndCheck(h: Shared, s: Server, free: bool): (Shared, Server)
    requires s.pending.Checking?
  {
    var port := s.pending.port;
    if !ValidPort(port) || !free then (Unlock(h), s.(pending := Idle))
    else if h.lease.Some? && h.lease.value.port == port then (h, s.(pending := Binding(port)))
    else if s.closed then (Unlock(h), s.(pending := Idle))
    else (h, s.(pending := Reserving(port, h.lease)))
  }

  // `token` is None when reserveDevPort throws.
  function EndReserve(h: Shared, s: Server, token: Option<nat>): (Shared, Server)
    requires s.pending.Reserving?
  {
    match token
    case None => (Unlock(h), s.(pending := Idle))
    case Some(t) =>
      (h.(lease := Some(Lease(t, s.pending.port)), held := h.held + {t}, used := h.used + {t}),
       s.(pending := ReleasingOld(s.pending.port, s.pending.previous)))
  }

  function Drop(held: set<nat>, lease: Option<Lease>): set<nat> {
    if lease.Some? then held - {lease.value.token} else held
  }

  function EndReleaseOld(h: Shared, s: Server): (Shared, Server)
    requires s.pending.ReleasingOld?
  {
    (h.(held := Drop(h.held, s.pending.previous)), s.(pending := Binding(s.pending.port)))
  }

  function EndBind(h: Shared, s: Server, bound: bool): (Shared, Server)
    requires s.pending.Binding?
  {
    if bound then (h, s.(pending := Publishing(s.pending.port))) else (Unlock(h), s.(pending := Idle))
  }

  function EndPublish(h: Shared, s: Server): (Shared, Server) {
    (Unlock(h), s.(pending := Idle))
  }

  function CallClose(h: Shared, s: Server): (Shared, Server) {
    if s.closing != NotClosing then (h, s) else (h, s.(closed := true, closing := Joining))
  }

  function EndJoin(h: Shared, s: Server): (Shared, Server) {
    (h, s.(closing := ClosingServer))
  }

  // The `finally` of close, whether the server's own close succeeded or not.
  function EndServerClose(h: Shared, s: Server): (Shared, Server) {
    if !s.registered then (h, s.(closing := Settled))
    else
      var left := h.(generations := h.generations - 1);
      if left.generations == 0 then (left.(lease := None), s.(closing := Releasing(h.lease)))
      else (left, s.(closing := Settled))
  }

  function EndRelease(h: Shared, s: Server): (Shared, Server)
    requires s.closing.Releasing?
  {
    (h.(held := Drop(h.held, s.closing.lease)), s.(closing := Settled))
  }

  // --- One server's steps ---

  datatype ServerEvent =
    | HookRuns
    | ListenCalled(port: int)
    | LockGranted
    | QueueGivenUp            // aborted by close, or no lock within its 30 s
    | CheckEnds(free: bool)
    | ReserveEnds(token: Option<nat>)
    | OldReleased
    | BindEnds(bound: bool)
    | PublishEnds
    | CloseCalled
    | JoinEnds
    | ServerCloseEnds
    | LeaseReleased

  predicate ServerEnabled(h: Shared, v: Server, e: ServerEvent) {
    match e
    case HookRuns => !v.hookRan
    // Vite hands out a server, and so lets it listen, once its hooks have run.
    case ListenCalled(_) => v.hookRan
    case LockGranted => v.pending.Queued? && h.lock == Nobody
    case QueueGivenUp => v.pending.Queued?
    case CheckEnds(_) => v.pending.Checking?
    case ReserveEnds(token) => v.pending.Reserving? && (token.Some? ==> token.value !in h.used)
    case OldReleased => v.pending.ReleasingOld?
    case BindEnds(_) => v.pending.Binding?
    case PublishEnds => v.pending.Publishing?
    case CloseCalled => true
    case JoinEnds => v.closing.Joining? && v.pending.Idle?
    case ServerCloseEnds => v.closing.ClosingServer?
    case LeaseReleased => v.closing.Releasing?
  }

  function ServerStep(h: Shared, v: Server, i: nat, e: ServerEvent): (Shared, Server)
    requires ServerEnabled(h, v, e)
  {
    match e
    case HookRuns => PostHook(h, v)
    case ListenCalled(port) => CallListen(h, v, port)
    case LockGranted => GrantLock(h, v, i)
    case QueueGivenUp => GiveUpLock(h, v)
    case CheckEnds(free) => EndCheck(h, v, free)
    case ReserveEnds(token) => EndReserve(h, v, token)
    case OldReleased => EndReleaseOld(h, v)
    case BindEnds(bound) => EndBind(h, v, bound)
    case PublishEnds => EndPublish(h, v)
    case CloseCalled => CallClose(h, v)
    case JoinEnds => EndJoin(h, v)
    case ServerCloseEnds => EndServerClose(h, v)
    case LeaseReleased => EndRelease(h, v)
  }

  // --- All servers together ---

  datatype State = State(shared: Shared, servers: map<nat, Server>)

  const INIT := State(Shared(0, None, Nobody, {}, {}), map[])

  datatype Event =
    | Configure(i: nat)
    | On(i: nat, e: ServerEvent)
    | OtherTakesLock
    | OtherDropsLock

  predicate Enabled(s: State, e: Event) {
    match e
    case Configure(i) => i !in s.servers
    case On(i, se) => i in s.servers && ServerEnabled(s.shared, s.servers[i], se)
    case OtherTakesLock => s.shared.lock == Nobody
    case OtherDropsLock => s.shared.lock == OtherProcess
  }

  function Step(s: State, e: Event): State
    requires Enabled(s, e)
  {
    match e
    case Configure(i) => s.(servers := s.servers[i := FRESH])
    case On(i, se) =>
      var r := ServerStep(s.shared, s.servers[i], i, se);
      State(r.0, s.servers[i := r.1])
    case OtherTakesLock => s.(shared := s.shared.(lock := OtherProcess))
    case OtherDropsLock => s.(shared := s.shared.(lock := Nobody))
  }

  // --- What every reachable state satisfies ---

  // The close of this server has let go of its reference.
  predicate Finished(v: Server) {
    v.closing.Releasing? || v.closing.Settled?
  }

  predicate HoldsReference(v: Server) {
    v.registered && !Finished(v)
  }

  // The registered servers that have not finished closing.
  function References(servers: map<nat, Server>): set<nat> {
    set i | i in servers && HoldsReference(servers[i])
  }

  predicate ServerInv(h: Shared, i: nat, v: Server) {
    && (v.registered ==> v.hookRan)
    && (v.closing != NotClosing <==> v.closed)
    && (v.hookRan && !v.closed ==> v.registered)
    && (v.pending != Idle ==> v.registered && (v.closing.NotClosing? || v.closing.Joining?))
    && (Locked(v.pending) <==> h.lock == Listener(i))
    && (v.pending.Reserving? ==> v.pending.previous == h.lease)
    && (v.pending.Binding? || v.pending.Publishing? || v.pending.ReleasingOld? ==>
          h.lease.Some? && h.lease.value.port == v.pending.port)
  }

  // The lease whose release a server is waiting for.
  function InRelease(v: Server): Option<Lease> {
    if v.pending.ReleasingOld? then v.pending.previous
    else if v.closing.Releasing? then v.closing.lease
    else None
  }

  predicate Waits(v: Server, t: nat) {
    InRelease(v).Some? && InRelease(v).value.token == t
  }

  predicate IsLease(h: Shared, t: nat) {
    h.lease.Some? && h.lease.value.token == t
  }

  // The unreleased reservations are the lease, and those whose release is being awaited.
  ghost predicate HeldInv(s: State) {
    && s.shared.held <= s.shared.used
    && (forall t :: IsLease(s.shared, t) ==> t in s.shared.held)
    && (forall t :: t in s.shared.held ==> IsLease(s.shared, t) || SomeoneWaits(s.servers, t))
    && (forall i, t :: i in s.servers && Waits(s.servers[i], t) ==> t in s.shared.used && !IsLease(s.shared, t))
  }

  ghost predicate SomeoneWaits(servers: map<nat, Server>, t: nat) {
    exists i :: i in servers && Waits(servers[i], t)
  }

  ghost predicate Inv(s: State) {
    && s.shared.generations == |References(s.servers)|
    && (s.shared.lease.Some? ==> s.shared.generations > 0)
    && (s.shared.lock.Listener? ==> s.shared.lock.server in s.servers)
    && (forall i :: i in s.servers ==> ServerInv(s.shared, i, s.servers[i]))
    && HeldInv(s)
  }

  // --- The count ---

  function Count(b: bool): int {
    if b then 1 else 0
  }

  lemma ServerCount(h: Shared, v: Server, i: nat, e: ServerEvent)
    requires h.generations >= 0 && ServerInv(h, i, v) && ServerEnabled(h, v, e)
    ensures var r := ServerStep(h, v, i, e);
      && r.0.generations == h.generations + Count(HoldsReference(r.1)) - Count(HoldsReference(v))
      && (r.0.lease.Some? && h.lease == None ==> HoldsReference(r.1))
      && (h.generations != r.0.generations && r.0.generations == 0 ==> r.0.lease == None)
  {
  }

  lemma ReferencesChange(servers: map<nat, Server>, i: nat, v: Server)
    ensures |References(servers[i := v])| ==
            |References(servers)| + Count(HoldsReference(v)) - Count(i in servers && HoldsReference(servers[i]))
    ensures HoldsReference(v) ==> i in References(servers[i := v])
  {
    var rest := References(servers) - {i};
    var all := References(servers[i := v]);
    assert all == if HoldsReference(v) then rest + {i} else rest;
    assert References(servers) == if i in References(servers) then rest + {i} else rest;
  }

  lemma CountKept(s: State, e: Event)
    requires Inv(s) && Enabled(s, e)
    ensures Step(s, e).shared.generations == |References(Step(s, e).servers)|
    ensures Step(s, e).shared.lease.Some? ==> Step(s, e).shared.generations > 0
  {
    match e
    case Configure(i) => ReferencesChange(s.servers, i, FRESH);
    case On(i, se) =>
      var r := ServerStep(s.shared, s.servers[i], i, se);
      ServerCount(s.shared, s.servers[i], i, se);
      ReferencesChange(s.servers, i, r.1);
      assert HoldsReference(r.1) ==> References(s.servers[i := r.1]) != {};
    case _ =>
  }

  // --- The servers ---

  // While another server listens, a closing one does not bring the count to zero.
  lemma ListenerKeepsLease(s: State, i: nat, j: nat)
    requires Inv(s) && i in s.servers && j in s.servers && i != j
    requires s.servers[j].pending != Idle && HoldsReference(s.servers[i])
    ensures s.shared.generations > 1
  {
    var refs := References(s.servers);
    assert ServerInv(s.shared, j, s.servers[j]);
    assert refs == {i, j} + (refs - {i, j});
  }

  lemma ActorKept(h: Shared, v: Server, i: nat, e: ServerEvent)
    requires ServerInv(h, i, v) && ServerEnabled(h, v, e)
    ensures ServerInv(ServerStep(h, v, i, e).0, i, ServerStep(h, v, i, e).1)
  {
  }

  lemma OthersKept(s: State, i: nat, e: ServerEvent, j: nat)
    requires Inv(s) && Enabled(s, On(i, e)) && j in s.servers && i != j
    ensures ServerInv(Step(s, On(i, e)).shared, j, s.servers[j])
  {
    assert ServerInv(s.shared, j, s.servers[j]) && ServerInv(s.shared, i, s.servers[i]);
    if e.ServerCloseEnds? && s.servers[i].registered && s.servers[j].pending != Idle {
      ListenerKeepsLease(s, i, j);
    }
  }

  // --- The reservations ---

  lemma HeldKept(s: State, i: nat, e: ServerEvent)
    requires Inv(s) && Enabled(s, On(i, e))
    ensures HeldInv(Step(s, On(i, e)))
  {
    LeaseStaysHeld(s, i, e);
    HeldIsLeaseOrWaits(s, i, e);
    WaitingIsOld(s, i, e);
  }

  lemma LeaseStaysHeld(s: State, i: nat, e: ServerEvent)
    requires Inv(s) && Enabled(s, On(i, e))
    ensures var h := Step(s, On(i, e)).shared;
      h.held <= h.used && forall t :: IsLease(h, t) ==> t in h.held
  {
    var s' := Step(s, On(i, e));
    assert ServerInv(s.shared, i, s.servers[i]);
    forall t | IsLease(s'.shared, t) ensures t in s'.shared.held {
      if IsLease(s.shared, t) {
        assert t in s.shared.held && !Waits(s.servers[i], t);
      }
    }
  }

  lemma HeldIsLeaseOrWaits(s: State, i: nat, e: ServerEvent)
    requires Inv(s) && Enabled(s, On(i, e))
    ensures var s' := Step(s, On(i, e));
      forall t :: t in s'.shared.held ==> IsLease(s'.shared, t) || SomeoneWaits(s'.servers, t)
  {
    var s' := Step(s, On(i, e));
    assert ServerInv(s.shared, i, s.servers[i]);
    forall t | t in s'.shared.held && !IsLease(s'.shared, t) ensures SomeoneWaits(s'.servers, t) {
      if IsLease(s.shared, t) {
        assert Waits(s'.servers[i], t);
      } else {
        var j :| j in s.servers && Waits(s.servers[j], t);
        assert Waits(s'.servers[j], t);
      }
    }
  }

  lemma WaitingIsOld(s: State, i: nat, e: ServerEvent)
    requires Inv(s) && Enabled(s, On(i, e))
    ensures var s' := Step(s, On(i, e));
      forall j, t :: j in s'.servers && Waits(s'.servers[j], t) ==> t in s'.shared.used && !IsLease(s'.shared, t)
  {
    var s' := Step(s, On(i, e));
    assert ServerInv(s.shared, i, s.servers[i]);
    forall j, t | j in s'.servers && Waits(s'.servers[j], t) ensures t in s'.shared.used && !IsLease(s'.shared, t) {
      assert j != i ==> Waits(s.servers[j], t);
    }
  }

  lemma InvKept(s: State, e: Event)
    requires Inv(s) && Enabled(s, e)
    ensures Inv(Step(s, e))
  {
    var s' := Step(s, e);
    CountKept(s, e);
    match e
    case On(i, se) =>
      HeldKept(s, i, se);
      forall j | j in s'.servers ensures ServerInv(s'.shared, j, s'.servers[j]) {
        if j == i {
          ActorKept(s.shared, s.servers[i], i, se);
        } else {
          OthersKept(s, i, se, j);
        }
      }
    case Configure(i) => ConfigureKeeps(s, i);
    case _ =>
  }

  lemma ConfigureKeeps(s: State, i: nat)
    requires Inv(s) && i !in s.servers
    ensures HeldInv(Step(s, Configure(i)))
  {
    var s' := Step(s, Configure(i));
    forall t | SomeoneWaits(s.servers, t) ensures SomeoneWaits(s'.servers, t) {
      var j :| j in s.servers && Waits(s.servers[j], t);
      assert Waits(s'.servers[j], t);
    }
  }

  // --- Whole runs ---

  predicate Possible(s: State, events: seq<Event>)
    decreases |events|
  {
    events == [] || (Enabled(s, events[0]) && Possible(Step(s, events[0]), events[1..]))
  }

  function After(s: State, events: seq<Event>): State
    requires Possible(s, events)
    decreases |events|
  {
    if events == [] then s else After(Step(s, events[0]), events[1..])
  }

  lemma {:induction false} InvAlways(s: State, events: seq<Event>)
    requires Inv(s) && Possible(s, events)
    ensures Inv(After(s, events))
    decreases |events|
  {
    if events != [] {
      InvKept(s, events[0]);
      InvAlways(Step(s, events[0]), events[1..]);
    }
  }

  lemma InitInv()
    ensures Inv(INIT)
  {
    assert References(map[]) == {};
  }

  // The count is the number of registered servers that have not finished closing, and while a lease
  // is held it is positive. Only the lease and the reservations whose release is being awaited exist.
  lemma GenerationsCountReferences(events: seq<Event>)
    requires Possible(INIT, events)
    ensures var s := After(INIT, events);
      && s.shared.generations == |References(s.servers)|
      && (s.shared.generations == 0 ==> s.shared.lease == None)
      && forall t :: t in s.shared.held ==> IsLease(s.shared, t) || SomeoneWaits(s.servers, t)
  {
    InitInv();
    InvAlways(INIT, events);
  }

  // The lease is given up exactly by the step that brings the count to zero; any other step that
  // replaces it reserves the new port first, so the old file is still there.
  lemma LeaseGivenUpExactly(events: seq<Event>, e: Event)
    requires Possible(INIT, events) && Enabled(After(INIT, events), e)
    ensures var s := After(INIT, events); var s' := Step(s, e);
      s.shared.lease.Some? ==>
        && (s'.shared.lease == None <==> s'.shared.generations == 0)
        && (s'.shared.lease != s.shared.lease && s'.shared.lease.Some? ==>
              s.shared.lease.value.token in s'.shared.held && s'.shared.lease.value.token in s'.shared.held &&
              s'.shared.lease.value.token != s.shared.lease.value.token)
  {
    InitInv();
    InvAlways(INIT, events);
    var s := After(INIT, events);
    InvKept(s, e);
    match e
    case On(i, se) =>
      assert ServerInv(s.shared, i, s.servers[i]);
      ServerCount(s.shared, s.servers[i], i, se);
    case _ =>
  }

  // The lease taken down before a reservation is awaited is still the lease when the wait is over.
  lemma PreviousIsStillLease(events: seq<Event>, i: nat, token: Option<nat>)
    requires Possible(INIT, events) && Enabled(After(INIT, events), On(i, ReserveEnds(token)))
    ensures var s := After(INIT, events); s.servers[i].pending.previous == s.shared.lease
  {
    InitInv();
    InvAlways(INIT, events);
    assert ServerInv(After(INIT, events).shared, i, After(INIT, events).servers[i]);
  }

  // --- The check ---

  // Past its check, and still bent on this port.
  predicate Goes(v: Server, port: int) {
    v.pending == Binding(port) || (v.pending.Reserving? && v.pending.port == port)
    || (v.pending.ReleasingOld? && v.pending.port == port)
  }

  // The k-th event of the run is a check of server i that found this port, a valid one, free. The server has
  // held the lock ever since, and has made no other check.
  ghost predicate CheckedAt(s: State, events: seq<Event>, i: nat, port: int, k: nat)
    requires Possible(s, events)
  {
    && k < |events| && events[k] == On(i, CheckEnds(true)) && 1 <= port <= 65535
    && Possible(s, events[..k])
    && (i in After(s, events[..k]).servers && After(s, events[..k]).servers[i].pending == Checking(port))
    && forall j :: k <= j <= |events| ==>
         && Possible(s, events[..j]) && After(s, events[..j]).shared.lock == Listener(i)
         && (k < j < |events| ==> !IsCheckOf(events[j], i))
  }

  predicate IsCheckOf(e: Event, i: nat) {
    e.On? && e.i == i && e.e.CheckEnds?
  }

  lemma {:induction false} PrefixPossible(s: State, events: seq<Event>, j: nat)
    requires Possible(s, events) && j <= |events|
    ensures Possible(s, events[..j])
    ensures j < |events| ==> Enabled(After(s, events[..j]), events[j])
    ensures j < |events| ==> Possible(s, events[..j + 1])
    ensures j < |events| ==> After(s, events[..j + 1]) == Step(After(s, events[..j]), events[j])
    decreases |events|
  {
    hide Step, Enabled;
    if j > 0 {
      var next := Step(s, events[0]);
      PrefixPossible(next, events[1..], j - 1);
      assert events[..j][1..] == events[1..][..j - 1];
      if j < |events| {
        assert events[..j + 1][1..] == events[1..][..j];
      }
    } else if events != [] {
      assert events[..1][1..] == [];
    }
  }

  // Whoever reserves or binds a port has checked it first, and found it free.
  lemma {:induction false} GoesAfterCheck(events: seq<Event>, i: nat, port: int) returns (k: nat)
    requires Possible(INIT, events)
    requires var s := After(INIT, events); i in s.servers && Goes(s.servers[i], port)
    ensures CheckedAt(INIT, events, i, port, k)
    decreases |events|
  {
    hide Step, Enabled, Goes;
    assert events != [];
    var n := |events| - 1;
    var init, e := events[..n], events[n];
    assert events[..n + 1] == events;
    PrefixPossible(INIT, events, n);
    InitInv();
    InvAlways(INIT, init);
    var s := After(INIT, init);
    GoesStep(s, e, i, port);
    if e == On(i, CheckEnds(true)) {
      k := n;
    } else {
      k := GoesAfterCheck(init, i, port);
      forall j | k <= j <= n
        ensures Possible(INIT, events[..j]) && After(INIT, events[..j]).shared.lock == Listener(i)
        ensures k < j ==> !IsCheckOf(events[j], i)
      {
        assert init[..j] == events[..j];
      }
      assert init[..k] == events[..k];
    }
  }

  // A server gets there only by such a check, and goes on under the lock.
  lemma GoesStep(s: State, e: Event, i: nat, port: int)
    requires Inv(s) && Enabled(s, e)
    requires i in Step(s, e).servers && Goes(Step(s, e).servers[i], port)
    ensures i in s.servers && Step(s, e).shared.lock == Listener(i) && s.shared.lock == Listener(i)
    ensures if e == On(i, CheckEnds(true)) then 1 <= port <= 65535 && s.servers[i].pending == Checking(port)
            else Goes(s.servers[i], port) && !IsCheckOf(e, i)
  {
    if e.On? {
      assert ServerInv(s.shared, e.i, s.servers[e.i]);
      if e.i == i {
        GoesServerStep(s.shared, s.servers[i], i, e.e, port);
      } else {
        assert i in s.servers && ServerInv(s.shared, i, s.servers[i]);
        OthersKeepLock(s.shared, s.servers[e.i], e.i, e.e, i);
      }
    } else if i in s.servers {
      assert ServerInv(s.shared, i, s.servers[i]);
    }
  }

  lemma GoesServerStep(h: Shared, v: Server, i: nat, e: ServerEvent, port: int)
    requires ServerInv(h, i, v) && ServerEnabled(h, v, e) && Goes(ServerStep(h, v, i, e).1, port)
    ensures h.lock == Listener(i) && ServerStep(h, v, i, e).0.lock == Listener(i)
    ensures if e == CheckEnds(true) then 1 <= port <= 65535 && v.pending == Checking(port)
            else Goes(v, port) && !e.CheckEnds?
  {
  }

  lemma OthersKeepLock(h: Shared, v: Server, j: nat, e: ServerEvent, i: nat)
    requires ServerInv(h, j, v) && ServerEnabled(h, v, e) && i != j
    ensures h.lock == Listener(i) ==> ServerStep(h, v, j, e).0.lock == Listener(i)
  {
  }

  // So whenever a server is about to publish a reservation, or to bind, the port was found free, by its last
  // check, under the lock that it still holds.
  lemma ActsOnFreePort(events: seq<Event>, i: nat, e: ServerEvent)
    requires Possible(INIT, events) && Enabled(After(INIT, events), On(i, e)) && (e.ReserveEnds? || e.BindEnds?)
    ensures exists k :: CheckedAt(INIT, events, i, After(INIT, events).servers[i].pending.port, k)
  {
    var k := GoesAfterCheck(events, i, After(INIT, events).servers[i].pending.port);
  }

  // What a check leads to: a port that is not valid, or not free, leaves the lock with nothing reserved, and so
  // does a server closed meanwhile, unless the port is leased already; otherwise the port is reserved, or
  // bound at once if it is leased.
  lemma CheckDecides(events: seq<Event>, i: nat, free: bool)
    requires Possible(INIT, events) && Enabled(After(INIT, events), On(i, CheckEnds(free)))
    ensures var s := After(INIT, events); var t := Step(s, On(i, CheckEnds(free)));
      var port, leased := s.servers[i].pending.port, s.shared.lease;
      && t.shared.held == s.shared.held && t.shared.lease == leased && t.shared.generations == s.shared.generations
      && (t.servers[i].pending == Binding(port) <==>
            free && 1 <= port <= 65535 && leased.Some? && leased.value.port == port)
      && (t.servers[i].pending == Reserving(port, leased) <==>
            free && 1 <= port <= 65535 && !(leased.Some? && leased.value.port == port) && !s.servers[i].closed)
      && (t.servers[i].pending == Idle <==> t.shared.lock == Nobody)
      && (t.servers[i].pending == Idle || t.servers[i].pending == Binding(port)
            || t.servers[i].pending == Reserving(port, leased))
  {
    InitInv();
    InvAlways(INIT, events);
    assert ServerInv(After(INIT, events).shared, i, After(INIT, events).servers[i]);
  }

  // Whenever a server binds, it does so on the leased port, while the lease's reservation is held
  // and the lock is its own, and its close has not got past joining the bind.
  lemma BindsUnderLease(events: seq<Event>, i: nat, bound: bool)
    requires Possible(INIT, events) && Enabled(After(INIT, events), On(i, BindEnds(bound)))
    ensures var s := After(INIT, events); var v := s.servers[i];
      && s.shared.lease.Some? && s.shared.lease.value.port == v.pending.port
      && s.shared.lease.value.token in s.shared.held
      && s.shared.lock == Listener(i)
      && (v.closing.NotClosing? || v.closing.Joining?)
  {
    InitInv();
    InvAlways(INIT, events);
    var s := After(INIT, events);
    assert ServerInv(s.shared, i, s.servers[i]);
    assert IsLease(s.shared, s.shared.lease.value.token);
  }

  // Once a close has settled, no listen of that server is under way, and none begins again.
  lemma NoBindAfterSettledClose(events: seq<Event>, later: seq<Event>, i: nat)
    requires Possible(INIT, events) && i in After(INIT, events).servers
    requires After(INIT, events).servers[i].closing.Settled?
    requires Possible(After(INIT, events), later)
    ensures var s := After(After(INIT, events), later);
      i in s.servers && s.servers[i].closing.Settled? && s.servers[i].pending == Idle
  {
    InitInv();
    InvAlways(INIT, events);
    SettledForGood(After(INIT, events), later, i);
  }

  lemma {:induction false} SettledForGood(s: State, later: seq<Event>, i: nat)
    requires Inv(s) && Possible(s, later) && i in s.servers && s.servers[i].closing.Settled?
    ensures i in After(s, later).servers && After(s, later).servers[i].closing.Settled?
    ensures After(s, later).servers[i].pending == Idle
    decreases |later|
  {
    assert ServerInv(s.shared, i, s.servers[i]);
    if later != [] {
      InvKept(s, later[0]);
      SettledForGood(Step(s, later[0]), later[1..], i);
    }
  }

  // --- What a server can do while the others wait ---

  predicate ServerPossible(h: Shared, v: Server, i: nat, es: seq<ServerEvent>)
    decreases |es|
  {
    es == [] || (ServerEnabled(h, v, es[0]) &&
                 var r := ServerStep(h, v, i, es[0]); ServerPossible(r.0, r.1, i, es[1..]))
  }

  function ServerAfter(h: Shared, v: Server, i: nat, es: seq<ServerEvent>): (Shared, Server)
    requires ServerPossible(h, v, i, es)
    decreases |es|
  {
    if es == [] then (h, v) else var r := ServerStep(h, v, i, es[0]); ServerAfter(r.0, r.1, i, es[1..])
  }

  function Ons(i: nat, es: seq<ServerEvent>): seq<Event> {
    if es == [] then [] else [On(i, es[0])] + Ons(i, es[1..])
  }

  lemma {:induction false} AloneRuns(s: State, i: nat, es: seq<ServerEvent>)
    requires i in s.servers && ServerPossible(s.shared, s.servers[i], i, es)
    ensures Possible(s, Ons(i, es))
    ensures var r := ServerAfter(s.shared, s.servers[i], i, es);
      After(s, Ons(i, es)) == State(r.0, s.servers[i := r.1])
    decreases |es|
  {
    hide ServerStep, ServerEnabled;
    if es == [] {
      assert s.servers[i := s.servers[i]] == s.servers;
    } else {
      var next := Step(s, On(i, es[0]));
      AloneRuns(next, i, es[1..]);
      assert Ons(i, es)[1..] == Ons(i, es[1..]);
      var r := ServerAfter(s.shared, s.servers[i], i, es);
      assert next.servers[i := r.1] == s.servers[i := r.1];
    }
  }

  lemma ServerThen(h: Shared, v: Server, i: nat, e: ServerEvent, es: seq<ServerEvent>)
    requires ServerEnabled(h, v, e)
    requires var r := ServerStep(h, v, i, e); ServerPossible(r.0, r.1, i, es)
    ensures ServerPossible(h, v, i, [e] + es)
    ensures var r := ServerStep(h, v, i, e); ServerAfter(h, v, i, [e] + es) == ServerAfter(r.0, r.1, i, es)
  {
    hide ServerStep, ServerEnabled;
    assert ([e] + es)[1..] == es;
  }

  // From the reservation on: the lease is for this port.
  lemma BindsAlone(h: Shared, v: Server, i: nat, port: int)
    requires v.pending == Binding(port) && h.lock == Listener(i)
    ensures ServerPossible(h, v, i, [BindEnds(true), PublishEnds])
    ensures ServerAfter(h, v, i, [BindEnds(true), PublishEnds]) == (h.(lock := Nobody), v.(pending := Idle))
  {
    var r1 := ServerStep(h, v, i, BindEnds(true));
    var r2 := ServerStep(r1.0, r1.1, i, PublishEnds);
    assert ServerAfter(r2.0, r2.1, i, []) == r2;
    ServerThen(r1.0, r1.1, i, PublishEnds, []);
    ServerThen(h, v, i, BindEnds(true), [PublishEnds]);
  }

  // The events of a listen on a free port that succeeds.
  function Listening(port: int, token: nat, leased: bool): seq<ServerEvent> {
    [ListenCalled(port)] + ([LockGranted] + ([CheckEnds(true)] +
      ((if leased then [] else [ReserveEnds(Some(token)), OldReleased]) + [BindEnds(true), PublishEnds])))
  }

  lemma ListensAlone(h: Shared, v: Server, i: nat, port: int, token: nat)
    requires v.hookRan && !v.closed && v.pending == Idle && h.lock == Nobody && 1 <= port <= 65535 && token !in h.used
    ensures var leased := h.lease.Some? && h.lease.value.port == port;
      && ServerPossible(h, v, i, Listening(port, token, leased))
      && ServerAfter(h, v, i, Listening(port, token, leased))
         == (if leased then h
             else h.(lease := Some(Lease(token, port)), used := h.used + {token},
                     held := Drop(h.held + {token}, h.lease)), v)
  {
    var leased := h.lease.Some? && h.lease.value.port == port;
    var last := [BindEnds(true), PublishEnds];
    var r1 := ServerStep(h, v, i, ListenCalled(port));
    var r2 := ServerStep(r1.0, r1.1, i, LockGranted);
    var r3 := ServerStep(r2.0, r2.1, i, CheckEnds(true));
    var rest := (if leased then [] else [ReserveEnds(Some(token)), OldReleased]) + last;
    if leased {
      BindsAlone(r3.0, r3.1, i, port);
      assert rest == last;
    } else {
      var r4 := ServerStep(r3.0, r3.1, i, ReserveEnds(Some(token)));
      var r5 := ServerStep(r4.0, r4.1, i, OldReleased);
      BindsAlone(r5.0, r5.1, i, port);
      ServerThen(r4.0, r4.1, i, OldReleased, last);
      ServerThen(r3.0, r3.1, i, ReserveEnds(Some(token)), [OldReleased] + last);
      assert rest == [ReserveEnds(Some(token))] + ([OldReleased] + last);
    }
    ServerThen(r2.0, r2.1, i, CheckEnds(true), rest);
    ServerThen(r1.0, r1.1, i, LockGranted, [CheckEnds(true)] + rest);
    ServerThen(h, v, i, ListenCalled(port), [LockGranted] + ([CheckEnds(true)] + rest));
  }

  // An open server can bind every valid port that is free and nobody's: there is a run of its own in which it
  // does, ends with the lock free, and holds the lease of that port and no other reservation for it.
  lemma ListenSucceeds(events: seq<Event>, i: nat, port: int, token: nat)
    requires Possible(INIT, events) && i in After(INIT, events).servers && 1 <= port <= 65535
    requires var s := After(INIT, events); var v := s.servers[i];
      v.hookRan && !v.closed && v.pending == Idle && s.shared.lock == Nobody && token !in s.shared.used
    ensures var s := After(INIT, events);
      var leased := s.shared.lease.Some? && s.shared.lease.value.port == port;
      var run := Ons(i, Listening(port, token, leased));
      && Possible(s, run)
      && var t := After(s, run);
         && t.shared.lock == Nobody && t.shared.lease.Some? && t.shared.lease.value.port == port
         && t.shared.lease.value.token in t.shared.held && t.servers == s.servers
         && (leased ==> t == s)
         && (!leased && s.shared.lease.Some? ==> s.shared.lease.value.token !in t.shared.held)
  {
    var s := After(INIT, events);
    InitInv();
    InvAlways(INIT, events);
    var leased := s.shared.lease.Some? && s.shared.lease.value.port == port;
    ListensAlone(s.shared, s.servers[i], i, port, token);
    AloneRuns(s, i, Listening(port, token, leased));
    assert s.servers[i := s.servers[i]] == s.servers;
    if s.shared.lease.Some? {
      assert IsLease(s.shared, s.shared.lease.value.token);
    }
  }

  // A server that is closed, or already listening, is not set to listen again.
  lemma ListenRefused(events: seq<Event>, i: nat, port: int)
    requires Possible(INIT, events) && Enabled(After(INIT, events), On(i, ListenCalled(port)))
    requires After(INIT, events).servers[i].closed || After(INIT, events).servers[i].pending != Idle
    ensures Step(After(INIT, events), On(i, ListenCalled(port))) == After(INIT, events)
  {
    var s := After(INIT, events);
    assert s.servers[i := s.servers[i]] == s.servers;
  }

  // A closed server that is granted the lock leaves it at once.
  lemma ClosedLeavesLock(events: seq<Event>, i: nat)
    requires Possible(INIT, events) && Enabled(After(INIT, events), On(i, LockGranted))
    ensures var s := After(INIT, events); var t := Step(s, On(i, LockGranted));
      if s.servers[i].closed then t.shared == s.shared && t.servers[i].pending == Idle
      else t.shared.lock == Listener(i) && t.servers[i].pending == Checking(s.servers[i].pending.port)
  {
  }

  // The events of a close of a server that is not listening, and whose reference is the last or not.
  function ClosingEvents(last: bool): seq<ServerEvent> {
    [CloseCalled] + ([JoinEnds] + ([ServerCloseEnds] + if last then [LeaseReleased] else []))
  }

  lemma ClosesAlone(h: Shared, v: Server, i: nat)
    requires v.closing == NotClosing && v.pending == Idle
    ensures var last := v.registered && h.generations == 1;
      && ServerPossible(h, v, i, ClosingEvents(last))
      && ServerAfter(h, v, i, ClosingEvents(last))
         == (h.(generations := if v.registered then h.generations - 1 else h.generations,
                lease := if last then None else h.lease, held := if last then Drop(h.held, h.lease) else h.held),
             v.(closed := true, closing := Settled))
  {
    var last := v.registered && h.generations == 1;
    var rest := if last then [LeaseReleased] else [];
    var r1 := ServerStep(h, v, i, CloseCalled);
    var r2 := ServerStep(r1.0, r1.1, i, JoinEnds);
    var r3 := ServerStep(r2.0, r2.1, i, ServerCloseEnds);
    if last {
      var r4 := ServerStep(r3.0, r3.1, i, LeaseReleased);
      assert ServerAfter(r4.0, r4.1, i, []) == r4;
      ServerThen(r3.0, r3.1, i, LeaseReleased, []);
    }
    ServerThen(r2.0, r2.1, i, ServerCloseEnds, rest);
    ServerThen(r1.0, r1.1, i, JoinEnds, [ServerCloseEnds] + rest);
    ServerThen(h, v, i, CloseCalled, [JoinEnds] + ([ServerCloseEnds] + rest));
  }

  // A server that is not listening can close by steps of its own; it gives its reference back, and with the
  // last one the lease and its reservation.
  lemma CloseSucceeds(events: seq<Event>, i: nat)
    requires Possible(INIT, events) && i in After(INIT, events).servers
    requires After(INIT, events).servers[i].closing == NotClosing && After(INIT, events).servers[i].pending == Idle
    ensures var s := After(INIT, events); var last := References(s.servers) == {i};
      var run := Ons(i, ClosingEvents(last));
      && Possible(s, run)
      && var t := After(s, run);
         && i in t.servers && t.servers[i].closing == Settled
         && t.shared.generations == |References(s.servers) - {i}|
         && t.shared.lease == (if last then None else s.shared.lease)
         && (last && s.shared.lease.Some? ==> s.shared.lease.value.token !in t.shared.held)
         && (!last ==> t.shared.held == s.shared.held)
  {
    var s := After(INIT, events);
    InitInv();
    InvAlways(INIT, events);
    var refs := References(s.servers);
    assert i in refs <==> s.servers[i].registered;
    assert i in refs ==> refs == {i} + (refs - {i}) && |refs| == 1 + |refs - {i}|;
    assert i !in refs ==> refs - {i} == refs;
    ClosesAlone(s.shared, s.servers[i], i);
    AloneRuns(s, i, ClosingEvents(s.servers[i].registered && s.shared.generations == 1));
    assert s.servers[i].registered && s.shared.generations == 1 <==> refs == {i};
  }

  // The hook of an open server takes one reference, that of a closed one none.
  lemma HookTakesReference(events: seq<Event>, i: nat)
    requires Possible(INIT, events) && Enabled(After(INIT, events), On(i, HookRuns))
    ensures var s := After(INIT, events); var t := Step(s, On(i, HookRuns));
      && t.servers[i].hookRan && t.servers[i].registered == !s.servers[i].closed
      && References(t.servers) == References(s.servers) + (if s.servers[i].closed then {} else {i})
      && t.shared.generations == |References(t.servers)|
  {
    InitInv();
    InvAlways(INIT, events);
    var s := After(INIT, events);
    assert ServerInv(s.shared, i, s.servers[i]);
    InvKept(s, On(i, HookRuns));
  }

  lemma TwoSteps(s: State, first: Event, second: Event)
    requires Enabled(s, first) && Enabled(Step(s, first), second)
    ensures Possible(s, [first, second]) && After(s, [first, second]) == Step(Step(s, first), second)
  {
    hide Enabled, Step;
    var r := Step(s, first);
    var t := Step(r, second);
    assert [first, second][1..] == [second] && [second][1..] == [];
    assert Possible(t, []) && After(t, []) == t;
    assert Possible(r, [second]) && After(r, [second]) == t;
  }

  // A server is created open, and its hook takes the one reference it adds.
  lemma NewServerCounts(events: seq<Event>, i: nat)
    requires Possible(INIT, events) && i !in After(INIT, events).servers
    ensures var s := After(INIT, events); var run := [Configure(i), On(i, HookRuns)];
      && Possible(s, run)
      && var t := After(s, run);
         && t.shared == s.shared.(generations := s.shared.generations + 1)
         && t.servers.Keys == s.servers.Keys + {i} && t.servers[i].registered && t.servers[i].hookRan
         && !t.servers[i].closed && t.servers[i].pending == Idle && t.servers[i].closing == NotClosing
         && forall j :: j in s.servers ==> t.servers[j] == s.servers[j]
  {
    var s := After(INIT, events);
    TwoSteps(s, Configure(i), On(i, HookRuns));
  }

  // A close of a server that is still queueing for the lock joins its listen as soon as the abort is heard.
  lemma AbortedListenIsJoined(events: seq<Event>, i: nat)
    requires Possible(INIT, events) && i in After(INIT, events).servers
    requires After(INIT, events).servers[i].pending.Queued? && After(INIT, events).servers[i].closing == Joining
    ensures var s := After(INIT, events); var run := [On(i, QueueGivenUp), On(i, JoinEnds)];
      && Possible(s, run)
      && After(s, run) == s.(servers := s.servers[i := s.servers[i].(pending := Idle, closing := ClosingServer)])
  {
    var s := After(INIT, events);
    TwoSteps(s, On(i, QueueGivenUp), On(i, JoinEnds));
    assert After(s, [On(i, QueueGivenUp), On(i, JoinEnds)]).servers == s.servers[i := s.servers[i].(pending := Idle, closing := ClosingServer)];
  }

  // From when another process takes the lock until it drops it, no server is in the critical section or can
  // enter it; then whoever queues can.
  lemma OtherKeepsOut(events: seq<Event>, later: seq<Event>, i: nat)
    requires Possible(INIT, events) && Enabled(After(INIT, events), OtherTakesLock)
    requires Possible(Step(After(INIT, events), OtherTakesLock), later) && OtherDropsLock !in later
    requires i in After(Step(After(INIT, events), OtherTakesLock), later).servers
    ensures var t := After(Step(After(INIT, events), OtherTakesLock), later); var v := t.servers[i];
      && !Locked(v.pending) && !Enabled(t, On(i, LockGranted)) && Enabled(t, OtherDropsLock)
      && (v.pending.Queued? ==> Enabled(Step(t, OtherDropsLock), On(i, LockGranted)))
  {
    var s := After(INIT, events);
    var taken := Step(s, OtherTakesLock);
    InitInv();
    InvAlways(INIT, events);
    InvKept(s, OtherTakesLock);
    OtherStays(taken, later);
    InvAlways(taken, later);
    var t := After(taken, later);
    assert ServerInv(t.shared, i, t.servers[i]);
  }

  lemma {:induction false} OtherStays(s: State, later: seq<Event>)
    requires Inv(s) && Possible(s, later) && OtherDropsLock !in later && s.shared.lock == OtherProcess
    ensures After(s, later).shared.lock == OtherProcess
    decreases |later|
  {
    if later != [] {
      if later[0].On? {
        assert ServerInv(s.shared, later[0].i, s.servers[later[0].i]);
      }
      InvKept(s, later[0]);
      OtherStays(Step(s, later[0]), later[1..]);
    }
  }
}
