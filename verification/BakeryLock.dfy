// packages/shared/src/DevPortCoordinator.ts: the lock that every development launcher takes before
// it checks and reserves a port. It is Lamport's bakery over a directory of slot files.
//
// One step is one file-system action of one acquisition. A directory listing takes time: it is
// begun in one step and ended in another, and may then return any set of names that holds every
// slot that was there throughout. Processes may die at any moment, and their PIDs be given to others.
module BakeryLock {
  import opened Prelude

  // One acquisition: `<pid>-<uuid>`. Ties between equal tickets are broken by the uuid alone.
  datatype Token = Token(owner: int, nonce: int)

  datatype Phase =
    | Choosing                                            // slot published, ticket still null
    | ListingTickets(atStart: set<Token>)                 // first directory listing under way
    | ReadingTickets(todo: set<Token>, maximum: nat)
    | Ticketed(ticket: nat)                               // slot replaced, ticket visible
    | ListingRivals(ticket: nat, atStart: set<Token>)     // second directory listing under way
    | Waiting(ticket: nat, todo: set<Token>)
    | Critical(ticket: nat)                               // running the caller's action
    | Leaving                                             // left or gave up; slot not unlinked yet
    | Gone
    | Lost                                                // its process died; the slot may remain

  // `dead` is the PIDs that name no process at the moment; it is all that the launchers can see of a
  // death, so a slot whose owner's PID has been given to a new process looks alive again. `slots` is the
  // directory: the ticket in each slot file, or None while it is null.
  datatype State = State(slots: map<Token, Option<nat>>, phases: map<Token, Phase>, dead: set<int>)

  const INIT := State(map[], map[], {})
  const MAX_SAFE_INTEGER: nat := 9007199254740991

  datatype Event =
    | Publish(p: Token)
    | BeginListing(p: Token)
    | EndListing(p: Token, names: set<Token>)
    | Read(p: Token, name: Token, seenDead: bool)
    | TakeTicket(p: Token)
    | Enter(p: Token)
    | Exit(p: Token)
    | GiveUp(p: Token)          // aborted, timed out, or out of tickets
    | Unlink(p: Token)
    | Die(pid: int)
    | Reuse(pid: int)           // a new process gets the PID of a dead one

  predicate Live(s: State, p: Token) {
    p in s.phases && !s.phases[p].Lost?
  }

  predicate Active(s: State, p: Token) {
    Live(s, p) && s.phases[p] != Leaving && s.phases[p] != Gone
  }

  predicate HasTicket(phase: Phase) {
    phase.Ticketed? || phase.ListingRivals? || phase.Waiting? || phase.Critical?
  }

  function TicketOf(phase: Phase): Option<nat> {
    if HasTicket(phase) then Some(phase.ticket) else None
  }

  predicate Enabled(s: State, e: Event) {
    match e
    case Publish(p) => p !in s.phases && p !in s.slots && p.owner !in s.dead
    case BeginListing(p) => Live(s, p) && (s.phases[p].Choosing? || s.phases[p].Ticketed?)
    case EndListing(p, names) =>
      Live(s, p) && (s.phases[p].ListingTickets? || s.phases[p].ListingRivals?) &&
      s.phases[p].atStart * s.slots.Keys <= names
    case Read(p, n, seenDead) =>
      Live(s, p) && (s.phases[p].ReadingTickets? || s.phases[p].Waiting?) && n in s.phases[p].todo &&
      // A signal that is not permitted hides a dead owner, never the other way round.
      (seenDead ==> n in s.slots && n.owner in s.dead)
    case TakeTicket(p) =>
      Live(s, p) && s.phases[p].ReadingTickets? && s.phases[p].todo == {} && s.phases[p].maximum < MAX_SAFE_INTEGER
    case Enter(p) => Live(s, p) && s.phases[p].Waiting? && s.phases[p].todo == {}
    case Exit(p) => Live(s, p) && s.phases[p].Critical?
    case GiveUp(p) => Active(s, p) && !s.phases[p].Critical?
    case Unlink(p) => Live(s, p) && s.phases[p].Leaving?
    case Die(pid) => pid !in s.dead
    case Reuse(pid) => pid in s.dead
  }

  // The slot another acquisition's file shows: absent, or its ticket (None while choosing).
  function Shown(s: State, n: Token, seenDead: bool): Option<Option<nat>> {
    if n in s.slots && !seenDead then Some(s.slots[n]) else None
  }

  // The waiter moves past `n`: it is itself, it is absent, or it comes later in ticket-nonce order.
  predicate Passes(p: Token, ticket: nat, n: Token, shown: Option<Option<nat>>) {
    || n == p
    || shown == None
    || (shown.value.Some? && Before(ticket, p, shown.value.value, n))
  }

  predicate Before(t: nat, p: Token, u: nat, q: Token) {
    t < u || (t == u && p.nonce < q.nonce)
  }

  function Step(s: State, e: Event): State
    requires Enabled(s, e)
  {
    match e
    case Publish(p) => s.(slots := s.slots[p := None], phases := s.phases[p := Choosing])
    case BeginListing(p) =>
      var next := match s.phases[p]
        case Ticketed(t) => ListingRivals(t, s.slots.Keys)
        case _ => ListingTickets(s.slots.Keys);
      s.(phases := s.phases[p := next])
    case EndListing(p, names) =>
      var next := match s.phases[p] case ListingRivals(t, _) => Waiting(t, names) case _ => ReadingTickets(names, 0);
      s.(phases := s.phases[p := next])
    case Read(p, n, seenDead) =>
      var shown := Shown(s, n, seenDead);
      var next := match s.phases[p]
        case Waiting(t, todo) => if Passes(p, t, n, shown) then Waiting(t, todo - {n}) else Waiting(t, todo)
        case ReadingTickets(todo, m) => ReadingTickets(todo - {n}, Larger(m, shown))
        case other => other;
      s.(slots := if seenDead then s.slots - {n} else s.slots, phases := s.phases[p := next])
    case TakeTicket(p) =>
      var ticket := s.phases[p].maximum + 1;
      s.(slots := s.slots[p := Some(ticket)], phases := s.phases[p := Ticketed(ticket)])
    case Enter(p) => s.(phases := s.phases[p := Critical(s.phases[p].ticket)])
    case Exit(p) => s.(phases := s.phases[p := Leaving])
    case GiveUp(p) => s.(phases := s.phases[p := Leaving])
    case Unlink(p) => s.(slots := s.slots - {p}, phases := s.phases[p := Gone])
    case Die(pid) => s.(phases := Losing(s.phases, pid), dead := s.dead + {pid})
    case Reuse(pid) => s.(dead := s.dead - {pid})
  }

  function Losing(phases: map<Token, Phase>, pid: int): map<Token, Phase> {
    map p | p in phases :: if p.owner == pid && phases[p] != Gone then Lost else phases[p]
  }

  function Larger(m: nat, shown: Option<Option<nat>>): nat {
    if shown.Some? && shown.value.Some? && shown.value.value > m then shown.value.value else m
  }

  // --- What every reachable state satisfies ---

  // `p` needs nothing more from `q`: it has listed without seeing it, or has moved past it.
  predicate Passed(s: State, p: Token, q: Token)
    requires p in s.phases
  {
    match s.phases[p]
    case ListingRivals(_, atStart) => q !in atStart
    case Waiting(_, todo) => q !in todo
    case Critical(_) => true
    case _ => false
  }

  // `q` has, or is bound to take, a place behind `p`.
  predicate Behind(s: State, p: Token, q: Token)
    requires p in s.phases && q in s.phases && HasTicket(s.phases[p])
  {
    var t := s.phases[p].ticket;
    match s.phases[q]
    case Choosing => true
    case ListingTickets(atStart) => p in atStart
    case ReadingTickets(todo, maximum) => p in todo || t <= maximum
    case Leaving => true
    case Gone => true
    case Lost => true
    case _ => Before(t, p, s.phases[q].ticket, q)
  }

  ghost predicate Inv(s: State) {
    && (forall p :: Active(s, p) ==> p in s.slots && s.slots[p] == TicketOf(s.phases[p]))
    && (forall p, q :: Active(s, p) && Active(s, q) && p != q && Passed(s, p, q) ==> Behind(s, p, q))
    && (forall p :: p in s.slots ==> p in s.phases && s.phases[p] != Gone)
    && (forall p :: p in s.phases && p.owner in s.dead ==> s.phases[p].Lost? || s.phases[p].Gone?)
  }

  lemma InvKept(s: State, e: Event)
    requires Inv(s) && Enabled(s, e)
    ensures Inv(Step(s, e))
  {
    var s' := Step(s, e);
    forall p, q | Active(s', p) && Active(s', q) && p != q && Passed(s', p, q)
      ensures Behind(s', p, q)
    {
      PairKept(s, e, p, q);
    }
  }

  lemma PairKept(s: State, e: Event, p: Token, q: Token)
    requires Inv(s) && Enabled(s, e) && p != q
    requires Active(Step(s, e), p) && Active(Step(s, e), q) && Passed(Step(s, e), p, q)
    ensures Behind(Step(s, e), p, q)
  {
    assert Active(s, p);
    if e != Publish(q) {
      assert Active(s, q);
      assert Passed(s, p, q) ==> Behind(s, p, q);
    }
  }

  // At most one live acquisition runs its action: two would each be behind the other.
  lemma AtMostOneCritical(s: State, p: Token, q: Token)
    requires Inv(s) && Live(s, p) && Live(s, q) && s.phases[p].Critical? && s.phases[q].Critical?
    ensures p == q
  {
    assert p != q ==> Behind(s, p, q) && Behind(s, q, p);
  }

  // --- Whole runs ---

  predicate Possible(s: State, events: seq<Event>)
    decreases |events|
  {
    events == [] || (Enabled(s, events[0]) && Possible(Step(s, events[0]), events[1..]))
  }

  function After(s: State, events: seq<Event>): State
    requires Possible(s, events)
    decreases |events|
  {
    if events == [] then s else After(Step(s, events[0]), events[1..])
  }

  lemma {:induction false} InvAlways(s: State, events: seq<Event>)
    requires Inv(s) && Possible(s, events)
    ensures Inv(After(s, events))
    decreases |events|
  {
    if events != [] {
      InvKept(s, events[0]);
      InvAlways(Step(s, events[0]), events[1..]);
    }
  }

  // In every run, whatever the interleaving, the deaths, the give-ups and the stale listings.
  lemma MutualExclusion(events: seq<Event>, p: Token, q: Token)
    requires Possible(INIT, events)
    requires Live(After(INIT, events), p) && After(INIT, events).phases[p].Critical?
    requires Live(After(INIT, events), q) && After(INIT, events).phases[q].Critical?
    ensures p == q
  {
    InvAlways(INIT, events);
    AtMostOneCritical(After(INIT, events), p, q);
  }

  // --- Who is dead, and whose slot goes ---

  // The k-th event is the last that says whether the PID names a process.
  ghost predicate LastWord(events: seq<Event>, pid: int, k: nat) {
    && k < |events| && (events[k] == Die(pid) || events[k] == Reuse(pid))
    && forall j :: k < j < |events| ==> events[j] != Die(pid) && events[j] != Reuse(pid)
  }

  lemma {:induction false} DeadIsTold(s: State, events: seq<Event>, pid: int)
    requires Possible(s, events)
    ensures forall k: nat :: LastWord(events, pid, k) ==> (pid in After(s, events).dead <==> events[k] == Die(pid))
    ensures (forall k :: 0 <= k < |events| ==> events[k] != Die(pid) && events[k] != Reuse(pid)) ==>
      (pid in After(s, events).dead <==> pid in s.dead)
    decreases |events|
  {
    if events != [] {
      DeadStep(s, events[0], pid);
      hide Step, Enabled;
      DeadIsTold(Step(s, events[0]), events[1..], pid);
      forall k: nat | LastWord(events, pid, k)
        ensures pid in After(s, events).dead <==> events[k] == Die(pid)
      {
        if k > 0 {
          assert LastWord(events[1..], pid, k - 1);
        } else {
          assert forall j :: 0 <= j < |events| - 1 ==> events[1..][j] == events[j + 1];
        }
      }
    }
  }

  lemma DeadStep(s: State, e: Event, pid: int)
    requires Enabled(s, e)
    ensures pid in Step(s, e).dead <==> e == Die(pid) || (pid in s.dead && e != Reuse(pid))
  {
  }

  // A reader that sees a slot's owner dead removes the slot for good; a slot is removed only so, or by its own
  // acquisition when that is over.
  lemma SlotGoes(s: State, e: Event, n: Token)
    requires Inv(s) && Enabled(s, e) && n in s.slots
    ensures n !in Step(s, e).slots <==>
      || (e.Read? && e.name == n && e.seenDead && n.owner in s.dead)
      || (e == Unlink(n) && s.phases[n] == Leaving)
  {
  }

  lemma {:induction false} GoneSlotStays(s: State, events: seq<Event>, n: Token)
    requires Inv(s) && Possible(s, events) && n in s.phases && n !in s.slots
    ensures n !in After(s, events).slots
    decreases |events|
  {
    if events != [] {
      InvKept(s, events[0]);
      hide Inv;
      SlotStaysGone(s, events[0], n);
      GoneSlotStays(Step(s, events[0]), events[1..], n);
    }
  }

  lemma SlotStaysGone(s: State, e: Event, n: Token)
    requires Inv(s) && Enabled(s, e) && n in s.phases && n !in s.slots
    ensures n in Step(s, e).phases && n !in Step(s, e).slots
  {
  }

  // --- Tickets ---

  lemma {:induction false} PrefixPossible(s: State, events: seq<Event>, j: nat)
    requires Possible(s, events) && j < |events|
    ensures Possible(s, events[..j]) && Enabled(After(s, events[..j]), events[j])
    ensures Possible(s, events[..j + 1]) && After(s, events[..j + 1]) == Step(After(s, events[..j]), events[j])
    decreases |events|
  {
    hide Step, Enabled;
    if j > 0 {
      PrefixPossible(Step(s, events[0]), events[1..], j - 1);
      assert events[..j][1..] == events[1..][..j - 1];
      assert events[..j + 1][1..] == events[1..][..j];
    } else {
      assert events[..1][1..] == [];
    }
  }

  // The ticket that a slot shows to a reader, 0 if there is none.
  function TicketShown(s: State, n: Token, seenDead: bool): nat {
    if n in s.slots && !seenDead && s.slots[n].Some? then s.slots[n].value else 0
  }

  // The largest ticket that an acquisition has been shown.
  function LargestShown(s: State, events: seq<Event>, p: Token): nat
    requires Possible(s, events)
    decreases |events|
  {
    if events == [] then 0
    else
      PrefixPossible(s, events, |events| - 1);
      var before, e := events[..|events| - 1], events[|events| - 1];
      var largest := LargestShown(s, before, p);
      if e.Read? && e.p == p && TicketShown(After(s, before), e.name, e.seenDead) > largest
      then TicketShown(After(s, before), e.name, e.seenDead)
      else largest
  }

  // Once every slot is read, the ticket is one more than the largest that was shown, and there is one exactly
  // if it is a safe integer.
  lemma TicketIsNext(events: seq<Event>, p: Token)
    requires Possible(INIT, events) && Live(After(INIT, events), p)
    requires After(INIT, events).phases[p].ReadingTickets? && After(INIT, events).phases[p].todo == {}
    ensures var s := After(INIT, events); var largest := LargestShown(INIT, events, p);
      && (Enabled(s, TakeTicket(p)) <==> largest + 1 <= MAX_SAFE_INTEGER)
      && (Enabled(s, TakeTicket(p)) ==> Step(s, TakeTicket(p)).slots[p] == Some(largest + 1))
  {
    MaximumIsLargest(INIT, events, p);
  }

  lemma {:induction false} MaximumIsLargest(s: State, events: seq<Event>, p: Token)
    requires Possible(s, events) && p !in s.phases
    ensures p in After(s, events).phases ==>
      match After(s, events).phases[p]
      case Choosing => LargestShown(s, events, p) == 0
      case ListingTickets(_) => LargestShown(s, events, p) == 0
      case ReadingTickets(_, maximum) => LargestShown(s, events, p) == maximum
      case _ => true
    ensures p !in After(s, events).phases ==> LargestShown(s, events, p) == 0
    decreases |events|
  {
    if events != [] {
      var n := |events| - 1;
      PrefixPossible(s, events, n);
      assert events[..n + 1] == events;
      MaximumIsLargest(s, events[..n], p);
      var t, e := After(s, events[..n]), events[n];
      hide After, Possible;
      PhaseStep(t, e, p);
    }
  }

  lemma PhaseStep(t: State, e: Event, p: Token)
    requires Enabled(t, e)
    ensures p !in t.phases ==> p !in Step(t, e).phases || Step(t, e).phases[p] == Choosing
    ensures p !in t.phases ==> !(e.Read? && e.p == p)
    ensures p in t.phases ==> p in Step(t, e).phases
    ensures p in t.phases ==>
      match Step(t, e).phases[p]
      case Choosing => t.phases[p] == Choosing && !(e.Read? && e.p == p)
      case ListingTickets(_) => (t.phases[p].Choosing? || t.phases[p].ListingTickets?) && !(e.Read? && e.p == p)
      case ReadingTickets(_, m) =>
        || (t.phases[p].ListingTickets? && m == 0 && !(e.Read? && e.p == p))
        || (t.phases[p].ReadingTickets? &&
              m == if e.Read? && e.p == p && TicketShown(t, e.name, e.seenDead) > t.phases[p].maximum
                   then TicketShown(t, e.name, e.seenDead) else t.phases[p].maximum)
      case _ => true
  {
  }

  // --- First come, first served ---

  // `p` holds a ticket and `q` can no longer get past it.
  ghost predicate Overtaken(s: State, p: Token, q: Token) {
    Active(s, p) && HasTicket(s.phases[p]) && p != q &&
    (Active(s, q) ==> Behind(s, p, q) && !Passed(s, q, p))
  }

  lemma OvertakenKept(s: State, e: Event, p: Token, q: Token)
    requires Inv(s) && Enabled(s, e) && Overtaken(s, p, q)
    ensures Active(Step(s, e), p) ==> Overtaken(Step(s, e), p, q)
  {
    if Active(Step(s, e), p) && Active(Step(s, e), q) && e != Publish(q) {
      assert Active(s, q);
    }
  }

  // An acquisition that has left, given up or died does not come back.
  lemma {:induction false} OverIsOver(s: State, events: seq<Event>, p: Token)
    requires Possible(s, events) && p in s.phases && !Active(s, p)
    ensures !Active(After(s, events), p)
    decreases |events|
  {
    if events != [] {
      OverIsOver(Step(s, events[0]), events[1..], p);
    }
  }

  lemma {:induction false} OvertakenForGood(s: State, events: seq<Event>, p: Token, q: Token)
    requires Inv(s) && Possible(s, events) && Overtaken(s, p, q) && Active(After(s, events), p)
    ensures Overtaken(After(s, events), p, q)
    decreases |events|
  {
    if events != [] {
      var next := Step(s, events[0]);
      InvKept(s, events[0]);
      if !Active(next, p) {
        OverIsOver(next, events[1..], p);
      }
      OvertakenKept(s, events[0], p, q);
      OvertakenForGood(next, events[1..], p, q);
    }
  }

  // Once `p` has its ticket, an acquisition that starts later cannot run its action until `p` has
  // left, given up or died.
  lemma FirstComeFirstServed(before: seq<Event>, later: seq<Event>, p: Token, q: Token)
    requires Possible(INIT, before) && Possible(After(INIT, before), later)
    requires Active(After(INIT, before), p) && HasTicket(After(INIT, before).phases[p])
    requires q !in After(INIT, before).phases
    requires Active(After(After(INIT, before), later), p)
    ensures !(Live(After(After(INIT, before), later), q) && After(After(INIT, before), later).phases[q].Critical?)
  {
    InvAlways(INIT, before);
    OvertakenForGood(After(INIT, before), later, p, q);
  }

  // --- No deadlock ---

  // No live acquisition is still choosing, running or leaving: every one of them waits.
  ghost predicate AllWait(s: State) {
    forall p :: Live(s, p) ==> s.phases[p].Waiting? || s.phases[p].Gone?
  }

  ghost predicate FirstInLine(s: State, waiters: set<Token>, p: Token) {
    && p in waiters && Live(s, p) && s.phases[p].Waiting?
    && forall q :: q in waiters && q != p && Live(s, q) && s.phases[q].Waiting? ==>
         Before(s.phases[p].ticket, p, s.phases[q].ticket, q)
  }

  lemma {:induction false} SomeoneIsFirst(s: State, waiters: set<Token>, w: Token) returns (p: Token)
    requires w in waiters && Live(s, w) && s.phases[w].Waiting?
    requires forall a, b :: a in waiters && b in waiters && a != b ==> a.nonce != b.nonce
    ensures FirstInLine(s, waiters, p)
    decreases |waiters|
  {
    var rest := waiters - {w};
    if v :| v in rest && Live(s, v) && s.phases[v].Waiting? {
      p := SomeoneIsFirst(s, rest, v);
      if Before(s.phases[w].ticket, w, s.phases[p].ticket, p) {
        p := w;
      }
    } else {
      p := w;
    }
  }

  // What a reader sees of a slot that it reads now.
  function SeenDead(s: State, n: Token): bool {
    n in s.slots && n.owner in s.dead
  }

  // The slot of a process that has died, whose PID a new process has: nobody sees that it is stale. It
  // holds up whoever comes later than the ticket in it.
  predicate HoldsUp(s: State, p: Token, ticket: nat, n: Token) {
    && n in s.slots && n in s.phases && s.phases[n].Lost? && n.owner !in s.dead
    && (s.slots[n].None? || !Before(ticket, p, s.slots[n].value, n))
  }

  // When everyone waits, the first in line gets past every slot, a dead owner's included, except exactly
  // those that hold it up; past all of them it can enter. (The uuids of two acquisitions differ.)
  lemma NoDeadlock(s: State, w: Token) returns (p: Token)
    requires Inv(s) && AllWait(s) && Live(s, w) && s.phases[w].Waiting?
    requires forall a, b :: a in s.phases && b in s.phases && a != b ==> a.nonce != b.nonce
    ensures Live(s, p) && s.phases[p].Waiting?
    ensures s.phases[p].todo == {} ==> Enabled(s, Enter(p))
    ensures forall n :: n in s.phases[p].todo ==>
      var e := Read(p, n, SeenDead(s, n));
      var t := s.phases[p].ticket;
      && Enabled(s, e)
      && (Step(s, e).phases[p] == Waiting(t, s.phases[p].todo - {n}) <==> !HoldsUp(s, p, t, n))
  {
    p := SomeoneIsFirst(s, s.phases.Keys, w);
    var t := s.phases[p].ticket;
    forall n | n in s.phases[p].todo ensures Passes(p, t, n, Shown(s, n, SeenDead(s, n))) <==> !HoldsUp(s, p, t, n) {
      if n != p && n in s.slots && n.owner !in s.dead && !s.phases[n].Lost? {
        assert Live(s, n) && Active(s, n);
      }
      assert n == p ==> !s.phases[n].Lost?;
    }
    forall n | n in s.phases[p].todo
      ensures Step(s, Read(p, n, SeenDead(s, n))).phases[p] == Waiting(t, s.phases[p].todo - {n})
         <==> Passes(p, t, n, Shown(s, n, SeenDead(s, n)))
    {
      assert s.phases[p].todo - {n} != s.phases[p].todo;
    }
  }

  // --- Everyone gets its turn ---

  // A step that a present acquisition takes by itself; it gives up only when the tickets have run out.
  predicate Goes(s: State, e: Event) {
    Enabled(s, e) &&
    match e
    case Publish(_) => false
    case Die(_) => false
    case Reuse(_) => false
    case GiveUp(p) => s.phases[p].ReadingTickets? && s.phases[p].todo == {} && s.phases[p].maximum >= MAX_SAFE_INTEGER
    case _ => true
  }

  // A run of such steps.
  predicate Onward(s: State, events: seq<Event>)
    decreases |events|
  {
    events == [] || (Goes(s, events[0]) && Onward(Step(s, events[0]), events[1..]))
  }

  lemma {:induction false} OnwardIsPossible(s: State, events: seq<Event>)
    requires Onward(s, events)
    ensures Possible(s, events)
    decreases |events|
  {
    hide Step, Goes;
    if events != [] {
      GoesIsEnabled(s, events[0]);
      OnwardIsPossible(Step(s, events[0]), events[1..]);
    }
  }

  lemma GoesIsEnabled(s: State, e: Event)
    requires Goes(s, e)
    ensures Enabled(s, e)
  {
  }

  lemma {:induction false} OnwardThen(s: State, a: seq<Event>, b: seq<Event>)
    requires Onward(s, a) && Possible(s, a) && Onward(After(s, a), b)
    ensures Onward(s, a + b) && Possible(s, a + b) && Possible(After(s, a), b)
    ensures After(s, a + b) == After(After(s, a), b)
    decreases |a|
  {
    hide Step, Goes, Enabled;
    if a == [] {
      assert a + b == b;
      OnwardIsPossible(s, b);
    } else {
      assert (a + b)[0] == a[0] && (a + b)[1..] == a[1..] + b;
      OnwardThen(Step(s, a[0]), a[1..], b);
    }
  }

  // No slot of a dead process whose PID a new process has.
  ghost predicate NoStaleSlot(s: State) {
    forall n :: n in s.slots && n in s.phases && s.phases[n].Lost? ==> n.owner in s.dead
  }

  ghost predicate UuidsDiffer(s: State) {
    forall a, b :: a in s.phases && b in s.phases && a != b ==> a.nonce != b.nonce
  }

  // What is known all the way.
  ghost predicate Sound(s: State) {
    Inv(s) && NoStaleSlot(s) && UuidsDiffer(s)
  }

  // Only `q` has moved, and no slot has come.
  ghost predicate OnlyMoves(s: State, t: State, q: Token) {
    && q in s.phases && s.phases.Keys == t.phases.Keys && s.dead == t.dead
    && t.slots.Keys <= s.slots.Keys
    && (forall p :: p in s.phases && p != q ==> t.phases[p] == s.phases[p])
    && (Live(s, q) ==> Live(t, q))
  }

  predicate Actor(e: Event, q: Token) {
    match e
    case BeginListing(p) => p == q
    case EndListing(p, _) => p == q
    case Read(p, _, _) => p == q
    case TakeTicket(p) => p == q
    case Enter(p) => p == q
    case Exit(p) => p == q
    case GiveUp(p) => p == q
    case Unlink(p) => p == q
    case _ => false
  }

  lemma GoesAlone(s: State, e: Event, q: Token)
    requires Sound(s) && Goes(s, e) && Actor(e, q)
    ensures Sound(Step(s, e)) && OnlyMoves(s, Step(s, e), q)
  {
    hide Inv, Step, Goes, Enabled;
    GoesIsEnabled(s, e);
    InvKept(s, e);
    StepsAlone(s, e, q);
  }

  lemma StepsAlone(s: State, e: Event, q: Token)
    requires Inv(s) && Goes(s, e) && Actor(e, q)
    ensures Live(s, q) && OnlyMoves(s, Step(s, e), q)
  {
  }

  // A ticket is left for `q`, or it has one.
  ghost predicate GetsTicket(s: State, q: Token) {
    Active(s, q) && (HasTicket(s.phases[q]) ||
      ((forall n :: n in s.slots && s.slots[n].Some? ==> s.slots[n].value < MAX_SAFE_INTEGER) &&
       (s.phases[q].ReadingTickets? ==> s.phases[q].maximum < MAX_SAFE_INTEGER)))
  }

  function Rank(phase: Phase): nat {
    match phase
    case Choosing => 9
    case ListingTickets(_) => 8
    case ReadingTickets(_, _) => 7
    case Ticketed(_) => 6
    case ListingRivals(_, _) => 5
    case Critical(_) => 4
    case Leaving => 3
    case _ => 0
  }

  function Unread(phase: Phase): set<Token> {
    if phase.ReadingTickets? then phase.todo else {}
  }

  predicate IsSettled(phase: Phase) {
    phase.Waiting? || phase.Gone?
  }

  predicate Finishing(phase: Phase) {
    phase.Critical? || phase.Leaving? || phase.Gone?
  }

  // What an acquisition does next until it waits or is gone.
  lemma NextOf(s: State, q: Token) returns (e: Event)
    requires Sound(s) && Live(s, q) && !IsSettled(s.phases[q])
    ensures Goes(s, e) && Actor(e, q)
    ensures var next := Step(s, e).phases[q];
      Rank(next) < Rank(s.phases[q]) || (Rank(next) == Rank(s.phases[q]) && Unread(next) < Unread(s.phases[q]))
    ensures Finishing(s.phases[q]) ==> Finishing(Step(s, e).phases[q])
    ensures GetsTicket(s, q) && !Finishing(s.phases[q]) ==> GetsTicket(Step(s, e), q) && !Finishing(Step(s, e).phases[q])
  {
    hide Inv;
    match s.phases[q]
    case Choosing => e := BeginListing(q);
    case ListingTickets(atStart) => e := EndListing(q, atStart);
    case ReadingTickets(todo, maximum) =>
      if todo == {} {
        e := if maximum < MAX_SAFE_INTEGER then TakeTicket(q) else GiveUp(q);
      } else {
        var n := SomeElement(todo);
        e := Read(q, n, SeenDead(s, n));
        assert n in todo && n !in todo - {n};
      }
    case Ticketed(_) => e := BeginListing(q);
    case ListingRivals(_, atStart) => e := EndListing(q, atStart);
    case Critical(_) => e := Exit(q);
    case Leaving => e := Unlink(q);
  }

  // An acquisition goes on by itself until it waits, or is gone.
  lemma {:induction false} Settles(s: State, q: Token) returns (events: seq<Event>)
    requires Sound(s) && Live(s, q)
    ensures Onward(s, events) && Possible(s, events)
    ensures var t := After(s, events);
      && Sound(t) && OnlyMoves(s, t, q) && IsSettled(t.phases[q])
      && (Finishing(s.phases[q]) ==> t.phases[q].Gone?)
      && (GetsTicket(s, q) && !Finishing(s.phases[q]) ==> t.phases[q].Waiting?)
    decreases Rank(s.phases[q]), Unread(s.phases[q])
  {
    hide Inv, Sound, Step, Goes, Enabled, Rank, Unread, GetsTicket, OnlyMoves;
    if IsSettled(s.phases[q]) {
      events := [];
      SettledWaits(s, q);
    } else {
      var e := NextOf(s, q);
      GoesIsEnabled(s, e);
      GoesAlone(s, e, q);
      StillLive(s, Step(s, e), q);
      var rest := Settles(Step(s, e), q);
      events := [e] + rest;
      assert events[1..] == rest;
      MovesTwice(s, Step(s, e), After(Step(s, e), rest), q);
    }
  }

  lemma SettledWaits(s: State, q: Token)
    requires Live(s, q) && IsSettled(s.phases[q])
    ensures GetsTicket(s, q) ==> s.phases[q].Waiting?
    ensures OnlyMoves(s, s, q)
  {
  }

  lemma StillLive(s: State, t: State, q: Token)
    requires OnlyMoves(s, t, q) && Live(s, q)
    ensures q in t.phases && Live(t, q)
  {
  }

  lemma MovesTwice(s: State, t: State, u: State, q: Token)
    requires OnlyMoves(s, t, q) && OnlyMoves(t, u, q)
    ensures OnlyMoves(s, u, q)
  {
  }

  // Those that neither wait nor are gone.
  function Unsettled(s: State): set<Token> {
    set p | p in s.phases && Live(s, p) && !IsSettled(s.phases[p])
  }

  // All others go on until they wait or are gone.
  lemma {:induction false} AllSettle(s: State, w: Token) returns (events: seq<Event>)
    requires Sound(s) && Live(s, w) && s.phases[w].Waiting?
    ensures Onward(s, events) && Possible(s, events)
    ensures var t := After(s, events);
      && Sound(t) && AllWait(t) && t.phases.Keys == s.phases.Keys && t.phases[w] == s.phases[w]
    decreases Unsettled(s)
  {
    hide Inv, Sound, Step, Goes, Enabled;
    if Unsettled(s) == {} {
      events := [];
      AllAreSettled(s);
    } else {
      var q := SomeElement(Unsettled(s));
      var first := Settles(s, q);
      var t := After(s, first);
      LessUnsettled(s, t, q);
      var rest := AllSettle(t, w);
      events := first + rest;
      OnwardThen(s, first, rest);
    }
  }

  lemma AllAreSettled(s: State)
    requires Unsettled(s) == {}
    ensures AllWait(s)
  {
    forall p | Live(s, p) ensures s.phases[p].Waiting? || s.phases[p].Gone? {
      assert p !in Unsettled(s);
    }
  }

  lemma LessUnsettled(s: State, t: State, q: Token)
    requires OnlyMoves(s, t, q) && q in Unsettled(s) && IsSettled(t.phases[q])
    ensures Unsettled(t) < Unsettled(s)
  {
    assert q !in Unsettled(t);
  }

  // Past every slot it has still to read.
  ghost predicate Unhindered(s: State, p: Token) {
    && Live(s, p) && s.phases[p].Waiting?
    && forall n :: n in s.phases[p].todo ==> Passes(p, s.phases[p].ticket, n, Shown(s, n, SeenDead(s, n)))
  }

  // Whoever is not held up reads the slots one by one and enters.
  lemma {:induction false} UnhinderedEnters(s: State, p: Token) returns (events: seq<Event>)
    requires Sound(s) && Unhindered(s, p)
    ensures Onward(s, events) && Possible(s, events)
    ensures var t := After(s, events); OnlyMoves(s, t, p) && Sound(t) && t.phases[p].Critical?
    decreases s.phases[p].todo
  {
    hide Inv, Sound, OnlyMoves, Goes, Step, Enabled;
    var todo := s.phases[p].todo;
    if todo == {} {
      EntersNow(s, p);
      events := [Enter(p)];
      assert events[1..] == [];
      GoesAlone(s, Enter(p), p);
    } else {
      var n := SomeElement(todo);
      var e := Read(p, n, SeenDead(s, n));
      ReadsOn(s, p, n);
      GoesAlone(s, e, p);
      var rest := UnhinderedEnters(Step(s, e), p);
      events := [e] + rest;
      assert events[1..] == rest;
      GoesIsEnabled(s, e);
      MovesTwice(s, Step(s, e), After(Step(s, e), rest), p);
    }
  }

  lemma EntersNow(s: State, p: Token)
    requires Unhindered(s, p) && s.phases[p].todo == {}
    ensures Goes(s, Enter(p)) && Enabled(s, Enter(p)) && Step(s, Enter(p)).phases[p].Critical?
  {
  }

  lemma ReadsOn(s: State, p: Token, n: Token)
    requires Unhindered(s, p) && n in s.phases[p].todo
    ensures var e := Read(p, n, SeenDead(s, n));
      && Goes(s, e)
      && Unhindered(Step(s, e), p) && Step(s, e).phases[p].todo < s.phases[p].todo
  {
    var next := Step(s, Read(p, n, SeenDead(s, n)));
    assert next.phases[p].todo == s.phases[p].todo - {n};
    forall m | m in next.phases[p].todo
      ensures Passes(p, next.phases[p].ticket, m, Shown(next, m, SeenDead(next, m)))
    {
      assert Passes(p, s.phases[p].ticket, m, Shown(s, m, SeenDead(s, m)));
    }
  }

  // Where all wait, the first in line enters, unless a stale slot holds it up.
  lemma SomeoneCanEnter(s: State, w: Token) returns (p: Token, events: seq<Event>)
    requires Sound(s) && AllWait(s) && Live(s, w) && s.phases[w].Waiting?
    ensures Onward(s, events) && Possible(s, events)
    ensures var t := After(s, events);
      Live(s, p) && s.phases[p].Waiting? && OnlyMoves(s, t, p) && Sound(t) && t.phases[p].Critical?
  {
    p := NoDeadlock(s, w);
    var t := s.phases[p].ticket;
    forall n | n in s.phases[p].todo ensures Passes(p, t, n, Shown(s, n, SeenDead(s, n))) {
      var next := Step(s, Read(p, n, SeenDead(s, n)));
      assert !HoldsUp(s, p, t, n);
      assert next.phases[p] == Waiting(t, s.phases[p].todo - {n});
      assert n !in next.phases[p].todo;
    }
    events := UnhinderedEnters(s, p);
  }

  function Waiters(s: State): set<Token> {
    set p | p in s.phases && s.phases[p].Waiting?
  }

  // Where all wait, one after the other enters and leaves until it is the turn of `w`.
  lemma {:induction false} TurnsGoRound(s: State, w: Token) returns (events: seq<Event>)
    requires Sound(s) && AllWait(s) && Live(s, w) && s.phases[w].Waiting?
    ensures Onward(s, events) && Possible(s, events)
    ensures Live(After(s, events), w) && After(s, events).phases[w].Critical?
    decreases Waiters(s)
  {
    hide Inv, Sound, Step, Goes, Enabled;
    var p, first := SomeoneCanEnter(s, w);
    events := first;
    var t := After(s, first);
    if p != w {
      var last := Settles(t, p);
      var u := After(t, last);
      OnwardThen(s, first, last);
      MovesTwice(s, t, u, p);
      OneWaiterLess(s, u, p);
      var rest := TurnsGoRound(u, w);
      OnwardThen(s, first + last, rest);
      events := first + last + rest;
    }
  }

  lemma OneWaiterLess(s: State, t: State, p: Token)
    requires AllWait(s) && OnlyMoves(s, t, p) && s.phases[p].Waiting? && t.phases[p].Gone?
    ensures AllWait(t) && Waiters(t) < Waiters(s)
  {
    assert p !in Waiters(t) && p in Waiters(s);
  }

  // By a run of the present acquisitions' own steps `w` comes to run its action.
  ghost predicate EntersBy(s: State, events: seq<Event>, w: Token) {
    && Onward(s, events) && Possible(s, events)
    && Live(After(s, events), w) && After(s, events).phases[w].Critical?
  }

  lemma TurnComes(s: State, w: Token) returns (events: seq<Event>)
    requires Sound(s) && GetsTicket(s, w)
    ensures EntersBy(s, events, w)
  {
    hide Inv, Sound, Step, Goes, Enabled;
    if s.phases[w].Critical? {
      events := [];
    } else {
      var first := Settles(s, w);
      var t := After(s, first);
      var others := AllSettle(t, w);
      OnwardThen(s, first, others);
      var rest := TurnsGoRound(After(t, others), w);
      OnwardThen(s, first + others, rest);
      events := first + others + rest;
    }
  }

  // From every reachable state without a stale slot, every active acquisition that has a ticket, or for
  // which one is left, gets its turn by the steps of the present acquisitions alone.
  lemma EveryoneGetsItsTurn(before: seq<Event>, w: Token)
    requires Possible(INIT, before)
    requires var s := After(INIT, before); NoStaleSlot(s) && UuidsDiffer(s) && GetsTicket(s, w)
    ensures exists events :: EntersBy(After(INIT, before), events, w)
  {
    InvAlways(INIT, before);
    hide Inv, GetsTicket, EntersBy, NoStaleSlot, UuidsDiffer;
    var events := TurnComes(After(INIT, before), w);
  }

  // A stale slot that holds it up keeps an acquisition waiting until it gives up or dies, as long as the new
  // process with the dead one's PID lives.
  lemma {:induction false} HeldUpStays(s: State, events: seq<Event>, p: Token, n: Token)
    requires Inv(s) && Possible(s, events) && Live(s, p) && s.phases[p].Waiting?
    requires n in s.phases[p].todo && n != p && HoldsUp(s, p, s.phases[p].ticket, n)
    requires Die(n.owner) !in events
    ensures var t := After(s, events);
      Active(t, p) ==> t.phases[p].Waiting? && n in t.phases[p].todo && HoldsUp(t, p, t.phases[p].ticket, n)
    decreases |events|
  {
    if events != [] {
      var next := Step(s, events[0]);
      InvKept(s, events[0]);
      HeldUpNext(s, events[0], p, n);
      if Active(next, p) {
        HeldUpStays(next, events[1..], p, n);
      } else {
        OverIsOver(next, events[1..], p);
      }
    }
  }

  lemma HeldUpNext(s: State, e: Event, p: Token, n: Token)
    requires Inv(s) && Enabled(s, e) && Live(s, p) && s.phases[p].Waiting?
    requires n in s.phases[p].todo && n != p && HoldsUp(s, p, s.phases[p].ticket, n) && e != Die(n.owner)
    ensures var t := Step(s, e);
      Active(t, p) ==> t.phases[p].Waiting? && n in t.phases[p].todo && HoldsUp(t, p, t.phases[p].ticket, n)
  {
  }
}
