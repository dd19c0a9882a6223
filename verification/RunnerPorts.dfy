// scripts/dev-runner.coordination.ts:25-99: the runner's port acquisition, which an interruption may
// reach at any await, and the finalizer that gives its lease back.
module RunnerPorts {
  import opened Prelude

  // Where the acquisition stands: between two stages it awaits what the next event reports.
  datatype Stage =
    | NotStarted
    | Root                    // resolving the repository root
    | SelectingFree           // a dry run, or no local web listener: nothing is reserved
    | Locking
    | Reading                 // from here to Unlocking the lock is held
    | Selecting
    | Reserving(port: int)
    | Resuming                // the reservation is published, but the acquisition does not have it yet
    | Unlocking(ok: bool)
    | Settled(ok: bool)

  datatype Finalizer = Idle | Joining | Releasing | Done

  // `file` is the port of the reservation this acquisition has published and nobody has removed;
  // `reserves` says that the mode launches a web listener and that this is no dry run.
  datatype State = State(stage: Stage, aborted: bool, lease: Option<int>, file: Option<int>, finalizer: Finalizer,
                         reserves: bool)

  function Init(reserves: bool): State {
    State(NotStarted, false, None, None, Idle, reserves)
  }

  // `ok` says whether what was awaited came or threw.
  datatype Event =
    | Start
    | RootResolved(ok: bool)
    | SelectedFree(ok: bool)
    | Locked(ok: bool)
    | ReservationsRead(ok: bool)
    | Selected(ok: bool, port: int)
    | Published(ok: bool)
    | Resumed
    | Unlocked
    | Interrupt
    | Finalize                // the scope closes: abort, then await the acquisition
    | Joined
    | Released

  predicate IsOver(s: State) {
    s.stage.NotStarted? || s.stage.Settled?
  }

  predicate Enabled(s: State, e: Event) {
    match e
    case Start => s.stage.NotStarted? && s.finalizer.Idle?
    case RootResolved(_) => s.stage.Root?
    case SelectedFree(_) => s.stage.SelectingFree?
    case Locked(ok) => s.stage.Locking? && (ok ==> !s.aborted)   // the lock checks the signal last
    case ReservationsRead(_) => s.stage.Reading?
    case Selected(_, _) => s.stage.Selecting?
    case Published(_) => s.stage.Reserving?
    case Resumed => s.stage.Resuming?
    case Unlocked => s.stage.Unlocking?
    case Interrupt => !s.stage.NotStarted?
    case Finalize => s.finalizer.Idle?
    case Joined => s.finalizer.Joining? && IsOver(s)
    case Released => s.finalizer.Releasing?
  }

  function Step(s: State, e: Event): State
    requires Enabled(s, e)
  {
    match e
    case Start => s.(stage := Root)
    case RootResolved(ok) =>
      s.(stage := if !ok || s.aborted then Settled(false) else if s.reserves then Locking else SelectingFree)
    case SelectedFree(ok) => s.(stage := Settled(ok))
    case Locked(ok) => s.(stage := if ok then Reading else Settled(false))
    case ReservationsRead(ok) => s.(stage := if ok then Selecting else Unlocking(false))
    case Selected(ok, port) => s.(stage := if ok && !s.aborted then Reserving(port) else Unlocking(false))
    case Published(ok) =>
      if ok then s.(stage := Resuming, file := Some(s.stage.port)) else s.(stage := Unlocking(false))
    case Resumed => s.(stage := Unlocking(!s.aborted), lease := s.file)
    case Unlocked => s.(stage := Settled(s.stage.ok))
    case Interrupt => s.(aborted := true)
    case Finalize => s.(aborted := true, finalizer := Joining)
    case Joined => s.(finalizer := if s.lease.Some? then Releasing else Done)
    case Released => s.(finalizer := Done, file := None)
  }

  predicate HoldsLock(s: State) {
    s.stage.Reading? || s.stage.Selecting? || s.stage.Reserving? || s.stage.Resuming? || s.stage.Unlocking?
  }

  predicate Inv(s: State) {
    && (s.finalizer.Releasing? || s.finalizer.Done? ==> IsOver(s))
    && (s.finalizer.Done? ==> s.file.None?)
    && (!s.finalizer.Idle? ==> s.aborted)
    && (s.file.Some? ==> s.reserves && (s.stage.Resuming? || s.stage.Unlocking? || s.stage.Settled?))
    && (s.lease.Some? ==> s.stage.Unlocking? || s.stage.Settled?)
    && (s.stage.Resuming? ==> s.file.Some?)
    && (!s.stage.Resuming? && !s.finalizer.Done? ==> s.lease == s.file)
    && ((s.stage.Settled? || s.stage.Unlocking?) && s.stage.ok && s.reserves && !s.finalizer.Done? ==> s.file.Some?)
    && (s.finalizer.Releasing? ==> s.lease.Some?)
    && (s.stage.Locking? || HoldsLock(s) ==> s.reserves) && (s.stage.SelectingFree? ==> !s.reserves)
  }

  lemma InvKept(s: State, e: Event)
    requires Inv(s) && Enabled(s, e)
    ensures Inv(Step(s, e))
  {
  }

  // --- Whole runs ---

  predicate Possible(s: State, events: seq<Event>)
    decreases |events|
  {
    events == [] || (Enabled(s, events[0]) && Possible(Step(s, events[0]), events[1..]))
  }

  function After(s: State, events: seq<Event>): State
    requires Possible(s, events)
    decreases |events|
  {
    if events == [] then s else After(Step(s, events[0]), events[1..])
  }

  lemma {:induction false} InvAlways(s: State, events: seq<Event>)
    requires Inv(s) && Possible(s, events)
    ensures Inv(After(s, events))
    decreases |events|
  {
    if events != [] {
      InvKept(s, events[0]);
      InvAlways(Step(s, events[0]), events[1..]);
    }
  }

  lemma {:induction false} DoneStays(s: State, events: seq<Event>)
    requires Inv(s) && s.finalizer.Done? && Possible(s, events)
    ensures After(s, events).finalizer.Done?
    decreases |events|
  {
    if events != [] {
      InvKept(s, events[0]);
      DoneStays(Step(s, events[0]), events[1..]);
    }
  }

  // Wherever an interruption falls, once the finalizer is done nothing is left published, the lock is not
  // held, and nothing happens to either of them any more.
  lemma CleanupLeavesNothing(reserves: bool, before: seq<Event>, after: seq<Event>)
    requires Possible(Init(reserves), before) && After(Init(reserves), before).finalizer.Done?
    requires Possible(After(Init(reserves), before), after)
    ensures var s := After(After(Init(reserves), before), after);
      s.file.None? && !HoldsLock(s) && IsOver(s)
  {
    var s := After(Init(reserves), before);
    InvAlways(Init(reserves), before);
    DoneStays(s, after);
    InvAlways(s, after);
  }

  // A run that was told it has its ports keeps them reserved until the finalizer gives them back; a dry
  // run, or one without a web listener, never reserves any.
  lemma LeaseIsKept(reserves: bool, events: seq<Event>)
    requires Possible(Init(reserves), events)
    ensures var s := After(Init(reserves), events);
      && (s.stage == Settled(true) && reserves && !s.finalizer.Done? ==> s.lease.Some? && s.lease == s.file)
      && (!reserves ==> s.file.None?)
  {
    InvAlways(Init(reserves), events);
    ReservesStays(Init(reserves), events);
  }

  lemma {:induction false} ReservesStays(s: State, events: seq<Event>)
    requires Possible(s, events)
    ensures After(s, events).reserves == s.reserves
    decreases |events|
  {
    if events != [] {
      ReservesStays(Step(s, events[0]), events[1..]);
    }
  }

  // What the acquisition and the finalizer do once the finalizer has begun, whatever comes of what they await.
  predicate IsProgress(e: Event) {
    !e.Start? && !e.Interrupt? && !e.Finalize?
  }

  function Rank(s: State): nat {
    (match s.stage
     case NotStarted => 0
     case Root => 8
     case SelectingFree => 1
     case Locking => 6
     case Reading => 5
     case Selecting => 4
     case Reserving(_) => 3
     case Resuming => 2
     case Unlocking(_) => 1
     case Settled(_) => 0)
    + (match s.finalizer case Idle => 3 case Joining => 2 case Releasing => 1 case Done => 0)
  }

  // Every such step brings the end of the finalizer nearer, and until then there is one.
  lemma ProgressLowers(s: State, e: Event)
    requires Enabled(s, e)
    ensures IsProgress(e) ==> Rank(Step(s, e)) < Rank(s)
    ensures !e.Start? ==> Rank(Step(s, e)) <= Rank(s)
  {
  }

  function NextProgress(s: State, ok: bool, port: int): Event {
    match s.stage
    case Root => RootResolved(ok)
    case SelectingFree => SelectedFree(ok)
    case Locking => Locked(ok && !s.aborted)
    case Reading => ReservationsRead(ok)
    case Selecting => Selected(ok, port)
    case Reserving(_) => Published(ok)
    case Resuming => Resumed
    case Unlocking(_) => Unlocked
    case _ => if s.finalizer.Joining? then Joined else Released
  }

  lemma CleanupGoesOn(reserves: bool, before: seq<Event>, later: seq<Event>, ok: bool, port: int)
    requires Possible(Init(reserves), before + [Finalize]) && Possible(After(Init(reserves), before + [Finalize]), later)
    ensures var s := After(Init(reserves), before + [Finalize]); var t := After(s, later);
      && ProgressIn(later) + Rank(t) <= Rank(s)
      && (t.finalizer.Done? || (IsProgress(NextProgress(t, ok, port)) && Enabled(t, NextProgress(t, ok, port))))
  {
    hide Step, Enabled;
    FinalizeEnds(Init(reserves), before);
    RankFalls(After(Init(reserves), before + [Finalize]), later);
    var t := After(After(Init(reserves), before + [Finalize]), later);
    if !t.finalizer.Done? {
      SomethingNext(t, ok, port);
    }
  }

  function ProgressIn(events: seq<Event>): nat {
    if events == [] then 0 else (if IsProgress(events[0]) then 1 else 0) + ProgressIn(events[1..])
  }

  lemma SomethingNext(s: State, ok: bool, port: int)
    requires !s.finalizer.Idle? && !s.finalizer.Done?
    ensures IsProgress(NextProgress(s, ok, port)) && Enabled(s, NextProgress(s, ok, port))
  {
  }

  lemma {:induction false} FinalizeEnds(s: State, before: seq<Event>)
    requires Possible(s, before + [Finalize])
    ensures var t := After(s, before + [Finalize]); t.finalizer.Joining? && t.aborted
    decreases |before|
  {
    if before == [] {
      assert [Finalize][1..] == [];
      assert before + [Finalize] == [Finalize];
    } else {
      assert (before + [Finalize])[1..] == before[1..] + [Finalize];
      FinalizeEnds(Step(s, before[0]), before[1..]);
    }
  }

  lemma {:induction false} RankFalls(s: State, later: seq<Event>)
    requires !s.finalizer.Idle? && Possible(s, later)
    ensures !After(s, later).finalizer.Idle?
    ensures ProgressIn(later) + Rank(After(s, later)) <= Rank(s)
    decreases |later|
  {
    if later != [] {
      ProgressLowers(s, later[0]);
      RankFalls(Step(s, later[0]), later[1..]);
    }
  }

  // The signal is set, and nothing has been reserved yet.
  predicate TooLate(s: State) {
    && s.aborted && s.file == None && s.lease == None
    && (s.stage.Root? || s.stage.Locking? || s.stage.Reading? || s.stage.Selecting? || s.stage == Unlocking(false)
        || s.stage == Settled(false))
  }

  lemma {:induction false} TooLateForGood(s: State, later: seq<Event>)
    requires TooLate(s) && Possible(s, later)
    ensures TooLate(After(s, later))
    decreases |later|
  {
    if later != [] {
      TooLateForGood(Step(s, later[0]), later[1..]);
    }
  }

  // An interruption before the reservation is asked for is in time: nothing is reserved, then or later, and
  // the acquisition fails.
  lemma InterruptStops(reserves: bool, before: seq<Event>, later: seq<Event>)
    requires Possible(Init(reserves), before)
    requires var s := After(Init(reserves), before);
      && (s.stage.Root? || s.stage.Locking? || s.stage.Reading? || s.stage.Selecting?)
      && Enabled(s, Interrupt) && Possible(Step(s, Interrupt), later)
    ensures var t := After(Step(After(Init(reserves), before), Interrupt), later);
      && t.file == None && t.lease == None && t.stage != Settled(true)
      && (IsOver(t) ==> t.stage == Settled(false))
  {
    InvAlways(Init(reserves), before);
    var s := After(Init(reserves), before);
    InvKept(s, Interrupt);
    TooLateForGood(Step(s, Interrupt), later);
    InvAlways(Step(s, Interrupt), later);
  }

  // Between publication and the assignment of `lease` a finalizer that did not await the acquisition
  // would find no lease to release, and leave the reservation behind.
  lemma JoiningIsNeeded(port: int)
    ensures var events := [Start, RootResolved(true), Locked(true), ReservationsRead(true), Selected(true, port),
                           Published(true), Finalize];
      && Possible(Init(true), events)
      && After(Init(true), events).lease.None? && After(Init(true), events).file == Some(port)
  {
    var s1 := Step(Init(true), Start);
    var s2 := Step(s1, RootResolved(true));
    var s3 := Step(s2, Locked(true));
    var s4 := Step(s3, ReservationsRead(true));
    var s5 := Step(s4, Selected(true, port));
    var s6 := Step(s5, Published(true));
    Runs1(s6, Finalize, []);
    Runs1(s5, Published(true), [Finalize]);
    Runs1(s4, Selected(true, port), [Published(true), Finalize]);
    Runs1(s3, ReservationsRead(true), [Selected(true, port), Published(true), Finalize]);
    Runs1(s2, Locked(true), [ReservationsRead(true), Selected(true, port), Published(true), Finalize]);
    Runs1(s1, RootResolved(true), [Locked(true), ReservationsRead(true), Selected(true, port), Published(true), Finalize]);
    Runs1(Init(true), Start, [RootResolved(true), Locked(true), ReservationsRead(true), Selected(true, port),
                              Published(true), Finalize]);
  }

  lemma Runs1(s: State, e: Event, rest: seq<Event>)
    requires Enabled(s, e) && Possible(Step(s, e), rest)
    ensures Possible(s, [e] + rest) && After(s, [e] + rest) == After(Step(s, e), rest)
  {
    assert ([e] + rest)[1..] == rest;
  }

  // --- The acquisition and its finalizer ---

  // What the acquisition does not await itself.
  predicate IsCleanup(e: Event) {
    e.Interrupt? || e.Finalize? || e.Joined? || e.Released?
  }

  class Acquisition {
    const reserves: bool
    var stage: Stage
    var aborted: bool
    var lease: Option<int>
    var file: Option<int>
    var finalizer: Finalizer

    function Abs(): State
      reads this
    {
      State(stage, aborted, lease, file, finalizer, reserves)
    }

    constructor (reserves: bool)
      ensures Abs() == Init(reserves)
    {
      this.reserves := reserves;
      stage, aborted, lease, file, finalizer := NotStarted, false, None, None, Idle;
    }

    // The acquisition starts, or goes on with what it awaited, up to its next await. The reservation is
    // published before the acquisition goes on and has it in `lease`.
    method GoOn(e: Event)
      requires Enabled(Abs(), e) && !IsCleanup(e)
      modifies `stage, `lease, `file
      ensures Abs() == Step(old(Abs()), e)
    {
      match e
      case Start => stage := Root;
      case RootResolved(ok) =>
        stage := if !ok || aborted then Settled(false) else if !reserves then SelectingFree else Locking;
      case SelectedFree(ok) => stage := Settled(ok);
      case Locked(ok) => stage := if ok then Reading else Settled(false);
      case ReservationsRead(ok) => stage := if ok then Selecting else Unlocking(false);
      case Selected(ok, port) => stage := if ok && !aborted then Reserving(port) else Unlocking(false);
      case Published(ok) =>
        if ok {
          file := Some(stage.port);
        }
        stage := if ok then Resuming else Unlocking(false);
      case Resumed => lease, stage := file, Unlocking(!aborted);
      case Unlocked => stage := Settled(stage.ok);
    }

    // An interruption only sets the signal. The finalizer aborts, awaits the acquisition, and then releases
    // the lease, if there is one.
    method CleanUp(e: Event)
      requires Enabled(Abs(), e) && IsCleanup(e)
      modifies `aborted, `file, `finalizer
      ensures Abs() == Step(old(Abs()), e)
    {
      match e
      case Interrupt => aborted := true;
      case Finalize => aborted, finalizer := true, Joining;
      case Joined => finalizer := if lease.Some? then Releasing else Done;
      case Released => file, finalizer := None, Done;
    }
  }
}
