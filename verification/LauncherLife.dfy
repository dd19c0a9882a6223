// scripts/lib/dev-electron-launcher.ts:45-56, 83-148: what follows the end of an app and a change of the build, in
// every run of the launcher.
module LauncherLife {
  import opened Prelude
  import opened LauncherModel
  import opened Launcher

  const REAP_MS: nat := GRACEFUL_STOP_MS + FORCE_SETTLE_MS

  // --- Apps are numbered ---

  predicate Numbered(s: State) {
    s.current.Some? ==> s.current.value.id < s.spawned
  }

  // The environment's answer that comes with an event.
  function AnswerOf(e: Event): Option<Answers> {
    match e
    case Start(a) => Some(a)
    case RunReadyTask(a) => Some(a)
    case JoinContinues(a) => Some(a)
    case TerminationWakes(a) => Some(a)
    case ChildWaitWakes(a) => Some(a)
    case _ => None
  }

  predicate IsFresh(s: State, next: State) {
    next.current.Some? && !(s.current.Some? && s.current.value.id == next.current.value.id)
  }

  // The step spawns the next app, whose first poll is due in its interval, where there is one.
  predicate Spawned(s: State, next: State) {
    && next.spawned == s.spawned + 1
    && next.current == Some(App(s.spawned, if s.windows then None else Some(s.now + SNAPSHOT_INTERVAL_MS)))
  }

  // A step that brings a new app spawns exactly one, and only while no app is current, or one has just been
  // stopped to be replaced; any other step spawns none.
  lemma SpawnsOne(s: State, e: Event)
    requires Inv(s) && Numbered(s) && Enabled(s, e)
    ensures var next := Step(s, e);
      && Numbered(next)
      && (if IsFresh(s, next) then
            Spawned(s, next) && !s.shuttingDown &&
            (s.current == None || (e.RunReadyTask? && s.queue[0] == Restart))
          else next.spawned == s.spawned)
  {
    hide WakeTermination, BeginTermination;
  }

  lemma {:induction false} NumberedAlways(s: State, events: seq<Event>)
    requires Inv(s) && Numbered(s) && Possible(s, events)
    ensures Inv(After(s, events)) && Numbered(After(s, events)) && After(s, events).spawned >= s.spawned
    decreases |events|
  {
    hide Inv, Step, Enabled, Numbered, IsFresh;
    if events != [] {
      InvKept(s, events[0]);
      SpawnsOne(s, events[0]);
      NumberedAlways(Step(s, events[0]), events[1..]);
    }
  }

  // In every run the apps are numbered in the order they are spawned, and each step spawns one at most.
  lemma AppsAreNumbered(windows: bool, events: seq<Event>, e: Event)
    requires Possible(Init(windows), events) && Enabled(After(Init(windows), events), e)
    ensures var s := After(Init(windows), events); var next := Step(s, e);
      if IsFresh(s, next) then
        Spawned(s, next) && !s.shuttingDown && (s.current == None || (e.RunReadyTask? && s.queue[0] == Restart))
      else next.spawned == s.spawned
  {
    NumberedAlways(Init(windows), events);
    SpawnsOne(After(Init(windows), events), e);
  }

  // --- The end of the app ---

  // The state that an unexpected end of the current app finds.
  ghost predicate MayEnd(s: State, code: Option<int>) {
    Inv(s) && Numbered(s) && Enabled(s, AppEnds(code))
  }

  lemma EndFinds(s: State, code: Option<int>)
    requires MayEnd(s, code)
    ensures s.queue == [] && s.running == None && !s.shuttingDown && s.current.Some? && s.spawned > 0
  {
  }

  // The app `id` that ended at `t0` is being reaped, after which `next` is to be done; nothing has been
  // spawned since.
  predicate Reaps(t: State, sp: nat, id: nat, t0: nat, next: Option<Task>) {
    && t.spawned == sp > 0 && t.current == None && !t.shuttingDown && t.firstShutdown == None
    && t.join.NotJoining?
    && t0 <= t.now <= t0 + REAP_MS
    && (t.restartAt.Some? ==> t.now <= t.restartAt.value)
    && if t.queue != [] && t.queue[0] == ReapApp(id) then
         t.running == None && t.now == t0 && t.queue == [ReapApp(id)] + (if next.Some? then [next.value] else [])
       else
         && (next.Some? ==> t.queue != [] && t.queue[0] == next.value)
         && (t.running.Some? ==>
               && t.running.value.app == id && t.running.value.mode == Reap && !t.running.value.thenStart
               && t.now <= t.running.value.wakeAt <= t.running.value.deadline
               && Ceiling(t.running.value) <= t0 + REAP_MS)
         && (t.running.None? ==> next.Some?)
  }

  // The event that does what is to be done after the reap.
  predicate Does(t: State, e: Event, next: Task) {
    e.RunReadyTask? && t.running == None && t.queue != [] && t.queue[0] == next
  }

  lemma BeginsReap(s: State, code: Option<int>)
    requires MayEnd(s, code) && code !in [Some(0), Some(DUPLICATE_INSTANCE_EXIT_CODE), Some(FATAL_EXIT_CODE)]
    ensures Reaps(Step(s, AppEnds(code)), s.spawned, s.current.value.id, s.now, Some(StartApp))
  {
    EndFinds(s, code);
  }

  lemma BeginsReapToQuit(s: State)
    requires MayEnd(s, Some(0))
    ensures Reaps(Step(s, AppEnds(Some(0))), s.spawned, s.current.value.id, s.now, Some(EndSession))
  {
    EndFinds(s, Some(0));
  }

  // What every event makes of a reap.
  lemma ReapGoesOn(t: State, e: Event, sp: nat, id: nat, t0: nat, next: Task)
    requires Reaps(t, sp, id, t0, Some(next)) && (next == StartApp || next == EndSession)
    requires Enabled(t, e) && !e.ShutdownCalled? && !Does(t, e, next)
    ensures Reaps(Step(t, e), sp, id, t0, Some(next))
  {
    if e.Advance? {
      assert t.running.Some? ==> t.running.value.wakeAt in Timers(t);
      assert t.restartAt.Some? ==> t.restartAt.value in Timers(t);
    } else if e.TerminationWakes? {
      ReapWakes(t, e.a, sp, id, t0, next);
    }
  }

  lemma ReapWakes(t: State, a: Answers, sp: nat, id: nat, t0: nat, next: Task)
    requires Reaps(t, sp, id, t0, Some(next)) && (next == StartApp || next == EndSession)
    requires Enabled(t, TerminationWakes(a))
    ensures Reaps(Step(t, TerminationWakes(a)), sp, id, t0, Some(next))
  {
  }

  // A run up to the moment at which the task is done that follows the reap.
  ghost predicate ReapsUntil(t: State, events: seq<Event>, k: nat, sp: nat, id: nat, t0: nat, next: Task)
    requires Possible(t, events) && k <= |events|
  {
    forall j :: 0 <= j <= k ==>
      && Possible(t, events[..j]) && Reaps(After(t, events[..j]), sp, id, t0, Some(next))
      && (j < k ==> !Does(After(t, events[..j]), events[j], next))
  }

  lemma FirstStep(t: State, events: seq<Event>, j: nat)
    requires Possible(t, events) && 0 < j <= |events|
    ensures Possible(Step(t, events[0]), events[1..]) && events[..j][1..] == events[1..][..j - 1]
    ensures Possible(t, events[..j]) <==> Possible(Step(t, events[0]), events[1..][..j - 1])
    ensures Possible(t, events[..j]) ==> After(t, events[..j]) == After(Step(t, events[0]), events[1..][..j - 1])
  {
    hide Step, Enabled;
    assert events[..j][1..] == events[1..][..j - 1];
  }

  // As long as no shutdown is called, the reap goes on until the task that follows it is done.
  lemma {:induction false} ReapLasts(t: State, events: seq<Event>, sp: nat, id: nat, t0: nat, next: Task)
    returns (k: nat)
    requires Reaps(t, sp, id, t0, Some(next)) && (next == StartApp || next == EndSession) && Possible(t, events)
    requires forall i :: 0 <= i < |events| ==> !events[i].ShutdownCalled?
    ensures k <= |events| && ReapsUntil(t, events, k, sp, id, t0, next)
    ensures k < |events| ==> Does(After(t, events[..k]), events[k], next)
    decreases |events|
  {
    hide Step, Enabled, Reaps, Does;
    assert events[..0] == [];
    if events == [] || Does(t, events[0], next) {
      k := 0;
    } else {
      ReapGoesOn(t, events[0], sp, id, t0, next);
      var u := Step(t, events[0]);
      var n := ReapLasts(u, events[1..], sp, id, t0, next);
      k := n + 1;
      forall j | 0 <= j <= k
        ensures Possible(t, events[..j]) && Reaps(After(t, events[..j]), sp, id, t0, Some(next))
        ensures j < k ==> !Does(After(t, events[..j]), events[j], next)
      {
        if j > 0 {
          FirstStep(t, events, j);
          assert events[1..][..j - 1] == events[1..][..j - 1];
          assert j < k ==> events[j] == events[1..][j - 1];
        }
      }
      FirstStep(t, events, k);
      assert k < |events| ==> events[k] == events[1..][n];
    }
  }

  // --- The launcher left to itself ---

  // No signal, no build, no end of an app: only what the launcher does by itself, and time.
  predicate IsOwn(e: Event) {
    e.RunReadyTask? || e.TerminationWakes? || e.DebounceFires? || e.Advance?
  }

  ghost predicate AllOwn(events: seq<Event>) {
    forall i :: 0 <= i < |events| ==> IsOwn(events[i])
  }

  function NextOwn(t: State, a: Answers): Event {
    if TaskReady(t) then RunReadyTask(a)
    else if t.running.Some? && t.running.value.wakeAt == t.now then TerminationWakes(a)
    else if t.restartAt == Some(t.now) then DebounceFires
    else Advance(1)
  }

  // How many such steps a reap can still take.
  function ReapRank(t: State, t0: nat): int {
    2 * (t0 + REAP_MS - t.now) + (if t.restartAt.Some? then 1 else 0)
    + (if t.queue != [] && t.queue[0].ReapApp? then 6
       else if t.running.Some? then TerminationRank(t.running.value, t.now) else 0)
  }

  lemma OwnStep(t: State, a: Answers, sp: nat, id: nat, t0: nat, next: Task)
    requires Reaps(t, sp, id, t0, Some(next)) && (next == StartApp || next == EndSession)
    requires !(t.running == None && t.queue[0] == next)
    ensures var e := NextOwn(t, a);
      && IsOwn(e) && Enabled(t, e) && !Does(t, e, next)
      && 0 <= ReapRank(Step(t, e), t0) < ReapRank(t, t0)
  {
    var e := NextOwn(t, a);
    ReapGoesOn(t, e, sp, id, t0, next);
  }

  // However the looks turn out, the reap ends and the next task is ready.
  lemma {:induction false} ReapEnds(t: State, answers: nat -> Answers, n: nat, sp: nat, id: nat, t0: nat, next: Task)
    returns (events: seq<Event>)
    requires Reaps(t, sp, id, t0, Some(next)) && (next == StartApp || next == EndSession)
    ensures AllOwn(events) && Possible(t, events)
    ensures var u := After(t, events);
      Reaps(u, sp, id, t0, Some(next)) && u.running == None && u.queue != [] && u.queue[0] == next
    decreases ReapRank(t, t0)
  {
    hide Step, Enabled, Reaps, Does, ReapRank;
    if t.running == None && t.queue != [] && t.queue[0] == next {
      events := [];
    } else {
      NotYetDone(t, sp, id, t0, next);
      var e := NextOwn(t, answers(n));
      OwnStep(t, answers(n), sp, id, t0, next);
      ReapGoesOn(t, e, sp, id, t0, next);
      var rest := ReapEnds(Step(t, e), answers, n + 1, sp, id, t0, next);
      events := [e] + rest;
      assert events[1..] == rest;
    }
  }

  lemma NotYetDone(t: State, sp: nat, id: nat, t0: nat, next: Task)
    requires Reaps(t, sp, id, t0, Some(next)) && !(t.running == None && t.queue != [] && t.queue[0] == next)
    ensures t.queue != []
  {
  }

  // --- What follows the end of an app ---

  // Unless the app was a duplicate, its own tree is reaped first.
  lemma EndIsReaped(windows: bool, before: seq<Event>, code: Option<int>, a: Answers)
    requires Possible(Init(windows), before) && Enabled(After(Init(windows), before), AppEnds(code))
    ensures var s := After(Init(windows), before); var ended := Step(s, AppEnds(code));
      && ended.current == None && ended.running == None && s.current.Some?
      && (TaskReady(ended) <==> code != Some(69))
      && (TaskReady(ended) ==> Enabled(ended, RunReadyTask(a)))
      && (TaskReady(ended) ==>
            var reap := BeginTermination(s.windows, s.now, s.current.value.id, Reap, false, a);
            Step(ended, RunReadyTask(a)).running == reap)
  {
    NumberedAlways(Init(windows), before);
    EndFinds(After(Init(windows), before), code);
  }

  // An end that is neither the user's quit, nor a duplicate, nor fatal is followed by one new app: nothing is
  // spawned while the old one is reaped, within 4500 ms, and then the next app is, if spawning works.
  lemma CrashRestarts(windows: bool, before: seq<Event>, code: Option<int>, later: seq<Event>) returns (k: nat)
    requires Possible(Init(windows), before) && Enabled(After(Init(windows), before), AppEnds(code))
    requires code !in [Some(0), Some(69), Some(70)]
    requires Possible(Step(After(Init(windows), before), AppEnds(code)), later)
    requires forall i :: 0 <= i < |later| ==> !later[i].ShutdownCalled?
    ensures var s := After(Init(windows), before); var u := Step(s, AppEnds(code));
      && k <= |later| && s.current.Some?
      && ReapsUntil(u, later, k, s.spawned, s.current.value.id, s.now, StartApp)
      && (k < |later| ==>
            var v := After(u, later[..k]);
            && Does(v, later[k], StartApp)
            && (later[k].a.spawns ==> Enabled(v, later[k]) && Spawned(v, Step(v, later[k]))))
  {
    var s := After(Init(windows), before);
    NumberedAlways(Init(windows), before);
    EndFinds(s, code);
    BeginsReap(s, code);
    var u := Step(s, AppEnds(code));
    hide Step, Enabled, Reaps, Does;
    k := ReapLasts(u, later, s.spawned, s.current.value.id, s.now, StartApp);
    if k < |later| {
      PrefixPossible(u, later, k);
      StartSpawns(After(u, later[..k]), later[k], s.spawned, s.current.value.id, s.now);
    }
  }

  lemma StartSpawns(t: State, e: Event, sp: nat, id: nat, t0: nat)
    requires Reaps(t, sp, id, t0, Some(StartApp)) && Enabled(t, e) && Does(t, e, StartApp)
    ensures e.a.spawns ==> Spawned(t, Step(t, e))
  {
  }

  lemma {:induction false} PrefixPossible(s: State, events: seq<Event>, j: nat)
    requires Possible(s, events) && j < |events|
    ensures Possible(s, events[..j]) && Enabled(After(s, events[..j]), events[j])
    ensures Possible(s, events[..j + 1]) && After(s, events[..j + 1]) == Step(After(s, events[..j]), events[j])
    decreases |events|
  {
    hide Step, Enabled;
    if j > 0 {
      PrefixPossible(Step(s, events[0]), events[1..], j - 1);
      assert events[..j][1..] == events[1..][..j - 1];
      assert events[..j + 1][1..] == events[1..][..j];
    } else {
      assert events[..1][1..] == [];
    }
  }

  // Left to itself, the launcher gets there, whatever the looks show.
  lemma CrashRestartsByItself(windows: bool, before: seq<Event>, code: Option<int>, answers: nat -> Answers, a: Answers)
    requires Possible(Init(windows), before) && Enabled(After(Init(windows), before), AppEnds(code))
    requires code !in [Some(0), Some(69), Some(70)] && a.spawns
    ensures exists events :: RestartsBy(Step(After(Init(windows), before), AppEnds(code)), events, a)
  {
    var s := After(Init(windows), before);
    NumberedAlways(Init(windows), before);
    BeginsReap(s, code);
    var u := Step(s, AppEnds(code));
    hide Step, Enabled, Reaps;
    var events := ReapEnds(u, answers, 0, s.spawned, s.current.value.id, s.now, StartApp);
    var v := After(u, events);
    DoneNext(v, a, s.spawned, s.current.value.id, s.now, StartApp);
    StartSpawns(v, RunReadyTask(a), s.spawned, s.current.value.id, s.now);
    EndStep(s, code);
    assert RestartsBy(u, events, a);
  }

  // By these steps of its own the launcher comes to spawn the next app, and no other, within 4500 ms.
  ghost predicate RestartsBy(u: State, events: seq<Event>, a: Answers) {
    && AllOwn(events) && Possible(u, events)
    && var v := After(u, events);
       && Enabled(v, RunReadyTask(a)) && v.spawned == u.spawned && Spawned(v, Step(v, RunReadyTask(a)))
       && v.now <= u.now + REAP_MS
  }

  lemma DoneNext(v: State, a: Answers, sp: nat, id: nat, t0: nat, next: Task)
    requires Reaps(v, sp, id, t0, Some(next)) && v.running == None && v.queue != [] && v.queue[0] == next
    requires v.queue[0] == StartApp || v.queue[0] == EndSession
    ensures Enabled(v, RunReadyTask(a)) && Does(v, RunReadyTask(a), next)
    ensures v.spawned == sp && v.now <= t0 + REAP_MS
  {
  }

  lemma EndStep(s: State, code: Option<int>)
    requires MayEnd(s, code)
    ensures var u := Step(s, AppEnds(code)); u.spawned == s.spawned && u.now == s.now && u.current == None
  {
  }

  // Once the app has ended for the user's quit, no app is spawned any more.
  ghost predicate Quits(t: State, sp: nat, id: nat, t0: nat) {
    t.spawned == sp && Inv(t) && Numbered(t) && (t.shuttingDown || Reaps(t, sp, id, t0, Some(EndSession)))
  }

  lemma QuitGoesOn(t: State, e: Event, sp: nat, id: nat, t0: nat)
    requires Quits(t, sp, id, t0) && Enabled(t, e)
    ensures Quits(Step(t, e), sp, id, t0)
    ensures t.shuttingDown ==>
      Step(t, e).shuttingDown && Step(t, e).firstShutdown == t.firstShutdown && t.firstShutdown.Some?
    ensures !t.shuttingDown && Step(t, e).shuttingDown && !e.ShutdownCalled? ==>
      Step(t, e).firstShutdown == Some((0, t.now)) && t0 <= t.now <= t0 + REAP_MS
  {
    InvKept(t, e);
    SpawnsOne(t, e);
    if t.shuttingDown {
      ShutdownStays(t, e);
    } else if e.ShutdownCalled? {
      CalledShutsDown(t, e.code);
    } else if Does(t, e, EndSession) {
      EndsTheSession(t, e, sp, id, t0);
    } else {
      ReapGoesOn(t, e, sp, id, t0, EndSession);
      ReapIsUp(Step(t, e), sp, id, t0, EndSession);
    }
  }

  lemma ReapIsUp(t: State, sp: nat, id: nat, t0: nat, next: Task)
    requires Reaps(t, sp, id, t0, Some(next))
    ensures !t.shuttingDown && t.spawned == sp && t.firstShutdown == None && t0 <= t.now <= t0 + REAP_MS
  {
  }

  lemma ShutdownStays(t: State, e: Event)
    requires Inv(t) && t.shuttingDown && Enabled(t, e)
    ensures Step(t, e).shuttingDown && Step(t, e).firstShutdown == t.firstShutdown && t.firstShutdown.Some?
  {
    hide BeginTermination, WakeTermination;
  }

  lemma CalledShutsDown(t: State, code: int)
    requires Enabled(t, ShutdownCalled(code)) && !t.shuttingDown
    ensures var u := Step(t, ShutdownCalled(code)); u.shuttingDown && u.spawned == t.spawned
  {
  }

  lemma EndsTheSession(t: State, e: Event, sp: nat, id: nat, t0: nat)
    requires Reaps(t, sp, id, t0, Some(EndSession)) && Enabled(t, e) && Does(t, e, EndSession)
    ensures var u := Step(t, e);
      u.shuttingDown && u.firstShutdown == Some((0, t.now)) && u.spawned == sp && t0 <= t.now <= t0 + REAP_MS
  {
  }

  lemma {:induction false} QuitLasts(t: State, later: seq<Event>, sp: nat, id: nat, t0: nat)
    requires Quits(t, sp, id, t0) && Possible(t, later)
    ensures var u := After(t, later);
      && Quits(u, sp, id, t0)
      && (t.shuttingDown ==> u.shuttingDown && u.firstShutdown == t.firstShutdown)
      && (!t.shuttingDown && u.shuttingDown && (forall i :: 0 <= i < |later| ==> !later[i].ShutdownCalled?) ==>
            u.firstShutdown.Some? && u.firstShutdown.value.0 == 0 && t0 <= u.firstShutdown.value.1 <= t0 + REAP_MS)
    decreases |later|
  {
    hide Step, Enabled, Reaps, Inv, Numbered;
    if later != [] {
      QuitGoesOn(t, later[0], sp, id, t0);
      QuitLasts(Step(t, later[0]), later[1..], sp, id, t0);
    }
  }

  // The user's quit ends the session. However the run goes on, no app is spawned any more; the shutdown has
  // code 0, unless another was called first, and begins within 4500 ms.
  lemma QuitEndsSession(windows: bool, before: seq<Event>, later: seq<Event>)
    requires Possible(Init(windows), before) && Enabled(After(Init(windows), before), AppEnds(Some(0)))
    requires Possible(Step(After(Init(windows), before), AppEnds(Some(0))), later)
    ensures var s := After(Init(windows), before); var t := After(Step(s, AppEnds(Some(0))), later);
      && t.spawned == s.spawned
      && (!t.shuttingDown ==> t.now <= s.now + REAP_MS)
      && (t.shuttingDown && (forall i :: 0 <= i < |later| ==> !later[i].ShutdownCalled?) ==>
            t.firstShutdown.Some? && t.firstShutdown.value.0 == 0 && t.firstShutdown.value.1 <= s.now + REAP_MS)
  {
    var s := After(Init(windows), before);
    NumberedAlways(Init(windows), before);
    BeginsReapToQuit(s);
    EndStep(s, Some(0));
    InvKept(s, AppEnds(Some(0)));
    SpawnsOne(s, AppEnds(Some(0)));
    var u := Step(s, AppEnds(Some(0)));
    hide Step, Enabled, Inv, Numbered, Reaps;
    QuitLasts(u, later, s.spawned, s.current.value.id, s.now);
    var t := After(u, later);
    if !t.shuttingDown {
      ReapIsUp(t, s.spawned, s.current.value.id, s.now, EndSession);
    }
  }

  // Left to itself, the launcher gets there, whatever the looks show.
  lemma QuitsByItself(windows: bool, before: seq<Event>, answers: nat -> Answers, a: Answers)
    requires Possible(Init(windows), before) && Enabled(After(Init(windows), before), AppEnds(Some(0)))
    ensures exists events :: EndsSessionBy(Step(After(Init(windows), before), AppEnds(Some(0))), events, a)
  {
    var s := After(Init(windows), before);
    NumberedAlways(Init(windows), before);
    BeginsReapToQuit(s);
    EndStep(s, Some(0));
    var u := Step(s, AppEnds(Some(0)));
    hide Step, Enabled, Reaps;
    var events := ReapEnds(u, answers, 0, s.spawned, s.current.value.id, s.now, EndSession);
    var v := After(u, events);
    DoneNext(v, a, s.spawned, s.current.value.id, s.now, EndSession);
    EndsTheSession(v, RunReadyTask(a), s.spawned, s.current.value.id, s.now);
    assert EndsSessionBy(u, events, a);
  }

  ghost predicate EndsSessionBy(u: State, events: seq<Event>, a: Answers) {
    && AllOwn(events) && Possible(u, events)
    && var v := After(u, events);
       Enabled(v, RunReadyTask(a)) && Step(v, RunReadyTask(a)).firstShutdown == Some((0, v.now)) && v.now <= u.now + REAP_MS
  }

  // --- After a duplicate or fatal end ---

  // No app runs and none is asked for.
  predicate Idles(t: State, sp: nat) {
    && t.spawned == sp > 0 && t.current == None
    && (t.running.Some? ==> !t.running.value.thenStart)
    && (t.shuttingDown || (t.restartAt == None && (t.queue == [] || (|t.queue| == 1 && t.queue[0].ReapApp?))))
  }

  lemma IdleGoesOn(t: State, e: Event, sp: nat)
    requires Inv(t) && Numbered(t) && Idles(t, sp) && Enabled(t, e) && !e.BuildChanged?
    ensures Idles(Step(t, e), sp)
    ensures !e.ShutdownCalled? && t.firstShutdown == None ==> Step(t, e).firstShutdown == None
    ensures !e.ShutdownCalled? && t.queue == [] && t.running == None && t.firstShutdown == None ==>
      Step(t, e).queue == [] && Step(t, e).running == None
  {
    hide BeginTermination, WakeTermination;
    BeginsAndWakesAlike();
    SpawnsOne(t, e);
  }

  lemma BeginsAndWakesAlike()
    ensures forall windows, now, app, mode, a :: var t := BeginTermination(windows, now, app, mode, false, a);
      t.Some? ==> !t.value.thenStart
    ensures forall now, t: Termination, a :: !t.thenStart ==>
      var n := WakeTermination(now, t, a); n.Some? ==> !n.value.thenStart
  {
  }

  lemma {:induction false} IdleLasts(t: State, later: seq<Event>, sp: nat)
    requires Inv(t) && Numbered(t) && Idles(t, sp) && Possible(t, later)
    requires forall i :: 0 <= i < |later| ==> !later[i].BuildChanged?
    ensures var u := After(t, later);
      && Idles(u, sp)
      && ((forall i :: 0 <= i < |later| ==> !later[i].ShutdownCalled?) && t.firstShutdown == None ==>
            u.firstShutdown == None && (t.queue == [] && t.running == None ==> u.queue == [] && u.running == None))
    decreases |later|
  {
    hide Step, Enabled, Inv, Numbered, Idles;
    if later != [] {
      InvKept(t, later[0]);
      SpawnsOne(t, later[0]);
      IdleGoesOn(t, later[0], sp);
      IdleLasts(Step(t, later[0]), later[1..], sp);
    }
  }

  // A duplicate or fatal end is followed by nothing until the build changes: no app is spawned, and the session
  // is not ended. After a duplicate not even a reap runs.
  lemma FatalStaysDown(windows: bool, before: seq<Event>, code: int, later: seq<Event>)
    requires Possible(Init(windows), before) && Enabled(After(Init(windows), before), AppEnds(Some(code)))
    requires code == 69 || code == 70
    requires After(Init(windows), before).restartAt == None
    requires Possible(Step(After(Init(windows), before), AppEnds(Some(code))), later)
    requires forall i :: 0 <= i < |later| ==> !later[i].BuildChanged?
    ensures var s := After(Init(windows), before); var t := After(Step(s, AppEnds(Some(code))), later);
      && t.spawned == s.spawned && t.current == None
      && ((forall i :: 0 <= i < |later| ==> !later[i].ShutdownCalled?) ==>
            t.firstShutdown == None && t.exits == [] && (code == 69 ==> t.queue == [] && t.running == None))
  {
    var s := After(Init(windows), before);
    NumberedAlways(Init(windows), before);
    EndFinds(s, Some(code));
    InvKept(s, AppEnds(Some(code)));
    SpawnsOne(s, AppEnds(Some(code)));
    var u := Step(s, AppEnds(Some(code)));
    assert Idles(u, s.spawned) && u.firstShutdown == None && (code == 69 ==> u.queue == [] && u.running == None);
    IdleLasts(u, later, s.spawned);
    NumberedAlways(u, later);
  }

  // --- A change of the build ---

  // The k-th event is the last build change of the run, made at `at` and not during a shutdown.
  ghost predicate LastBuild(s: State, events: seq<Event>, k: nat, at: nat)
    requires Possible(s, events)
  {
    && k < |events| && events[k] == BuildChanged && Possible(s, events[..k])
    && After(s, events[..k]).now == at && !After(s, events[..k]).shuttingDown
    && forall j :: k < j < |events| ==> events[j] != BuildChanged && events[j] != DebounceFires
  }

  // The timer is armed by the last build change, for 750 ms after it.
  lemma {:induction false} ArmedByBuild(s: State, events: seq<Event>) returns (k: nat)
    requires Inv(s) && Possible(s, events) && s.restartAt == None && After(s, events).restartAt.Some?
    ensures After(s, events).restartAt.value >= 750
    ensures LastBuild(s, events, k, After(s, events).restartAt.value - 750)
    decreases |events|
  {
    hide Step, Enabled, Inv;
    assert events != [];
    var n := |events| - 1;
    var init, e := events[..n], events[n];
    PrefixPossible(s, events, n);
    assert events[..n + 1] == events;
    InvAlways(s, init);
    ArmStep(After(s, init), e);
    if e == BuildChanged {
      k := n;
    } else {
      k := ArmedByBuild(s, init);
      assert init[..k] == events[..k];
    }
  }

  lemma ArmStep(s: State, e: Event)
    requires Inv(s) && Enabled(s, e) && Step(s, e).restartAt.Some?
    ensures if e == BuildChanged then !s.shuttingDown && Step(s, e).restartAt == Some(s.now + 750)
            else s.restartAt == Step(s, e).restartAt && e != DebounceFires
  {
    hide BeginTermination, WakeTermination;
  }

  // So a restart is asked for exactly 750 ms after a build change that no other one followed, and once for it.
  lemma RestartIsDebounced(windows: bool, events: seq<Event>) returns (k: nat)
    requires Possible(Init(windows), events) && Enabled(After(Init(windows), events), DebounceFires)
    ensures After(Init(windows), events).now >= 750
    ensures LastBuild(Init(windows), events, k, After(Init(windows), events).now - 750)
    ensures var t := Step(After(Init(windows), events), DebounceFires);
      t.queue == After(Init(windows), events).queue + [Restart] && t.restartAt == None
  {
    k := ArmedByBuild(Init(windows), events);
  }

  // What a restart does with the app: it is stopped, and at the end of that, or at once where there is nothing
  // to stop, the next one is spawned.
  lemma RestartReplaces(windows: bool, events: seq<Event>, a: Answers)
    requires Possible(Init(windows), events) && Enabled(After(Init(windows), events), RunReadyTask(a))
    requires After(Init(windows), events).queue[0] == Restart
    ensures var s := After(Init(windows), events); var t := Step(s, RunReadyTask(a));
      var stop := if s.current == None then None
                  else BeginTermination(s.windows, s.now, s.current.value.id, Stop, true, a);
      && t.queue == s.queue[1..] && t.running == stop
      && (if stop == None && !s.shuttingDown && a.spawns then Spawned(s, t) else t.current == None && t.spawned == s.spawned)
  {
  }

  // The end of a stop for a restart spawns the next app, unless a shutdown came.
  lemma StopEndsInSpawn(windows: bool, events: seq<Event>, a: Answers)
    requires Possible(Init(windows), events) && Enabled(After(Init(windows), events), TerminationWakes(a))
    ensures var s := After(Init(windows), events); var t := Step(s, TerminationWakes(a));
      && t.running == WakeTermination(s.now, s.running.value, a)
      && (if t.running == None && s.running.value.thenStart && !s.shuttingDown && a.spawns then Spawned(s, t)
          else t.current == None && t.spawned == s.spawned)
  {
    NumberedAlways(Init(windows), events);
  }

  // A running app is polled every 1500 ms, except on Windows.
  lemma PollsAgain(windows: bool, events: seq<Event>)
    requires Possible(Init(windows), events)
    ensures var s := After(Init(windows), events);
      && (s.current.Some? ==> (s.current.value.pollAt == None <==> windows))
      && (Enabled(s, PollFires) ==> Step(s, PollFires) == s.(current := Some(App(s.current.value.id, Some(s.now + 1500)))))
  {
    PolledAlways(Init(windows), events);
  }

  predicate Polled(s: State) {
    s.current.Some? ==> (s.current.value.pollAt == None <==> s.windows)
  }

  lemma PolledStep(s: State, e: Event)
    requires Polled(s) && Enabled(s, e)
    ensures Polled(Step(s, e)) && Step(s, e).windows == s.windows
  {
    hide BeginTermination, WakeTermination;
  }

  lemma {:induction false} PolledAlways(s: State, events: seq<Event>)
    requires Polled(s) && Possible(s, events)
    ensures Polled(After(s, events)) && After(s, events).windows == s.windows
    decreases |events|
  {
    hide Step, Enabled, Polled;
    if events != [] {
      PolledStep(s, events[0]);
      PolledAlways(Step(s, events[0]), events[1..]);
    }
  }

  // --- The wait for other children ---

  // The answers of the rounds: `gone` only in the last, and there if the wait did not run out.
  ghost predicate ChildAnswers(began: nat, answers: seq<Answers>, at: nat) {
    && answers != []
    && (forall i :: 0 <= i < |answers| - 1 ==>
          !answers[i].gone && !answers[i].noChildren && PollTime(began, CHILD_GRACE_MS, i) < began + CHILD_GRACE_MS)
    && at == PollTime(began, CHILD_GRACE_MS, |answers| - 1)
    && !answers[|answers| - 1].noChildren && (answers[|answers| - 1].gone || at == began + CHILD_GRACE_MS)
  }

  // The queue is joined, and the launcher looks for other children.
  predicate LooksForChildren(s: State) {
    Inv(s) && JoinReady(s) && !s.windows
  }

  lemma ChildWaitBegins(s: State, a: Answers)
    requires LooksForChildren(s)
    ensures Enabled(s, JoinContinues(a))
    ensures var t := Step(s, JoinContinues(a));
      if a.noChildren || a.gone then t.join == Exited && t.exits == s.exits + [(s.exitCode, s.now)]
      else t == s.(join := ChildWait(s.now + 1200, PollTime(s.now, 1200, 1)))
  {
    NextPollTime(s.now, CHILD_GRACE_MS, 0);
  }

  // From the i-th round on.
  lemma {:induction false} ChildWaitFollows(s: State, began: nat, answers: seq<Answers>, i: nat, at: nat)
    returns (events: seq<Event>)
    requires ChildAnswers(began, answers, at) && 0 < i < |answers| && Inv(s)
    requires s.join == ChildWait(began + 1200, PollTime(began, 1200, i))
    requires s.now <= PollTime(began, 1200, i) && s.current == None && s.restartAt == None
    ensures Possible(s, events)
    ensures var t := After(s, events); t.join == Exited && t.exits == s.exits + [(s.exitCode, at)]
    decreases |answers| - i
  {
    var wake := PollTime(began, 1200, i);
    ChildWaitIsDue(s, answers[i]);
    var due := Step(s, Advance(wake - s.now));
    var woken := Step(due, ChildWaitWakes(answers[i]));
    var rest := [];
    if i < |answers| - 1 {
      NextPollTime(began, CHILD_GRACE_MS, i);
      InvKept(due, ChildWaitWakes(answers[i]));
      rest := ChildWaitFollows(woken, began, answers, i + 1, at);
    } else {
      assert woken.join == Exited;
    }
    events := [Advance(wake - s.now), ChildWaitWakes(answers[i])] + rest;
    RunsTwo(s, Advance(wake - s.now), ChildWaitWakes(answers[i]), rest);
  }

  lemma RunsTwo(s: State, e: Event, f: Event, rest: seq<Event>)
    requires Enabled(s, e) && Enabled(Step(s, e), f) && Possible(Step(Step(s, e), f), rest)
    ensures Possible(s, [e, f] + rest) && After(s, [e, f] + rest) == After(Step(Step(s, e), f), rest)
  {
    hide Step, Enabled;
    assert ([e, f] + rest)[1..] == [f] + rest && ([f] + rest)[1..] == rest;
  }

  lemma ChildWaitIsDue(s: State, a: Answers)
    requires Inv(s) && s.join.ChildWait? && s.now <= s.join.wakeAt && s.current == None && s.restartAt == None
    ensures var e := Advance(s.join.wakeAt - s.now); var due := s.(now := s.join.wakeAt);
      && Enabled(s, e) && Step(s, e) == due && Inv(due) && Enabled(due, ChildWaitWakes(a))
  {
    AdvanceKeeps(s, s.join.wakeAt - s.now);
  }

  // Given these answers the wait for children ends at `at`, with the launcher's one exit.
  lemma ChildrenFollow(s: State, answers: seq<Answers>, at: nat) returns (events: seq<Event>)
    requires LooksForChildren(s) && s.restartAt == None && ChildAnswers(s.now, answers, at)
    ensures Possible(s, events)
    ensures var t := After(s, events); t.join == Exited && t.exits == s.exits + [(s.exitCode, at)]
  {
    ChildWaitBegins(s, answers[0]);
    var begun := Step(s, JoinContinues(answers[0]));
    InvKept(s, JoinContinues(answers[0]));
    var rest := [];
    if !answers[0].gone {
      NoCurrent(s);
      rest := ChildWaitFollows(begun, s.now, answers, 1, at);
    }
    events := [JoinContinues(answers[0])] + rest;
    assert events[1..] == rest;
  }

  lemma NoCurrent(s: State)
    requires LooksForChildren(s)
    ensures s.current == None
  {
  }
}
