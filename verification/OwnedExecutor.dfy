// scripts/lib/checkpoint-node-tests.process.ts: launching a Node child that is owned until it has
// been joined, for every order in which its events can arrive.
//
// Time is exact. The environment decides which events arrive and whether a termination succeeds.
module OwnedExecutor {
  import opened Prelude
  import opened Bytes

  const CLEANUP_MS: nat := 5000

  datatype Code = CLEANUP_UNKNOWN | TIMEOUT | CANCELLED | OUTPUT_LIMIT | NODE_EXIT | NODE_SPAWN

  datatype Outcome =
    | Resolved(stdout: seq<byte>, stderr: seq<byte>)
    | Rejected(code: Code, stdout: seq<byte>, stderr: seq<byte>)

  datatype Options = Options(windows: bool, timeoutMs: nat, maxBuffer: nat)

  // The Windows taskkill: not begun, begun and unresolved, or resolved.
  datatype Taskkill = NotBegun | Unresolved | Confirmed | Failed

  // What a termination attempt found when it was made.
  datatype Attempt = Attempt(identityHeld: bool, afterExit: bool)

  datatype Run = Run(
    options: Options,
    startedAt: nat,
    // Closure variables.
    group: bool,                       // the child's own PID is held
    reaped: bool,
    spawned: bool,
    signalAttempted: bool,
    settled: bool,
    failure: Option<Code>,
    cleanupPending: bool,
    closeCode: Option<Option<int>>,
    output: seq<byte>,
    errors: seq<byte>,
    cancelTimer: bool,                 // armed
    joinTimer: bool,
    // The child and the caller's signal.
    gone: bool,                        // exitCode or signalCode is set
    aborted: bool,
    // History.
    h: History)

  datatype History = History(
    taskkill: Taskkill,
    attempts: seq<Attempt>,
    latched: bool,                     // this run set `blocked`
    outcome: Option<(Outcome, nat)>,   // and when the promise settled
    received: seq<byte>,               // everything stdout delivered before that
    receivedErr: seq<byte>)

  function CancelAt(r: Run): nat { r.startedAt + r.options.timeoutMs }

  function JoinAt(r: Run): nat { CancelAt(r) + CLEANUP_MS }

  function Launch(options: Options, now: nat): Run {
    Run(options, now, false, false, false, false, false, None, false, None, [], [], true, true, false, false,
        History(NotBegun, [], false, None, [], []))
  }

  // --- The closures ---

  function Settles(failure: Option<Code>, code: Option<int>, output: seq<byte>, errors: seq<byte>): Outcome {
    if failure.Some? then Rejected(failure.value, output, errors)
    else if code != Some(0) then Rejected(NODE_EXIT, output, errors)
    else Resolved(output, errors)
  }

  function Finish(r: Run, now: nat, code: Option<int>): Run {
    if r.settled || r.cleanupPending then r
    else r.(settled := true, cancelTimer := false, joinTimer := false,
            h := r.h.(outcome := Some((Settles(r.failure, code, r.output, r.errors), now))))
  }

  function Unknown(r: Run, now: nat): Run {
    Finish(r.(cleanupPending := false, failure := Some(CLEANUP_UNKNOWN), h := r.h.(latched := true)), now, None)
  }

  // `works`: the group signal is delivered, or the taskkill helper could be started.
  function Terminate(r: Run, works: bool): Run {
    var taskkill := if !r.options.windows then r.h.taskkill else if works then Unresolved else Failed;
    r.(cleanupPending := r.cleanupPending || (r.options.windows && works),
       h := r.h.(attempts := r.h.attempts + [Attempt(r.group, r.reaped || r.gone)], taskkill := taskkill))
  }

  function TryToTerminate(r: Run, now: nat, works: bool): Run {
    if !r.group || r.reaped || r.gone then Unknown(r, now)
    else if works then Terminate(r, works)
    else Unknown(Terminate(r, works), now)
  }

  function Cancel(r: Run, now: nat, reason: Code, works: bool): Run {
    if r.settled || r.signalAttempted then r
    else TryToTerminate(r.(failure := Some(reason), signalAttempted := true), now, works)
  }

  function Min(a: int, b: int): int { if a < b then a else b }

  // What capture keeps of a chunk when `held` bytes of the stream are held already.
  function Retained(chunk: seq<byte>, held: nat, maxBuffer: nat): seq<byte> {
    if held >= maxBuffer then [] else chunk[..Min(|chunk|, maxBuffer - held)]
  }

  function Hear(r: Run, chunk: seq<byte>, stderr: bool): Run {
    if r.settled then r
    else if stderr then r.(h := r.h.(receivedErr := r.h.receivedErr + chunk))
    else r.(h := r.h.(received := r.h.received + chunk))
  }

  function Held(r: Run, stderr: bool): nat {
    if stderr then |r.errors| else |r.output|
  }

  function Keep(r: Run, chunk: seq<byte>, stderr: bool): Run {
    var kept := Retained(chunk, Held(r, stderr), r.options.maxBuffer);
    if stderr then r.(errors := r.errors + kept) else r.(output := r.output + kept)
  }

  function Capture(r: Run, now: nat, chunk: seq<byte>, stderr: bool, works: bool): Run {
    var heard := Hear(r, chunk, stderr);
    if r.settled || r.signalAttempted then heard
    else if Held(r, stderr) + |chunk| > r.options.maxBuffer then Cancel(Keep(heard, chunk, stderr), now, OUTPUT_LIMIT, works)
    else Keep(heard, chunk, stderr)
  }

  function Abort(r: Run, now: nat, works: bool): Run {
    if !r.spawned && !r.reaped then r else Cancel(r, now, CANCELLED, works)
  }

  function MarkSpawned(r: Run, usablePid: bool): Run {
    r.(spawned := true, group := r.group || usablePid)
  }

  function MarkAborted(r: Run): Run {
    r.(aborted := true)
  }

  function FailToSpawn(r: Run, now: nat): Run {
    Finish(r.(failure := Some(NODE_SPAWN)), now, None)
  }

  // --- Events of one run ---

  datatype Event =
    | Spawn(usablePid: bool, works: bool)
    | ExitStatusSet                           // before the exit event is delivered
    | Exit
    | Error(works: bool)
    | Close(code: Option<int>)
    | Data(chunk: seq<byte>, stderr: bool, works: bool)
    | StreamError(works: bool)
    | CallerAborts(works: bool)
    | CancelTimerFires(works: bool)
    | JoinTimerFires
    | TaskkillEnds(confirmed: bool)

  predicate Enabled(r: Run, now: nat, e: Event) {
    match e
    case Spawn(_, _) => !r.spawned
    case CallerAborts(_) => !r.aborted
    case CancelTimerFires(_) => r.cancelTimer && now == CancelAt(r)
    case JoinTimerFires => r.joinTimer && now == JoinAt(r)
    case TaskkillEnds(_) => r.h.taskkill == Unresolved
    case Close(_) => r.closeCode == None
    case _ => true
  }

  function Step(r: Run, now: nat, e: Event): Run
    requires Enabled(r, now, e)
  {
    match e
    case Spawn(usablePid, works) =>
      if r.aborted then Abort(MarkSpawned(r, usablePid), now, works) else MarkSpawned(r, usablePid)
    case ExitStatusSet => r.(gone := true)
    case Exit => r.(reaped := true, group := false, gone := true)
    case Error(works) =>
      if r.group && !r.reaped then Cancel(r, now, NODE_SPAWN, works)
      else FailToSpawn(r, now)
    case Close(code) => Finish(r.(closeCode := Some(code)), now, code)
    case Data(chunk, stderr, works) => Capture(r, now, chunk, stderr, works)
    case StreamError(works) => Cancel(r, now, NODE_EXIT, works)
    case CallerAborts(works) => Abort(MarkAborted(r), now, works)
    case CancelTimerFires(works) => Cancel(r.(cancelTimer := false), now, TIMEOUT, works)
    case JoinTimerFires =>
      var fired := r.(joinTimer := false);
      if r.settled then fired else Unknown(fired, now)
    case TaskkillEnds(confirmed) => TaskkillResult(r, now, confirmed)
  }

  function TaskkillResult(r: Run, now: nat, confirmed: bool): Run {
    var ended := r.(h := r.h.(taskkill := if confirmed then Confirmed else Failed));
    if r.settled then ended else JoinAfterTaskkill(ended, now, confirmed)
  }

  function JoinAfterTaskkill(r: Run, now: nat, confirmed: bool): Run {
    var joined := r.(cleanupPending := false);
    if confirmed then FinishIfClosed(joined, now) else Unknown(joined, now)
  }

  function FinishIfClosed(r: Run, now: nat): Run {
    if r.closeCode.Some? then Finish(r, now, r.closeCode.value) else r
  }

  // --- What every run satisfies ---

  predicate IsUnknown(r: Run) {
    r.h.outcome.Some? && r.h.outcome.value.0.Rejected? && r.h.outcome.value.0.code == CLEANUP_UNKNOWN
  }

  // At most one termination, made while the child's identity was held and before its exit.
  predicate AttemptInv(r: Run) {
    && |r.h.attempts| <= 1
    && (r.h.attempts != [] ==> r.signalAttempted && r.h.attempts[0] == Attempt(true, false))
    && (r.h.taskkill != NotBegun ==> r.h.attempts != [])
  }

  predicate OutputInv(r: Run) {
    && |r.output| <= r.options.maxBuffer && |r.errors| <= r.options.maxBuffer
    && r.output <= r.h.received && r.errors <= r.h.receivedErr
  }

  // Before the promise settles.
  predicate Open(r: Run, now: nat) {
    && !r.settled && r.h.outcome == None && !r.h.latched
    && r.joinTimer && r.startedAt <= now <= JoinAt(r) && (r.cancelTimer ==> now <= CancelAt(r))
    && AttemptInv(r)
    && (r.cleanupPending <==> r.h.taskkill == Unresolved)
    && (r.failure.Some? <==> r.signalAttempted) && r.failure != Some(CLEANUP_UNKNOWN)
    && OutputInv(r)
    && (!r.signalAttempted ==> r.output == r.h.received && r.errors == r.h.receivedErr)
  }

  // After it.
  predicate Closed(r: Run, now: nat) {
    && r.settled && r.h.outcome.Some? && !r.cleanupPending && !r.cancelTimer && !r.joinTimer
    && r.startedAt <= r.h.outcome.value.1 <= JoinAt(r) && r.h.outcome.value.1 <= now
    && AttemptInv(r)
    && (r.h.taskkill == Unresolved ==> IsUnknown(r))
    && (r.h.latched <==> IsUnknown(r))
    && match r.h.outcome.value.0
       case Resolved(out, err) =>
         r.h.attempts == [] && !r.signalAttempted && r.closeCode == Some(Some(0)) &&
         out == r.h.received && err == r.h.receivedErr
       case Rejected(_, out, err) => out <= r.h.received && err <= r.h.receivedErr
  }

  predicate Inv(r: Run, now: nat) {
    if r.settled then Closed(r, now) else Open(r, now)
  }

  lemma UnknownSettles(r: Run, now: nat)
    requires !r.settled && r.h.outcome == None && r.startedAt <= now <= JoinAt(r) && AttemptInv(r) && OutputInv(r)
    ensures Closed(Unknown(r, now), now)
  {
  }

  lemma FinishKeeps(r: Run, now: nat, code: Option<int>)
    requires Open(r, now) && r.closeCode == Some(code)
    ensures Inv(Finish(r, now, code), now)
  {
  }

  lemma CancelKeeps(r: Run, now: nat, reason: Code, works: bool)
    requires !r.settled && r.h.outcome == None && !r.h.latched
    requires r.joinTimer && r.startedAt <= now <= JoinAt(r) && (r.cancelTimer ==> now <= CancelAt(r))
    requires AttemptInv(r) && (r.cleanupPending <==> r.h.taskkill == Unresolved) && OutputInv(r)
    requires (r.failure.Some? <==> r.signalAttempted) && r.failure != Some(CLEANUP_UNKNOWN) && reason != CLEANUP_UNKNOWN
    ensures Inv(Cancel(r, now, reason, works), now)
  {
    if !r.signalAttempted {
      var tried := r.(failure := Some(reason), signalAttempted := true);
      if !r.group || r.reaped || r.gone {
        UnknownSettles(tried, now);
      } else if !works {
        UnknownSettles(Terminate(tried, works), now);
      }
    }
  }

  // What is kept stays within the limit and a prefix of what was received, all of it if it fits.
  lemma KeepKeeps(r: Run, chunk: seq<byte>, stderr: bool)
    requires OutputInv(r) && !r.settled && r.output == r.h.received && r.errors == r.h.receivedErr
    ensures var k := Keep(Hear(r, chunk, stderr), chunk, stderr);
      && OutputInv(k)
      && (Held(r, stderr) + |chunk| <= r.options.maxBuffer ==> k.output == k.h.received && k.errors == k.h.receivedErr)
  {
    var held := Held(r, stderr);
    assert held + |chunk| <= r.options.maxBuffer ==> Retained(chunk, held, r.options.maxBuffer) == chunk;
  }

  lemma CaptureFits(r: Run, now: nat, chunk: seq<byte>, stderr: bool)
    requires Open(r, now) && !r.signalAttempted && Held(r, stderr) + |chunk| <= r.options.maxBuffer
    ensures Inv(Keep(Hear(r, chunk, stderr), chunk, stderr), now)
  {
    KeepKeeps(r, chunk, stderr);
  }

  lemma CaptureOverflows(r: Run, now: nat, chunk: seq<byte>, stderr: bool, works: bool)
    requires Open(r, now) && !r.signalAttempted
    ensures Inv(Cancel(Keep(Hear(r, chunk, stderr), chunk, stderr), now, OUTPUT_LIMIT, works), now)
  {
    hide Cancel, Retained;
    KeepKeeps(r, chunk, stderr);
    CancelKeeps(Keep(Hear(r, chunk, stderr), chunk, stderr), now, OUTPUT_LIMIT, works);
  }

  lemma CaptureIgnored(r: Run, now: nat, chunk: seq<byte>, stderr: bool)
    requires Open(r, now) && r.signalAttempted
    ensures Inv(Hear(r, chunk, stderr), now)
  {
  }

  lemma CaptureKeeps(r: Run, now: nat, chunk: seq<byte>, stderr: bool, works: bool)
    requires Open(r, now)
    ensures Inv(Capture(r, now, chunk, stderr, works), now)
  {
    if r.signalAttempted {
      CaptureIgnored(r, now, chunk, stderr);
    } else if Held(r, stderr) + |chunk| > r.options.maxBuffer {
      CaptureOverflows(r, now, chunk, stderr, works);
    } else {
      CaptureFits(r, now, chunk, stderr);
    }
  }

  lemma ErrorKeeps(r: Run, now: nat, works: bool)
    requires Open(r, now)
    ensures Inv(Step(r, now, Error(works)), now)
  {
    if r.group && !r.reaped {
      CancelKeeps(r, now, NODE_SPAWN, works);
    }
  }

  lemma TaskkillKeeps(r: Run, now: nat, confirmed: bool)
    requires Open(r, now) && r.h.taskkill == Unresolved
    ensures Inv(TaskkillResult(r, now, confirmed), now)
  {
    hide Finish, Unknown;
    var joined := r.(h := r.h.(taskkill := if confirmed then Confirmed else Failed), cleanupPending := false);
    if !confirmed {
      UnknownSettles(joined, now);
    } else if r.closeCode.Some? {
      FinishKeeps(joined, now, r.closeCode.value);
    }
  }

  predicate Cancelling(e: Event) {
    e.Spawn? || e.StreamError? || e.CallerAborts? || e.CancelTimerFires?
  }

  lemma CancellingKeeps(r: Run, now: nat, e: Event)
    requires Open(r, now) && Enabled(r, now, e) && Cancelling(e)
    ensures Inv(Step(r, now, e), now)
  {
    match e
    case Spawn(usablePid, works) => CancelKeeps(MarkSpawned(r, usablePid), now, CANCELLED, works);
    case StreamError(works) => CancelKeeps(r, now, NODE_EXIT, works);
    case CallerAborts(works) => CancelKeeps(MarkAborted(r), now, CANCELLED, works);
    case CancelTimerFires(works) => CancelKeeps(r.(cancelTimer := false), now, TIMEOUT, works);
  }

  predicate Settling(e: Event) {
    e.Close? || e.JoinTimerFires? || e.TaskkillEnds?
  }

  lemma SettlingKeeps(r: Run, now: nat, e: Event)
    requires Open(r, now) && Enabled(r, now, e) && Settling(e)
    ensures Inv(Step(r, now, e), now)
  {
    match e
    case Close(code) => FinishKeeps(r.(closeCode := Some(code)), now, code);
    case JoinTimerFires => UnknownSettles(r.(joinTimer := false), now);
    case TaskkillEnds(confirmed) => TaskkillKeeps(r, now, confirmed);
  }

  lemma OpenKept(r: Run, now: nat, e: Event)
    requires Open(r, now) && Enabled(r, now, e)
    ensures Inv(Step(r, now, e), now)
  {
    if Cancelling(e) {
      CancellingKeeps(r, now, e);
    } else if Settling(e) {
      SettlingKeeps(r, now, e);
    } else if e.Error? {
      ErrorKeeps(r, now, e.works);
    } else if e.Data? {
      CaptureKeeps(r, now, e.chunk, e.stderr, e.works);
    }
  }

  // Once settled, nothing more is attempted and the outcome stands.
  lemma SettledStays(r: Run, now: nat, e: Event)
    requires Closed(r, now) && Enabled(r, now, e)
    ensures Closed(Step(r, now, e), now) && Step(r, now, e).h.outcome == r.h.outcome
    ensures Step(r, now, e).h.attempts == r.h.attempts && Step(r, now, e).h.latched == r.h.latched
  {
    match e
    case Close(code) =>
    case Error(works) =>
    case _ =>
  }

  // --- One executor and all its runs ---

  datatype Executor = Executor(now: nat, blocked: bool, runs: seq<Run>)

  const INIT := Executor(0, false, [])

  datatype Call =
    | Execute(options: Options, alreadyAborted: bool)
    | RunEvent(i: nat, e: Event)
    | Advance(ms: nat)

  predicate Possible(x: Executor, c: Call) {
    match c
    case Execute(_, _) => true
    case RunEvent(i, e) => i < |x.runs| && Enabled(x.runs[i], x.now, e)
    case Advance(ms) =>
      forall i :: 0 <= i < |x.runs| ==>
        (x.runs[i].cancelTimer ==> x.now + ms <= CancelAt(x.runs[i])) &&
        (x.runs[i].joinTimer ==> x.now + ms <= JoinAt(x.runs[i]))
  }

  function Next(x: Executor, c: Call): Executor
    requires Possible(x, c)
  {
    match c
    case Execute(options, alreadyAborted) =>
      if alreadyAborted || x.blocked then x else x.(runs := x.runs + [Launch(options, x.now)])
    case RunEvent(i, e) =>
      var r := Step(x.runs[i], x.now, e);
      x.(runs := x.runs[i := r], blocked := x.blocked || r.h.latched)
    case Advance(ms) => x.(now := x.now + ms)
  }

  ghost predicate ExecutorInv(x: Executor) {
    && (forall i :: 0 <= i < |x.runs| ==> Inv(x.runs[i], x.now))
    && (x.blocked <==> SomeUnknown(x.runs))
  }

  ghost predicate SomeUnknown(runs: seq<Run>) {
    exists i :: 0 <= i < |runs| && IsUnknown(runs[i])
  }

  lemma ExecutorInvKept(x: Executor, c: Call)
    requires ExecutorInv(x) && Possible(x, c)
    ensures ExecutorInv(Next(x, c))
  {
    var y := Next(x, c);
    match c
    case Execute(options, alreadyAborted) =>
      if y != x {
        assert forall i :: 0 <= i < |x.runs| ==> y.runs[i] == x.runs[i];
        assert Inv(y.runs[|x.runs|], x.now);
      }
    case RunEvent(i, e) => RunEventKeeps(x, i, e);
    case Advance(ms) =>
      forall i | 0 <= i < |x.runs| ensures Inv(x.runs[i], x.now + ms) {
        assert Inv(x.runs[i], x.now);
      }
  }

  lemma RunStep(r: Run, now: nat, e: Event)
    requires Inv(r, now) && Enabled(r, now, e)
    ensures Inv(Step(r, now, e), now)
    ensures r.h.latched ==> Step(r, now, e).h.latched
    ensures Step(r, now, e).h.latched <==> IsUnknown(Step(r, now, e))
    ensures r.h.latched <==> IsUnknown(r)
  {
    if r.settled {
      SettledStays(r, now, e);
    } else {
      OpenKept(r, now, e);
    }
  }

  lemma RunEventKeeps(x: Executor, i: nat, e: Event)
    requires ExecutorInv(x) && Possible(x, RunEvent(i, e))
    ensures ExecutorInv(Next(x, RunEvent(i, e)))
  {
    var r := x.runs[i];
    var r' := Step(r, x.now, e);
    assert Inv(r, x.now);
    RunStep(r, x.now, e);
    OneRunChanges(x.runs, i, r');
  }

  lemma OneRunChanges(runs: seq<Run>, i: nat, r: Run)
    requires i < |runs| && (IsUnknown(runs[i]) ==> IsUnknown(r))
    ensures SomeUnknown(runs[i := r]) <==> SomeUnknown(runs) || IsUnknown(r)
  {
    if SomeUnknown(runs) {
      var j :| 0 <= j < |runs| && IsUnknown(runs[j]);
      assert IsUnknown(runs[i := r][j]);
    }
    if IsUnknown(r) {
      assert IsUnknown(runs[i := r][i]);
    }
    if SomeUnknown(runs[i := r]) {
      var j :| 0 <= j < |runs| && IsUnknown(runs[i := r][j]);
      assert j != i ==> IsUnknown(runs[j]);
    }
  }

  predicate PossibleAll(x: Executor, calls: seq<Call>)
    decreases |calls|
  {
    calls == [] || (Possible(x, calls[0]) && PossibleAll(Next(x, calls[0]), calls[1..]))
  }

  function After(x: Executor, calls: seq<Call>): Executor
    requires PossibleAll(x, calls)
    decreases |calls|
  {
    if calls == [] then x else After(Next(x, calls[0]), calls[1..])
  }

  lemma {:induction false} InvAlways(x: Executor, calls: seq<Call>)
    requires ExecutorInv(x) && PossibleAll(x, calls)
    ensures ExecutorInv(After(x, calls))
    decreases |calls|
  {
    if calls != [] {
      ExecutorInvKept(x, calls[0]);
      InvAlways(Next(x, calls[0]), calls[1..]);
    }
  }

  // --- The settlement comes ---

  function Armed(r: Run): nat {
    (if r.cancelTimer then 1 else 0) + (if r.joinTimer then 1 else 0)
  }

  function ArmedIn(runs: seq<Run>): nat {
    if runs == [] then 0 else Armed(runs[0]) + ArmedIn(runs[1..])
  }

  predicate IsDue(r: Run, now: nat) {
    (r.cancelTimer && now == CancelAt(r)) || (r.joinTimer && now == JoinAt(r))
  }

  // What the event loop does by itself: fire a timer that is due, let time pass.
  predicate IsProgress(c: Call) {
    || (c.RunEvent? && (c.e.CancelTimerFires? || c.e.JoinTimerFires?))
    || (c.Advance? && c.ms > 0)
  }

  function FirstDue(runs: seq<Run>, now: nat): (k: nat)
    ensures k <= |runs| && (k < |runs| ==> IsDue(runs[k], now))
    ensures k == |runs| ==> forall i :: 0 <= i < |runs| ==> !IsDue(runs[i], now)
  {
    if runs == [] || IsDue(runs[0], now) then 0 else FirstDue(runs[1..], now) + 1
  }

  function NextProgress(x: Executor, works: bool): Call {
    var k := FirstDue(x.runs, x.now);
    if k == |x.runs| then Advance(1)
    else if x.runs[k].cancelTimer && x.now == CancelAt(x.runs[k]) then RunEvent(k, CancelTimerFires(works))
    else RunEvent(k, JoinTimerFires)
  }

  // In every reachable state a timer is due, or time can pass.
  lemma NextIsPossible(x: Executor, works: bool)
    requires ExecutorInv(x)
    ensures IsProgress(NextProgress(x, works)) && Possible(x, NextProgress(x, works))
  {
    if FirstDue(x.runs, x.now) == |x.runs| {
      forall i | 0 <= i < |x.runs|
        ensures x.runs[i].cancelTimer ==> x.now + 1 <= CancelAt(x.runs[i])
        ensures x.runs[i].joinTimer ==> x.now + 1 <= JoinAt(x.runs[i])
      {
        assert Inv(x.runs[i], x.now) && !IsDue(x.runs[i], x.now);
      }
    }
  }

  // At the join deadline of a run that has not settled its timer can fire, and settles it.
  lemma JoinSettles(r: Run, now: nat)
    requires Open(r, now) && now == JoinAt(r)
    ensures Enabled(r, now, JoinTimerFires) && Step(r, now, JoinTimerFires).settled
    ensures IsUnknown(Step(r, now, JoinTimerFires))
  {
  }

  // The same run with no timer armed anew.
  predicate KeepsTimers(r: Run, t: Run) {
    && t.startedAt == r.startedAt && t.options == r.options
    && (t.cancelTimer ==> r.cancelTimer) && (t.joinTimer ==> r.joinTimer)
  }

  lemma FinishTimers(r: Run, now: nat, code: Option<int>)
    ensures KeepsTimers(r, Finish(r, now, code)) && KeepsTimers(r, Unknown(r, now))
  {
  }

  lemma CancelTimers(r: Run, now: nat, reason: Code, works: bool)
    ensures KeepsTimers(r, Cancel(r, now, reason, works))
  {
    hide Unknown;
    var tried := r.(failure := Some(reason), signalAttempted := true);
    FinishTimers(tried, now, None);
    FinishTimers(Terminate(tried, works), now, None);
  }

  lemma CaptureTimers(r: Run, now: nat, chunk: seq<byte>, stderr: bool, works: bool)
    ensures KeepsTimers(r, Capture(r, now, chunk, stderr, works))
  {
    hide Cancel, Retained;
    CancelTimers(Keep(Hear(r, chunk, stderr), chunk, stderr), now, OUTPUT_LIMIT, works);
  }

  lemma TaskkillTimers(r: Run, now: nat, confirmed: bool)
    ensures KeepsTimers(r, TaskkillResult(r, now, confirmed))
  {
    hide Finish, Unknown;
    var ended := r.(h := r.h.(taskkill := if confirmed then Confirmed else Failed));
    var joined := ended.(cleanupPending := false);
    FinishTimers(joined, now, if joined.closeCode.Some? then joined.closeCode.value else None);
  }

  lemma AbortTimers(r: Run, now: nat, works: bool)
    ensures KeepsTimers(r, Abort(r, now, works))
  {
    hide Cancel;
    CancelTimers(r, now, CANCELLED, works);
  }

  lemma MarkTimers(r: Run, usablePid: bool)
    ensures KeepsTimers(r, MarkSpawned(r, usablePid)) && KeepsTimers(r, MarkAborted(r))
  {
  }

  lemma SpawnTimers(r: Run, now: nat, usablePid: bool, works: bool)
    requires Enabled(r, now, Spawn(usablePid, works))
    ensures KeepsTimers(r, Step(r, now, Spawn(usablePid, works)))
  {
    hide Abort, MarkSpawned, MarkAborted;
    MarkTimers(r, usablePid);
    AbortTimers(MarkSpawned(r, usablePid), now, works);
  }

  lemma CallerTimers(r: Run, now: nat, works: bool)
    requires Enabled(r, now, CallerAborts(works))
    ensures KeepsTimers(r, Step(r, now, CallerAborts(works)))
  {
    hide Abort, MarkSpawned, MarkAborted;
    MarkTimers(r, true);
    AbortTimers(MarkAborted(r), now, works);
  }

  lemma ErrorTimers(r: Run, now: nat, works: bool)
    requires Enabled(r, now, Error(works))
    ensures KeepsTimers(r, Step(r, now, Error(works)))
  {
    hide Cancel, Finish;
    CancelTimers(r, now, NODE_SPAWN, works);
    FinishTimers(r.(failure := Some(NODE_SPAWN)), now, None);
  }

  lemma CloseTimers(r: Run, now: nat, code: Option<int>)
    requires Enabled(r, now, Close(code))
    ensures KeepsTimers(r, Step(r, now, Close(code)))
  {
    hide Finish;
    FinishTimers(r.(closeCode := Some(code)), now, code);
  }

  lemma ExitTimers(r: Run, now: nat, e: Event)
    requires Enabled(r, now, e) && (e.ExitStatusSet? || e.Exit?)
    ensures KeepsTimers(r, Step(r, now, e))
  {
  }

  // A timer that fires is spent.
  lemma CancelTimerSpent(r: Run, now: nat, works: bool)
    requires Enabled(r, now, CancelTimerFires(works))
    ensures var t := Step(r, now, CancelTimerFires(works)); KeepsTimers(r, t) && r.cancelTimer && !t.cancelTimer
  {
    hide Cancel;
    CancelTimers(r.(cancelTimer := false), now, TIMEOUT, works);
  }

  lemma JoinTimerSpent(r: Run, now: nat)
    requires Enabled(r, now, JoinTimerFires)
    ensures var t := Step(r, now, JoinTimerFires); KeepsTimers(r, t) && r.joinTimer && !t.joinTimer
  {
    hide Unknown, Finish;
    FinishTimers(r.(joinTimer := false), now, None);
  }

  lemma StepKeepsTimers(r: Run, now: nat, e: Event)
    requires Enabled(r, now, e)
    ensures KeepsTimers(r, Step(r, now, e))
  {
    hide Step, KeepsTimers, Enabled;
    StepIs(r, now, e);
    match e
    case Spawn(usablePid, works) => SpawnTimers(r, now, usablePid, works);
    case ExitStatusSet => ExitTimers(r, now, e);
    case Exit => ExitTimers(r, now, e);
    case Error(works) => ErrorTimers(r, now, works);
    case Close(code) => CloseTimers(r, now, code);
    case Data(chunk, stderr, works) => CaptureTimers(r, now, chunk, stderr, works);
    case StreamError(works) => CancelTimers(r, now, NODE_EXIT, works);
    case CallerAborts(works) => CallerTimers(r, now, works);
    case CancelTimerFires(works) => CancelTimerSpent(r, now, works);
    case JoinTimerFires => JoinTimerSpent(r, now);
    case TaskkillEnds(confirmed) => TaskkillTimers(r, now, confirmed);
  }

  lemma StepTimers(r: Run, now: nat, e: Event)
    requires Enabled(r, now, e)
    ensures var t := Step(r, now, e);
      && t.startedAt == r.startedAt && t.options == r.options
      && Armed(t) <= Armed(r) && (e.CancelTimerFires? || e.JoinTimerFires? ==> Armed(t) < Armed(r))
  {
    hide Step, Enabled;
    StepKeepsTimers(r, now, e);
    match e
    case CancelTimerFires(works) => CancelTimerSpent(r, now, works);
    case JoinTimerFires => JoinTimerSpent(r, now);
    case _ =>
  }

  lemma StepIs(r: Run, now: nat, e: Event)
    requires Enabled(r, now, e)
    ensures e.Data? ==> Step(r, now, e) == Capture(r, now, e.chunk, e.stderr, e.works)
    ensures e.StreamError? ==> Step(r, now, e) == Cancel(r, now, NODE_EXIT, e.works)
    ensures e.TaskkillEnds? ==> Step(r, now, e) == TaskkillResult(r, now, e.confirmed)
  {
    hide Capture, Cancel, TaskkillResult;
  }

  lemma {:induction false} OneArmed(runs: seq<Run>, i: nat, r: Run)
    requires i < |runs|
    ensures ArmedIn(runs[i := r]) == ArmedIn(runs) - Armed(runs[i]) + Armed(r)
    ensures Armed(runs[i]) <= ArmedIn(runs)
    decreases |runs|
  {
    hide Armed;
    if i == 0 {
      assert runs[i := r][1..] == runs[1..];
    } else {
      assert runs[i := r][1..] == runs[1..][i - 1 := r];
      OneArmed(runs[1..], i - 1, r);
    }
  }

  lemma {:induction false} ArmedAppend(runs: seq<Run>, r: Run)
    ensures ArmedIn(runs + [r]) == ArmedIn(runs) + Armed(r)
    decreases |runs|
  {
    hide Armed;
    if runs == [] {
      assert runs + [r] == [r] && [r][1..] == [];
    } else {
      assert (runs + [r])[1..] == runs[1..] + [r];
      ArmedAppend(runs[1..], r);
    }
  }

  // How many steps of progress the settlement of a run can still be away, if nothing else is launched.
  function Patience(x: Executor, i: nat): nat
    requires i < |x.runs| && Inv(x.runs[i], x.now) && !x.runs[i].settled
  {
    JoinAt(x.runs[i]) - x.now + ArmedIn(x.runs)
  }

  function Launches(x: Executor, c: Call): nat {
    if c.Execute? && !c.alreadyAborted && !x.blocked then 1 else 0
  }

  // Progress lowers the patience for a run; only a launch raises it, by its two timers.
  lemma ProgressLowers(x: Executor, c: Call, i: nat)
    requires ExecutorInv(x) && Possible(x, c) && i < |x.runs| && !x.runs[i].settled
    ensures var y := Next(x, c);
      && ExecutorInv(y) && i < |y.runs|
      && y.runs[i].startedAt == x.runs[i].startedAt && y.runs[i].options == x.runs[i].options
      && Inv(x.runs[i], x.now) && Inv(y.runs[i], y.now)
      && (!y.runs[i].settled ==>
            Patience(y, i) + (if IsProgress(c) then 1 else 0) <= Patience(x, i) + 2 * Launches(x, c))
  {
    hide Inv, Step, Enabled, Armed;
    ExecutorInvKept(x, c);
    match c
    case RunEvent(k, e) =>
      StepTimers(x.runs[k], x.now, e);
      OneArmed(x.runs, k, Step(x.runs[k], x.now, e));
    case Execute(options, alreadyAborted) =>
      ArmedAppend(x.runs, Launch(options, x.now));
      TwoTimers(options, x.now);
    case Advance(ms) =>
      OpenTimer(x.runs[i], x.now);
  }

  lemma TwoTimers(options: Options, now: nat)
    ensures Armed(Launch(options, now)) == 2
  {
  }

  lemma OpenTimer(r: Run, now: nat)
    requires Inv(r, now) && !r.settled
    ensures r.joinTimer && now <= JoinAt(r) && Armed(r) > 0
  {
  }

  function ProgressIn(calls: seq<Call>): nat {
    if calls == [] then 0 else (if IsProgress(calls[0]) then 1 else 0) + ProgressIn(calls[1..])
  }

  function LaunchesIn(x: Executor, calls: seq<Call>): nat
    requires PossibleAll(x, calls)
    decreases |calls|
  {
    if calls == [] then 0 else Launches(x, calls[0]) + LaunchesIn(Next(x, calls[0]), calls[1..])
  }

  // A settled run stays as it is for the rest of the run.
  lemma {:induction false} SettledForGood(x: Executor, calls: seq<Call>, i: nat)
    requires ExecutorInv(x) && PossibleAll(x, calls) && i < |x.runs| && x.runs[i].settled
    ensures var y := After(x, calls);
      i < |y.runs| && y.runs[i].settled && y.runs[i].h.outcome == x.runs[i].h.outcome
    decreases |calls|
  {
    hide Step, Enabled, Closed, Open;
    if calls != [] {
      assert Inv(x.runs[i], x.now);
      ExecutorInvKept(x, calls[0]);
      if calls[0].RunEvent? && calls[0].i == i {
        SettledStep(x.runs[i], x.now, calls[0].e);
      }
      SettledForGood(Next(x, calls[0]), calls[1..], i);
    }
  }

  lemma SettledStep(r: Run, now: nat, e: Event)
    requires Inv(r, now) && r.settled && Enabled(r, now, e)
    ensures Step(r, now, e).settled && Step(r, now, e).h.outcome == r.h.outcome
  {
    hide Step, Enabled;
    SettledStays(r, now, e);
  }

  lemma {:induction false} PatienceRunsOut(x: Executor, calls: seq<Call>, i: nat)
    requires ExecutorInv(x) && PossibleAll(x, calls) && i < |x.runs|
    ensures var y := After(x, calls);
      && ExecutorInv(y) && i < |y.runs| && Inv(y.runs[i], y.now)
      && (!y.runs[i].settled ==>
            && !x.runs[i].settled && Inv(x.runs[i], x.now)
            && Patience(y, i) + ProgressIn(calls) <= Patience(x, i) + 2 * LaunchesIn(x, calls))
    decreases |calls|
  {
    hide Inv, Step, Enabled, Patience, Launches;
    InvAlways(x, calls);
    if x.runs[i].settled {
      SettledForGood(x, calls, i);
    } else if calls != [] {
      ProgressLowers(x, calls[0], i);
      PatienceRunsOut(Next(x, calls[0]), calls[1..], i);
    }
  }

  // However an executor goes on, only so much progress can be made before a launched run has settled;
  // as long as it has not, more progress is possible. It settles no later than its join deadline, after
  // at most one termination, made while the identity was held and before the exit; and a taskkill
  // still unresolved has made it settle as cleanup-unknown.
  lemma EveryRunSettlesInTime(calls: seq<Call>, later: seq<Call>, i: nat, works: bool)
    requires PossibleAll(INIT, calls) && i < |After(INIT, calls).runs|
    requires PossibleAll(After(INIT, calls), later)
    ensures var x := After(INIT, calls); var y := After(x, later);
      && i < |y.runs| && SettlesRightly(y.runs[i], y.now)
      && (!y.runs[i].settled ==>
            && !x.runs[i].settled && Inv(x.runs[i], x.now)
            && ProgressIn(later) < Patience(x, i) + 2 * LaunchesIn(x, later)
            && IsProgress(NextProgress(y, works)) && Possible(y, NextProgress(y, works)))
  {
    hide Inv, Step, Enabled, LaunchesIn, ProgressIn, ArmedIn, After, PossibleAll, SettlesRightly;
    InvAlways(INIT, calls);
    var x := After(INIT, calls);
    PatienceRunsOut(x, later, i);
    var y := After(x, later);
    InvSettles(y.runs[i], y.now);
    if !y.runs[i].settled {
      NextIsPossible(y, works);
      OpenTimer(y.runs[i], y.now);
      OneArmed(y.runs, i, y.runs[i]);
    }
  }

  predicate SettlesRightly(r: Run, now: nat) {
    && (r.settled <==> r.h.outcome.Some?)
    && (r.h.outcome == None ==> now <= JoinAt(r))
    && (r.h.outcome.Some? ==> r.startedAt <= r.h.outcome.value.1 <= JoinAt(r))
    && (r.h.attempts == [] || r.h.attempts == [Attempt(true, false)])
    && (r.h.outcome.Some? && r.h.taskkill == Unresolved ==> IsUnknown(r))
  }

  lemma InvSettles(r: Run, now: nat)
    requires Inv(r, now)
    ensures SettlesRightly(r, now)
  {
  }

  // The timers left to themselves until a run has settled; a termination attempted in the n-th step works as
  // `works(n)` says.
  ghost function Loop(x: Executor, i: nat, works: nat -> bool, n: nat): seq<Call>
    requires ExecutorInv(x) && i < |x.runs|
    decreases if Inv(x.runs[i], x.now) && !x.runs[i].settled then Patience(x, i) else 0
  {
    if x.runs[i].settled then []
    else
      var c := NextProgress(x, works(n));
      NextIsPossible(x, works(n));
      ProgressLowers(x, c, i);
      OpenTimer(x.runs[i], x.now);
      OneArmed(x.runs, i, x.runs[i]);
      [c] + Loop(Next(x, c), i, works, n + 1)
  }

  // So the two deadlines alone settle every launched run, whichever attempts work.
  lemma {:induction false} DeadlinesSettle(x: Executor, i: nat, works: nat -> bool, n: nat)
    requires ExecutorInv(x) && i < |x.runs|
    ensures PossibleAll(x, Loop(x, i, works, n))
    ensures var y := After(x, Loop(x, i, works, n));
      i < |y.runs| && y.runs[i].settled && SettlesRightly(y.runs[i], y.now)
    decreases if Inv(x.runs[i], x.now) && !x.runs[i].settled then Patience(x, i) else 0
  {
    hide Inv, Step, Enabled, Patience, SettlesRightly;
    if x.runs[i].settled {
      RunInv(x, i);
      InvSettles(x.runs[i], x.now);
    } else {
      var c := NextProgress(x, works(n));
      NextIsPossible(x, works(n));
      ProgressLowers(x, c, i);
      PatienceIsPositive(x, i);
      DeadlinesSettle(Next(x, c), i, works, n + 1);
      assert Loop(x, i, works, n)[1..] == Loop(Next(x, c), i, works, n + 1);
    }
  }

  lemma RunInv(x: Executor, i: nat)
    requires ExecutorInv(x) && i < |x.runs|
    ensures Inv(x.runs[i], x.now)
  {
  }

  lemma PatienceIsPositive(x: Executor, i: nat)
    requires i < |x.runs| && Inv(x.runs[i], x.now) && !x.runs[i].settled
    ensures Patience(x, i) > 0
  {
    OpenTimer(x.runs[i], x.now);
    OneArmed(x.runs, i, x.runs[i]);
  }

  // A resolved run was never signalled, closed with code 0, and returned every byte it received.
  lemma ResolvedRunsAreClean(calls: seq<Call>, i: nat)
    requires PossibleAll(INIT, calls) && i < |After(INIT, calls).runs|
    requires After(INIT, calls).runs[i].h.outcome.Some? && After(INIT, calls).runs[i].h.outcome.value.0.Resolved?
    ensures var r := After(INIT, calls).runs[i];
      && r.h.attempts == [] && !r.signalAttempted && r.closeCode == Some(Some(0))
      && r.h.outcome.value.0 == Resolved(r.h.received, r.h.receivedErr)
  {
    InvAlways(INIT, calls);
    assert Inv(After(INIT, calls).runs[i], After(INIT, calls).now);
  }

  // `blocked` is set exactly when some launched run has ended as cleanup-unknown, and from then on
  // nothing is launched.
  lemma BlockedExact(calls: seq<Call>, c: Call)
    requires PossibleAll(INIT, calls) && Possible(After(INIT, calls), c)
    ensures var x := After(INIT, calls);
      && (x.blocked <==> SomeUnknown(x.runs))
      && (x.blocked ==> Next(x, c).blocked && |Next(x, c).runs| == |x.runs|)
  {
    InvAlways(INIT, calls);
  }

  // A call whose signal is aborted, or that comes after some run has ended cleanup-unknown, launches nothing;
  // every other one launches one run more, with both deadlines ahead of it and its child about to spawn or fail.
  lemma LaunchesExactly(calls: seq<Call>, options: Options, alreadyAborted: bool)
    requires PossibleAll(INIT, calls)
    ensures var x := After(INIT, calls); var y := Next(x, Execute(options, alreadyAborted));
      if alreadyAborted || SomeUnknown(x.runs) then y == x
      else
        && y.now == x.now && !y.blocked && |y.runs| == |x.runs| + 1 && y.runs[..|x.runs|] == x.runs
        && var r := y.runs[|x.runs|];
           && Open(r, x.now) && r.options == options && r.cancelTimer && r.joinTimer
           && CancelAt(r) == x.now + options.timeoutMs && JoinAt(r) == CancelAt(r) + CLEANUP_MS
           && !r.spawned && !r.group && r.failure == None && r.closeCode == None
           && r.output == [] && r.errors == [] && r.h.attempts == []
           && Enabled(r, x.now, Spawn(true, true)) && Enabled(r, x.now, Error(false))
  {
    InvAlways(INIT, calls);
    var x := After(INIT, calls);
    assert (x.runs + [Launch(options, x.now)])[..|x.runs|] == x.runs;
    ExecutorInvKept(x, Execute(options, alreadyAborted));
  }
}
