// scripts/lib/checkpoint-node-tests.process.ts:98-257: how a run of the executor settles, told by its events alone.
module OwnedOutcome {
  import opened Prelude
  import opened Bytes
  import opened OwnedExecutor

  // --- What the first k events say ---

  ghost predicate Saw(es: seq<Event>, k: nat, what: Event -> bool)
    requires k <= |es|
  {
    exists j :: 0 <= j < k && what(es[j])
  }

  predicate IsSpawn(e: Event) { e.Spawn? }
  predicate IsUsableSpawn(e: Event) { e.Spawn? && e.usablePid }
  predicate IsAbort(e: Event) { e.CallerAborts? }
  predicate IsExit(e: Event) { e.Exit? }
  predicate IsStatus(e: Event) { e.Exit? || e.ExitStatusSet? }

  // The child's PID is held: the spawn gave a usable one, and the exit has not been delivered.
  ghost predicate PidHeld(es: seq<Event>, k: nat)
    requires k <= |es|
  {
    Saw(es, k, IsUsableSpawn) && !Saw(es, k, IsExit)
  }

  function ChunkOf(e: Event, stderr: bool): seq<byte> {
    if e.Data? && e.stderr == stderr then e.chunk else []
  }

  // Everything one stream delivered.
  function Heard(es: seq<Event>, k: nat, stderr: bool): seq<byte>
    requires k <= |es|
  {
    if k == 0 then [] else Heard(es, k - 1, stderr) + ChunkOf(es[k - 1], stderr)
  }

  // --- The event that decides ---

  // Why the k-th event cancels the run, if it does.
  ghost function Cause(o: Options, es: seq<Event>, k: nat): Option<Code>
    requires k < |es|
  {
    match es[k]
    case StreamError(_) => Some(NODE_EXIT)
    case CancelTimerFires(_) => Some(TIMEOUT)
    case Error(_) => Some(NODE_SPAWN)
    // The caller's abort waits for the spawn.
    case CallerAborts(_) => if Saw(es, k, IsSpawn) || Saw(es, k, IsExit) then Some(CANCELLED) else None
    case Spawn(_, _) => if Saw(es, k, IsAbort) then Some(CANCELLED) else None
    case Data(chunk, stderr, _) =>
      if |Heard(es, k, stderr)| + |chunk| > o.maxBuffer then Some(OUTPUT_LIMIT) else None
    case _ => None
  }

  ghost predicate Decides(o: Options, es: seq<Event>, k: nat)
    requires k < |es|
  {
    Cause(o, es, k).Some? || es[k].Close? || es[k].JoinTimerFires?
  }

  ghost predicate IsFirst(o: Options, es: seq<Event>, n: nat) {
    n < |es| && Decides(o, es, n) && forall m :: 0 <= m < n ==> !Decides(o, es, m)
  }

  ghost predicate Undecided(o: Options, es: seq<Event>) {
    forall m :: 0 <= m < |es| ==> !Decides(o, es, m)
  }

  // --- What follows a cancellation ---

  // A cancellation that ends the run at once: the child never ran, or it cannot be terminated.
  ghost function AtOnce(es: seq<Event>, n: nat): Option<Code>
    requires n < |es|
  {
    if es[n].Error? && !PidHeld(es, n + 1) then Some(NODE_SPAWN)
    else if !PidHeld(es, n + 1) || Saw(es, n + 1, IsStatus) || !Works(es[n]) then Some(CLEANUP_UNKNOWN)
    else None
  }

  predicate Works(e: Event) {
    match e
    case Spawn(_, works) => works
    case Error(works) => works
    case Data(_, _, works) => works
    case StreamError(works) => works
    case CallerAborts(works) => works
    case CancelTimerFires(works) => works
    case _ => false
  }

  // Between the n-th event and the m-th the taskkill was confirmed; where there is none, there is nothing to
  // confirm.
  ghost predicate ConfirmedBetween(o: Options, es: seq<Event>, n: nat, m: nat)
    requires m <= |es|
  {
    !o.windows || exists j :: n < j < m && es[j] == TaskkillEnds(true)
  }

  ghost predicate ClosedBetween(es: seq<Event>, n: nat, m: nat)
    requires m <= |es|
  {
    exists j :: n < j < m && es[j].Close?
  }

  // The m-th event ends a run that was cancelled by the n-th.
  ghost predicate Ends(o: Options, es: seq<Event>, n: nat, m: nat)
    requires m < |es|
  {
    match es[m]
    case JoinTimerFires => true
    case TaskkillEnds(confirmed) => !confirmed || ClosedBetween(es, n, m)
    case Close(_) => ConfirmedBetween(o, es, n, m)
    case Error(_) => !PidHeld(es, m) && ConfirmedBetween(o, es, n, m)
    case _ => false
  }

  ghost predicate FirstEnd(o: Options, es: seq<Event>, n: nat, m: nat) {
    n < m < |es| && Ends(o, es, n, m) && forall j :: n < j < m ==> !Ends(o, es, n, j)
  }

  ghost predicate Unended(o: Options, es: seq<Event>, n: nat) {
    forall m :: n < m < |es| ==> !Ends(o, es, n, m)
  }

  predicate Fails(e: Event) {
    e.JoinTimerFires? || e == TaskkillEnds(false)
  }

  // An error reported when the PID is no longer held replaces the cause.
  ghost predicate LateError(es: seq<Event>, n: nat, m: nat)
    requires m <= |es|
  {
    exists j :: n < j < m && es[j].Error? && !PidHeld(es, j)
  }

  ghost function Reported(o: Options, es: seq<Event>, n: nat, m: nat): Code
    requires n < |es| && Cause(o, es, n).Some? && m <= |es|
  {
    if LateError(es, n, m) then NODE_SPAWN else Cause(o, es, n).value
  }

  // --- The outcome ---

  // What was kept of a stream up to the n-th event: all of it, or its first `maxBuffer` bytes.
  function Kept(o: Options, es: seq<Event>, n: nat, stderr: bool): seq<byte>
    requires n < |es|
  {
    var all := Heard(es, n + 1, stderr);
    if |all| <= o.maxBuffer then all else all[..o.maxBuffer]
  }

  predicate EndedAs(r: Run, outcome: Outcome) {
    r.settled && r.h.outcome.Some? && r.h.outcome.value.0 == outcome
  }

  ghost predicate Outcomes(r: Run, es: seq<Event>, n: nat)
    requires IsFirst(r.options, es, n)
  {
    var o, out, err := r.options, Kept(r.options, es, n, false), Kept(r.options, es, n, true);
    && r.output == out && r.errors == err
    && if es[n].Close? then EndedAs(r, if es[n].code == Some(0) then Resolved(out, err) else Rejected(NODE_EXIT, out, err))
       else if es[n].JoinTimerFires? then EndedAs(r, Rejected(CLEANUP_UNKNOWN, out, err))
       else if AtOnce(es, n).Some? then EndedAs(r, Rejected(AtOnce(es, n).value, out, err))
       else
         && (forall m: nat :: FirstEnd(o, es, n, m) ==>
               EndedAs(r, Rejected(if Fails(es[m]) then CLEANUP_UNKNOWN else Reported(o, es, n, m + 1), out, err)))
         && (Unended(o, es, n) ==> Waits(r, es, n))
  }

  // Cancelled, and not yet ended.
  ghost predicate Waits(r: Run, es: seq<Event>, n: nat)
    requires n < |es| && Cause(r.options, es, n).Some?
  {
    && !r.settled && r.h.outcome == None && r.signalAttempted
    && r.failure == Some(Reported(r.options, es, n, |es|))
    && (r.cleanupPending <==> !ConfirmedBetween(r.options, es, n, |es|))
    && (r.h.taskkill == Unresolved <==> !ConfirmedBetween(r.options, es, n, |es|))
    && (r.closeCode.Some? <==> ClosedBetween(es, n, |es|))
  }

  // Nothing has happened yet.
  predicate Fresh(r: Run) {
    && !r.settled && r.h.outcome == None && r.failure == None && !r.signalAttempted && r.closeCode == None
    && !r.cleanupPending && r.h.taskkill == NotBegun
  }

  // What a run knows of its events.
  ghost predicate Told(r: Run, es: seq<Event>) {
    var k := |es|;
    && (r.spawned <==> Saw(es, k, IsSpawn)) && (r.aborted <==> Saw(es, k, IsAbort))
    && (r.reaped <==> Saw(es, k, IsExit)) && (r.gone <==> Saw(es, k, IsStatus))
    && (r.group && !r.reaped <==> PidHeld(es, k))
  }

  ghost predicate Follows(r: Run, es: seq<Event>) {
    && Told(r, es)
    && (Undecided(r.options, es) ==>
          Fresh(r) && r.output == Heard(es, |es|, false) && r.errors == Heard(es, |es|, true)
          && |r.output| <= r.options.maxBuffer && |r.errors| <= r.options.maxBuffer)
    && forall n: nat :: IsFirst(r.options, es, n) ==> Outcomes(r, es, n)
  }

  // --- One more event ---

  lemma SawNext(es: seq<Event>, e: Event, what: Event -> bool)
    ensures Saw(es + [e], |es| + 1, what) <==> Saw(es, |es|, what) || what(e)
  {
    var next := es + [e];
    if what(e) {
      assert what(next[|es|]);
    }
    if Saw(es, |es|, what) {
      var j :| 0 <= j < |es| && what(es[j]);
      assert what(next[j]);
    }
  }

  lemma SawSame(es: seq<Event>, e: Event, k: nat, what: Event -> bool)
    requires k <= |es|
    ensures Saw(es + [e], k, what) <==> Saw(es, k, what)
  {
    var next := es + [e];
    if Saw(es, k, what) {
      var j :| 0 <= j < k && what(es[j]);
      assert what(next[j]);
    }
  }

  lemma HeldSame(es: seq<Event>, e: Event, k: nat)
    requires k <= |es|
    ensures PidHeld(es + [e], k) <==> PidHeld(es, k)
  {
    SawSame(es, e, k, IsUsableSpawn);
    SawSame(es, e, k, IsExit);
  }

  lemma {:induction false} HeardSame(es: seq<Event>, e: Event, k: nat, stderr: bool)
    requires k <= |es|
    ensures Heard(es + [e], k, stderr) == Heard(es, k, stderr)
    decreases k
  {
    if k > 0 {
      HeardSame(es, e, k - 1, stderr);
    }
  }

  lemma CauseSame(o: Options, es: seq<Event>, e: Event, k: nat)
    requires k < |es|
    ensures Cause(o, es + [e], k) == Cause(o, es, k) && (Decides(o, es + [e], k) <==> Decides(o, es, k))
  {
    hide Saw;
    SawSame(es, e, k, IsSpawn);
    SawSame(es, e, k, IsExit);
    SawSame(es, e, k, IsAbort);
    HeardSame(es, e, k, false);
    HeardSame(es, e, k, true);
  }

  // Whether the new event is the first to decide.
  lemma FirstNext(o: Options, es: seq<Event>, e: Event)
    ensures Undecided(o, es + [e]) <==> Undecided(o, es) && !Decides(o, es + [e], |es|)
    ensures IsFirst(o, es + [e], |es|) <==> Undecided(o, es) && Decides(o, es + [e], |es|)
    ensures forall n: nat :: n < |es| ==> (IsFirst(o, es + [e], n) <==> IsFirst(o, es, n))
    ensures forall n: nat :: IsFirst(o, es + [e], n) ==> n <= |es|
  {
    hide Decides;
    forall k | 0 <= k < |es| ensures Decides(o, es + [e], k) <==> Decides(o, es, k) {
      CauseSame(o, es, e, k);
    }
  }

  lemma ToldNext(r: Run, now: nat, es: seq<Event>, e: Event)
    requires Told(r, es) && Enabled(r, now, e)
    ensures Told(Step(r, now, e), es + [e])
  {
    hide Saw;
    SawNext(es, e, IsSpawn);
    SawNext(es, e, IsAbort);
    SawNext(es, e, IsExit);
    SawNext(es, e, IsStatus);
    SawNext(es, e, IsUsableSpawn);
    StepFlags(r, now, e);
  }

  // What the closures leave alone.
  predicate KeepsChild(r: Run, t: Run) {
    && t.options == r.options && t.spawned == r.spawned && t.aborted == r.aborted && t.reaped == r.reaped
    && t.gone == r.gone && t.group == r.group
  }

  lemma FinishOnceFlags(r: Run, now: nat, code: Option<int>)
    ensures KeepsChild(r, Finish(r, now, code))
  {
  }

  lemma FinishFlags(r: Run, now: nat, code: Option<int>)
    ensures KeepsChild(r, Finish(r, now, code)) && KeepsChild(r, Unknown(r, now)) && KeepsChild(r, FailToSpawn(r, now))
  {
    hide Finish;
    FinishOnceFlags(r, now, code);
    FinishOnceFlags(r.(cleanupPending := false, failure := Some(CLEANUP_UNKNOWN), h := r.h.(latched := true)), now, None);
    FinishOnceFlags(r.(failure := Some(NODE_SPAWN)), now, None);
  }

  lemma CancelFlags(r: Run, now: nat, reason: Code, works: bool)
    ensures KeepsChild(r, Cancel(r, now, reason, works)) && KeepsChild(r, Abort(r, now, works))
  {
    hide Unknown, Finish;
    CancelOnceFlags(r, now, reason, works);
    CancelOnceFlags(r, now, CANCELLED, works);
  }

  lemma CancelOnceFlags(r: Run, now: nat, reason: Code, works: bool)
    ensures KeepsChild(r, Cancel(r, now, reason, works))
  {
    hide Unknown, Finish;
    var tried := r.(failure := Some(reason), signalAttempted := true);
    FinishFlags(tried, now, None);
    FinishFlags(Terminate(tried, works), now, None);
  }

  lemma CaptureFlags(r: Run, now: nat, chunk: seq<byte>, stderr: bool, works: bool)
    ensures KeepsChild(r, Capture(r, now, chunk, stderr, works))
  {
    hide Cancel, Retained;
    CancelOnceFlags(Keep(Hear(r, chunk, stderr), chunk, stderr), now, OUTPUT_LIMIT, works);
  }

  lemma TaskkillFlags(r: Run, now: nat, confirmed: bool)
    ensures KeepsChild(r, TaskkillResult(r, now, confirmed))
  {
    hide Finish, Unknown;
    var joined := r.(h := r.h.(taskkill := if confirmed then Confirmed else Failed)).(cleanupPending := false);
    FinishFlags(joined, now, if joined.closeCode.Some? then joined.closeCode.value else None);
  }

  lemma SpawnFlags(r: Run, now: nat, usablePid: bool, works: bool)
    requires Enabled(r, now, Spawn(usablePid, works))
    ensures KeepsChild(MarkSpawned(r, usablePid), Step(r, now, Spawn(usablePid, works)))
  {
    hide Abort, MarkSpawned;
    CancelFlags(MarkSpawned(r, usablePid), now, CANCELLED, works);
  }

  lemma AbortFlags(r: Run, now: nat, works: bool)
    requires Enabled(r, now, CallerAborts(works))
    ensures KeepsChild(MarkAborted(r), Step(r, now, CallerAborts(works)))
  {
    hide Abort, MarkAborted;
    CancelFlags(MarkAborted(r), now, CANCELLED, works);
  }

  lemma ErrorFlags(r: Run, now: nat, works: bool)
    requires Enabled(r, now, Error(works))
    ensures KeepsChild(r, Step(r, now, Error(works)))
  {
    hide Cancel, FailToSpawn;
    CancelFlags(r, now, NODE_SPAWN, works);
    FinishFlags(r, now, None);
  }

  lemma CloseFlags(r: Run, now: nat, code: Option<int>)
    requires Enabled(r, now, Close(code))
    ensures KeepsChild(r, Step(r, now, Close(code)))
  {
    hide Finish;
    FinishFlags(r.(closeCode := Some(code)), now, code);
  }

  lemma TimerFlags(r: Run, now: nat, works: bool)
    ensures Enabled(r, now, CancelTimerFires(works)) ==> KeepsChild(r, Step(r, now, CancelTimerFires(works)))
    ensures Enabled(r, now, JoinTimerFires) ==> KeepsChild(r, Step(r, now, JoinTimerFires))
  {
    hide Cancel, Unknown;
    CancelFlags(r.(cancelTimer := false), now, TIMEOUT, works);
    FinishFlags(r.(joinTimer := false), now, None);
  }

  // The run whose flags the step takes over.
  function Flagged(r: Run, e: Event): Run {
    match e
    case Spawn(usablePid, _) => MarkSpawned(r, usablePid)
    case CallerAborts(_) => MarkAborted(r)
    case ExitStatusSet => r.(gone := true)
    case Exit => r.(reaped := true, group := false, gone := true)
    case _ => r
  }

  lemma StepFlagged(r: Run, now: nat, e: Event)
    requires Enabled(r, now, e)
    ensures KeepsChild(Flagged(r, e), Step(r, now, e))
  {
    hide Step, Enabled, KeepsChild, MarkSpawned, MarkAborted;
    StepIs(r, now, e);
    match e
    case Spawn(usablePid, works) => SpawnFlags(r, now, usablePid, works);
    case ExitStatusSet => ExitFlags(r, now, e);
    case Exit => ExitFlags(r, now, e);
    case Error(works) => ErrorFlags(r, now, works);
    case Close(code) => CloseFlags(r, now, code);
    case Data(chunk, stderr, works) => CaptureFlags(r, now, chunk, stderr, works);
    case StreamError(works) => CancelFlags(r, now, NODE_EXIT, works);
    case CallerAborts(works) => AbortFlags(r, now, works);
    case CancelTimerFires(works) => TimerFlags(r, now, works);
    case JoinTimerFires => TimerFlags(r, now, true);
    case TaskkillEnds(confirmed) => TaskkillFlags(r, now, confirmed);
  }

  lemma ExitFlags(r: Run, now: nat, e: Event)
    requires Enabled(r, now, e) && (e.ExitStatusSet? || e.Exit?)
    ensures KeepsChild(Flagged(r, e), Step(r, now, e))
  {
  }

  lemma StepFlags(r: Run, now: nat, e: Event)
    requires Enabled(r, now, e)
    ensures var t := Step(r, now, e);
      && t.options == r.options
      && (t.spawned <==> r.spawned || e.Spawn?) && (t.aborted <==> r.aborted || e.CallerAborts?)
      && (t.reaped <==> r.reaped || e.Exit?) && (t.gone <==> r.gone || e.Exit? || e.ExitStatusSet?)
      && t.group == if e.Exit? then false else if e.Spawn? && e.usablePid then true else r.group
  {
    hide Step, Enabled;
    StepFlagged(r, now, e);
  }

  // --- The first event that decides ---

  // An event that decides nothing.
  predicate IsQuiet(r: Run, e: Event) {
    match e
    case Spawn(_, _) => !r.aborted
    case CallerAborts(_) => !r.spawned && !r.reaped
    case Data(chunk, stderr, _) => OwnedExecutor.Held(r, stderr) + |chunk| <= r.options.maxBuffer
    case ExitStatusSet => true
    case Exit => true
    case _ => false
  }

  lemma QuietStep(r: Run, now: nat, e: Event)
    requires Fresh(r) && Enabled(r, now, e) && IsQuiet(r, e)
    ensures var t := Step(r, now, e);
      && Fresh(t) && t.output == r.output + ChunkOf(e, false) && t.errors == r.errors + ChunkOf(e, true)
  {
    hide Cancel, Finish, Keep, Hear;
    if e.Data? {
      KeptIsFresh(r, e.chunk, e.stderr);
      assert Retained(e.chunk, OwnedExecutor.Held(r, e.stderr), r.options.maxBuffer) == e.chunk;
    }
  }

  // Termination is possible, and works.
  predicate CanEnd(r: Run, works: bool) {
    r.group && !r.reaped && !r.gone && works
  }

  predicate CancelledBy(r: Run, t: Run, code: Code, works: bool) {
    && t.output == r.output && t.errors == r.errors
    && if !CanEnd(r, works) then EndedAs(t, Rejected(CLEANUP_UNKNOWN, r.output, r.errors))
       else
         && !t.settled && t.h.outcome == None && t.signalAttempted && t.failure == Some(code) && t.closeCode == None
         && (t.cleanupPending <==> r.options.windows) && (t.h.taskkill == Unresolved <==> r.options.windows)
  }

  lemma FirstCancel(r: Run, now: nat, code: Code, works: bool)
    requires Fresh(r)
    ensures CancelledBy(r, Cancel(r, now, code, works), code, works)
  {
    hide Finish;
    var tried := r.(failure := Some(code), signalAttempted := true);
    UnknownEnds(tried, now);
    UnknownEnds(Terminate(tried, works), now);
  }

  lemma UnknownEnds(r: Run, now: nat)
    requires !r.settled
    ensures var t := Unknown(r, now);
      t.output == r.output && t.errors == r.errors && EndedAs(t, Rejected(CLEANUP_UNKNOWN, r.output, r.errors))
  {
  }

  lemma FinishEnds(r: Run, now: nat, code: Option<int>)
    requires !r.settled && !r.cleanupPending
    ensures var t := Finish(r, now, code);
      && t.output == r.output && t.errors == r.errors
      && EndedAs(t, if r.failure.Some? then Rejected(r.failure.value, r.output, r.errors)
                    else if code == Some(0) then Resolved(r.output, r.errors)
                    else Rejected(NODE_EXIT, r.output, r.errors))
  {
  }

  lemma FirstClose(r: Run, now: nat, code: Option<int>)
    requires Fresh(r) && Enabled(r, now, Close(code))
    ensures var t := Step(r, now, Close(code));
      && t.output == r.output && t.errors == r.errors
      && EndedAs(t, if code == Some(0) then Resolved(r.output, r.errors) else Rejected(NODE_EXIT, r.output, r.errors))
  {
    hide Finish;
    FinishEnds(r.(closeCode := Some(code)), now, code);
  }

  lemma FirstJoin(r: Run, now: nat)
    requires !r.settled && Enabled(r, now, JoinTimerFires)
    ensures var t := Step(r, now, JoinTimerFires);
      t.output == r.output && t.errors == r.errors && EndedAs(t, Rejected(CLEANUP_UNKNOWN, r.output, r.errors))
  {
    hide Unknown;
    UnknownEnds(r.(joinTimer := false), now);
  }

  lemma FirstError(r: Run, now: nat, works: bool)
    requires Fresh(r)
    ensures Enabled(r, now, Error(works))
    ensures var t := Step(r, now, Error(works));
      if r.group && !r.reaped then CancelledBy(r, t, NODE_SPAWN, works)
      else t.output == r.output && t.errors == r.errors && EndedAs(t, Rejected(NODE_SPAWN, r.output, r.errors))
  {
    hide Cancel, Finish;
    FirstCancel(r, now, NODE_SPAWN, works);
    FinishEnds(r.(failure := Some(NODE_SPAWN)), now, None);
  }

  // The run as the cancellation finds it.
  function Marked(r: Run, e: Event): Run {
    match e
    case Spawn(usablePid, _) => MarkSpawned(r, usablePid)
    case CallerAborts(_) => MarkAborted(r)
    case CancelTimerFires(_) => r.(cancelTimer := false)
    case Data(chunk, stderr, _) => Keep(Hear(r, chunk, stderr), chunk, stderr)
    case _ => r
  }

  function ReasonOf(e: Event): Code {
    match e
    case CancelTimerFires(_) => TIMEOUT
    case Data(_, _, _) => OUTPUT_LIMIT
    case StreamError(_) => NODE_EXIT
    case _ => CANCELLED
  }

  lemma FirstCause(r: Run, now: nat, e: Event)
    requires Fresh(r) && Enabled(r, now, e) && !IsQuiet(r, e)
    requires !e.Close? && !e.JoinTimerFires? && !e.Error?
    ensures Fresh(Marked(r, e)) && CancelledBy(Marked(r, e), Step(r, now, e), ReasonOf(e), Works(e))
    ensures var m, t := Marked(r, e), Step(r, now, e);
      && m.group == t.group && m.reaped == t.reaped && m.gone == t.gone
      && m.options == r.options
  {
    hide Cancel, Keep, Hear;
    MarkedIsFresh(r, e);
    hide Fresh, CancelledBy;
    FirstCancel(Marked(r, e), now, ReasonOf(e), Works(e));
    CancelFlags(Marked(r, e), now, ReasonOf(e), Works(e));
    StepIsCancel(r, now, e);
  }

  lemma StepIsCancel(r: Run, now: nat, e: Event)
    requires Fresh(r) && Enabled(r, now, e) && !IsQuiet(r, e)
    requires !e.Close? && !e.JoinTimerFires? && !e.Error?
    ensures Step(r, now, e) == Cancel(Marked(r, e), now, ReasonOf(e), Works(e))
  {
    hide Cancel, Keep, Hear;
  }

  lemma MarkedIsFresh(r: Run, e: Event)
    requires Fresh(r)
    ensures Fresh(Marked(r, e)) && Marked(r, e).options == r.options
    ensures !e.Data? ==> Marked(r, e).output == r.output && Marked(r, e).errors == r.errors
    ensures e.Data? ==>
      var m, kept := Marked(r, e), Retained(e.chunk, OwnedExecutor.Held(r, e.stderr), r.options.maxBuffer);
      && m.output == r.output + (if e.stderr then [] else kept)
      && m.errors == r.errors + (if e.stderr then kept else [])
  {
    hide Retained;
    if e.Data? {
      KeptIsFresh(r, e.chunk, e.stderr);
    }
  }

  lemma KeptIsFresh(r: Run, chunk: seq<byte>, stderr: bool)
    requires Fresh(r)
    ensures var m, kept := Keep(Hear(r, chunk, stderr), chunk, stderr),
                           Retained(chunk, OwnedExecutor.Held(r, stderr), r.options.maxBuffer);
      && Fresh(m) && m.options == r.options
      && m.output == r.output + (if stderr then [] else kept)
      && m.errors == r.errors + (if stderr then kept else [])
  {
    hide Retained;
  }

  // The run has followed `es` so far, and nothing has decided it.
  ghost predicate StillFresh(r: Run, es: seq<Event>) {
    && Told(r, es) && Fresh(r)
    && r.output == Heard(es, |es|, false) && r.errors == Heard(es, |es|, true)
    && |r.output| <= r.options.maxBuffer && |r.errors| <= r.options.maxBuffer
  }

  lemma QuietDecidesNothing(r: Run, now: nat, es: seq<Event>, e: Event)
    requires StillFresh(r, es) && Enabled(r, now, e)
    ensures Decides(r.options, es + [e], |es|) <==> !IsQuiet(r, e)
    ensures !IsQuiet(r, e) && !e.Close? && !e.JoinTimerFires? ==>
      Cause(r.options, es + [e], |es|) == Some(if e.Error? then NODE_SPAWN else ReasonOf(e))
  {
    hide Saw;
    SawSame(es, e, |es|, IsSpawn);
    SawSame(es, e, |es|, IsExit);
    SawSame(es, e, |es|, IsAbort);
    HeardSame(es, e, |es|, false);
    HeardSame(es, e, |es|, true);
  }

  lemma HeardNext(es: seq<Event>, e: Event, stderr: bool)
    ensures Heard(es + [e], |es| + 1, stderr) == Heard(es, |es|, stderr) + ChunkOf(e, stderr)
  {
    HeardSame(es, e, |es|, stderr);
  }

  lemma QuietNext(r: Run, now: nat, es: seq<Event>, e: Event)
    requires StillFresh(r, es) && Enabled(r, now, e) && IsQuiet(r, e)
    ensures StillFresh(Step(r, now, e), es + [e])
  {
    hide Saw, Told, Heard, Step;
    QuietStep(r, now, e);
    ToldNext(r, now, es, e);
    StepFlags(r, now, e);
    HeardNext(es, e, false);
    HeardNext(es, e, true);
  }

  // What is kept up to the deciding event is what the run then holds.
  lemma KeptIs(r: Run, es: seq<Event>, e: Event)
    requires StillFresh(r, es) && !IsQuiet(r, e)
    ensures Marked(r, e).output == Kept(r.options, es + [e], |es|, false)
    ensures Marked(r, e).errors == Kept(r.options, es + [e], |es|, true)
  {
    hide Saw, Told, Heard, Marked;
    MarkedIsFresh(r, e);
    HeardNext(es, e, false);
    HeardNext(es, e, true);
  }

  // The first event that decides has the outcome it should have.
  lemma DecidesRightly(r: Run, now: nat, es: seq<Event>, e: Event)
    requires StillFresh(r, es) && Enabled(r, now, e) && !IsQuiet(r, e)
    requires IsFirst(r.options, es + [e], |es|)
    ensures IsFirst(Step(r, now, e).options, es + [e], |es|) && Outcomes(Step(r, now, e), es + [e], |es|)
  {
    hide Saw, Told, Heard, Kept, Step, Marked, CanEnd, IsFirst, Fresh;
    KeptIs(r, es, e);
    StepFlags(r, now, e);
    ToldNext(r, now, es, e);
    TellsAtOnce(Step(r, now, e), es, e);
    assert (es + [e])[|es|] == e;
    if e.Close? {
      FirstClose(r, now, e.code);
      PlainMarked(r, e);
    } else if e.JoinTimerFires? {
      FreshIsOpen(r);
      FirstJoin(r, now);
      PlainMarked(r, e);
    } else {
      QuietDecidesNothing(r, now, es, e);
      var t := Step(r, now, e);
      if e.Error? {
        FirstError(r, now, e.works);
        PlainMarked(r, e);
        CancelIsTold(r, t, es, e, NODE_SPAWN);
      } else {
        FirstCause(r, now, e);
        CancelIsTold(Marked(r, e), t, es, e, ReasonOf(e));
      }
    }
  }

  lemma FreshIsOpen(r: Run)
    requires Fresh(r)
    ensures !r.settled
  {
  }

  lemma PlainMarked(r: Run, e: Event)
    requires e.Close? || e.JoinTimerFires? || e.Error?
    ensures Marked(r, e) == r
  {
  }

  lemma TellsAtOnce(t: Run, es: seq<Event>, e: Event)
    requires Told(t, es + [e])
    ensures AtOnce(es + [e], |es|) ==
      if e.Error? && !(t.group && !t.reaped) then Some(NODE_SPAWN)
      else if !CanEnd(t, Works(e)) then Some(CLEANUP_UNKNOWN)
      else None
  {
    hide Saw;
  }

  // After the cancellation the run waits, or has ended at once.
  lemma CancelIsTold(r: Run, t: Run, es: seq<Event>, e: Event, code: Code)
    requires IsFirst(t.options, es + [e], |es|) && Cause(t.options, es + [e], |es|) == Some(code)
    requires !e.Close? && !e.JoinTimerFires? && r.options == t.options
    requires r.output == Kept(t.options, es + [e], |es|, false) && r.errors == Kept(t.options, es + [e], |es|, true)
    requires AtOnce(es + [e], |es|) ==
      if e.Error? && !(t.group && !t.reaped) then Some(NODE_SPAWN)
      else if !CanEnd(t, Works(e)) then Some(CLEANUP_UNKNOWN)
      else None
    requires r.group == t.group && r.reaped == t.reaped && r.gone == t.gone
    requires if e.Error? && !(r.group && !r.reaped)
             then t.output == r.output && t.errors == r.errors && EndedAs(t, Rejected(NODE_SPAWN, r.output, r.errors))
             else CancelledBy(r, t, code, Works(e))
    ensures Outcomes(t, es + [e], |es|)
  {
    hide Saw, Heard, Kept, IsFirst, AtOnce;
    var next := es + [e];
    assert next[|es|] == e;
    if AtOnce(next, |es|) == None {
      assert !LateError(next, |es|, |next|) && !ClosedBetween(next, |es|, |next|);
      assert ConfirmedBetween(t.options, next, |es|, |next|) <==> !t.options.windows;
    }
  }

  // --- After it ---

  lemma SettledKeeps(r: Run, now: nat, e: Event)
    requires r.settled && Enabled(r, now, e)
    ensures var t := Step(r, now, e);
      t.settled && t.h.outcome == r.h.outcome && t.output == r.output && t.errors == r.errors
  {
    match e
    case Close(code) =>
    case Error(works) =>
    case _ =>
  }

  predicate Pending(r: Run) {
    !r.settled && r.signalAttempted && r.failure.Some? && r.h.outcome == None
  }

  // The event ends a run that waits.
  predicate EndsPending(r: Run, e: Event) {
    match e
    case JoinTimerFires => true
    case TaskkillEnds(confirmed) => !confirmed || r.closeCode.Some?
    case Close(_) => !r.cleanupPending
    case Error(_) => !(r.group && !r.reaped) && !r.cleanupPending
    case _ => false
  }

  predicate PendingTo(r: Run, t: Run, e: Event)
    requires Pending(r)
  {
    && t.output == r.output && t.errors == r.errors
    && var code := if e.Error? && !(r.group && !r.reaped) then NODE_SPAWN else r.failure.value;
       if EndsPending(r, e) then EndedAs(t, Rejected(if Fails(e) then CLEANUP_UNKNOWN else code, r.output, r.errors))
       else
         && Pending(t) && t.failure == Some(code)
         && (t.cleanupPending <==> r.cleanupPending && !e.TaskkillEnds?)
         && (t.h.taskkill == Unresolved <==> r.h.taskkill == Unresolved && !e.TaskkillEnds?)
         && (t.closeCode.Some? <==> r.closeCode.Some? || e.Close?)
  }

  lemma PendingStep(r: Run, now: nat, e: Event)
    requires Pending(r) && Enabled(r, now, e)
    ensures PendingTo(r, Step(r, now, e), e)
  {
    if e.Error? || e.Close? {
      PendingEnds(r, now, e);
    } else if e.TaskkillEnds? {
      PendingTaskkill(r, now, e.confirmed);
    } else if e.JoinTimerFires? {
      FirstJoin(r, now);
    } else {
      PendingPasses(r, now, e);
    }
  }

  lemma PendingEnds(r: Run, now: nat, e: Event)
    requires Pending(r) && Enabled(r, now, e) && (e.Error? || e.Close?)
    ensures PendingTo(r, Step(r, now, e), e)
  {
    hide Finish;
    var named := if e.Close? then r.(closeCode := Some(e.code)) else r.(failure := Some(NODE_SPAWN));
    var code := if e.Close? then e.code else None;
    FinishBlocked(named, now, code);
    if !r.cleanupPending {
      FinishEnds(named, now, code);
    }
  }

  lemma FinishBlocked(r: Run, now: nat, code: Option<int>)
    ensures r.cleanupPending ==> Finish(r, now, code) == r
  {
  }

  lemma PendingTaskkill(r: Run, now: nat, confirmed: bool)
    requires Pending(r) && Enabled(r, now, TaskkillEnds(confirmed))
    ensures PendingTo(r, Step(r, now, TaskkillEnds(confirmed)), TaskkillEnds(confirmed))
  {
    hide Finish, Unknown;
    var joined := r.(h := r.h.(taskkill := if confirmed then Confirmed else Failed)).(cleanupPending := false);
    UnknownEnds(joined, now);
    if joined.closeCode.Some? {
      FinishEnds(joined, now, joined.closeCode.value);
    }
  }

  lemma PendingPasses(r: Run, now: nat, e: Event)
    requires Pending(r) && Enabled(r, now, e)
    requires !e.Error? && !e.Close? && !e.TaskkillEnds? && !e.JoinTimerFires?
    ensures PendingTo(r, Step(r, now, e), e)
  {
    if e.Spawn? || e.CallerAborts? {
      PendingMarks(r, now, e);
    } else if e.Data? {
      PendingData(r, now, e);
    } else {
      PendingWaits(r, now, e);
    }
  }

  lemma PendingMarks(r: Run, now: nat, e: Event)
    requires Pending(r) && Enabled(r, now, e) && (e.Spawn? || e.CallerAborts?)
    ensures PendingTo(r, Step(r, now, e), e)
  {
    hide Cancel, Abort;
    if e.Spawn? {
      NoSecondCancel(MarkSpawned(r, e.usablePid), now, CANCELLED, e.works);
    } else {
      NoSecondCancel(MarkAborted(r), now, CANCELLED, e.works);
    }
  }

  lemma PendingData(r: Run, now: nat, e: Event)
    requires Pending(r) && Enabled(r, now, e) && e.Data?
    ensures PendingTo(r, Step(r, now, e), e)
  {
    hide Capture;
    NothingCaptured(r, now, e.chunk, e.stderr, e.works);
  }

  lemma PendingWaits(r: Run, now: nat, e: Event)
    requires Pending(r) && Enabled(r, now, e)
    requires e.ExitStatusSet? || e.Exit? || e.StreamError? || e.CancelTimerFires?
    ensures PendingTo(r, Step(r, now, e), e)
  {
    hide Cancel;
    if e.StreamError? {
      NoSecondCancel(r, now, NODE_EXIT, e.works);
    } else if e.CancelTimerFires? {
      NoSecondCancel(r.(cancelTimer := false), now, TIMEOUT, e.works);
    }
  }

  lemma NoSecondCancel(r: Run, now: nat, reason: Code, works: bool)
    requires r.signalAttempted
    ensures Cancel(r, now, reason, works) == r && Abort(r, now, works) == r
  {
  }

  lemma NothingCaptured(r: Run, now: nat, chunk: seq<byte>, stderr: bool, works: bool)
    requires Pending(r)
    ensures var t := Capture(r, now, chunk, stderr, works);
      t == r.(h := t.h) && t.h.outcome == None && t.h.taskkill == r.h.taskkill
  {
    hide Cancel;
  }

  // --- The outcome stays what it should be ---

  // Nothing about the first |es| events changes.
  lemma EndsSame(o: Options, es: seq<Event>, e: Event, n: nat, m: nat)
    requires m < |es|
    ensures Ends(o, es + [e], n, m) <==> Ends(o, es, n, m)
  {
    hide Saw;
    HeldSame(es, e, m);
    BetweenSame(o, es, e, n, m);
  }

  lemma BetweenSame(o: Options, es: seq<Event>, e: Event, n: nat, m: nat)
    requires m <= |es|
    ensures ConfirmedBetween(o, es + [e], n, m) <==> ConfirmedBetween(o, es, n, m)
    ensures ClosedBetween(es + [e], n, m) <==> ClosedBetween(es, n, m)
    ensures LateError(es + [e], n, m) <==> LateError(es, n, m)
  {
    hide Saw, PidHeld;
    var next := es + [e];
    assert forall j :: 0 <= j < m ==> next[j] == es[j];
    forall j: nat | j < m ensures PidHeld(next, j) <==> PidHeld(es, j) {
      HeldSame(es, e, j);
    }
    if LateError(es, n, m) {
      var j :| n < j < m && es[j].Error? && !PidHeld(es, j);
      assert next[j].Error? && !PidHeld(next, j);
    }
    if ClosedBetween(es, n, m) {
      var j :| n < j < m && es[j].Close?;
      assert next[j].Close?;
    }
    if j: nat :| n < j < m && es[j] == TaskkillEnds(true) {
      assert next[j] == TaskkillEnds(true);
    }
  }

  lemma KeptSame(o: Options, es: seq<Event>, e: Event, n: nat)
    requires n < |es|
    ensures Kept(o, es + [e], n, false) == Kept(o, es, n, false) && Kept(o, es + [e], n, true) == Kept(o, es, n, true)
    ensures AtOnce(es + [e], n) == AtOnce(es, n)
  {
    hide Saw;
    HeardSame(es, e, n + 1, false);
    HeardSame(es, e, n + 1, true);
    HeldSame(es, e, n + 1);
    SawSame(es, e, n + 1, IsStatus);
  }

  // What the last event adds.
  lemma BetweenNext(o: Options, es: seq<Event>, e: Event, n: nat)
    requires n < |es|
    ensures var next := es + [e];
      && (ConfirmedBetween(o, next, n, |next|) <==> ConfirmedBetween(o, es, n, |es|) || e == TaskkillEnds(true))
      && (ClosedBetween(next, n, |next|) <==> ClosedBetween(es, n, |es|) || e.Close?)
      && (LateError(next, n, |next|) <==> LateError(es, n, |es|) || (e.Error? && !PidHeld(es, |es|)))
  {
    hide Saw, PidHeld;
    var next := es + [e];
    BetweenSame(o, es, e, n, |es|);
    HeldSame(es, e, |es|);
    assert next[|es|] == e;
    if e == TaskkillEnds(true) {
      assert next[|es|] == TaskkillEnds(true);
    }
    if j: nat :| n < j < |es| && next[j] == TaskkillEnds(true) {
    }
  }

  lemma WaitsNext(r: Run, now: nat, es: seq<Event>, e: Event, n: nat)
    requires n < |es| && Told(r, es) && Enabled(r, now, e) && IsFirst(r.options, es, n) && Cause(r.options, es, n).Some?
    requires Waits(r, es, n) && Unended(r.options, es, n)
    requires IsFirst(Step(r, now, e).options, es + [e], n) && Cause(r.options, es + [e], n) == Cause(r.options, es, n)
    ensures var t, next := Step(r, now, e), es + [e];
      && t.output == r.output && t.errors == r.errors && t.options == r.options
      && (Ends(r.options, next, n, |es|) ==>
            && FirstEnd(r.options, next, n, |es|) && !Unended(r.options, next, n)
            && EndedAs(t, Rejected(if Fails(e) then CLEANUP_UNKNOWN else Reported(r.options, next, n, |next|),
                                   r.output, r.errors)))
      && (!Ends(r.options, next, n, |es|) ==> Unended(r.options, next, n) && Waits(t, next, n))
  {
    hide Saw, PidHeld, IsFirst, Step, Cause;
    var o, next := r.options, es + [e];
    StepFlags(r, now, e);
    PendingStep(r, now, e);
    BetweenNext(o, es, e, n);
    BetweenSame(o, es, e, n, |es|);
    HeldSame(es, e, |es|);
    assert next[|es|] == e;
    assert Ends(o, next, n, |es|) <==> EndsPending(r, e);
    forall m | n < m < |es| ensures !Ends(o, next, n, m) {
      EndsSame(o, es, e, n, m);
    }
  }

  lemma OutcomesSettled(r: Run, t: Run, es: seq<Event>, e: Event, n: nat)
    requires n < |es| && IsFirst(r.options, es, n) && Outcomes(r, es, n) && r.settled && r.options == t.options
    requires t.settled && t.h.outcome == r.h.outcome && t.output == r.output && t.errors == r.errors
    requires IsFirst(t.options, es + [e], n) && Cause(r.options, es + [e], n) == Cause(r.options, es, n)
    ensures Outcomes(t, es + [e], n)
  {
    hide Saw, PidHeld, IsFirst, Cause, Kept, AtOnce, Ends, LateError;
    var o, next := r.options, es + [e];
    KeptSame(o, es, e, n);
    assert next[n] == es[n];
    forall m: nat | n < m < |es| ensures Ends(o, next, n, m) <==> Ends(o, es, n, m) {
      EndsSame(o, es, e, n, m);
    }
    forall m: nat | m <= |es| ensures LateError(next, n, m) <==> LateError(es, n, m) {
      BetweenSame(o, es, e, n, m);
    }
    if !es[n].Close? && !es[n].JoinTimerFires? && AtOnce(es, n) == None {
      EndedIsEnded(r, es, n);
    }
  }

  lemma EndedIsEnded(r: Run, es: seq<Event>, n: nat)
    requires IsFirst(r.options, es, n) && Outcomes(r, es, n) && r.settled
    requires !es[n].Close? && !es[n].JoinTimerFires? && AtOnce(es, n) == None
    ensures exists m: nat :: FirstEnd(r.options, es, n, m)
  {
    hide Saw, PidHeld, Cause, Kept, AtOnce, Ends, Reported;
    assert !Unended(r.options, es, n);
    var m :| n < m < |es| && Ends(r.options, es, n, m);
    var k := EarliestEnd(r.options, es, n, m);
  }

  lemma {:induction false} EarliestEnd(o: Options, es: seq<Event>, n: nat, m: nat) returns (k: nat)
    requires n < m < |es| && Ends(o, es, n, m)
    ensures FirstEnd(o, es, n, k)
    decreases m
  {
    hide Ends;
    if j: nat :| n < j < m && Ends(o, es, n, j) {
      k := EarliestEnd(o, es, n, j);
    } else {
      k := m;
    }
  }

  lemma OutcomesWaited(r: Run, now: nat, es: seq<Event>, e: Event, n: nat)
    requires n < |es| && Told(r, es) && Enabled(r, now, e) && IsFirst(r.options, es, n) && Outcomes(r, es, n)
    requires !r.settled
    requires Step(r, now, e).options == r.options && IsFirst(r.options, es + [e], n)
    requires Cause(r.options, es + [e], n) == Cause(r.options, es, n)
    ensures Outcomes(Step(r, now, e), es + [e], n)
  {
    hide Saw, PidHeld, IsFirst, Cause, Kept, AtOnce, Ends, LateError, Step, Told, Enabled, Waits, Reported;
    var o, next := r.options, es + [e];
    assert next[n] == es[n];
    KeptSame(o, es, e, n);
    if m: nat :| n < m < |es| && Ends(o, es, n, m) {
      var k := EarliestEnd(o, es, n, m);
    }
    assert Unended(o, es, n);
    FirstHasCause(o, es, n);
    WaitsNext(r, now, es, e, n);
    if Ends(o, next, n, |es|) {
      forall m: nat | FirstEnd(o, next, n, m) ensures m == |es| {
      }
    }
  }

  lemma FirstHasCause(o: Options, es: seq<Event>, n: nat)
    requires IsFirst(o, es, n) && !es[n].Close? && !es[n].JoinTimerFires?
    ensures Cause(o, es, n).Some?
  {
  }

  lemma FollowsNext(r: Run, now: nat, es: seq<Event>, e: Event)
    requires Follows(r, es) && Enabled(r, now, e)
    ensures Follows(Step(r, now, e), es + [e])
  {
    hide Saw, Told, Heard, Step, Outcomes, IsFirst, Undecided, Enabled, IsQuiet, Fresh, Decides;
    var t, o, next := Step(r, now, e), r.options, es + [e];
    ToldNext(r, now, es, e);
    StepFlags(r, now, e);
    FirstNext(o, es, e);
    if Undecided(o, es) {
      QuietDecidesNothing(r, now, es, e);
      NoneIsFirst(o, es);
      if IsQuiet(r, e) {
        QuietNext(r, now, es, e);
        NoneIsFirst(o, next);
      } else {
        DecidesRightly(r, now, es, e);
        FirstIsOne(o, next, |es|);
      }
    } else {
      forall n: nat | IsFirst(o, next, n) ensures Outcomes(t, next, n) {
        FirstIsWithin(o, es, e, n);
        CauseSame(o, es, e, n);
        if r.settled {
          SettledKeeps(r, now, e);
          OutcomesSettled(r, t, es, e, n);
        } else {
          OutcomesWaited(r, now, es, e, n);
        }
      }
    }
  }

  lemma NoneIsFirst(o: Options, es: seq<Event>)
    requires Undecided(o, es)
    ensures forall n: nat :: !IsFirst(o, es, n)
  {
  }

  lemma FirstIsOne(o: Options, es: seq<Event>, n: nat)
    requires IsFirst(o, es, n)
    ensures !Undecided(o, es) && forall m: nat :: IsFirst(o, es, m) ==> m == n
  {
    hide Decides;
  }

  lemma FirstIsWithin(o: Options, es: seq<Event>, e: Event, n: nat)
    requires IsFirst(o, es + [e], n) && !Undecided(o, es)
    ensures n < |es| && IsFirst(o, es, n)
  {
    hide Decides, IsFirst;
    FirstNext(o, es, e);
    assert n <= |es|;
  }

  lemma {:induction false} SomeIsFirst(o: Options, es: seq<Event>, m: nat) returns (n: nat)
    requires m < |es| && Decides(o, es, m)
    ensures IsFirst(o, es, n)
    decreases m
  {
    hide Decides;
    if j: nat :| j < m && Decides(o, es, j) {
      n := SomeIsFirst(o, es, j);
    } else {
      n := m;
    }
  }

  // --- Whole runs of the executor ---

  // The events that a call, and calls, deliver to the i-th run.
  function EventsAt(c: Call, i: nat): seq<Event> {
    if c.RunEvent? && c.i == i then [c.e] else []
  }

  function EventsOf(calls: seq<Call>, i: nat): seq<Event> {
    if calls == [] then [] else EventsAt(calls[0], i) + EventsOf(calls[1..], i)
  }

  lemma LaunchFollows(o: Options, now: nat)
    ensures Follows(Launch(o, now), [])
  {
  }

  // What a run has followed so far, if it has been launched.
  ghost predicate FollowsSoFar(x: Executor, i: nat, es: seq<Event>) {
    if i < |x.runs| then Follows(x.runs[i], es) else es == []
  }

  lemma CallFollows(x: Executor, c: Call, i: nat, es: seq<Event>)
    requires Possible(x, c) && FollowsSoFar(x, i, es)
    ensures FollowsSoFar(Next(x, c), i, es + EventsAt(c, i))
  {
    hide Follows, Step, Enabled, Launch;
    var y := Next(x, c);
    assert EventsAt(c, i) == [] ==> es + EventsAt(c, i) == es;
    if i < |x.runs| {
      if c.RunEvent? && c.i == i {
        FollowsNext(x.runs[i], x.now, es, c.e);
      }
    } else if i < |y.runs| {
      LaunchFollows(c.options, x.now);
    }
  }

  lemma {:induction false} RunFollows(x: Executor, calls: seq<Call>, i: nat, es: seq<Event>)
    requires PossibleAll(x, calls) && FollowsSoFar(x, i, es)
    ensures FollowsSoFar(After(x, calls), i, es + EventsOf(calls, i))
    decreases |calls|
  {
    hide FollowsSoFar, Possible, Next, EventsAt;
    if calls == [] {
      assert es + [] == es;
    } else {
      CallFollows(x, calls[0], i, es);
      RunFollows(Next(x, calls[0]), calls[1..], i, es + EventsAt(calls[0], i));
      assert es + EventsAt(calls[0], i) + EventsOf(calls[1..], i) == es + EventsOf(calls, i);
    }
  }

  ghost predicate SettlesAsCalledFor(r: Run, es: seq<Event>) {
    && (Undecided(r.options, es) ==> !r.settled && r.h.outcome == None)
    && forall n: nat :: IsFirst(r.options, es, n) ==> Outcomes(r, es, n)
  }

  // In every run of the executor, whatever its events and their order: a launched run has settled only if
  // some event decided it, and then with the outcome that the first such event and what follows it call for.
  lemma OutcomeExact(calls: seq<Call>, i: nat)
    requires PossibleAll(INIT, calls) && i < |After(INIT, calls).runs|
    ensures SettlesAsCalledFor(After(INIT, calls).runs[i], EventsOf(calls, i))
  {
    hide After, PossibleAll, Outcomes, IsFirst, Undecided, Heard, Told;
    RunFollows(INIT, calls, i, []);
    assert [] + EventsOf(calls, i) == EventsOf(calls, i);
  }

  lemma {:induction false} HeardFits(o: Options, es: seq<Event>, k: nat, stderr: bool)
    requires k <= |es| && forall m :: 0 <= m < k ==> !Decides(o, es, m)
    ensures |Heard(es, k, stderr)| <= o.maxBuffer
    decreases k
  {
    if k > 0 {
      HeardFits(o, es, k - 1, stderr);
      assert !Decides(o, es, k - 1);
    }
  }

  // A run resolves if and only if it closed with code 0 before anything cancelled it, and before its deadline;
  // it then returns everything that it wrote until then.
  lemma ResolvedExactly(calls: seq<Call>, i: nat)
    requires PossibleAll(INIT, calls) && i < |After(INIT, calls).runs|
    ensures ResolvesRightly(After(INIT, calls).runs[i], EventsOf(calls, i))
  {
    hide ResolvesRightly, SettlesAsCalledFor;
    OutcomeExact(calls, i);
    ResolvesIfSettles(After(INIT, calls).runs[i], EventsOf(calls, i));
  }

  ghost predicate ResolvesRightly(r: Run, es: seq<Event>) {
    && (r.h.outcome.Some? && r.h.outcome.value.0.Resolved? <==>
          exists n: nat :: IsFirst(r.options, es, n) && es[n] == Close(Some(0)))
    && forall n: nat :: IsFirst(r.options, es, n) && es[n] == Close(Some(0)) ==>
         r.h.outcome.Some? && r.h.outcome.value.0 == Resolved(Heard(es, n, false), Heard(es, n, true))
  }

  lemma ResolvesIfSettles(r: Run, es: seq<Event>)
    requires SettlesAsCalledFor(r, es)
    ensures ResolvesRightly(r, es)
  {
    hide Outcomes, Heard, Decides;
    if Undecided(r.options, es) {
      NoneIsFirst(r.options, es);
    } else {
      var m: nat :| m < |es| && Decides(r.options, es, m);
      var n := SomeIsFirst(r.options, es, m);
      FirstIsOne(r.options, es, n);
      if es[n] == Close(Some(0)) {
        ResolvesAll(r, es, n);
      } else {
        NotResolved(r, es, n);
      }
    }
  }

  lemma ResolvesAll(r: Run, es: seq<Event>, n: nat)
    requires IsFirst(r.options, es, n) && Outcomes(r, es, n) && es[n] == Close(Some(0))
    ensures r.h.outcome.Some? && r.h.outcome.value.0 == Resolved(Heard(es, n, false), Heard(es, n, true))
  {
    HeardFits(r.options, es, n, false);
    HeardFits(r.options, es, n, true);
  }

  lemma NotResolved(r: Run, es: seq<Event>, n: nat)
    requires IsFirst(r.options, es, n) && Outcomes(r, es, n) && n < |es| && es[n] != Close(Some(0))
    ensures r.h.outcome.Some? ==> r.h.outcome.value.0.Rejected?
  {
    hide Saw, PidHeld, Cause, Kept, AtOnce, Ends, Reported, IsFirst;
    if m: nat :| n < m < |es| && Ends(r.options, es, n, m) {
      var k := EarliestEnd(r.options, es, n, m);
    }
  }
}
