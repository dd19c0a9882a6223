// scripts/lib/sleep-wake-probe.clock.ts: finding the longest sleep in clock samples, and converting trace
// times, which may stand still during sleep, to wall times. Times are in milliseconds.
module SleepClock {
  import opened Prelude

  const MIN_SLEEP_GAP: real := 15000.0
  const DARK_WAKE_MERGE: real := 60000.0

  datatype ClockSample = ClockSample(wall: real, mono: real)

  datatype SleepWindow = SleepWindow(sleptAt: real, wokeAt: real, wallGap: real, monotonicGap: real, darkWakes: nat)

  function Max(a: real, b: real): real {
    if a >= b then a else b
  }

  // --- Gaps ---

  predicate IsGapEnd(samples: seq<ClockSample>, i: int) {
    1 <= i < |samples| && samples[i].wall - samples[i - 1].wall >= MIN_SLEEP_GAP
  }

  // The gap ends among the first n samples.
  function GapsUpTo(samples: seq<ClockSample>, n: nat): seq<nat> {
    if n == 0 then [] else GapsUpTo(samples, n - 1) + if IsGapEnd(samples, n - 1) then [n - 1] else []
  }

  function Gaps(samples: seq<ClockSample>): seq<nat> {
    GapsUpTo(samples, |samples|)
  }

  // The indexes of all gap ends, in increasing order.
  lemma {:induction false} GapsExact(samples: seq<ClockSample>, n: nat)
    ensures var gaps := GapsUpTo(samples, n);
      && (forall k :: 0 <= k < |gaps| ==> IsGapEnd(samples, gaps[k]) && gaps[k] < n)
      && (forall j, k :: 0 <= j < k < |gaps| ==> gaps[j] < gaps[k])
      && forall i: nat :: i < n && IsGapEnd(samples, i) ==> i in gaps
  {
    if n > 0 {
      var gaps := GapsUpTo(samples, n);
      GapsExact(samples, n - 1);
      forall i: nat | i < n && IsGapEnd(samples, i) ensures i in gaps {
        assert i == n - 1 ==> gaps[|gaps| - 1] == i;
      }
    }
  }

  lemma GapsExist(samples: seq<ClockSample>)
    ensures AreEnds(samples, Gaps(samples)) && (Gaps(samples) == [] <==> !HasGap(samples))
  {
    hide GapsUpTo;
    var gaps := Gaps(samples);
    GapsExact(samples, |samples|);
    assert gaps == GapsUpTo(samples, |samples|);
    forall k | 0 <= k < |gaps| ensures 1 <= gaps[k] < |samples| {
      assert IsGapEnd(samples, gaps[k]);
    }
    if gaps != [] {
      assert IsGapEnd(samples, gaps[0]);
    }
  }

  method GapEndIndexes(samples: seq<ClockSample>) returns (indexes: seq<nat>)
    ensures indexes == Gaps(samples) && AreEnds(samples, indexes)
    ensures indexes == [] <==> !HasGap(samples)
  {
    indexes := [];
    var index := 1;
    assert GapsUpTo(samples, 1) == GapsUpTo(samples, 0);
    while index < |samples|
      invariant index == 1 || 1 < index <= |samples|
      invariant indexes == GapsUpTo(samples, index)
    {
      if samples[index].wall - samples[index - 1].wall >= MIN_SLEEP_GAP {
        indexes := indexes + [index];
      }
      index := index + 1;
    }
    GapsExist(samples);
  }

  ghost predicate HasGap(samples: seq<ClockSample>) {
    exists i: nat :: IsGapEnd(samples, i)
  }

  // --- Groups ---

  predicate AreEnds(samples: seq<ClockSample>, gaps: seq<nat>) {
    forall k :: 0 <= k < |gaps| ==> 1 <= gaps[k] < |samples|
  }

  // The time awake between the k-th gap and the next.
  function Awake(samples: seq<ClockSample>, gaps: seq<nat>, k: nat): real
    requires k + 1 < |gaps| && AreEnds(samples, gaps)
  {
    samples[gaps[k + 1] - 1].wall - samples[gaps[k]].wall
  }

  // The gaps from the lo-th up to the hi-th are one sleep, and neither the gap before nor the one after
  // belongs to it.
  ghost predicate IsSleep(samples: seq<ClockSample>, gaps: seq<nat>, lo: nat, hi: nat)
    requires AreEnds(samples, gaps)
  {
    && lo < hi <= |gaps|
    && (forall k :: lo <= k < hi - 1 ==> Awake(samples, gaps, k) < DARK_WAKE_MERGE)
    && (lo > 0 ==> Awake(samples, gaps, lo - 1) >= DARK_WAKE_MERGE)
    && (hi < |gaps| ==> Awake(samples, gaps, hi - 1) >= DARK_WAKE_MERGE)
  }

  function WindowOf(samples: seq<ClockSample>, gaps: seq<nat>, lo: nat, hi: nat): SleepWindow
    requires lo < hi <= |gaps| && AreEnds(samples, gaps)
  {
    var first, last := samples[gaps[lo] - 1], samples[gaps[hi - 1]];
    SleepWindow(first.wall, last.wall, last.wall - first.wall, Max(0.0, last.mono - first.mono), hi - lo - 1)
  }

  // The window of the first longest sleep.
  ghost predicate IsLongest(samples: seq<ClockSample>, gaps: seq<nat>, window: SleepWindow)
    requires AreEnds(samples, gaps)
  {
    exists lo: nat, hi: nat ::
      && IsSleep(samples, gaps, lo, hi) && window == WindowOf(samples, gaps, lo, hi)
      && forall l: nat, h: nat :: IsSleep(samples, gaps, l, h) ==>
           && WindowOf(samples, gaps, l, h).wallGap <= window.wallGap
           && (l < lo ==> WindowOf(samples, gaps, l, h).wallGap < window.wallGap)
  }

  // The gaps from the lo-th up to the hi-th.
  datatype Run = Run(lo: nat, hi: nat)

  // The first n gaps, split wherever the time awake is long; `runs` says which gaps each group holds.
  ghost predicate AreGroups(samples: seq<ClockSample>, gaps: seq<nat>, groups: seq<seq<nat>>, runs: seq<Run>, n: nat)
    requires n <= |gaps| && AreEnds(samples, gaps)
  {
    && |runs| == |groups| > 0 && runs[0].lo == 0 && runs[|runs| - 1].hi == n
    && (forall k {:trigger runs[k]} :: 0 <= k < |runs| ==> IsRun(samples, gaps, runs[k], n))
    && (forall k {:trigger groups[k]} :: 0 <= k < |runs| ==> groups[k] == gaps[runs[k].lo..runs[k].hi])
    && forall i, j :: 0 <= i && j == i + 1 && j < |runs| ==> runs[j].lo == runs[i].hi
  }

  // One sleep as far as its start and what lies between its gaps are concerned.
  ghost predicate IsRun(samples: seq<ClockSample>, gaps: seq<nat>, run: Run, n: nat)
    requires n <= |gaps| && AreEnds(samples, gaps)
  {
    && run.lo < run.hi <= n
    && (forall m :: run.lo <= m < run.hi - 1 ==> Awake(samples, gaps, m) < DARK_WAKE_MERGE)
    && (run.lo > 0 ==> Awake(samples, gaps, run.lo - 1) >= DARK_WAKE_MERGE)
  }

  lemma Extended(samples: seq<ClockSample>, gaps: seq<nat>, groups: seq<seq<nat>>, runs: seq<Run>, n: nat)
    requires 0 < n < |gaps| && AreEnds(samples, gaps) && AreGroups(samples, gaps, groups, runs, n)
    requires Awake(samples, gaps, n - 1) < DARK_WAKE_MERGE
    ensures var last := |groups| - 1;
      AreGroups(samples, gaps, groups[last := groups[last] + [gaps[n]]], runs[last := runs[last].(hi := n + 1)], n + 1)
  {
    hide Awake, AreEnds;
    var last := |groups| - 1;
    assert gaps[runs[last].lo..n + 1] == gaps[runs[last].lo..n] + [gaps[n]];
  }

  lemma Opened(samples: seq<ClockSample>, gaps: seq<nat>, groups: seq<seq<nat>>, runs: seq<Run>, n: nat)
    requires 0 < n < |gaps| && AreEnds(samples, gaps) && AreGroups(samples, gaps, groups, runs, n)
    requires Awake(samples, gaps, n - 1) >= DARK_WAKE_MERGE
    ensures AreGroups(samples, gaps, groups + [[gaps[n]]], runs + [Run(n, n + 1)], n + 1)
  {
    hide Awake, AreEnds;
    assert gaps[n..n + 1] == [gaps[n]];
  }

  // One group more wherever the time awake is long.
  function RunsUpTo(samples: seq<ClockSample>, gaps: seq<nat>, n: nat): (runs: seq<Run>)
    requires 0 < n <= |gaps| && AreEnds(samples, gaps)
    ensures runs != []
  {
    if n == 1 then [Run(0, 1)]
    else
      var runs := RunsUpTo(samples, gaps, n - 1);
      if Awake(samples, gaps, n - 2) < DARK_WAKE_MERGE then runs[|runs| - 1 := runs[|runs| - 1].(hi := n)]
      else runs + [Run(n - 1, n)]
  }

  method GroupGaps(samples: seq<ClockSample>, gaps: seq<nat>) returns (groups: seq<seq<nat>>)
    requires gaps != [] && AreEnds(samples, gaps)
    ensures AreGroups(samples, gaps, groups, RunsUpTo(samples, gaps, |gaps|), |gaps|)
  {
    groups := [[gaps[0]]];
    assert gaps[0..1] == [gaps[0]];
    for i := 1 to |gaps|
      invariant AreGroups(samples, gaps, groups, RunsUpTo(samples, gaps, i), i)
    {
      ghost var runs := RunsUpTo(samples, gaps, i);
      var end, last := gaps[i], |groups| - 1;
      var group := groups[last];
      assert group == gaps[runs[last].lo..i];
      var previousEnd := group[|group| - 1];
      var awake := samples[end - 1].wall - samples[previousEnd].wall;
      if awake < DARK_WAKE_MERGE {
        Extended(samples, gaps, groups, runs, i);
        groups := groups[last := group + [end]];
      } else {
        Opened(samples, gaps, groups, runs, i);
        groups := groups + [[end]];
      }
    }
  }

  // The groups are the sleeps, in order.
  lemma GroupIsSleep(samples: seq<ClockSample>, gaps: seq<nat>, groups: seq<seq<nat>>, runs: seq<Run>, k: nat)
    requires AreEnds(samples, gaps) && AreGroups(samples, gaps, groups, runs, |gaps|) && k < |runs|
    ensures IsSleep(samples, gaps, runs[k].lo, runs[k].hi)
  {
    hide Awake;
    if k + 1 < |runs| {
      assert runs[k + 1].lo == runs[k].hi;
    }
  }

  lemma RunAt(samples: seq<ClockSample>, gaps: seq<nat>, groups: seq<seq<nat>>, runs: seq<Run>, m: nat) returns (k: nat)
    requires AreEnds(samples, gaps) && AreGroups(samples, gaps, groups, runs, |gaps|) && m < |gaps|
    ensures k < |runs| && runs[k].lo <= m < runs[k].hi
  {
    k := 0;
    while runs[k].hi <= m
      invariant k < |runs| && runs[k].lo <= m
    {
      assert k + 1 < |runs| && runs[k + 1].lo == runs[k].hi;
      k := k + 1;
    }
  }

  lemma SameSleep(samples: seq<ClockSample>, gaps: seq<nat>, a: Run, b: Run)
    requires AreEnds(samples, gaps) && IsSleep(samples, gaps, a.lo, a.hi) && IsSleep(samples, gaps, b.lo, b.hi)
    requires a.lo <= b.lo < a.hi
    ensures a == b
  {
    assert b.lo > 0 ==> Awake(samples, gaps, b.lo - 1) >= DARK_WAKE_MERGE;
    assert b.hi < |gaps| ==> Awake(samples, gaps, b.hi - 1) >= DARK_WAKE_MERGE;
    assert a.hi < |gaps| ==> Awake(samples, gaps, a.hi - 1) >= DARK_WAKE_MERGE;
  }

  // The window of the first longest sleep, or none where there is no gap.
  ghost predicate IsDetected(samples: seq<ClockSample>, window: Option<SleepWindow>) {
    && (window.None? <==> !HasGap(samples))
    && AreEnds(samples, Gaps(samples))
    && (window.Some? ==> IsLongest(samples, Gaps(samples), window.value))
  }

  function WindowOfGroup(samples: seq<ClockSample>, group: seq<nat>): SleepWindow
    requires group != [] && AreEnds(samples, group)
  {
    var first, last := samples[group[0] - 1], samples[group[|group| - 1]];
    SleepWindow(first.wall, last.wall, last.wall - first.wall, Max(0.0, last.mono - first.mono), |group| - 1)
  }

  lemma GroupWindowIs(samples: seq<ClockSample>, gaps: seq<nat>, groups: seq<seq<nat>>, runs: seq<Run>, k: nat)
    requires AreEnds(samples, gaps) && AreGroups(samples, gaps, groups, runs, |gaps|) && k < |runs|
    ensures runs[k].lo < runs[k].hi <= |gaps| && groups[k] != [] && AreEnds(samples, groups[k])
    ensures WindowOfGroup(samples, groups[k]) == WindowOf(samples, gaps, runs[k].lo, runs[k].hi)
  {
    hide Awake, Max;
    assert groups[k] == gaps[runs[k].lo..runs[k].hi];
  }

  lemma FirstLongest(samples: seq<ClockSample>, gaps: seq<nat>, groups: seq<seq<nat>>, runs: seq<Run>, at: nat)
    requires AreEnds(samples, gaps) && AreGroups(samples, gaps, groups, runs, |gaps|) && at < |runs|
    requires forall j :: 0 <= j < |groups| ==> groups[j] != [] && AreEnds(samples, groups[j])
    requires forall j :: 0 <= j < |groups| ==>
      WindowOfGroup(samples, groups[j]).wallGap <= WindowOfGroup(samples, groups[at]).wallGap
    requires forall j :: 0 <= j < |groups| && j < at ==>
      WindowOfGroup(samples, groups[j]).wallGap < WindowOfGroup(samples, groups[at]).wallGap
    ensures IsLongest(samples, gaps, WindowOfGroup(samples, groups[at]))
  {
    hide WindowOfGroup, WindowOf, IsSleep;
    var lo, hi, window := runs[at].lo, runs[at].hi, WindowOfGroup(samples, groups[at]);
    GroupIsSleep(samples, gaps, groups, runs, at);
    GroupWindowIs(samples, gaps, groups, runs, at);
    forall l: nat, h: nat | IsSleep(samples, gaps, l, h)
      ensures l < h <= |gaps| && WindowOf(samples, gaps, l, h).wallGap <= window.wallGap
      ensures l < lo ==> WindowOf(samples, gaps, l, h).wallGap < window.wallGap
    {
      var k := SleepIsGroup(samples, gaps, groups, runs, l, h);
      GroupWindowIs(samples, gaps, groups, runs, k);
      RunsInOrder(samples, gaps, groups, runs, at, k);
    }
  }

  lemma SleepIsGroup(samples: seq<ClockSample>, gaps: seq<nat>, groups: seq<seq<nat>>, runs: seq<Run>, lo: nat, hi: nat)
    returns (k: nat)
    requires AreEnds(samples, gaps) && AreGroups(samples, gaps, groups, runs, |gaps|)
    requires IsSleep(samples, gaps, lo, hi)
    ensures k < |runs| && runs[k] == Run(lo, hi)
  {
    k := RunAt(samples, gaps, groups, runs, lo);
    GroupIsSleep(samples, gaps, groups, runs, k);
    SameSleep(samples, gaps, runs[k], Run(lo, hi));
  }

  lemma {:induction false} RunsInOrder(samples: seq<ClockSample>, gaps: seq<nat>, groups: seq<seq<nat>>, runs: seq<Run>,
                                       a: nat, b: nat)
    requires AreEnds(samples, gaps) && AreGroups(samples, gaps, groups, runs, |gaps|) && a < |runs| && b < |runs|
    ensures a <= b ==> runs[a].lo <= runs[b].lo
    decreases b
  {
    hide Awake;
    if a < b {
      RunsInOrder(samples, gaps, groups, runs, a, b - 1);
      assert runs[b].lo == runs[b - 1].hi;
    }
  }

  // Only a longer window replaces the best so far.
  method LongestGroup(samples: seq<ClockSample>, groups: seq<seq<nat>>) returns (best: Option<SleepWindow>, ghost at: nat)
    requires forall k :: 0 <= k < |groups| ==> groups[k] != [] && AreEnds(samples, groups[k])
    ensures if groups == [] then best == None else at < |groups| && best == Some(WindowOfGroup(samples, groups[at]))
    ensures forall j :: 0 <= j < |groups| ==> WindowOfGroup(samples, groups[j]).wallGap <= best.value.wallGap
    ensures forall j :: 0 <= j < |groups| && j < at ==> WindowOfGroup(samples, groups[j]).wallGap < best.value.wallGap
  {
    best, at := None, 0;
    for k := 0 to |groups|
      invariant if k == 0 then best == None else at < k && best == Some(WindowOfGroup(samples, groups[at]))
      invariant forall j :: 0 <= j < k ==> WindowOfGroup(samples, groups[j]).wallGap <= best.value.wallGap
      invariant forall j :: 0 <= j < k && j < at ==> WindowOfGroup(samples, groups[j]).wallGap < best.value.wallGap
    {
      var window := WindowOfGroup(samples, groups[k]);
      if best.None? || window.wallGap > best.value.wallGap {
        best, at := Some(window), k;
      }
    }
  }

  method DetectSleepWindow(samples: seq<ClockSample>) returns (best: Option<SleepWindow>)
    ensures IsDetected(samples, best)
  {
    hide IsGapEnd, HasGap;
    var gaps := GapEndIndexes(samples);
    if gaps == [] {
      return None;
    }
    var groups := GroupGaps(samples, gaps);
    ghost var runs := RunsUpTo(samples, gaps, |gaps|);
    forall k | 0 <= k < |groups| ensures groups[k] != [] && AreEnds(samples, groups[k]) {
      GroupWindowIs(samples, gaps, groups, runs, k);
    }
    hide IsLongest, WindowOfGroup, AreGroups;
    ghost var at;
    best, at := LongestGroup(samples, groups);
    FirstLongest(samples, gaps, groups, runs, at);
  }

  // --- Drift ---

  function SleepDrift(window: Option<SleepWindow>): real {
    if window.None? then 0.0 else Max(0.0, window.value.wallGap - window.value.monotonicGap)
  }

  // What every detected window is like.
  predicate IsWindow(w: SleepWindow) {
    w.wallGap == w.wokeAt - w.sleptAt && w.monotonicGap >= 0.0
  }

  // From the i-th reading to the j-th: what both clocks show, a monotonic clock that ran back taken for one
  // that stood still, and the gaps between them.
  ghost predicate Spans(samples: seq<ClockSample>, w: SleepWindow, i: nat, j: nat) {
    && i < j < |samples| && IsGapEnd(samples, i + 1) && IsGapEnd(samples, j)
    && w.sleptAt == samples[i].wall && w.wokeAt == samples[j].wall && w.wallGap == samples[j].wall - samples[i].wall
    && (samples[j].mono >= samples[i].mono ==> w.monotonicGap == samples[j].mono - samples[i].mono)
    && (samples[j].mono < samples[i].mono ==> w.monotonicGap == 0.0)
    && w.darkWakes + 1 == |GapEnds(samples, i + 1, j)|
  }

  lemma DetectedIsWindow(samples: seq<ClockSample>, w: SleepWindow)
    requires IsDetected(samples, Some(w))
    ensures IsWindow(w) && exists i: nat, j: nat :: Spans(samples, w, i, j)
    ensures (forall i, j :: 0 <= i < j < |samples| ==> samples[i].wall <= samples[j].wall) ==> w.wallGap >= MIN_SLEEP_GAP
  {
    hide Awake, GapsUpTo, Gaps, GapEnds, WindowOf;
    var gaps := Gaps(samples);
    var lo: nat, hi: nat :| IsSleep(samples, gaps, lo, hi) && w == WindowOf(samples, gaps, lo, hi);
    WindowSpans(samples, lo, hi);
    assert Spans(samples, w, gaps[lo] - 1, gaps[hi - 1]);
  }

  lemma WindowSpans(samples: seq<ClockSample>, lo: nat, hi: nat)
    requires AreEnds(samples, Gaps(samples)) && lo < hi <= |Gaps(samples)|
    ensures var gaps := Gaps(samples); var w := WindowOf(samples, gaps, lo, hi);
      && IsWindow(w) && gaps[lo] >= 1 && Spans(samples, w, gaps[lo] - 1, gaps[hi - 1])
      && ((forall i, j :: 0 <= i < j < |samples| ==> samples[i].wall <= samples[j].wall) ==> w.wallGap >= MIN_SLEEP_GAP)
  {
    hide Awake, GapsUpTo, GapEnds;
    var gaps := Gaps(samples);
    GapsExact(samples, |samples|);
    assert gaps == GapsUpTo(samples, |samples|);
    assert IsGapEnd(samples, gaps[lo]);
    assert gaps[lo] <= gaps[hi - 1];
    assert IsGapEnd(samples, gaps[hi - 1]);
    GapsCounted(samples, lo, hi);
  }

  function GapEnds(samples: seq<ClockSample>, i: nat, j: nat): set<nat> {
    set k: nat | i <= k <= j && IsGapEnd(samples, k)
  }

  lemma GapsCounted(samples: seq<ClockSample>, lo: nat, hi: nat)
    requires lo < hi <= |Gaps(samples)|
    ensures var gaps := Gaps(samples); |GapEnds(samples, gaps[lo], gaps[hi - 1])| == hi - lo
  {
    hide GapsUpTo, IsGapEnd;
    var gaps := Gaps(samples);
    GapsExact(samples, |samples|);
    assert gaps == GapsUpTo(samples, |samples|);
    var ends := GapEnds(samples, gaps[lo], gaps[hi - 1]);
    var part := gaps[lo..hi];
    forall k | k in ends ensures k in ElementsOf(part) {
      GapListed(samples, k);
      var n :| 0 <= n < |gaps| && gaps[n] == k;
      assert lo <= n < hi;
      assert part[n - lo] == k;
    }
    forall k | k in ElementsOf(part) ensures k in ends {
      var n :| 0 <= n < |part| && part[n] == k;
      assert gaps[lo + n] == k && IsGapEnd(samples, gaps[lo + n]);
      assert lo < lo + n ==> gaps[lo] < gaps[lo + n];
      assert lo + n < hi - 1 ==> gaps[lo + n] < gaps[hi - 1];
    }
    assert ends == ElementsOf(part);
    DistinctSize(part);
  }

  lemma GapListed(samples: seq<ClockSample>, k: nat)
    requires IsGapEnd(samples, k)
    ensures k in Gaps(samples)
  {
    GapsExact(samples, |samples|);
  }

  function ElementsOf(s: seq<nat>): set<nat> {
    set n | n in s
  }

  lemma {:induction false} DistinctSize(s: seq<nat>)
    requires Distinct(s)
    ensures |ElementsOf(s)| == |s|
  {
    if s != [] {
      DistinctSize(s[1..]);
      assert s == [s[0]] + s[1..];
      assert s[0] !in s[1..];
      assert ElementsOf(s) == {s[0]} + ElementsOf(s[1..]);
    }
  }

  // --- The trace clock ---

  datatype TraceSample = TraceSample(wall: real, trace: real)

  function OffsetOf(s: TraceSample): real {
    s.wall - s.trace
  }

  // `preOffset` and `postOffsetError` as the source returns them; `base`, `sleptAtTrace` and `drift` are
  // what `toWall` needs.
  datatype TraceClock = TraceClock(preOffset: Option<real>, postOffsetError: Option<int>, base: real,
                                   sleptAtTrace: Option<real>, drift: real)
  {
    function ToWall(trace: real): real {
      trace + base + if sleptAtTrace.Some? && trace > sleptAtTrace.value then drift else 0.0
    }
  }

  predicate IsPre(s: TraceSample, window: Option<SleepWindow>) {
    window.None? || s.wall <= window.value.sleptAt
  }

  predicate IsPost(s: TraceSample, window: Option<SleepWindow>) {
    window.Some? && s.wall >= window.value.wokeAt
  }

  predicate IsLastPre(samples: seq<TraceSample>, window: Option<SleepWindow>, k: int) {
    0 <= k < |samples| && IsPre(samples[k], window) && forall j :: k < j < |samples| ==> !IsPre(samples[j], window)
  }

  predicate IsFirstPost(samples: seq<TraceSample>, window: Option<SleepWindow>, k: int) {
    0 <= k < |samples| && IsPost(samples[k], window) && forall j :: 0 <= j < k ==> !IsPost(samples[j], window)
  }

  // The last sample before the sleep.
  function LastPre(samples: seq<TraceSample>, window: Option<SleepWindow>): (r: Option<TraceSample>)
    ensures r.None? <==> forall s :: s in samples ==> !IsPre(s, window)
    ensures r.Some? ==> r.value in samples && IsPre(r.value, window)
  {
    if samples == [] then None
    else
      var n := |samples| - 1;
      if window.None? || samples[n].wall <= window.value.sleptAt then
        assert IsPre(samples[n], window);
        Some(samples[n])
      else
        assert samples == samples[..n] + [samples[n]];
        LastPre(samples[..n], window)
  }

  // The first sample after the sleep.
  function FirstPost(samples: seq<TraceSample>, window: Option<SleepWindow>): (r: Option<TraceSample>)
    ensures r.None? <==> forall s :: s in samples ==> !IsPost(s, window)
    ensures r.Some? ==> r.value in samples && IsPost(r.value, window)
  {
    if samples == [] then None
    else if window.Some? && samples[0].wall >= window.value.wokeAt then
      assert IsPost(samples[0], window);
      Some(samples[0])
    else
      assert samples == [samples[0]] + samples[1..];
      FirstPost(samples[1..], window)
  }

  lemma {:induction false} LastPreIsLast(samples: seq<TraceSample>, window: Option<SleepWindow>) returns (k: nat)
    requires LastPre(samples, window).Some?
    ensures IsLastPre(samples, window, k) && samples[k] == LastPre(samples, window).value
    decreases |samples|
  {
    var n := |samples| - 1;
    if IsPre(samples[n], window) {
      k := n;
    } else {
      k := LastPreIsLast(samples[..n], window);
    }
  }

  lemma {:induction false} FirstPostIsFirst(samples: seq<TraceSample>, window: Option<SleepWindow>) returns (k: nat)
    requires FirstPost(samples, window).Some?
    ensures IsFirstPost(samples, window, k) && samples[k] == FirstPost(samples, window).value
    decreases |samples|
  {
    if IsPost(samples[0], window) {
      k := 0;
    } else {
      k := FirstPostIsFirst(samples[1..], window);
      k := k + 1;
    }
  }

  // Math.round
  function Round(x: real): int {
    (x + 0.5).Floor
  }

  function MakeTraceClock(samples: seq<TraceSample>, window: Option<SleepWindow>): TraceClock {
    var drift := SleepDrift(window);
    var pre, post := LastPre(samples, window), FirstPost(samples, window);
    var preOffset :=
      if pre.Some? then Some(OffsetOf(pre.value))
      else if post.Some? then Some(OffsetOf(post.value) - drift)
      else None;
    var error :=
      if pre.Some? && post.Some? then Some(Round(OffsetOf(post.value) - (OffsetOf(pre.value) + drift))) else None;
    var base := if preOffset.Some? then preOffset.value else 0.0;
    TraceClock(preOffset, error, base, if window.None? then None else Some(window.value.sleptAt - base), drift)
  }

  // What the trace clock shows outside the sleep: it is off by `offset`, runs like the wall clock before
  // the sleep and after it, and across it advances by `monotonicGap`.
  function TraceAt(wall: real, window: Option<SleepWindow>, offset: real): real {
    if window.None? || wall <= window.value.sleptAt then wall - offset
    else TraceAfter(wall, window.value, offset)
  }

  function TraceAfter(wall: real, window: SleepWindow, offset: real): real {
    window.sleptAt - offset + window.monotonicGap + (wall - window.wokeAt)
  }

  // Every reading outside the sleep shows that clock.
  predicate Follows(samples: seq<TraceSample>, window: Option<SleepWindow>, offset: real) {
    forall s :: s in samples ==>
      && (IsPre(s, window) ==> s.trace == s.wall - offset)
      && (IsPost(s, window) ==> s.trace == TraceAfter(s.wall, window.value, offset))
  }

  // How much less the monotonic clock advanced than the wall clock. A negative lag, where it advanced
  // more, is one that the source takes for none.
  function Lag(window: Option<SleepWindow>): real {
    if window.None? then 0.0 else window.value.wallGap - window.value.monotonicGap
  }

  predicate HasPre(samples: seq<TraceSample>, window: Option<SleepWindow>) {
    exists s :: s in samples && IsPre(s, window)
  }

  predicate Usable(samples: seq<TraceSample>, window: Option<SleepWindow>) {
    exists s :: s in samples && (IsPre(s, window) || IsPost(s, window))
  }

  // From such readings the clock recovers the offset, unless it has only readings after a sleep with a
  // negative lag; and the error of the first reading after the sleep is exactly a negative lag.
  lemma OffsetRecovered(samples: seq<TraceSample>, window: Option<SleepWindow>, offset: real)
    requires Follows(samples, window, offset) && Usable(samples, window) && (window.Some? ==> IsWindow(window.value))
    ensures var clock := MakeTraceClock(samples, window);
      && clock.preOffset == Some(clock.base)
      && clock.base == (if HasPre(samples, window) || Lag(window) >= 0.0 then offset else offset + Lag(window))
      && (clock.postOffsetError.Some? ==>
            clock.postOffsetError.value == if Lag(window) >= 0.0 then 0 else Round(Lag(window)))
  {
    var pre, post := LastPre(samples, window), FirstPost(samples, window);
    if pre.Some? {
      assert pre.value in samples && IsPre(pre.value, window);
    }
    if post.Some? {
      assert post.value in samples && IsPost(post.value, window);
    }
  }

  // Without a usable reading there is no offset.
  lemma OffsetExists(samples: seq<TraceSample>, window: Option<SleepWindow>)
    ensures MakeTraceClock(samples, window).preOffset.Some? <==> Usable(samples, window)
  {
    var s :| Usable(samples, window) ==> s in samples && (IsPre(s, window) || IsPost(s, window));
  }

  // The clock never runs backwards, whatever the readings.
  lemma ToWallIncreases(samples: seq<TraceSample>, window: Option<SleepWindow>, a: real, b: real)
    requires a < b
    ensures var clock := MakeTraceClock(samples, window);
      clock.ToWall(a) < clock.ToWall(b) && clock.ToWall(b) - clock.ToWall(a) >= b - a
  {
  }

  // The clock gives every wall time outside the sleep back. At the moment of waking it does so exactly if
  // the trace clock did not stand still all the way through the sleep; after a negative lag, only on the
  // side of the sleep that the readings are from.
  lemma ToWallInverts(samples: seq<TraceSample>, window: Option<SleepWindow>, offset: real, wall: real)
    requires Follows(samples, window, offset) && Usable(samples, window) && (window.Some? ==> IsWindow(window.value))
    requires window.Some? ==> wall <= window.value.sleptAt || wall >= window.value.wokeAt
    ensures MakeTraceClock(samples, window).ToWall(TraceAt(wall, window, offset)) == wall
       <==> || window.None?
            || (Lag(window) >= 0.0 &&
                !(wall == window.value.wokeAt > window.value.sleptAt && window.value.monotonicGap == 0.0))
            || (Lag(window) < 0.0 && (HasPre(samples, window) <==> wall <= window.value.sleptAt))
  {
    OffsetRecovered(samples, window, offset);
  }
}
