/**
 * The daily summary: the peak consensus and the earliest hour reaching it,
 * tiered sun-protection advice for that peak, and the hours grouped into
 * "best", "moderate" and "avoid" exposure windows by a single left-to-right
 * run-length pass per category.
 */
module Summarizer {
  import opened Wrappers
  import opened Consensus

  /** A (time label, consensus) pair as the summary code handles it. */
  datatype Point = Point(time: string, uv: Option<real>)

  /** A half-open window: the first label of a run and the label one hour after its last. */
  datatype Interval = Interval(start: string, end: string)

  /** The summary of the response; windows are keyed "best", "moderate" and "avoid". */
  datatype Summary = Summary(
    uvMax: Option<real>,
    uvMaxTime: Option<string>,
    advice: seq<string>,
    windows: map<string, seq<Interval>>)

  /** The summary of a day without any consensus value. */
  const EmptySummary := Summary(None, None, [], map[])

  // ---------------------------------------------------------------------
  // Pairs and peak
  // ---------------------------------------------------------------------

  /** The buckets that have a consensus, as (time, consensus) pairs in order. */
  function Pairs(hourly: seq<BucketView>): (ps: seq<Point>)
    ensures forall i :: 0 <= i < |ps| ==> ps[i].uv.Some?
  {
    if hourly == [] then
      []
    else
      var last := hourly[|hourly| - 1];
      Pairs(hourly[..|hourly| - 1])
        + (if last.consensus.Some? then [Point(last.time, last.consensus)] else [])
  }

  /** The position of the first maximal pair, as a left-to-right maximum scan keeps it. */
  function PeakIndex(ps: seq<Point>): (k: nat)
    requires |ps| > 0
    requires forall i :: 0 <= i < |ps| ==> ps[i].uv.Some?
    ensures k < |ps|
    ensures forall j :: 0 <= j < |ps| ==> ps[j].uv.value <= ps[k].uv.value
    ensures forall j :: 0 <= j < k ==> ps[j].uv.value < ps[k].uv.value
  {
    if |ps| == 1 then
      0
    else
      var k := PeakIndex(ps[..|ps| - 1]);
      if ps[|ps| - 1].uv.value > ps[k].uv.value then |ps| - 1 else k
  }

  // ---------------------------------------------------------------------
  // Advice
  // ---------------------------------------------------------------------

  const LowAdvice := "Low: SPF optional; sunglasses if bright."
  const ModerateAdvice := "Moderate: SPF 30+, sunglasses, hat; seek shade around midday."
  const HighAdvice := "High: SPF 50, reapply every 2h; cover up; limit 11:00\U{2013}17:00."
  const VeryHighAdvice := "Very High: SPF 50+, reapply 2h; cover up; avoid 11:00\U{2013}17:00."
  const ExtremeAdvice := "Extreme: SPF 50+, minimize time outdoors; full cover; avoid 10:00\U{2013}18:00."
  const ReapplyReminder := "Reapply sunscreen every ~2 hours, and after swimming/sweating."

  /** The tier advice for a peak: the first matching range wins, anything unmatched is extreme. */
  function Headline(peak: real): string
  {
    if peak <= 2.0 then LowAdvice
    else if 3.0 <= peak <= 5.0 then ModerateAdvice
    else if 6.0 <= peak <= 7.0 then HighAdvice
    else if 8.0 <= peak <= 10.0 then VeryHighAdvice
    else ExtremeAdvice
  }

  // ---------------------------------------------------------------------
  // Windows
  // ---------------------------------------------------------------------

  predicate IsBest(v: real) { v < 3.0 }
  predicate IsModerate(v: real) { 3.0 <= v < 6.0 }
  predicate IsAvoid(v: real) { v >= 8.0 }

  /** Whether each point qualifies: it has a value and the value satisfies `pred`. */
  function Flags(points: seq<Point>, pred: real -> bool): (f: seq<bool>)
    ensures |f| == |points|
    ensures forall k :: 0 <= k < |points| ==> f[k] == (points[k].uv.Some? && pred(points[k].uv.value))
  {
    seq(|points|, k requires 0 <= k < |points| => points[k].uv.Some? && pred(points[k].uv.value))
  }

  /** A run of positions [start, end). */
  datatype Run = Run(start: nat, end: nat)

  predicate RunsWithin(rs: seq<Run>, n: nat)
  {
    forall k :: 0 <= k < |rs| ==> rs[k].start < rs[k].end <= n
  }

  /** The end of the run of qualifying positions that begins at `i`. */
  function RunEnd(f: seq<bool>, i: nat): (j: nat)
    requires i <= |f|
    ensures i <= j <= |f|
    ensures forall x :: i <= x < j ==> f[x]
    ensures j == |f| || !f[j]
    decreases |f| - i
  {
    if i == |f| || !f[i] then i else RunEnd(f, i + 1)
  }

  /** The maximal runs of qualifying positions from `i` on, in order. */
  function Runs(f: seq<bool>, i: nat): (rs: seq<Run>)
    requires i <= |f|
    ensures RunsWithin(rs, |f|)
    ensures forall k :: 0 <= k < |rs| ==> i <= rs[k].start
    decreases |f| - i
  {
    if i == |f| then
      []
    else if !f[i] then
      Runs(f, i + 1)
    else
      var j := RunEnd(f, i);
      [Run(i, j)] + Runs(f, j)
  }

  /** The window of a run: its first label, and the label one hour after its last. */
  function Window(points: seq<Point>, r: Run, succHour: string -> string): Interval
    requires r.start < r.end <= |points|
  {
    Interval(points[r.start].time, succHour(points[r.end - 1].time))
  }

  /** The windows of a list of runs, in the same order. */
  function Render(points: seq<Point>, rs: seq<Run>, succHour: string -> string): (ws: seq<Interval>)
    requires RunsWithin(rs, |points|)
    ensures |ws| == |rs|
    ensures forall k :: 0 <= k < |rs| ==> ws[k] == Window(points, rs[k], succHour)
  {
    seq(|rs|, k requires 0 <= k < |rs| => Window(points, rs[k], succHour))
  }

  /** The windows of the points qualifying under `pred`. */
  function Windows(points: seq<Point>, pred: real -> bool, succHour: string -> string): seq<Interval>
  {
    Render(points, Runs(Flags(points, pred), 0), succHour)
  }

  /** One step of the run decomposition, at a qualifying and at a non-qualifying position. */
  lemma RunsStep(f: seq<bool>, i: nat)
    requires i < |f|
    ensures f[i] ==> RunEnd(f, i) == RunEnd(f, i + 1)
    ensures f[i] ==> Runs(f, i) == [Run(i, RunEnd(f, i))] + Runs(f, RunEnd(f, i))
    ensures !f[i] ==> RunEnd(f, i) == i && Runs(f, i) == Runs(f, i + 1)
  {
  }

  /**
   * The scan has reached position `i`: the runs found so far are `closed`,
   * and `open` is the start of the run in progress, if any.
   */
  predicate Scanned(f: seq<bool>, i: nat, closed: seq<Run>, open: Option<nat>)
    requires i <= |f|
  {
    match open
    case None => Runs(f, 0) == closed + Runs(f, i)
    case Some(s) =>
      s < i && RunEnd(f, s) == RunEnd(f, i)
      && Runs(f, 0) == closed + [Run(s, RunEnd(f, s))] + Runs(f, RunEnd(f, s))
  }

  lemma ScanOpen(f: seq<bool>, i: nat, closed: seq<Run>)
    requires i < |f| && f[i] && Scanned(f, i, closed, None)
    ensures Scanned(f, i + 1, closed, Some(i))
  {
    RunsStep(f, i);
    assert closed + ([Run(i, RunEnd(f, i))] + Runs(f, RunEnd(f, i)))
        == closed + [Run(i, RunEnd(f, i))] + Runs(f, RunEnd(f, i));
  }

  lemma ScanExtend(f: seq<bool>, i: nat, closed: seq<Run>, s: nat)
    requires i < |f| && f[i] && Scanned(f, i, closed, Some(s))
    ensures Scanned(f, i + 1, closed, Some(s))
  {
    RunsStep(f, i);
  }

  lemma ScanClose(f: seq<bool>, i: nat, closed: seq<Run>, s: nat)
    requires i < |f| && !f[i] && Scanned(f, i, closed, Some(s))
    ensures Scanned(f, i + 1, closed + [Run(s, i)], None)
  {
    RunsStep(f, i);
  }

  lemma ScanSkip(f: seq<bool>, i: nat, closed: seq<Run>)
    requires i < |f| && !f[i] && Scanned(f, i, closed, None)
    ensures Scanned(f, i + 1, closed, None)
  {
    RunsStep(f, i);
  }

  lemma ScanFinish(f: seq<bool>, closed: seq<Run>, open: Option<nat>)
    requires Scanned(f, |f|, closed, open)
    ensures open.None? ==> closed == Runs(f, 0)
    ensures open.Some? ==> closed + [Run(open.value, |f|)] == Runs(f, 0)
  {
    assert Runs(f, |f|) == [];
  }

  /**
   * The state of the compression after `i` points: the windows emitted so far
   * are those of the runs `closed`; `runStart` is the first label of the run
   * in progress, starting at `open`, and `prevT` is the last label seen in it.
   */
  predicate Compressing(points: seq<Point>, pred: real -> bool, succHour: string -> string, i: nat,
                        runStart: Option<string>, prevT: string, intervals: seq<Interval>,
                        closed: seq<Run>, open: Option<nat>)
  {
    && i <= |points|
    && RunsWithin(closed, |points|)
    && |intervals| == |closed|
    && (forall k :: 0 <= k < |closed| ==> intervals[k] == Window(points, closed[k], succHour))
    && Scanned(Flags(points, pred), i, closed, open)
    && (runStart.Some? <==> open.Some?)
    && (open.Some? ==>
          open.value < i && runStart == Some(points[open.value].time) && prevT == points[i - 1].time)
  }

  /** Feed point `i` to the compression. */
  method CompressStep(points: seq<Point>, pred: real -> bool, succHour: string -> string, i: nat,
                      runStart: Option<string>, prevT: string, intervals: seq<Interval>,
                      ghost closed: seq<Run>, ghost open: Option<nat>)
    returns (runStart': Option<string>, prevT': string, intervals': seq<Interval>,
             ghost closed': seq<Run>, ghost open': Option<nat>)
    requires i < |points|
    requires Compressing(points, pred, succHour, i, runStart, prevT, intervals, closed, open)
    ensures Compressing(points, pred, succHour, i + 1, runStart', prevT', intervals', closed', open')
  {
    ghost var f := Flags(points, pred);
    runStart', prevT', intervals', closed', open' := runStart, prevT, intervals, closed, open;
    var ts, v := points[i].time, points[i].uv;
    var ok := v.Some? && pred(v.value);
    assert ok == f[i];
    if ok && runStart.None? {
      ScanOpen(f, i, closed);
      runStart' := Some(ts);
      prevT' := ts;
      open' := Some(i);
    } else if ok && runStart.Some? {
      ScanExtend(f, i, closed, open.value);
      prevT' := ts;
    } else if !ok && runStart.Some? {
      ScanClose(f, i, closed, open.value);
      assert Interval(runStart.value, succHour(prevT)) == Window(points, Run(open.value, i), succHour);
      intervals' := intervals + [Interval(runStart.value, succHour(prevT))];
      closed' := closed + [Run(open.value, i)];
      runStart' := None;
      open' := None;
    } else {
      ScanSkip(f, i, closed);
    }
  }

  /** Once every point is fed, closing the run in progress (if any) yields the windows. */
  lemma CompressFinish(points: seq<Point>, pred: real -> bool, succHour: string -> string,
                       runStart: Option<string>, prevT: string, intervals: seq<Interval>,
                       closed: seq<Run>, open: Option<nat>)
    requires Compressing(points, pred, succHour, |points|, runStart, prevT, intervals, closed, open)
    ensures runStart.None? ==> intervals == Windows(points, pred, succHour)
    ensures runStart.Some? ==>
      intervals + [Interval(runStart.value, succHour(prevT))] == Windows(points, pred, succHour)
  {
    var f := Flags(points, pred);
    ScanFinish(f, closed, open);
    if runStart.Some? {
      var r := Run(open.value, |points|);
      assert Interval(runStart.value, succHour(prevT)) == Window(points, r, succHour);
      assert closed + [r] == Runs(f, 0);
      assert intervals + [Interval(runStart.value, succHour(prevT))] == Render(points, closed + [r], succHour);
    } else {
      assert closed == Runs(f, 0);
      assert intervals == Render(points, closed, succHour);
    }
  }

  /**
   * Compress consecutive qualifying points into windows, in one pass that
   * remembers the label opening the current run and the last qualifying label.
   */
  method CompressWindows(points: seq<Point>, pred: real -> bool, succHour: string -> string)
    returns (intervals: seq<Interval>)
    ensures intervals == Windows(points, pred, succHour)
  {
    ghost var closed: seq<Run> := [];
    ghost var open: Option<nat> := None;
    intervals := [];
    var runStart: Option<string> := None;
    var prevT := "";
    var i := 0;
    while i < |points|
      invariant Compressing(points, pred, succHour, i, runStart, prevT, intervals, closed, open)
      decreases |points| - i
    {
      runStart, prevT, intervals, closed, open :=
        CompressStep(points, pred, succHour, i, runStart, prevT, intervals, closed, open);
      i := i + 1;
    }
    CompressFinish(points, pred, succHour, runStart, prevT, intervals, closed, open);
    if runStart.Some? {
      intervals := intervals + [Interval(runStart.value, succHour(prevT))];
    }
  }

  // ---------------------------------------------------------------------
  // What the runs are
  // ---------------------------------------------------------------------

  /** Position `x` lies inside one of the runs. */
  predicate Covered(rs: seq<Run>, x: nat)
  {
    exists k :: 0 <= k < |rs| && rs[k].start <= x < rs[k].end
  }

  /** Every position inside a run qualifies. */
  predicate AllQualify(f: seq<bool>, rs: seq<Run>)
    requires RunsWithin(rs, |f|)
  {
    forall k, x :: 0 <= k < |rs| && rs[k].start <= x < rs[k].end ==> f[x]
  }

  /** No run can be extended to the right, nor to the left past `i`. */
  predicate Unextendable(f: seq<bool>, rs: seq<Run>, i: nat)
    requires RunsWithin(rs, |f|)
    requires forall k :: 0 <= k < |rs| ==> i <= rs[k].start
  {
    && (forall k :: 0 <= k < |rs| ==> rs[k].end == |f| || !f[rs[k].end])
    && (forall k :: 0 <= k < |rs| ==> rs[k].start == i || !f[rs[k].start - 1])
  }

  /** Runs come in increasing order with a gap between consecutive ones. */
  predicate Separated(rs: seq<Run>)
  {
    forall k :: 0 <= k < |rs| - 1 ==> rs[k].end < rs[k + 1].start
  }

  /** Every position inside a run qualifies. */
  lemma {:induction false} RunsQualify(f: seq<bool>, i: nat)
    requires i <= |f|
    ensures AllQualify(f, Runs(f, i))
    decreases |f| - i
  {
    if i == |f| {
    } else if !f[i] {
      RunsQualify(f, i + 1);
      assert Runs(f, i) == Runs(f, i + 1);
    } else {
      var j := RunEnd(f, i);
      var rest := Runs(f, j);
      var rs := Runs(f, i);
      RunsQualify(f, j);
      assert rs == [Run(i, j)] + rest;
      forall k, x | 0 <= k < |rs| && rs[k].start <= x < rs[k].end
        ensures f[x]
      {
        if k > 0 {
          assert rs[k] == rest[k - 1];
        }
      }
    }
  }

  /** No run can be extended by a qualifying neighbour on either side. */
  lemma {:induction false} RunsUnextendable(f: seq<bool>, i: nat)
    requires i <= |f|
    ensures Unextendable(f, Runs(f, i), i)
    decreases |f| - i
  {
    if i == |f| {
    } else if !f[i] {
      RunsUnextendable(f, i + 1);
      assert Runs(f, i) == Runs(f, i + 1);
    } else {
      var j := RunEnd(f, i);
      var rest := Runs(f, j);
      var rs := Runs(f, i);
      RunsUnextendable(f, j);
      assert rs == [Run(i, j)] + rest;
      forall k | 0 <= k < |rs|
        ensures rs[k].end == |f| || !f[rs[k].end]
        ensures rs[k].start == i || !f[rs[k].start - 1]
      {
        if k > 0 {
          assert rs[k] == rest[k - 1];
        }
      }
    }
  }

  /** Runs come in increasing order, with a non-qualifying position between any two. */
  lemma {:induction false} RunsSeparated(f: seq<bool>, i: nat)
    requires i <= |f|
    ensures Separated(Runs(f, i))
    decreases |f| - i
  {
    if i == |f| {
    } else if !f[i] {
      RunsSeparated(f, i + 1);
      assert Runs(f, i) == Runs(f, i + 1);
    } else {
      var j := RunEnd(f, i);
      var rest := Runs(f, j);
      var rs := Runs(f, i);
      RunsSeparated(f, j);
      assert rs == [Run(i, j)] + rest;
      if |rest| > 0 {
        RunsQualify(f, j);
        assert rest[0].start < rest[0].end;
        assert f[rest[0].start];
        assert j < rest[0].start;
      }
      forall k | 0 <= k < |rs| - 1
        ensures rs[k].end < rs[k + 1].start
      {
        if k > 0 {
          assert rs[k] == rest[k - 1] && rs[k + 1] == rest[k];
        }
      }
    }
  }

  /** Every qualifying position from `i` on lies inside some run. */
  lemma {:induction false} RunsComplete(f: seq<bool>, i: nat)
    requires i <= |f|
    ensures forall x :: i <= x < |f| && f[x] ==> Covered(Runs(f, i), x)
    decreases |f| - i
  {
    if i == |f| {
    } else if !f[i] {
      RunsComplete(f, i + 1);
    } else {
      var j := RunEnd(f, i);
      var rs := Runs(f, i);
      RunsComplete(f, j);
      assert rs == [Run(i, j)] + Runs(f, j);
      forall x | i <= x < |f| && f[x]
        ensures Covered(rs, x)
      {
        if x < j {
          assert rs[0].start <= x < rs[0].end;
        } else {
          var k :| 0 <= k < |Runs(f, j)| && Runs(f, j)[k].start <= x < Runs(f, j)[k].end;
          assert rs[k + 1] == Runs(f, j)[k];
        }
      }
    }
  }

  /** A position is inside a run exactly when it qualifies. */
  lemma RunsPartition(f: seq<bool>)
    ensures forall x :: 0 <= x < |f| ==> (Covered(Runs(f, 0), x) <==> f[x])
  {
    RunsQualify(f, 0);
    RunsComplete(f, 0);
  }

  /** The runs of the points qualifying under `pred`. */
  function RunsOf(points: seq<Point>, pred: real -> bool): (rs: seq<Run>)
    ensures RunsWithin(rs, |points|)
  {
    Runs(Flags(points, pred), 0)
  }

  /** A point is inside a window's run exactly when it has a value satisfying `pred`. */
  lemma WindowsCoverQualifying(points: seq<Point>, pred: real -> bool)
    ensures forall x :: 0 <= x < |points| ==>
      (Covered(RunsOf(points, pred), x) <==> points[x].uv.Some? && pred(points[x].uv.value))
  {
    RunsPartition(Flags(points, pred));
  }

  /** No windows exactly when no point qualifies. */
  lemma NoWindowsIffNothingQualifies(points: seq<Point>, pred: real -> bool, succHour: string -> string)
    ensures Windows(points, pred, succHour) == []
        <==> forall x :: 0 <= x < |points| ==> !(points[x].uv.Some? && pred(points[x].uv.value))
  {
    var rs := RunsOf(points, pred);
    WindowsCoverQualifying(points, pred);
    if rs != [] {
      assert Covered(rs, rs[0].start);
    }
  }

  /**
   * The three categories never share an hour, and an hour whose value lies
   * in [6, 8) belongs to no window at all.
   */
  lemma CategoriesDisjoint(points: seq<Point>)
    ensures forall x :: 0 <= x < |points| ==>
      !(Covered(RunsOf(points, IsBest), x) && Covered(RunsOf(points, IsModerate), x))
    ensures forall x :: 0 <= x < |points| ==>
      !(Covered(RunsOf(points, IsAvoid), x) && Covered(RunsOf(points, IsBest), x))
    ensures forall x :: 0 <= x < |points| ==>
      !(Covered(RunsOf(points, IsAvoid), x) && Covered(RunsOf(points, IsModerate), x))
    ensures forall x :: 0 <= x < |points| && points[x].uv.Some? && 6.0 <= points[x].uv.value < 8.0 ==>
      !Covered(RunsOf(points, IsBest), x) && !Covered(RunsOf(points, IsModerate), x)
      && !Covered(RunsOf(points, IsAvoid), x)
  {
    WindowsCoverQualifying(points, IsBest);
    WindowsCoverQualifying(points, IsModerate);
    WindowsCoverQualifying(points, IsAvoid);
  }

  // ---------------------------------------------------------------------
  // The summary
  // ---------------------------------------------------------------------

  /** The summary of the hourly buckets. */
  function SummaryOf(hourly: seq<BucketView>, succHour: string -> string): Summary
  {
    var ps := Pairs(hourly);
    if |ps| == 0 then
      EmptySummary
    else
      var k := PeakIndex(ps);
      var peak := ps[k].uv.value;
      Summary(Some(peak), Some(ps[k].time), [Headline(peak), ReapplyReminder],
        map["best" := Windows(ps, IsBest, succHour),
            "moderate" := Windows(ps, IsModerate, succHour),
            "avoid" := Windows(ps, IsAvoid, succHour)])
  }

  /** Fill in the summary step by step: peak, advice, then the three windows. */
  method Summarise(hourly: seq<BucketView>, succHour: string -> string) returns (summary: Summary)
    ensures summary == SummaryOf(hourly, succHour)
  {
    summary := EmptySummary;
    if |hourly| > 0 {
      var pairs := Pairs(hourly);
      if |pairs| > 0 {
        var k := PeakIndex(pairs);
        var uvMax := pairs[k].uv.value;
        summary := summary.(uvMax := Some(uvMax), uvMaxTime := Some(pairs[k].time));
        var advice: seq<string> := [];
        if uvMax <= 2.0 {
          advice := advice + [LowAdvice];
        } else if 3.0 <= uvMax <= 5.0 {
          advice := advice + [ModerateAdvice];
        } else if 6.0 <= uvMax <= 7.0 {
          advice := advice + [HighAdvice];
        } else if 8.0 <= uvMax <= 10.0 {
          advice := advice + [VeryHighAdvice];
        } else {
          advice := advice + [ExtremeAdvice];
        }
        advice := advice + [ReapplyReminder];
        summary := summary.(advice := advice);
        var best := CompressWindows(pairs, IsBest, succHour);
        var moderate := CompressWindows(pairs, IsModerate, succHour);
        var avoid := CompressWindows(pairs, IsAvoid, succHour);
        summary := summary.(windows := map["best" := best, "moderate" := moderate, "avoid" := avoid]);
      }
    }
  }

  // ---------------------------------------------------------------------
  // Properties of the summary
  // ---------------------------------------------------------------------

  /** The pairs are the buckets with a consensus, at strictly increasing positions. */
  lemma {:induction false} PairsPositions(hourly: seq<BucketView>) returns (pos: seq<nat>)
    ensures |pos| == |Pairs(hourly)|
    ensures forall i :: 0 <= i < |pos| ==> pos[i] < |hourly|
    ensures forall i, j :: 0 <= i < j < |pos| ==> pos[i] < pos[j]
    ensures forall i :: 0 <= i < |pos| ==>
      Pairs(hourly)[i] == Point(hourly[pos[i]].time, hourly[pos[i]].consensus)
    ensures forall x :: 0 <= x < |hourly| && hourly[x].consensus.Some? ==> x in pos
  {
    if hourly == [] {
      pos := [];
    } else {
      var n := |hourly| - 1;
      var init := hourly[..n];
      var p := PairsPositions(init);
      assert forall x :: 0 <= x < n ==> init[x] == hourly[x];
      if hourly[n].consensus.Some? {
        pos := p + [n];
        assert Pairs(hourly) == Pairs(init) + [Point(hourly[n].time, hourly[n].consensus)];
      } else {
        pos := p;
        assert Pairs(hourly) == Pairs(init);
      }
    }
  }

  /** In a strictly increasing sequence, a smaller entry comes at a smaller position. */
  lemma IncreasingIndex(pos: seq<nat>, i: nat, k: nat)
    requires forall a, b :: 0 <= a < b < |pos| ==> pos[a] < pos[b]
    requires i < |pos| && k < |pos| && pos[i] < pos[k]
    ensures i < k
  {
  }

  /** Without any consensus value the summary keeps its defaults. */
  lemma NoConsensusEmptySummary(hourly: seq<BucketView>, succHour: string -> string)
    ensures (forall x :: 0 <= x < |hourly| ==> hourly[x].consensus.None?)
        <==> SummaryOf(hourly, succHour) == EmptySummary
  {
    var pos := PairsPositions(hourly);
    if exists x :: 0 <= x < |hourly| && hourly[x].consensus.Some? {
      var x :| 0 <= x < |hourly| && hourly[x].consensus.Some?;
      assert x in pos;
      assert SummaryOf(hourly, succHour).uvMax.Some?;
    }
  }

  /**
   * With some consensus value, the peak is the largest consensus of the day,
   * and its time is the earliest hour whose consensus equals it.
   */
  lemma PeakIsEarliestMaximum(hourly: seq<BucketView>, succHour: string -> string)
    requires exists x :: 0 <= x < |hourly| && hourly[x].consensus.Some?
    ensures var s := SummaryOf(hourly, succHour);
      && s.uvMax.Some? && s.uvMaxTime.Some?
      && (forall x :: 0 <= x < |hourly| && hourly[x].consensus.Some? ==>
            hourly[x].consensus.value <= s.uvMax.value)
      && exists x :: 0 <= x < |hourly| && hourly[x].time == s.uvMaxTime.value
           && hourly[x].consensus == s.uvMax
           && forall y :: 0 <= y < x && hourly[y].consensus.Some? ==>
                hourly[y].consensus.value < s.uvMax.value
  {
    var pos := PairsPositions(hourly);
    var ps := Pairs(hourly);
    var x0 :| 0 <= x0 < |hourly| && hourly[x0].consensus.Some?;
    assert x0 in pos;
    var k := PeakIndex(ps);
    var s := SummaryOf(hourly, succHour);
    assert s.uvMax == ps[k].uv;
    forall x | 0 <= x < |hourly| && hourly[x].consensus.Some?
      ensures hourly[x].consensus.value <= s.uvMax.value
    {
      assert x in pos;
      var i :| 0 <= i < |pos| && pos[i] == x;
      assert ps[i].uv.value <= ps[k].uv.value;
    }
    var m := pos[k];
    forall y | 0 <= y < m && hourly[y].consensus.Some?
      ensures hourly[y].consensus.value < s.uvMax.value
    {
      assert y in pos;
      var i :| 0 <= i < |pos| && pos[i] == y;
      IncreasingIndex(pos, i, k);
      assert ps[i].uv.value < ps[k].uv.value;
    }
  }

  /** With some consensus, the advice is the tier line followed by the reapply reminder. */
  lemma AdviceShape(hourly: seq<BucketView>, succHour: string -> string)
    requires exists x :: 0 <= x < |hourly| && hourly[x].consensus.Some?
    ensures var s := SummaryOf(hourly, succHour);
      s.uvMax.Some? && s.advice == [Headline(s.uvMax.value), ReapplyReminder]
      && s.windows.Keys == {"best", "moderate", "avoid"}
  {
    PeakIsEarliestMaximum(hourly, succHour);
  }

  /** Which tier each peak falls into; the gaps between the tiers fall through to extreme. */
  lemma HeadlineTiers(p: real)
    ensures Headline(p) == LowAdvice <==> p <= 2.0
    ensures Headline(p) == ModerateAdvice <==> 3.0 <= p <= 5.0
    ensures Headline(p) == HighAdvice <==> 6.0 <= p <= 7.0
    ensures Headline(p) == VeryHighAdvice <==> 8.0 <= p <= 10.0
    ensures Headline(p) == ExtremeAdvice
        <==> (2.0 < p < 3.0) || (5.0 < p < 6.0) || (7.0 < p < 8.0) || p > 10.0
  {
    assert LowAdvice != ModerateAdvice && LowAdvice != HighAdvice && LowAdvice != VeryHighAdvice;
    assert LowAdvice != ExtremeAdvice && ModerateAdvice != HighAdvice;
    assert ModerateAdvice != VeryHighAdvice && ModerateAdvice != ExtremeAdvice;
    assert HighAdvice != VeryHighAdvice && HighAdvice != ExtremeAdvice && VeryHighAdvice != ExtremeAdvice;
  }

  // ---------------------------------------------------------------------
  // Worked examples
  // ---------------------------------------------------------------------

  /** A bucket carrying only a time and a consensus. */
  function Hour(t: string, c: Option<real>): BucketView
  {
    BucketView(t, map[], c, None, None, None, [])
  }

  /**
   * An hour without consensus is dropped before windowing, so the best hours
   * on either side of it form one window.
   */
  lemma MissingHourKeepsRun(succHour: string -> string)
    ensures SummaryOf([Hour("08:00", Some(2.0)), Hour("09:00", None), Hour("10:00", Some(1.0))], succHour)
      .windows["best"] == [Interval("08:00", succHour("10:00"))]
  {
    var hourly := [Hour("08:00", Some(2.0)), Hour("09:00", None), Hour("10:00", Some(1.0))];
    assert hourly[..2][..1][..0] == [];
    assert Pairs(hourly[..2][..1]) == [Point("08:00", Some(2.0))];
    assert Pairs(hourly[..2]) == [Point("08:00", Some(2.0))];
    var ps := [Point("08:00", Some(2.0)), Point("10:00", Some(1.0))];
    assert Pairs(hourly) == ps;
    var f := Flags(ps, IsBest);
    assert f == [true, true];
    assert RunEnd(f, 0) == 2 by {
      assert RunEnd(f, 2) == 2;
      assert RunEnd(f, 1) == RunEnd(f, 2);
    }
    assert Runs(f, 0) == [Run(0, 2)] + Runs(f, 2);
  }

  /** The day used by the examples below: UV 2, 2, 4, 7, 9, 9, 4, 2 from 08:00 to 15:00. */
  function ExampleDay(): seq<Point>
  {
    [Point("08:00", Some(2.0)), Point("09:00", Some(2.0)), Point("10:00", Some(4.0)),
     Point("11:00", Some(7.0)), Point("12:00", Some(9.0)), Point("13:00", Some(9.0)),
     Point("14:00", Some(4.0)), Point("15:00", Some(2.0))]
  }

  /** Best exposure: the two early hours and the last one. */
  lemma ExampleBest(succHour: string -> string)
    ensures Windows(ExampleDay(), IsBest, succHour)
         == [Interval("08:00", succHour("09:00")), Interval("15:00", succHour("15:00"))]
  {
    var f := Flags(ExampleDay(), IsBest);
    assert f == [true, true, false, false, false, false, false, true];
    assert RunEnd(f, 0) == 2 by {
      assert RunEnd(f, 2) == 2;
      assert RunEnd(f, 1) == RunEnd(f, 2);
    }
    assert RunEnd(f, 7) == 8 by {
      assert RunEnd(f, 8) == 8;
    }
    assert Runs(f, 7) == [Run(7, 8)] by {
      assert Runs(f, 8) == [];
    }
    assert Runs(f, 2) == Runs(f, 7) by {
      assert Runs(f, 2) == Runs(f, 3) == Runs(f, 4) == Runs(f, 5) == Runs(f, 6) == Runs(f, 7);
    }
    assert Runs(f, 0) == [Run(0, 2), Run(7, 8)];
  }

  /** Moderate exposure: the two hours at UV 4. */
  lemma ExampleModerate(succHour: string -> string)
    ensures Windows(ExampleDay(), IsModerate, succHour)
         == [Interval("10:00", succHour("10:00")), Interval("14:00", succHour("14:00"))]
  {
    var f := Flags(ExampleDay(), IsModerate);
    assert f == [false, false, true, false, false, false, true, false];
    assert RunEnd(f, 2) == 3 by {
      assert RunEnd(f, 3) == 3;
    }
    assert RunEnd(f, 6) == 7 by {
      assert RunEnd(f, 7) == 7;
    }
    assert Runs(f, 6) == [Run(6, 7)] by {
      assert Runs(f, 7) == Runs(f, 8) == [];
    }
    assert Runs(f, 3) == Runs(f, 6) by {
      assert Runs(f, 3) == Runs(f, 4) == Runs(f, 5) == Runs(f, 6);
    }
    assert Runs(f, 0) == Runs(f, 2) == [Run(2, 3), Run(6, 7)] by {
      assert Runs(f, 0) == Runs(f, 1) == Runs(f, 2);
    }
  }

  /** Hours to avoid: the two hours at UV 9; the hour at UV 7 is in no window. */
  lemma ExampleAvoid(succHour: string -> string)
    ensures Windows(ExampleDay(), IsAvoid, succHour) == [Interval("12:00", succHour("13:00"))]
    ensures !Covered(RunsOf(ExampleDay(), IsBest), 3) && !Covered(RunsOf(ExampleDay(), IsModerate), 3)
      && !Covered(RunsOf(ExampleDay(), IsAvoid), 3)
  {
    var f := Flags(ExampleDay(), IsAvoid);
    assert f == [false, false, false, false, true, true, false, false];
    assert RunEnd(f, 4) == 6 by {
      assert RunEnd(f, 6) == 6;
      assert RunEnd(f, 5) == RunEnd(f, 6);
    }
    assert Runs(f, 4) == [Run(4, 6)] by {
      assert Runs(f, 6) == Runs(f, 7) == Runs(f, 8) == [];
    }
    assert Runs(f, 0) == Runs(f, 4) by {
      assert Runs(f, 0) == Runs(f, 1) == Runs(f, 2) == Runs(f, 3) == Runs(f, 4);
    }
    CategoriesDisjoint(ExampleDay());
    assert ExampleDay()[3].uv == Some(7.0);
  }

  /** The peak of the example day is the first of the two hours at UV 9. */
  lemma ExamplePeak()
    ensures PeakIndex(ExampleDay()) == 4
    ensures Headline(ExampleDay()[4].uv.value) == VeryHighAdvice
  {
    var d := ExampleDay();
    assert d[4].uv.value == 9.0;
  }
}
