/**
 * The per-hour consensus engine. For each row of the aligned timeline it
 * takes the values that are present, computes their median and median
 * absolute deviation (MAD), and fills the hour's bucket in place with the
 * rounded consensus, an uncertainty band clamped to [0, 15], a confidence
 * score that falls linearly with the MAD, and the providers whose value
 * lies strictly more than 1.5 MAD from the median.
 */
module Consensus {
  import opened Wrappers
  import opened UvProviders
  import opened Stats
  import opened Timeline

  // ---------------------------------------------------------------------
  // Specification
  // ---------------------------------------------------------------------

  /** The values present in a row, in column order (the row with missing cells dropped). */
  function Present(row: seq<Cell>): (vs: seq<real>)
  {
    if row == [] then
      []
    else
      var last := row[|row| - 1];
      Present(row[..|row| - 1]) + (if last.value.Some? then [last.value.value] else [])
  }

  /** Rounding to two decimals, halves rounded up. */
  function Round2(x: real): real
  {
    ((x * 100.0 + 0.5).Floor as real) / 100.0
  }

  /** The confidence score for a given MAD: 1 - mad/3, clamped to [0, 1]. */
  function Confidence(mad: real): real
  {
    Max(0.0, Min(1.0, 1.0 - mad / 3.0))
  }

  /** Whether a cell is flagged: present and strictly further than `threshold` from `median`. */
  predicate Deviates(c: Cell, median: real, threshold: real)
  {
    c.value.Some? && Abs(c.value.value - median) > threshold
  }

  /** The names of the deviating cells, in column order. */
  function Deviating(row: seq<Cell>, median: real, threshold: real): seq<string>
  {
    if row == [] then
      []
    else
      var last := row[|row| - 1];
      Deviating(row[..|row| - 1], median, threshold)
        + (if Deviates(last, median, threshold) then [last.name] else [])
  }

  /** The outliers of a row: none when the MAD is zero, otherwise those beyond 1.5 MAD. */
  function Outliers(row: seq<Cell>, median: real, mad: real): seq<string>
  {
    if mad > 0.0 then Deviating(row, median, 1.5 * mad) else []
  }

  /** The derived fields of an hour with at least one present value. */
  datatype Estimate = Estimate(
    consensus: real,
    low: real,
    high: real,
    confidence: real,
    outliers: seq<string>)

  /** The derived fields for a row whose present values have this median and MAD. */
  function EstimateFrom(row: seq<Cell>, median: real, mad: real): Estimate
  {
    Estimate(
      Round2(median),
      Round2(Max(UvFloor, median - mad)),
      Round2(Min(UvCeiling, median + mad)),
      Round2(Confidence(mad)),
      Outliers(row, median, mad))
  }

  /** The reconciled estimate of a row; none when no provider has a value there. */
  function Reconcile(row: seq<Cell>): Option<Estimate>
  {
    var vs := Present(row);
    if |vs| == 0 then None else Some(EstimateFrom(row, Median(vs), Mad(vs)))
  }

  /** The providers map of a bucket: column name to value (a later column of the same name wins). */
  function ProvidersMap(row: seq<Cell>): (m: map<string, Option<real>>)
    ensures forall x :: x in m <==> exists k :: 0 <= k < |row| && row[k].name == x
  {
    if row == [] then
      map[]
    else
      var init := row[..|row| - 1];
      assert forall k :: 0 <= k < |init| ==> init[k] == row[k];
      ProvidersMap(init)[row[|row| - 1].name := row[|row| - 1].value]
  }

  /** A column whose name no later column repeats (in particular, a uniquely named one) records its cell's value. */
  lemma {:induction false} ProvidersMapAt(row: seq<Cell>, k: int)
    requires 0 <= k < |row|
    requires forall j :: k < j < |row| ==> row[j].name != row[k].name
    ensures row[k].name in ProvidersMap(row)
    ensures ProvidersMap(row)[row[k].name] == row[k].value
  {
    var n := |row| - 1;
    if k < n {
      var init := row[..n];
      assert init[k] == row[k];
      assert forall j :: k < j < n ==> init[j] == row[j];
      ProvidersMapAt(init, k);
    }
  }

  /** An hour bucket as the response reports it. */
  datatype BucketView = BucketView(
    time: string,
    providers: map<string, Option<real>>,
    consensus: Option<real>,
    low: Option<real>,
    high: Option<real>,
    confidence: Option<real>,
    outliers: seq<string>)

  /** The bucket the consensus engine produces for label `t` and its row. */
  function BucketOf(t: string, row: seq<Cell>): BucketView
  {
    match Reconcile(row)
    case None => BucketView(t, ProvidersMap(row), None, None, None, None, [])
    case Some(e) =>
      BucketView(t, ProvidersMap(row), Some(e.consensus), Some(e.low), Some(e.high),
                 Some(e.confidence), e.outliers)
  }

  /** The bucket of a row whose estimate is `e` carries `e`'s fields. */
  lemma BucketOfEstimate(t: string, row: seq<Cell>, e: Estimate)
    requires Reconcile(row) == Some(e)
    ensures BucketOf(t, row) == BucketView(t, ProvidersMap(row), Some(e.consensus), Some(e.low),
      Some(e.high), Some(e.confidence), e.outliers)
  {
  }

  /** The hourly series of the response for a list of columns: one bucket per timeline label. */
  function HourlyOf(frames: seq<Frame>): (hs: seq<BucketView>)
  {
    var ts := TimelineOf(frames);
    seq(|ts|, i requires 0 <= i < |ts| => BucketOf(ts[i], RowAt(frames, ts[i])))
  }

  // ---------------------------------------------------------------------
  // Implementation: buckets filled in place
  // ---------------------------------------------------------------------

  /** Flag the outliers of a row, scanning its cells in column order. */
  method FlagOutliers(row: seq<Cell>, median: real, mad: real) returns (outliers: seq<string>)
    ensures outliers == Outliers(row, median, mad)
  {
    outliers := [];
    if mad > 0.0 {
      var i := 0;
      while i < |row|
        invariant 0 <= i <= |row|
        invariant outliers == Deviating(row[..i], median, 1.5 * mad)
      {
        assert row[..i + 1][..i] == row[..i];
        var c := row[i];
        if c.value.Some? && Abs(c.value.value - median) > 1.5 * mad {
          outliers := outliers + [c.name];
        }
        i := i + 1;
      }
      assert row[..i] == row;
    }
  }

  /**
   * The consensus of one row with at least one present value: median, MAD,
   * band, confidence and outliers, each rounded as the response reports it.
   */
  method ReconcileRow(row: seq<Cell>) returns (e: Estimate)
    requires |Present(row)| > 0
    ensures Reconcile(row) == Some(e)
  {
    var vals := Present(row);
    var median := Median(vals);
    var mad := Median(Deviations(vals, median));
    var lo := Max(UvFloor, median - mad);
    var hi := Min(UvCeiling, median + mad);
    var conf := Confidence(mad);
    var flagged := FlagOutliers(row, median, mad);
    e := Estimate(Round2(median), Round2(lo), Round2(hi), Round2(conf), flagged);
  }

  /** One hour of the aligned timeline, enriched in place by the consensus engine. */
  class HourBucket {
    var time: string
    var providers: map<string, Option<real>>
    var consensus: Option<real>
    var low: Option<real>
    var high: Option<real>
    var confidence: Option<real>
    var outliers: seq<string>

    /** A fresh bucket: all derived fields absent, no outliers. */
    constructor (time: string, providers: map<string, Option<real>>)
      ensures View() == BucketView(time, providers, None, None, None, None, [])
    {
      this.time := time;
      this.providers := providers;
      consensus, low, high, confidence := None, None, None, None;
      outliers := [];
    }

    /** Set the derived fields to those of an estimate. */
    method Record(e: Estimate)
      modifies this
      ensures View() == old(View()).(consensus := Some(e.consensus), low := Some(e.low),
        high := Some(e.high), confidence := Some(e.confidence), outliers := e.outliers)
    {
      consensus := Some(e.consensus);
      low := Some(e.low);
      high := Some(e.high);
      confidence := Some(e.confidence);
      outliers := e.outliers;
    }

    /** The bucket's fields as a value. */
    function View(): BucketView
      reads this
    {
      BucketView(time, providers, consensus, low, high, confidence, outliers)
    }
  }

  /** The buckets' current fields, in order. */
  function Dump(hs: seq<HourBucket>): (vs: seq<BucketView>)
    reads set i | 0 <= i < |hs| :: hs[i]
    ensures |vs| == |hs|
    ensures forall i :: 0 <= i < |hs| ==> vs[i] == hs[i].View()
  {
    seq(|hs|, i reads set i | 0 <= i < |hs| :: hs[i] requires 0 <= i < |hs| => hs[i].View())
  }

  /** A fresh bucket for label `ts`, enriched when its row has a present value. */
  method NewBucket(ts: string, row: seq<Cell>) returns (pb: HourBucket)
    ensures fresh(pb)
    ensures pb.View() == BucketOf(ts, row)
  {
    pb := new HourBucket(ts, ProvidersMap(row));
    if |Present(row)| > 0 {
      var e := ReconcileRow(row);
      pb.Record(e);
      BucketOfEstimate(ts, row, e);
    } else {
      assert Reconcile(row) == None;
    }
  }

  /** The buckets for the labels `times`, in order; element `j` is `BucketOf` label `j` (`BucketsAt`). */
  function Buckets(frames: seq<Frame>, times: seq<string>): (bs: seq<BucketView>)
    ensures |bs| == |times|
  {
    if times == [] then []
    else [BucketOf(times[0], RowAt(frames, times[0]))] + Buckets(frames, times[1..])
  }

  lemma {:induction false} BucketsAt(frames: seq<Frame>, times: seq<string>, j: int)
    requires 0 <= j < |times|
    ensures Buckets(frames, times)[j] == BucketOf(times[j], RowAt(frames, times[j]))
  {
    if j > 0 {
      BucketsAt(frames, times[1..], j - 1);
    }
  }

  /** The fresh bucket for label `i` of `times`. */
  method NewBucketAt(frames: seq<Frame>, times: seq<string>, i: int) returns (pb: HourBucket)
    requires 0 <= i < |times|
    ensures fresh(pb)
    ensures pb.View() == Buckets(frames, times)[i]
  {
    pb := NewBucket(times[i], RowAt(frames, times[i]));
    BucketsAt(frames, times, i);
  }

  /** One fresh bucket per label of `times`, in order, each filled from its row. */
  method FillBuckets(frames: seq<Frame>, times: seq<string>) returns (hourly: seq<HourBucket>)
    ensures Dump(hourly) == Buckets(frames, times)
  {
    ghost var bs := Buckets(frames, times);
    hourly := [];
    var i := 0;
    while i < |times|
      invariant 0 <= i <= |times|
      invariant |hourly| == i
      invariant Dump(hourly) == bs[..i]
    {
      var pb := NewBucketAt(frames, times, i);
      assert bs[..i + 1] == bs[..i] + [pb.View()];
      hourly := hourly + [pb];
      i := i + 1;
    }
    assert bs[..i] == bs;
  }

  /** The hourly series is the list of buckets of the timeline's labels. */
  lemma HourlyIsBuckets(frames: seq<Frame>)
    ensures HourlyOf(frames) == Buckets(frames, TimelineOf(frames))
  {
    var ts := TimelineOf(frames);
    forall j | 0 <= j < |ts|
      ensures HourlyOf(frames)[j] == Buckets(frames, ts)[j]
    {
      BucketsAt(frames, ts, j);
    }
  }

  /**
   * The hourly aggregation: one fresh bucket per timeline label, enriched
   * when its row has a present value, appended in timeline order.
   */
  method Aggregate(frames: seq<Frame>) returns (hourly: seq<HourBucket>, times: seq<string>)
    ensures times == TimelineOf(frames)
    ensures Dump(hourly) == HourlyOf(frames)
  {
    hourly, times := [], [];
    if frames != [] {
      times := TimelineOf(frames);
      hourly := FillBuckets(frames, times);
    }
    HourlyIsBuckets(frames);
  }

  // ---------------------------------------------------------------------
  // Properties of the consensus
  // ---------------------------------------------------------------------

  /** Every value of a row lies in the UV range. */
  predicate InRange(row: seq<Cell>)
  {
    forall k :: 0 <= k < |row| && row[k].value.Some? ==> UvFloor <= row[k].value.value <= UvCeiling
  }

  /** The present values are exactly the values of the cells that have one. */
  lemma {:induction false} PresentValues(row: seq<Cell>)
    ensures |Present(row)| == 0 <==> forall k :: 0 <= k < |row| ==> row[k].value.None?
    ensures forall i :: 0 <= i < |Present(row)| ==>
      exists k :: 0 <= k < |row| && row[k].value == Some(Present(row)[i])
  {
    if row != [] {
      var init := row[..|row| - 1];
      PresentValues(init);
      assert forall k :: 0 <= k < |init| ==> init[k] == row[k];
    }
  }

  /** The present values of an in-range row are in range. */
  lemma PresentInRange(row: seq<Cell>)
    requires InRange(row)
    ensures forall i :: 0 <= i < |Present(row)| ==> UvFloor <= Present(row)[i] <= UvCeiling
  {
    PresentValues(row);
  }

  /**
   * A bucket whose row has no present value keeps all four derived fields
   * absent and no outliers; otherwise all four are set together.
   */
  lemma AllOrNothing(t: string, row: seq<Cell>)
    ensures BucketOf(t, row).consensus.None? <==> forall k :: 0 <= k < |row| ==> row[k].value.None?
    ensures BucketOf(t, row).consensus.Some? == BucketOf(t, row).low.Some?
      == BucketOf(t, row).high.Some? == BucketOf(t, row).confidence.Some?
    ensures BucketOf(t, row).consensus.None? ==> BucketOf(t, row).outliers == []
    ensures BucketOf(t, row).time == t && BucketOf(t, row).providers == ProvidersMap(row)
  {
    PresentValues(row);
  }

  /** Rounding to hundredths preserves order. */
  lemma Round2Monotone(a: real, b: real)
    requires a <= b
    ensures Round2(a) <= Round2(b)
  {
    assert (a * 100.0 + 0.5).Floor <= (b * 100.0 + 0.5).Floor;
  }

  /** The bounds 0, 1 and 15 are already at two decimals. */
  lemma Round2Bounds()
    ensures Round2(0.0) == 0.0 && Round2(1.0) == 1.0 && Round2(15.0) == 15.0
  {
    assert (0.0 * 100.0 + 0.5).Floor == 0;
    assert (1.0 * 100.0 + 0.5).Floor == 100;
    assert (15.0 * 100.0 + 0.5).Floor == 1500;
  }

  /** Confidence is in [0, 1]; it is 1 exactly when the MAD is zero and 0 exactly when it is at least 3. */
  lemma ConfidenceRange(mad: real)
    requires mad >= 0.0
    ensures 0.0 <= Confidence(mad) <= 1.0
    ensures Confidence(mad) == 1.0 <==> mad == 0.0
    ensures Confidence(mad) == 0.0 <==> mad >= 3.0
  {
  }

  /** For in-range values: 0 <= low <= consensus <= high <= 15 and 0 <= confidence <= 1. */
  lemma BucketBounds(t: string, row: seq<Cell>)
    requires InRange(row)
    requires exists k :: 0 <= k < |row| && row[k].value.Some?
    ensures var b := BucketOf(t, row);
      && b.consensus.Some? && b.low.Some? && b.high.Some? && b.confidence.Some?
      && UvFloor <= b.low.value <= b.consensus.value <= b.high.value <= UvCeiling
      && 0.0 <= b.confidence.value <= 1.0
  {
    PresentValues(row);
    PresentInRange(row);
    var vs := Present(row);
    var median, mad := Median(vs), Mad(vs);
    MedianWithin(vs, UvFloor, UvCeiling);
    MadNonNegative(vs);
    EstimateBounds(row, median, mad);
    BucketOfEstimate(t, row, EstimateFrom(row, median, mad));
  }

  /** When every provider emits only clamped values, every row of the joined columns lies in [0, 15]. */
  lemma RowsInRange(results: seq<ProviderResult>, t: string)
    requires forall r, s :: r in results && s in r.hourly ==> Emittable(s.uv)
    ensures InRange(RowAt(FramesOf(results), t))
  {
    var frames := FramesOf(results);
    var row := RowAt(frames, t);
    ReportingExactly(results);
    forall k | 0 <= k < |row| && row[k].value.Some?
      ensures UvFloor <= row[k].value.value <= UvCeiling
    {
      var r := Reporting(results)[k];
      assert r in Reporting(results);
      var c := Cells(r.hourly);
      assert frames[k].cells == c && t in c;
      var m := CellsValue(r.hourly, t);
      assert r.hourly[m] in r.hourly;
    }
  }

  /**
   * When every provider emits only clamped values, every bucket of the response
   * with a consensus has 0 <= low <= consensus <= high <= 15 and confidence in [0, 1].
   */
  lemma HourlyBounds(results: seq<ProviderResult>)
    requires forall r, s :: r in results && s in r.hourly ==> Emittable(s.uv)
    ensures var hs := HourlyOf(FramesOf(results));
      forall j :: 0 <= j < |hs| && hs[j].consensus.Some? ==>
        hs[j].low.Some? && hs[j].high.Some? && hs[j].confidence.Some?
        && UvFloor <= hs[j].low.value <= hs[j].consensus.value <= hs[j].high.value <= UvCeiling
        && 0.0 <= hs[j].confidence.value <= 1.0
  {
    var frames := FramesOf(results);
    var ts := TimelineOf(frames);
    var hs := HourlyOf(frames);
    forall j | 0 <= j < |hs| && hs[j].consensus.Some?
      ensures hs[j].low.Some? && hs[j].high.Some? && hs[j].confidence.Some?
        && UvFloor <= hs[j].low.value <= hs[j].consensus.value <= hs[j].high.value <= UvCeiling
        && 0.0 <= hs[j].confidence.value <= 1.0
    {
      var row := RowAt(frames, ts[j]);
      assert hs[j] == BucketOf(ts[j], row);
      RowsInRange(results, ts[j]);
      AllOrNothing(ts[j], row);
      BucketBounds(ts[j], row);
    }
  }

  /** The rounded band of an in-range median lies in range and around the rounded median. */
  lemma EstimateBounds(row: seq<Cell>, median: real, mad: real)
    requires UvFloor <= median <= UvCeiling && mad >= 0.0
    ensures var e := EstimateFrom(row, median, mad);
      && UvFloor <= e.low <= e.consensus <= e.high <= UvCeiling
      && 0.0 <= e.confidence <= 1.0
  {
    ConfidenceRange(mad);
    Round2Bounds();
    Round2Monotone(UvFloor, Max(UvFloor, median - mad));
    Round2Monotone(Max(UvFloor, median - mad), median);
    Round2Monotone(median, Min(UvCeiling, median + mad));
    Round2Monotone(Min(UvCeiling, median + mad), UvCeiling);
    Round2Monotone(0.0, Confidence(mad));
    Round2Monotone(Confidence(mad), 1.0);
  }

  /**
   * The deviating cells, as positions: a strictly increasing list of the
   * positions of exactly the cells that deviate, so the names come in column order.
   */
  lemma DeviatingPositions(row: seq<Cell>, median: real, threshold: real)
    returns (pos: seq<nat>)
    ensures |pos| == |Deviating(row, median, threshold)|
    ensures forall i, j :: 0 <= i < j < |pos| ==> pos[i] < pos[j]
    ensures forall i :: 0 <= i < |pos| ==> pos[i] < |row|
    ensures forall i :: 0 <= i < |pos| ==> Deviates(row[pos[i]], median, threshold)
    ensures forall i :: 0 <= i < |pos| ==> Deviating(row, median, threshold)[i] == row[pos[i]].name
    ensures forall k :: 0 <= k < |row| && Deviates(row[k], median, threshold) ==> k in pos
  {
    pos := Positions(row, median, threshold);
    PositionsNames(row, median, threshold);
    PositionsIncreasing(row, median, threshold);
    PositionsComplete(row, median, threshold);
  }

  /** The positions of the deviating cells, in the order `Deviating` lists their names. */
  function Positions(row: seq<Cell>, median: real, threshold: real): (pos: seq<nat>)
    ensures forall i :: 0 <= i < |pos| ==> pos[i] < |row|
  {
    if row == [] then
      []
    else
      var n := |row| - 1;
      Positions(row[..n], median, threshold) + (if Deviates(row[n], median, threshold) then [n] else [])
  }

  lemma {:induction false} PositionsNames(row: seq<Cell>, median: real, threshold: real)
    ensures |Positions(row, median, threshold)| == |Deviating(row, median, threshold)|
    ensures forall i :: 0 <= i < |Positions(row, median, threshold)| ==>
      Deviates(row[Positions(row, median, threshold)[i]], median, threshold) &&
      Deviating(row, median, threshold)[i] == row[Positions(row, median, threshold)[i]].name
  {
    if row != [] {
      var n := |row| - 1;
      var init := row[..n];
      PositionsNames(init, median, threshold);
      assert forall k :: 0 <= k < n ==> init[k] == row[k];
    }
  }

  lemma {:induction false} PositionsIncreasing(row: seq<Cell>, median: real, threshold: real)
    ensures forall i, j :: 0 <= i < j < |Positions(row, median, threshold)| ==>
      Positions(row, median, threshold)[i] < Positions(row, median, threshold)[j]
  {
    if row != [] {
      var n := |row| - 1;
      PositionsIncreasing(row[..n], median, threshold);
    }
  }

  lemma {:induction false} PositionsComplete(row: seq<Cell>, median: real, threshold: real)
    ensures forall k :: 0 <= k < |row| && Deviates(row[k], median, threshold) ==>
      k in Positions(row, median, threshold)
  {
    if row != [] {
      var n := |row| - 1;
      var init := row[..n];
      PositionsComplete(init, median, threshold);
      assert forall k :: 0 <= k < n ==> init[k] == row[k];
    }
  }

  /** Membership in the outliers, both ways: none for a zero MAD, else exactly the deviating cells. */
  lemma OutliersExactly(row: seq<Cell>, median: real, mad: real)
    ensures mad <= 0.0 ==> Outliers(row, median, mad) == []
    ensures mad > 0.0 ==> forall x :: x in Outliers(row, median, mad) <==>
      exists k :: 0 <= k < |row| && row[k].name == x && Deviates(row[k], median, 1.5 * mad)
  {
    if mad > 0.0 {
      var pos := DeviatingPositions(row, median, 1.5 * mad);
      var out := Deviating(row, median, 1.5 * mad);
      forall x | x in out
        ensures exists k :: 0 <= k < |row| && row[k].name == x && Deviates(row[k], median, 1.5 * mad)
      {
        var i :| 0 <= i < |out| && out[i] == x;
        assert row[pos[i]].name == x;
      }
      forall k | 0 <= k < |row| && Deviates(row[k], median, 1.5 * mad)
        ensures row[k].name in out
      {
        var i :| 0 <= i < |pos| && pos[i] == k;
        assert out[i] == row[k].name;
      }
    }
  }

  /** A bucket's outliers are those of its row for the median and MAD of its present values. */
  lemma BucketOutliers(t: string, row: seq<Cell>)
    requires |Present(row)| > 0
    ensures BucketOf(t, row).outliers == Outliers(row, Median(Present(row)), Mad(Present(row)))
    ensures Mad(Present(row)) >= 0.0
  {
    var vs := Present(row);
    MadNonNegative(vs);
    BucketOfEstimate(t, row, EstimateFrom(row, Median(vs), Mad(vs)));
  }

  /** Every outlier is the name of a column that reported a value at that hour. */
  lemma OutliersReported(t: string, row: seq<Cell>)
    ensures forall x :: x in BucketOf(t, row).outliers ==>
      exists k :: 0 <= k < |row| && row[k].name == x && row[k].value.Some?
  {
    PresentValues(row);
    if |Present(row)| > 0 {
      BucketOutliers(t, row);
      OutliersExactly(row, Median(Present(row)), Mad(Present(row)));
    }
  }

  /** When all present values agree (in particular with a single provider) nothing is an outlier. */
  lemma AgreementHasNoOutliers(t: string, row: seq<Cell>, c: real)
    requires exists k :: 0 <= k < |row| && row[k].value.Some?
    requires forall k :: 0 <= k < |row| && row[k].value.Some? ==> row[k].value.value == c
    ensures BucketOf(t, row).outliers == []
    ensures BucketOf(t, row).confidence == Some(1.0)
    ensures BucketOf(t, row).consensus == Some(Round2(c))
  {
    Round2Bounds();
    PresentValues(row);
    var vs := Present(row);
    assert forall i :: 0 <= i < |vs| ==> vs[i] == c;
    MadOfConstant(vs, c);
    MedianOfConstant(vs, c);
    BucketOutliers(t, row);
    BucketOfEstimate(t, row, EstimateFrom(row, Median(vs), Mad(vs)));
  }

  /** A single reporting provider is never an outlier. */
  lemma SingleReporterNoOutliers(t: string, row: seq<Cell>, k: nat)
    requires k < |row| && row[k].value.Some?
    requires forall j :: 0 <= j < |row| && j != k ==> row[j].value.None?
    ensures BucketOf(t, row).outliers == []
  {
    AgreementHasNoOutliers(t, row, row[k].value.value);
  }

  /** The row of the three-provider example. */
  function ExampleRow(): seq<Cell>
  {
    [Cell("a", Some(4.0)), Cell("b", Some(4.2)), Cell("c", Some(9.0))]
  }

  /** The example's present values and deviating cells. */
  lemma ExampleCells()
    ensures Present(ExampleRow()) == [4.0, 4.2, 9.0]
    ensures Deviating(ExampleRow(), 4.2, 1.5 * 0.2) == ["c"]
    ensures ProvidersMap(ExampleRow()) == map["a" := Some(4.0), "b" := Some(4.2), "c" := Some(9.0)]
  {
    var row := ExampleRow();
    assert row[..2] == [Cell("a", Some(4.0)), Cell("b", Some(4.2))];
    assert row[..2][..1] == [Cell("a", Some(4.0))];
    assert row[..2][..1][..0] == [];
    assert Present(row[..2][..1]) == [4.0];
    assert Present(row[..2]) == [4.0, 4.2];
    assert Deviating(row[..2][..1], 4.2, 0.3) == [];
    assert Deviating(row[..2], 4.2, 0.3) == [];
  }

  /** The example's median and MAD. */
  lemma ExampleMedianMad()
    ensures Median([4.0, 4.2, 9.0]) == 4.2 && Mad([4.0, 4.2, 9.0]) == 0.2
  {
    MedianOfThree(4.0, 4.2, 9.0);
    var devs := Deviations([4.0, 4.2, 9.0], 4.2);
    assert devs == [0.2, 0.0, 4.8];
    assert devs[1..] == [0.0, 4.8] && devs[1..][1..] == [4.8];
    assert Sort([4.8]) == [4.8];
    assert Sort([0.0, 4.8]) == [0.0, 4.8];
    assert Sort(devs) == [0.0, 0.2, 4.8];
  }

  /** The example's rounded fields. */
  lemma ExampleRounding()
    ensures Round2(4.2) == 4.2 && Round2(4.0) == 4.0 && Round2(4.4) == 4.4
    ensures Round2(Confidence(0.2)) == 0.93
  {
    assert (4.2 * 100.0 + 0.5).Floor == 420;
    assert (4.0 * 100.0 + 0.5).Floor == 400;
    assert (4.4 * 100.0 + 0.5).Floor == 440;
    assert Confidence(0.2) == 1.0 - 0.2 / 3.0;
    assert ((1.0 - 0.2 / 3.0) * 100.0 + 0.5).Floor == 93;
  }

  /**
   * Three providers reporting 4.0, 4.2 and 9.0: median 4.2, MAD 0.2,
   * confidence 0.93, band [4.0, 4.4], and only the 9.0 provider flagged.
   */
  lemma ThreeProviderExample()
    ensures BucketOf("12:00", ExampleRow())
      == BucketView("12:00", map["a" := Some(4.0), "b" := Some(4.2), "c" := Some(9.0)],
                    Some(4.2), Some(4.0), Some(4.4), Some(0.93), ["c"])
  {
    var row := ExampleRow();
    ExampleCells();
    ExampleMedianMad();
    ExampleRounding();
    var e := EstimateFrom(row, 4.2, 0.2);
    assert e == Estimate(4.2, 4.0, 4.4, 0.93, ["c"]);
    BucketOfEstimate("12:00", row, e);
  }
}
