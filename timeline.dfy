/**
 * Timeline alignment: every provider that returned samples becomes one
 * column indexed by its time labels, sorted; the columns are outer-joined
 * on the labels, giving one row per distinct label with one cell per
 * column. Providers that failed or returned nothing give no column but
 * still appear in the provider metadata, in invocation order.
 */
module Timeline {
  import opened Wrappers
  import opened UvProviders

  // ---------------------------------------------------------------------
  // Label order: labels are compared as strings, code point by code point.
  // ---------------------------------------------------------------------

  predicate LabelLess(a: string, b: string)
  {
    if |a| == 0 then |b| > 0
    else if |b| == 0 then false
    else a[0] < b[0] || (a[0] == b[0] && LabelLess(a[1..], b[1..]))
  }

  lemma {:induction false} LabelLessIrreflexive(a: string)
    ensures !LabelLess(a, a)
  {
    if |a| > 0 { LabelLessIrreflexive(a[1..]); }
  }

  lemma {:induction false} LabelLessTransitive(a: string, b: string, c: string)
    requires LabelLess(a, b) && LabelLess(b, c)
    ensures LabelLess(a, c)
  {
    if |a| > 0 && |b| > 0 && |c| > 0 && a[0] == b[0] == c[0] {
      LabelLessTransitive(a[1..], b[1..], c[1..]);
    }
  }

  lemma {:induction false} LabelLessTotal(a: string, b: string)
    requires a != b
    ensures LabelLess(a, b) || LabelLess(b, a)
  {
    if |a| > 0 && |b| > 0 && a[0] == b[0] {
      assert a == [a[0]] + a[1..] && b == [b[0]] + b[1..];
      LabelLessTotal(a[1..], b[1..]);
    }
  }

  /** Strictly ascending: sorted and free of repeats. */
  predicate StrictlySorted(s: seq<string>)
  {
    forall i, j :: 0 <= i < j < |s| ==> LabelLess(s[i], s[j])
  }

  /** Insert a label into a strictly ascending list, unless it is already there. */
  function InsertLabel(x: string, s: seq<string>): (r: seq<string>)
    requires StrictlySorted(s)
    ensures StrictlySorted(r)
    ensures forall y :: y in r <==> y == x || y in s
  {
    if s == [] then
      [x]
    else if x == s[0] then
      s
    else if LabelLess(x, s[0]) then
      forall j | 0 <= j < |s| ensures LabelLess(x, s[j]) {
        if j > 0 { LabelLessTransitive(x, s[0], s[j]); }
      }
      [x] + s
    else
      LabelLessTotal(x, s[0]);
      var t := InsertLabel(x, s[1..]);
      assert forall y :: y in s[1..] ==> LabelLess(s[0], y);
      [s[0]] + t
  }

  /** The distinct labels of `s`, in ascending order. */
  function SortLabels(s: seq<string>): (r: seq<string>)
    ensures StrictlySorted(r)
    ensures forall y :: y in r <==> y in s
  {
    if s == [] then [] else InsertLabel(s[0], SortLabels(s[1..]))
  }

  // ---------------------------------------------------------------------
  // Columns
  // ---------------------------------------------------------------------

  /** One provider's column: its name, its sorted time index and its cells. */
  datatype Frame = Frame(name: string, index: seq<string>, cells: map<string, Option<real>>)

  /** What the response reports of each invoked provider. */
  datatype ProviderMeta = ProviderMeta(name: string, error: Option<string>)

  /** The cells of a sample list: label to value, a later sample for a label replacing an earlier one. */
  function Cells(samples: seq<Sample>): (c: map<string, Option<real>>)
    ensures forall t :: t in c <==> exists k :: 0 <= k < |samples| && samples[k].time == t
  {
    if samples == [] then
      map[]
    else
      var last := samples[|samples| - 1];
      var init := samples[..|samples| - 1];
      assert forall k :: 0 <= k < |init| ==> init[k] == samples[k];
      Cells(init)[last.time := last.uv]
  }

  /** The value at a label is the uv of the last sample with that label; `k` is that sample's position. */
  lemma {:induction false} CellsValue(samples: seq<Sample>, t: string) returns (k: nat)
    requires t in Cells(samples)
    ensures k < |samples| && samples[k].time == t && Cells(samples)[t] == samples[k].uv
    ensures forall j :: k < j < |samples| ==> samples[j].time != t
  {
    var n := |samples| - 1;
    var last := samples[n];
    var init := samples[..n];
    assert Cells(samples) == Cells(init)[last.time := last.uv];
    if last.time == t {
      k := n;
    } else {
      assert t in Cells(init);
      k := CellsValue(init, t);
      assert init[k] == samples[k];
      assert forall j :: k < j < n ==> init[j] == samples[j];
    }
  }

  function Labels(samples: seq<Sample>): (ls: seq<string>)
    ensures |ls| == |samples|
    ensures forall k :: 0 <= k < |samples| ==> ls[k] == samples[k].time
  {
    seq(|samples|, k requires 0 <= k < |samples| => samples[k].time)
  }

  /** The column a provider result contributes: indexed by time, sorted, renamed to the provider. */
  function FrameOf(r: ProviderResult): (f: Frame)
    ensures f.name == r.name
    ensures StrictlySorted(f.index)
    ensures forall t :: t in f.index <==> t in f.cells
  {
    var f := Frame(r.name, SortLabels(Labels(r.hourly)), Cells(r.hourly));
    assert forall t :: t in Labels(r.hourly) <==> exists k :: 0 <= k < |r.hourly| && r.hourly[k].time == t;
    f
  }

  /** The providers whose result carries at least one sample, in invocation order. */
  function Reporting(results: seq<ProviderResult>): seq<ProviderResult>
  {
    if results == [] then
      []
    else
      var rest := Reporting(results[..|results| - 1]);
      if results[|results| - 1].hourly != [] then rest + [results[|results| - 1]] else rest
  }

  /** The columns built from a request's provider results. */
  function FramesOf(results: seq<ProviderResult>): (fs: seq<Frame>)
  {
    var rs := Reporting(results);
    seq(|rs|, k requires 0 <= k < |rs| => FrameOf(rs[k]))
  }

  /**
   * Build the provider metadata and the column list, one result at a time,
   * as the handler's loop over the gathered results does.
   */
  method BuildFrames(results: seq<ProviderResult>) returns (meta: seq<ProviderMeta>, frames: seq<Frame>)
    ensures |meta| == |results|
    ensures forall i :: 0 <= i < |results| ==> meta[i] == ProviderMeta(results[i].name, results[i].error)
    ensures frames == FramesOf(results)
  {
    meta, frames := [], [];
    var i := 0;
    while i < |results|
      invariant 0 <= i <= |results|
      invariant |meta| == i
      invariant forall k :: 0 <= k < i ==> meta[k] == ProviderMeta(results[k].name, results[k].error)
      invariant frames == FramesOf(results[..i])
    {
      var r := results[i];
      meta := meta + [ProviderMeta(r.name, r.error)];
      assert results[..i + 1][..i] == results[..i];
      if r.hourly != [] {
        frames := frames + [FrameOf(r)];
      }
      i := i + 1;
    }
    assert results[..i] == results;
  }

  /** The labels of all columns together. */
  function AllLabels(frames: seq<Frame>): (ls: seq<string>)
    ensures forall t :: t in ls <==> exists k :: 0 <= k < |frames| && t in frames[k].index
  {
    if frames == [] then
      []
    else
      var ls := AllLabels(frames[..|frames| - 1]) + frames[|frames| - 1].index;
      assert forall k :: 0 <= k < |frames| - 1 ==> frames[..|frames| - 1][k] == frames[k];
      ls
  }

  /** The outer-join index: every label of every column, once, in ascending order. */
  function TimelineOf(frames: seq<Frame>): (ts: seq<string>)
  {
    SortLabels(AllLabels(frames))
  }

  /** One aligned cell: a column's name and its value at some label (missing when it has none). */
  datatype Cell = Cell(name: string, value: Option<real>)

  /** The row of the outer join at label `t`: one cell per column, in column order. */
  function RowAt(frames: seq<Frame>, t: string): (row: seq<Cell>)
  {
    seq(|frames|, k requires 0 <= k < |frames| =>
      Cell(frames[k].name, if t in frames[k].cells then frames[k].cells[t] else None))
  }

  // ---------------------------------------------------------------------
  // Properties of the alignment
  // ---------------------------------------------------------------------

  /** A result appears among the reporting ones exactly when it carries samples. */
  lemma {:induction false} ReportingExactly(results: seq<ProviderResult>)
    ensures forall r :: r in Reporting(results) <==> r in results && r.hourly != []
  {
    if results != [] {
      var init := results[..|results| - 1];
      ReportingExactly(init);
      assert results == init + [results[|results| - 1]];
    }
  }

  /** Every column belongs to a provider that returned samples, and every such provider has a column. */
  lemma FramesFromReportingProviders(results: seq<ProviderResult>)
    ensures forall f :: f in FramesOf(results) <==>
      exists r :: r in results && r.hourly != [] && f == FrameOf(r)
  {
    ReportingExactly(results);
    var rs := Reporting(results);
    var fs := FramesOf(results);
    forall f | f in fs ensures exists r :: r in results && r.hourly != [] && f == FrameOf(r) {
      var k :| 0 <= k < |fs| && fs[k] == f;
      assert rs[k] in rs;
    }
    forall r | r in results && r.hourly != [] ensures FrameOf(r) in fs {
      var k :| 0 <= k < |rs| && rs[k] == r;
      assert fs[k] == FrameOf(r);
    }
  }

  /** When no provider returned samples there are no columns, hence no timeline. */
  lemma {:induction false} NoDataNoTimeline(results: seq<ProviderResult>)
    requires forall i :: 0 <= i < |results| ==> results[i].hourly == []
    ensures FramesOf(results) == []
    ensures TimelineOf(FramesOf(results)) == []
  {
    if results != [] {
      NoDataNoTimeline(results[..|results| - 1]);
    }
  }

  /** The timeline has one entry per distinct label of any column, in strictly ascending order. */
  lemma TimelineIsSortedUnion(frames: seq<Frame>)
    ensures StrictlySorted(TimelineOf(frames))
    ensures forall t :: t in TimelineOf(frames) <==> exists k :: 0 <= k < |frames| && t in frames[k].index
  {
  }

  /** A row has one cell per column, named after it, holding the column's value at that label. */
  lemma RowShape(frames: seq<Frame>, t: string)
    ensures |RowAt(frames, t)| == |frames|
    ensures forall k :: 0 <= k < |frames| ==> RowAt(frames, t)[k].name == frames[k].name
    ensures forall k :: 0 <= k < |frames| ==>
      (RowAt(frames, t)[k].value.Some? <==> t in frames[k].cells && frames[k].cells[t].Some?)
    ensures forall k :: 0 <= k < |frames| && t in frames[k].cells ==>
      RowAt(frames, t)[k].value == frames[k].cells[t]
  {
  }

  /** A strictly ascending list has no repeated label. */
  lemma StrictlySortedDistinct(s: seq<string>)
    requires StrictlySorted(s)
    ensures forall i, j :: 0 <= i < j < |s| ==> s[i] != s[j]
  {
    forall i, j | 0 <= i < j < |s|
      ensures s[i] != s[j]
    {
      LabelLessIrreflexive(s[i]);
    }
  }

  /** Every label occurs once in the timeline, so the handler makes one bucket per distinct label. */
  lemma TimelineDistinct(frames: seq<Frame>)
    ensures forall i, j :: 0 <= i < j < |TimelineOf(frames)| ==> TimelineOf(frames)[i] != TimelineOf(frames)[j]
  {
    StrictlySortedDistinct(TimelineOf(frames));
  }
}
