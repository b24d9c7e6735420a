/**
 * The incident-length proxy `mttr_proxy`: scan a latency series, treat every
 * maximal run of values above a threshold as one incident, and report the mean
 * incident length in ticks (0 when there is none).
 *
 * The threshold, 1.5 times the median of the series in the source, is a
 * parameter here.
 */
module EvalMetrics {
  import opened Stats

  /** Number of entries of `lat` strictly above `thr`. */
  function CountAbove(lat: seq<real>, thr: real): (c: nat)
    ensures c <= |lat|
  {
    if lat == [] then 0
    else CountAbove(lat[..|lat| - 1], thr) + (if lat[|lat| - 1] > thr then 1 else 0)
  }

  lemma CountAbovePrefix(lat: seq<real>, thr: real, i: int)
    requires 0 <= i < |lat|
    ensures CountAbove(lat[..i + 1], thr) == CountAbove(lat[..i], thr) + (if lat[i] > thr then 1 else 0)
  {
    assert lat[..i + 1][..i] == lat[..i];
  }

  /** The half-open index range [start, end) of one incident. */
  datatype Span = Span(start: int, end: int)

  /** `s` is a maximal non-empty run of entries above `thr`. */
  ghost predicate IsMaximalRun(lat: seq<real>, thr: real, s: Span)
  {
    && 0 <= s.start < s.end <= |lat|
    && (forall k :: s.start <= k < s.end ==> lat[k] > thr)
    && (s.start == 0 || lat[s.start - 1] <= thr)
    && (s.end == |lat| || lat[s.end] <= thr)
  }

  /** The runs are listed left to right, separated by at least one entry. */
  ghost predicate OrderedRuns(spans: seq<Span>)
  {
    forall j :: 0 <= j < |spans| - 1 ==> spans[j].end < spans[j + 1].start
  }

  /** `spans` lists maximal runs above `thr`, left to right. */
  ghost predicate MaximalRuns(lat: seq<real>, thr: real, spans: seq<Span>)
  {
    (forall j :: 0 <= j < |spans| ==> IsMaximalRun(lat, thr, spans[j])) && OrderedRuns(spans)
  }

  /** The length of each run, in order. */
  function Lengths(spans: seq<Span>): (m: seq<int>)
    ensures |m| == |spans|
    ensures forall j :: 0 <= j < |spans| ==> m[j] == spans[j].end - spans[j].start
  {
    seq(|spans|, j requires 0 <= j < |spans| => spans[j].end - spans[j].start)
  }

  /**
   * The mean length of the maximal runs above `thr`, or 0 when no entry is
   * above it; `spans` lists the runs found.
   */
  method MttrProxy(lat: seq<real>, thr: real) returns (r: real, ghost spans: seq<Span>)
    ensures CountAbove(lat, thr) == 0 <==> r == 0.0
    ensures CountAbove(lat, thr) == 0 <==> spans == []
    ensures CountAbove(lat, thr) > 0 ==> r >= 1.0
    ensures spans != [] ==> r == Mean(ToReals(Lengths(spans)))
    ensures SumInt(Lengths(spans)) == CountAbove(lat, thr)
    ensures MaximalRuns(lat, thr, spans)
  {
    var mttrs;
    mttrs, spans := CollectRuns(lat, thr);
    r := MeanLength(mttrs);
    if mttrs == [] {
      assert SumInt(mttrs) == 0;
    }
  }

  /** The mean run length times the number of runs is the number of entries above the threshold. */
  lemma MeanTimesRuns(lat: seq<real>, thr: real, spans: seq<Span>)
    requires spans != [] && SumInt(Lengths(spans)) == CountAbove(lat, thr)
    ensures Mean(ToReals(Lengths(spans))) * (|spans| as real) == CountAbove(lat, thr) as real
  {
    SumToReals(Lengths(spans));
    MeanTimesLength(ToReals(Lengths(spans)));
  }

  /** The scan itself: the length of each maximal run above `thr`, left to right. */
  method CollectRuns(lat: seq<real>, thr: real) returns (mttrs: seq<int>, ghost spans: seq<Span>)
    ensures mttrs == Lengths(spans)
    ensures forall j :: 0 <= j < |mttrs| ==> mttrs[j] >= 1
    ensures MaximalRuns(lat, thr, spans)
    ensures SumInt(mttrs) == CountAbove(lat, thr)
    ensures |mttrs| <= SumInt(mttrs)
  {
    mttrs := [];
    spans := [];
    var i := 0;
    var n := |lat|;
    while i < n
      invariant 0 <= i <= n
      invariant 0 < i < n ==> lat[i - 1] <= thr || lat[i] <= thr
      invariant Scanned(lat, thr, i, mttrs, spans)
      decreases n - i
    {
      if lat[i] > thr {
        var start := i;
        i := ScanRun(lat, thr, start);
        ScannedExtend(lat, thr, start, i, mttrs, spans);
        mttrs := mttrs + [i - start];
        spans := spans + [Span(start, i)];
      } else {
        ScannedSkip(lat, thr, i, mttrs, spans);
        i := i + 1;
      }
    }
    assert lat[..n] == lat;
    assert mttrs == Lengths(spans);
  }

  /**
   * The scan state after the prefix `lat[..i]`: `spans` are the maximal runs
   * that end by `i`, in order, and `mttrs` holds their lengths.
   */
  ghost predicate Scanned(lat: seq<real>, thr: real, i: int, mttrs: seq<int>, spans: seq<Span>)
  {
    && 0 <= i <= |lat|
    && |mttrs| == |spans|
    && (forall j :: 0 <= j < |spans| ==> mttrs[j] == spans[j].end - spans[j].start)
    && (forall j :: 0 <= j < |spans| ==> IsMaximalRun(lat, thr, spans[j]) && spans[j].end <= i)
    && OrderedRuns(spans)
    && SumInt(mttrs) == CountAbove(lat[..i], thr)
    && |mttrs| <= SumInt(mttrs)
  }

  /** Recording the run found from `start` to `end` keeps the scan state. */
  lemma ScannedExtend(lat: seq<real>, thr: real, start: int, end: int, mttrs: seq<int>, spans: seq<Span>)
    requires Scanned(lat, thr, start, mttrs, spans)
    requires start < |lat| && lat[start] > thr && (start == 0 || lat[start - 1] <= thr)
    requires start < end <= |lat| && (end == |lat| || lat[end] <= thr)
    requires forall k :: start <= k < end ==> lat[k] > thr
    requires CountAbove(lat[..end], thr) == CountAbove(lat[..start], thr) + (end - start)
    ensures Scanned(lat, thr, end, mttrs + [end - start], spans + [Span(start, end)])
  {
    var s := Span(start, end);
    var mttrs', spans' := mttrs + [end - start], spans + [s];
    assert IsMaximalRun(lat, thr, s);
    RunsExtend(lat, thr, spans, s);
    SumIntSnoc(mttrs, end - start);
    assert |mttrs'| == |spans'|;
    assert forall j :: 0 <= j < |spans'| ==> mttrs'[j] == spans'[j].end - spans'[j].start by {
      assert forall j :: 0 <= j < |spans| ==> mttrs'[j] == mttrs[j] && spans'[j] == spans[j];
    }
    assert SumInt(mttrs') == CountAbove(lat[..end], thr);
  }

  /** Stepping over an entry not above `thr` keeps the scan state. */
  lemma ScannedSkip(lat: seq<real>, thr: real, i: int, mttrs: seq<int>, spans: seq<Span>)
    requires Scanned(lat, thr, i, mttrs, spans)
    requires i < |lat| && lat[i] <= thr
    ensures Scanned(lat, thr, i + 1, mttrs, spans)
  {
    CountAbovePrefix(lat, thr, i);
  }

  /** A maximal run that starts at or after the end of every listed run extends the ordered list. */
  lemma RunsExtend(lat: seq<real>, thr: real, spans: seq<Span>, s: Span)
    requires forall j :: 0 <= j < |spans| ==> IsMaximalRun(lat, thr, spans[j]) && spans[j].end <= s.start
    requires OrderedRuns(spans)
    requires IsMaximalRun(lat, thr, s)
    ensures forall j :: 0 <= j < |spans + [s]| ==>
              IsMaximalRun(lat, thr, (spans + [s])[j]) && (spans + [s])[j].end <= s.end
    ensures OrderedRuns(spans + [s])
  {
    var spans' := spans + [s];
    assert forall j :: 0 <= j < |spans| ==> spans'[j] == spans[j];
    if spans != [] {
      var last := spans[|spans| - 1];
      assert last.end < s.start;
    }
  }

  /** The run from `start` on: it ends at the first entry not above `thr`, or at the end of `lat`. */
  method ScanRun(lat: seq<real>, thr: real, start: int) returns (end: int)
    requires 0 <= start < |lat| && lat[start] > thr
    ensures start < end <= |lat|
    ensures forall k :: start <= k < end ==> lat[k] > thr
    ensures end == |lat| || lat[end] <= thr
    ensures CountAbove(lat[..end], thr) == CountAbove(lat[..start], thr) + (end - start)
  {
    end := start;
    while end < |lat| && lat[end] > thr
      invariant start <= end <= |lat|
      invariant forall k :: start <= k < end ==> lat[k] > thr
      invariant CountAbove(lat[..end], thr) == CountAbove(lat[..start], thr) + (end - start)
      decreases |lat| - end
    {
      CountAbovePrefix(lat, thr, end);
      end := end + 1;
    }
  }

  /** `float(np.mean(mttrs)) if mttrs else 0.0` for run lengths that are all at least 1. */
  function MeanLength(mttrs: seq<int>): (r: real)
    requires forall j :: 0 <= j < |mttrs| ==> mttrs[j] >= 1
    ensures mttrs == [] ==> r == 0.0
    ensures mttrs != [] ==> r >= 1.0 && r == Mean(ToReals(mttrs))
  {
    if mttrs == [] then 0.0
    else
      var lengths := ToReals(mttrs);
      MeanAtLeast(lengths, 1.0);
      Mean(lengths)
  }
}
