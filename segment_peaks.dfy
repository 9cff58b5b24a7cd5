/** `getPeaks` of the audio utilities: the maximum of each segment of a
    smoothed envelope, with segments that grow as the scan proceeds. */
module SegmentPeaks {
  import opened MathUtils

  /** One `[index, value]` pair of the peak sequence. */
  datatype Peak = Peak(index: int, value: real)

  /** A segment of the envelope: the samples `first..last`, both included. */
  datatype Segment = Segment(first: int, last: int)

  /** The entry the source pushes before scanning, `[1, 10]`. */
  const Sentinel: Peak := Peak(1, 10.0)

  /** The size given to segment number `cur` once the one before it closes:
      `curSegment ** logPeaksScale * baseSegmentSize`. */
  function NextSegmentSize(cur: int, baseSegmentSize: int, logPeaksScale: nat): int
  {
    PowInt(cur, logPeaksScale) * baseSegmentSize
  }

  /** The segments that close within `n` samples. A segment whose scan starts
      at `first`, opened at `start` with size `size`, closes at the first
      sample `k >= first` with `k >= start + size`; the next one opens there
      and its own scan starts one sample later. A segment that would close at
      or after `n` never closes. */
  function SegmentWindows(n: int, baseSegmentSize: int, logPeaksScale: nat,
                          cur: int, start: int, size: int, first: nat): (ws: seq<Segment>)
    ensures forall j :: 0 <= j < |ws| ==> first <= ws[j].first <= ws[j].last < n
    decreases n - first
  {
    var last := MaxInt(first, start + size);
    if last >= n then []
    else
      [Segment(first, last)] +
      SegmentWindows(n, baseSegmentSize, logPeaksScale, cur + 1, last,
                     NextSegmentSize(cur, baseSegmentSize, logPeaksScale), last + 1)
  }

  /** The segments `getPeaks` closes over an envelope of `n` samples. */
  function Segments(n: int, baseSegmentSize: int, logPeaksScale: nat): (ws: seq<Segment>)
    ensures forall j :: 0 <= j < |ws| ==> 0 <= ws[j].first <= ws[j].last < n
  {
    SegmentWindows(n, baseSegmentSize, logPeaksScale, 1, 0, baseSegmentSize, 0)
  }

  /** The running `[tmpPeakIndex, tmpPeakValue]` after scanning `data[lo..hi]`
      from `[prev, 0]`: a sample at least the running value replaces it. */
  function WindowPeak(data: seq<real>, lo: nat, hi: nat, prev: int): Peak
    requires lo <= hi <= |data|
    decreases hi
  {
    if hi == lo then Peak(prev, 0.0)
    else
      var p := WindowPeak(data, lo, hi - 1, prev);
      if data[hi - 1] >= p.value then Peak(hi - 1, data[hi - 1]) else p
  }

  /** `v` is `max(0, max(data[lo..hi]))`. */
  ghost predicate IsClampedMax(data: seq<real>, lo: int, hi: int, v: real)
    requires 0 <= lo <= hi <= |data|
  {
    && v >= 0.0
    && (forall k :: lo <= k < hi ==> data[k] <= v)
    && (v == 0.0 || exists k :: lo <= k < hi && data[k] == v)
  }

  /** The scan of one segment records `max(0, max of the segment)`; its index
      is the last sample holding that value, or stays `prev` when every sample
      of the segment is negative. */
  lemma {:induction false} WindowPeakIsLastMaximum(data: seq<real>, lo: nat, hi: nat, prev: int)
    requires lo <= hi <= |data|
    ensures var p := WindowPeak(data, lo, hi, prev);
            && IsClampedMax(data, lo, hi, p.value)
            && ((exists k :: lo <= k < hi && data[k] >= 0.0) ==>
                  && lo <= p.index < hi
                  && data[p.index] == p.value
                  && (forall k :: p.index < k < hi ==> data[k] < p.value))
            && ((forall k :: lo <= k < hi ==> data[k] < 0.0) ==> p.index == prev)
  {
    if hi > lo {
      WindowPeakIsLastMaximum(data, lo, hi - 1, prev);
    }
  }

  /** The entries pushed for the segments `ws`, each scan starting from the
      index the previous segment left behind. */
  function PeaksOver(data: seq<real>, ws: seq<Segment>, prev: int): (r: seq<Peak>)
    requires forall j :: 0 <= j < |ws| ==> 0 <= ws[j].first <= ws[j].last < |data|
    ensures |r| == |ws|
  {
    if ws == [] then []
    else
      var p := WindowPeak(data, ws[0].first, ws[0].last + 1, prev);
      [p] + PeaksOver(data, ws[1..], p.index)
  }

  /** What `getPeaks` returns: the sentinel, then one entry per closed segment. */
  function PeaksSpec(data: seq<real>, baseSegmentSize: int, logPeaksScale: nat): seq<Peak>
  {
    [Sentinel] + PeaksOver(data, Segments(|data|, baseSegmentSize, logPeaksScale), 0)
  }

  /** The entries still to be pushed when the open segment (number `cur`,
      opened at `start` with size `size`) began its scan at `first` from the
      index `prev`. */
  function PendingPeaks(data: seq<real>, baseSegmentSize: int, logPeaksScale: nat,
                        cur: int, start: int, size: int, first: nat, prev: int): seq<Peak>
  {
    PeaksOver(data, SegmentWindows(|data|, baseSegmentSize, logPeaksScale, cur, start, size, first), prev)
  }

  /** Closing the open segment at sample `k` emits that segment's peak. */
  lemma CloseSegment(data: seq<real>, baseSegmentSize: int, logPeaksScale: nat,
                     cur: int, start: int, size: int, first: nat, prev: int, k: nat)
    requires first <= k <= MaxInt(first, start + size) && k >= start + size && k < |data|
    ensures var p := WindowPeak(data, first, k + 1, prev);
            PendingPeaks(data, baseSegmentSize, logPeaksScale, cur, start, size, first, prev)
            == [p] + PendingPeaks(data, baseSegmentSize, logPeaksScale, cur + 1, k,
                                  NextSegmentSize(cur, baseSegmentSize, logPeaksScale), k + 1, p.index)
  {
    var ws := SegmentWindows(|data|, baseSegmentSize, logPeaksScale, cur, start, size, first);
    assert ws[1..] == SegmentWindows(|data|, baseSegmentSize, logPeaksScale, cur + 1, k,
                                     NextSegmentSize(cur, baseSegmentSize, logPeaksScale), k + 1);
  }

  /** Nothing is pending once the scan has reached the end of the data
      without closing the open segment. */
  lemma NothingPending(data: seq<real>, baseSegmentSize: int, logPeaksScale: nat,
                       cur: int, start: int, size: int, first: nat, prev: int)
    requires |data| <= MaxInt(first, start + size)
    ensures PendingPeaks(data, baseSegmentSize, logPeaksScale, cur, start, size, first, prev) == []
  {
  }

  /** `getPeaks(data, baseSegmentSize, logPeaksScale)`. */
  method GetPeaks(data: seq<real>, baseSegmentSize: int, logPeaksScale: nat) returns (peaks: seq<Peak>)
    ensures peaks == PeaksSpec(data, baseSegmentSize, logPeaksScale)
  {
    var segmentSize := baseSegmentSize;
    var curSegment := 1;
    var segmentStart := 0;
    peaks := [];
    var tmpPeakIndex := 0;
    var tmpPeakValue := 0.0;
    peaks := peaks + [Sentinel];
    // The open segment's scan started at `first`, from the index `prev`.
    ghost var first: nat := 0;
    ghost var prev := 0;
    for k := 0 to |data|
      invariant first <= k <= MaxInt(first, segmentStart + segmentSize)
      invariant Peak(tmpPeakIndex, tmpPeakValue) == WindowPeak(data, first, k, prev)
      invariant peaks + PendingPeaks(data, baseSegmentSize, logPeaksScale, curSegment, segmentStart,
                                     segmentSize, first, prev)
                == PeaksSpec(data, baseSegmentSize, logPeaksScale)
    {
      if data[k] >= tmpPeakValue {
        tmpPeakIndex := k;
        tmpPeakValue := data[k];
      }
      if k >= segmentStart + segmentSize {
        CloseSegment(data, baseSegmentSize, logPeaksScale, curSegment, segmentStart, segmentSize, first, prev, k);
        peaks := peaks + [Peak(tmpPeakIndex, tmpPeakValue)];
        first, prev := k + 1, tmpPeakIndex;
        segmentSize := NextSegmentSize(curSegment, baseSegmentSize, logPeaksScale);
        segmentStart := k;
        curSegment := curSegment + 1;
        tmpPeakValue := 0.0;
      }
    }
    NothingPending(data, baseSegmentSize, logPeaksScale, curSegment, segmentStart, segmentSize, first, prev);
  }

  /** The first segment starts where the scan does and closes at
      `max(first, start + size)`. */
  lemma FirstSegment(n: int, baseSegmentSize: int, logPeaksScale: nat,
                     cur: int, start: int, size: int, first: nat)
    ensures var ws := SegmentWindows(n, baseSegmentSize, logPeaksScale, cur, start, size, first);
            ws != [] ==> ws[0] == Segment(first, MaxInt(first, start + size))
  {
  }

  /** Segment `j + 1` starts right after segment `j` closed and closes
      `NextSegmentSize(cur + j)` samples after it (and never before its own
      first sample). */
  ghost predicate Contiguous(ws: seq<Segment>, cur: int, baseSegmentSize: int, logPeaksScale: nat)
  {
    forall j :: 0 <= j < |ws| - 1 ==> FollowsOn(ws[j], ws[j + 1], cur + j, baseSegmentSize, logPeaksScale)
  }

  ghost predicate FollowsOn(w: Segment, w': Segment, cur: int, baseSegmentSize: int, logPeaksScale: nat)
  {
    && w'.first == w.last + 1
    && w'.last == MaxInt(w.last + 1, w.last + NextSegmentSize(cur, baseSegmentSize, logPeaksScale))
  }

  /** Consecutive segments tile the envelope, growing as `NextSegmentSize`. */
  lemma {:induction false} SegmentsContiguous(n: int, baseSegmentSize: int, logPeaksScale: nat,
                                              cur: int, start: int, size: int, first: nat)
    ensures Contiguous(SegmentWindows(n, baseSegmentSize, logPeaksScale, cur, start, size, first),
                       cur, baseSegmentSize, logPeaksScale)
    decreases n - first
  {
    var ws := SegmentWindows(n, baseSegmentSize, logPeaksScale, cur, start, size, first);
    var last := MaxInt(first, start + size);
    if last < n {
      var next := NextSegmentSize(cur, baseSegmentSize, logPeaksScale);
      var tail := SegmentWindows(n, baseSegmentSize, logPeaksScale, cur + 1, last, next, last + 1);
      assert ws == [Segment(first, last)] + tail;
      SegmentsContiguous(n, baseSegmentSize, logPeaksScale, cur + 1, last, next, last + 1);
      FirstSegment(n, baseSegmentSize, logPeaksScale, cur + 1, last, next, last + 1);
      forall j | 0 <= j < |ws| - 1
        ensures FollowsOn(ws[j], ws[j + 1], cur + j, baseSegmentSize, logPeaksScale)
      {
        if j > 0 {
          assert ws[j] == tail[j - 1] && ws[j + 1] == tail[j];
          assert FollowsOn(tail[j - 1], tail[j], cur + 1 + (j - 1), baseSegmentSize, logPeaksScale);
        }
      }
    }
  }

  /** The segment after the last closed one would close at or after `n`: the
      samples past the last closed segment belong to no segment. */
  lemma {:induction false} SegmentsEnd(n: int, baseSegmentSize: int, logPeaksScale: nat,
                                       cur: int, start: int, size: int, first: nat)
    ensures var ws := SegmentWindows(n, baseSegmentSize, logPeaksScale, cur, start, size, first);
            && (ws == [] ==> MaxInt(first, start + size) >= n)
            && (ws != [] ==>
                  var w := ws[|ws| - 1];
                  MaxInt(w.last + 1, w.last + NextSegmentSize(cur + |ws| - 1, baseSegmentSize, logPeaksScale)) >= n)
    decreases n - first
  {
    var ws := SegmentWindows(n, baseSegmentSize, logPeaksScale, cur, start, size, first);
    var last := MaxInt(first, start + size);
    if last < n {
      var next := NextSegmentSize(cur, baseSegmentSize, logPeaksScale);
      var tail := SegmentWindows(n, baseSegmentSize, logPeaksScale, cur + 1, last, next, last + 1);
      assert ws == [Segment(first, last)] + tail;
      SegmentsEnd(n, baseSegmentSize, logPeaksScale, cur + 1, last, next, last + 1);
      if tail != [] {
        assert ws[|ws| - 1] == tail[|tail| - 1];
      }
    }
  }

  /** Properties of the entries pushed for contiguous segments: each value is
      the segment's clamped maximum, each index lies between the index the
      scan started from and the segment's last sample, and indices never
      decrease. */
  lemma PeaksOverProperties(data: seq<real>, ws: seq<Segment>, prev: int)
    requires forall j :: 0 <= j < |ws| ==> 0 <= ws[j].first <= ws[j].last < |data|
    requires forall j :: 0 <= j < |ws| - 1 ==> ws[j + 1].first == ws[j].last + 1
    requires 0 <= prev && (ws != [] ==> prev <= ws[0].first)
    ensures var r := PeaksOver(data, ws, prev);
            && (forall j :: 0 <= j < |r| ==> IsClampedMax(data, ws[j].first, ws[j].last + 1, r[j].value))
            && (forall j :: 0 <= j < |r| ==> prev <= r[j].index <= ws[j].last)
            && (forall j :: 0 <= j < |r| - 1 ==> r[j].index <= r[j + 1].index)
  {
    PeaksOverValues(data, ws, prev);
    PeaksOverIndices(data, ws, prev);
  }

  /** Each entry pushed holds its segment's clamped maximum. */
  lemma {:induction false} PeaksOverValues(data: seq<real>, ws: seq<Segment>, prev: int)
    requires forall j :: 0 <= j < |ws| ==> 0 <= ws[j].first <= ws[j].last < |data|
    ensures var r := PeaksOver(data, ws, prev);
            forall j :: 0 <= j < |r| ==> IsClampedMax(data, ws[j].first, ws[j].last + 1, r[j].value)
    decreases |ws|
  {
    if ws != [] {
      var p := WindowPeak(data, ws[0].first, ws[0].last + 1, prev);
      WindowPeakIsLastMaximum(data, ws[0].first, ws[0].last + 1, prev);
      PeaksOverValues(data, ws[1..], p.index);
      var rest := PeaksOver(data, ws[1..], p.index);
      var r := PeaksOver(data, ws, prev);
      assert r == [p] + rest;
      forall j | 1 <= j < |r|
        ensures IsClampedMax(data, ws[j].first, ws[j].last + 1, r[j].value)
      {
        assert r[j] == rest[j - 1] && ws[j] == ws[1..][j - 1];
      }
    }
  }

  /** The index of a segment's scan is one of its samples or the index the
      scan started from. */
  lemma {:induction false} WindowPeakIndex(data: seq<real>, lo: nat, hi: nat, prev: int)
    requires lo <= hi <= |data|
    ensures var p := WindowPeak(data, lo, hi, prev);
            (lo <= p.index < hi) || p.index == prev
    decreases hi
  {
    if hi > lo {
      WindowPeakIndex(data, lo, hi - 1, prev);
    }
  }

  /** Over contiguous segments each index lies between the starting index and
      its segment's last sample, and indices never decrease. */
  lemma {:induction false} PeaksOverIndices(data: seq<real>, ws: seq<Segment>, prev: int)
    requires forall j :: 0 <= j < |ws| ==> 0 <= ws[j].first <= ws[j].last < |data|
    requires forall j :: 0 <= j < |ws| - 1 ==> ws[j + 1].first == ws[j].last + 1
    requires 0 <= prev && (ws != [] ==> prev <= ws[0].first)
    ensures var r := PeaksOver(data, ws, prev);
            && (forall j :: 0 <= j < |r| ==> prev <= r[j].index <= ws[j].last)
            && (forall j :: 0 <= j < |r| - 1 ==> r[j].index <= r[j + 1].index)
    decreases |ws|
  {
    if ws != [] {
      var p := WindowPeak(data, ws[0].first, ws[0].last + 1, prev);
      WindowPeakIndex(data, ws[0].first, ws[0].last + 1, prev);
      assert prev <= p.index <= ws[0].last;
      PeaksOverIndices(data, ws[1..], p.index);
      var rest := PeaksOver(data, ws[1..], p.index);
      var r := PeaksOver(data, ws, prev);
      assert r == [p] + rest;
      forall j | 1 <= j < |r|
        ensures prev <= r[j].index <= ws[j].last
        ensures r[j - 1].index <= r[j].index
      {
        assert r[j] == rest[j - 1] && ws[j] == ws[1..][j - 1];
        if j >= 2 {
          assert r[j - 1] == rest[j - 2];
        }
      }
    }
  }

  /** `getPeaks` always starts with the sentinel `[1, 10]` and then pushes
      one entry per closed segment. */
  lemma GetPeaksLength(data: seq<real>, baseSegmentSize: int, logPeaksScale: nat)
    ensures var r := PeaksSpec(data, baseSegmentSize, logPeaksScale);
            |r| == |Segments(|data|, baseSegmentSize, logPeaksScale)| + 1 && r[0] == Sentinel
  {
  }

  /** The segments of `getPeaks`: the first covers samples `0..max(0, base)`,
      each later one starts right after the previous one closed and spans at
      least `j ** logPeaksScale * base` samples, and the samples after the
      last closed segment are in no segment. */
  lemma GetPeaksSegments(n: int, baseSegmentSize: int, logPeaksScale: nat)
    ensures var ws := Segments(n, baseSegmentSize, logPeaksScale);
            && (ws != [] ==> ws[0] == Segment(0, MaxInt(0, baseSegmentSize)))
            && Contiguous(ws, 1, baseSegmentSize, logPeaksScale)
            && (ws == [] ==> MaxInt(0, baseSegmentSize) >= n)
            && (ws != [] ==>
                  var w := ws[|ws| - 1];
                  MaxInt(w.last + 1, w.last + NextSegmentSize(|ws|, baseSegmentSize, logPeaksScale)) >= n)
  {
    FirstSegment(n, baseSegmentSize, logPeaksScale, 1, 0, baseSegmentSize, 0);
    SegmentsContiguous(n, baseSegmentSize, logPeaksScale, 1, 0, baseSegmentSize, 0);
    SegmentsEnd(n, baseSegmentSize, logPeaksScale, 1, 0, baseSegmentSize, 0);
  }

  /** Each entry after the sentinel holds `max(0, max of its segment)`; its
      index lies in or before its segment, so never past the last closed
      segment; and indices never decrease. */
  lemma GetPeaksEntries(data: seq<real>, baseSegmentSize: int, logPeaksScale: nat)
    ensures var r := PeaksSpec(data, baseSegmentSize, logPeaksScale);
            var ws := Segments(|data|, baseSegmentSize, logPeaksScale);
            && |r| == |ws| + 1
            && (forall j :: 1 <= j < |r| ==>
                  && IsClampedMax(data, ws[j - 1].first, ws[j - 1].last + 1, r[j].value)
                  && 0 <= r[j].index <= ws[j - 1].last)
            && (forall j :: 1 <= j < |r| - 1 ==> r[j].index <= r[j + 1].index)
  {
    var ws := Segments(|data|, baseSegmentSize, logPeaksScale);
    SegmentsContiguous(|data|, baseSegmentSize, logPeaksScale, 1, 0, baseSegmentSize, 0);
    FirstSegment(|data|, baseSegmentSize, logPeaksScale, 1, 0, baseSegmentSize, 0);
    PeaksOverProperties(data, ws, 0);
    var tail := PeaksOver(data, ws, 0);
    var r := PeaksSpec(data, baseSegmentSize, logPeaksScale);
    assert r == [Sentinel] + tail;
    assert forall j :: 1 <= j < |r| ==> r[j] == tail[j - 1];
  }

  /** With the whole envelope below zero every segment records 0 and the
      index never moves from 0. */
  lemma NegativeEnvelopePeaks(data: seq<real>, baseSegmentSize: int, logPeaksScale: nat)
    requires forall k :: 0 <= k < |data| ==> data[k] < 0.0
    ensures var r := PeaksSpec(data, baseSegmentSize, logPeaksScale);
            forall j :: 1 <= j < |r| ==> r[j] == Peak(0, 0.0)
  {
    var ws := Segments(|data|, baseSegmentSize, logPeaksScale);
    AllNegativePeaksOver(data, ws);
    var r := PeaksSpec(data, baseSegmentSize, logPeaksScale);
    assert forall j :: 1 <= j < |r| ==> r[j] == PeaksOver(data, ws, 0)[j - 1];
  }

  lemma {:induction false} AllNegativePeaksOver(data: seq<real>, ws: seq<Segment>)
    requires forall j :: 0 <= j < |ws| ==> 0 <= ws[j].first <= ws[j].last < |data|
    requires forall k :: 0 <= k < |data| ==> data[k] < 0.0
    ensures var r := PeaksOver(data, ws, 0);
            forall j :: 0 <= j < |r| ==> r[j] == Peak(0, 0.0)
    decreases |ws|
  {
    if ws != [] {
      var p := WindowPeak(data, ws[0].first, ws[0].last + 1, 0);
      WindowPeakIsLastMaximum(data, ws[0].first, ws[0].last + 1, 0);
      assert p.value == 0.0;
      AllNegativePeaksOver(data, ws[1..]);
      var r := PeaksOver(data, ws, 0);
      assert r == [p] + PeaksOver(data, ws[1..], 0);
    }
  }
}
