/** `getFormants` of the audio utilities: a fixed-length sliding window of the
    most recent strict local maxima of the peak sequence, each placed at a
    sharply weighted centroid of its neighbourhood. */
module Formants {
  import opened MathUtils
  import opened SegmentPeaks

  /** One `[position, magnitude, flag]` slot; `filled` is the flag, 1 for a
      pushed formant and 0 for a slot still holding its initial value. */
  datatype Formant = Formant(position: real, magnitude: real, filled: bool)

  /** The value every slot starts with, `[0, 0, 0]`. */
  const Unfilled: Formant := Formant(0.0, 0.0, false)

  /** The exponent of the centroid's weights, `tmpExp`. */
  const WeightExponent: nat := 40

  function Weight(value: real): real
  {
    Pow(value, WeightExponent)
  }

  /** Sum of `index * value ** 40` over `signal[lo..hi]`. */
  function PositionMoment(signal: seq<Peak>, lo: nat, hi: nat): real
    requires lo <= hi <= |signal|
    decreases hi
  {
    if hi == lo then 0.0
    else PositionMoment(signal, lo, hi - 1) + signal[hi - 1].index as real * Weight(signal[hi - 1].value)
  }

  /** Sum of `value ** 40` over `signal[lo..hi]`. */
  function TotalWeight(signal: seq<Peak>, lo: nat, hi: nat): real
    requires lo <= hi <= |signal|
    decreases hi
  {
    if hi == lo then 0.0
    else TotalWeight(signal, lo, hi - 1) + Weight(signal[hi - 1].value)
  }

  /** An interior entry strictly above both neighbours, with a positive value. */
  predicate IsPositiveLocalMax(signal: seq<Peak>, i: int)
  {
    && 1 <= i < |signal| - 1
    && signal[i].value > 0.0
    && signal[i - 1].value < signal[i].value
    && signal[i].value > signal[i + 1].value
  }

  /** The weights of the three entries around a positive interior entry add up
      to a positive total. */
  lemma PositiveTotalWeight(signal: seq<Peak>, i: int)
    requires 1 <= i < |signal| - 1 && signal[i].value > 0.0
    ensures TotalWeight(signal, i - 1, i + 2) > 0.0
  {
    PowEvenPositive(signal[i - 1].value, WeightExponent);
    PowEvenPositive(signal[i].value, WeightExponent);
    PowEvenPositive(signal[i + 1].value, WeightExponent);
    assert TotalWeight(signal, i - 1, i) == Weight(signal[i - 1].value);
  }

  /** The weighted position of entry `i`: `avgPos / totalDiv` over `i-1..i+1`. */
  function Centroid(signal: seq<Peak>, i: int): real
    requires 1 <= i < |signal| - 1 && signal[i].value > 0.0
  {
    PositiveTotalWeight(signal, i);
    PositionMoment(signal, i - 1, i + 2) / TotalWeight(signal, i - 1, i + 2)
  }

  /** The slot pushed for entry `i`: `[avgPos, value, 1]`. */
  function FormantAt(signal: seq<Peak>, i: int): Formant
    requires 1 <= i < |signal| - 1 && signal[i].value > 0.0
  {
    Formant(Centroid(signal, i), signal[i].value, true)
  }

  /** The test of the loop body: above slot 0 and a strict local maximum. */
  predicate Qualifies(signal: seq<Peak>, i: int, best: real)
  {
    && 1 <= i < |signal| - 1
    && signal[i].value > best
    && signal[i - 1].value < signal[i].value
    && signal[i].value > signal[i + 1].value
  }

  /** The slots after the scan has looked at the interior entries `1..n-1`. */
  function FormantScan(signal: seq<Peak>, formantCount: nat, n: nat): (slots: seq<Formant>)
    requires n <= |signal|
    ensures |slots| == formantCount + 1
    ensures forall j :: 0 <= j < |slots| ==> slots[j].magnitude >= 0.0
    decreases n
  {
    if n <= 1 then seq(formantCount + 1, _ => Unfilled)
    else
      var slots := FormantScan(signal, formantCount, n - 1);
      var i := n - 1;
      if Qualifies(signal, i, slots[0].magnitude) then slots[1..] + [FormantAt(signal, i)] else slots
  }

  /** What `getFormants(signal, formantCount)` returns. */
  function FormantsSpec(signal: seq<Peak>, formantCount: nat): seq<Formant>
  {
    FormantScan(signal, formantCount, |signal|)
  }

  /** The inner loop of `getFormants`: the weighted position sum `avgPos` and
      the weight total `totalDiv` over entries `i-1`, `i` and `i+1`. */
  method NeighbourhoodSums(signal: seq<Peak>, i: nat) returns (avgPos: real, totalDiv: real)
    requires 1 <= i < |signal| - 1
    ensures avgPos == PositionMoment(signal, i - 1, i + 2)
    ensures totalDiv == TotalWeight(signal, i - 1, i + 2)
  {
    avgPos := 0.0;
    totalDiv := 0.0;
    var tmpExp := WeightExponent;
    for l := -1 to 2
      invariant avgPos == PositionMoment(signal, i - 1, i + l)
      invariant totalDiv == TotalWeight(signal, i - 1, i + l)
    {
      var weight := Pow(signal[i + l].value, tmpExp);
      avgPos := avgPos + signal[i + l].index as real * weight;
      totalDiv := totalDiv + weight;
    }
  }

  /** `getFormants(signal, formantCount)`. */
  method GetFormants(signal: seq<Peak>, formantCount: nat := 3) returns (newFormants: seq<Formant>)
    ensures newFormants == FormantsSpec(signal, formantCount)
  {
    newFormants := seq(formantCount + 1, _ => Unfilled);
    var i := 1;
    while i < |signal| - 1
      invariant 1 <= i
      invariant |signal| >= 2 ==> i <= |signal| - 1
      invariant newFormants == FormantScan(signal, formantCount, if i <= |signal| then i else 0)
    {
      if signal[i].value > newFormants[0].magnitude {
        if signal[i - 1].value < signal[i].value && signal[i].value > signal[i + 1].value {
          var avgPos, totalDiv := NeighbourhoodSums(signal, i);
          PositiveTotalWeight(signal, i);
          avgPos := avgPos / totalDiv;
          newFormants := newFormants[1..];
          newFormants := newFormants + [Formant(avgPos, signal[i].value, true)];
        }
      }
      ScanStep(signal, formantCount, i);
      i := i + 1;
    }
  }

  /** One step of the scan: entry `i` is pushed exactly when it qualifies. */
  lemma ScanStep(signal: seq<Peak>, formantCount: nat, i: nat)
    requires 1 <= i < |signal| - 1
    ensures var slots := FormantScan(signal, formantCount, i);
            FormantScan(signal, formantCount, i + 1)
            == if Qualifies(signal, i, slots[0].magnitude) then slots[1..] + [FormantAt(signal, i)] else slots
  {
  }

  /** A weighted average lies between the smallest and largest value. */
  lemma WeightedAverageBounds(p0: real, p1: real, p2: real, w0: real, w1: real, w2: real, m: real, w: real)
    requires w0 >= 0.0 && w1 >= 0.0 && w2 >= 0.0
    requires m == p0 * w0 + p1 * w1 + p2 * w2 && w == w0 + w1 + w2 && w > 0.0
    ensures Min(p0, Min(p1, p2)) <= m / w <= Max(p0, Max(p1, p2))
  {
    var lo := Min(p0, Min(p1, p2));
    var hi := Max(p0, Max(p1, p2));
    ScaleBy(p0 - lo, w0);
    ScaleBy(p1 - lo, w1);
    ScaleBy(p2 - lo, w2);
    ScaleBy(hi - p0, w0);
    ScaleBy(hi - p1, w1);
    ScaleBy(hi - p2, w2);
    assert m - lo * w == (p0 - lo) * w0 + (p1 - lo) * w1 + (p2 - lo) * w2;
    assert hi * w - m == (hi - p0) * w0 + (hi - p1) * w1 + (hi - p2) * w2;
    QuotientBetween(m, w, lo, hi);
  }

  lemma QuotientBetween(m: real, w: real, lo: real, hi: real)
    requires w > 0.0 && lo * w <= m <= hi * w
    ensures lo <= m / w <= hi
  {
    assert m / w - lo == (m - lo * w) / w;
    assert hi - m / w == (hi * w - m) / w;
  }

  lemma ScaleBy(d: real, w: real)
    requires d >= 0.0 && w >= 0.0
    ensures d * w >= 0.0
  {
  }

  /** The two sums of entry `i`'s centroid spelled out over its three neighbours. */
  lemma CentroidExpanded(signal: seq<Peak>, i: int)
    requires 1 <= i < |signal| - 1
    ensures PositionMoment(signal, i - 1, i + 2) ==
              signal[i - 1].index as real * Weight(signal[i - 1].value)
              + signal[i].index as real * Weight(signal[i].value)
              + signal[i + 1].index as real * Weight(signal[i + 1].value)
    ensures TotalWeight(signal, i - 1, i + 2) ==
              Weight(signal[i - 1].value) + Weight(signal[i].value) + Weight(signal[i + 1].value)
  {
    assert PositionMoment(signal, i - 1, i) == signal[i - 1].index as real * Weight(signal[i - 1].value);
    assert TotalWeight(signal, i - 1, i) == Weight(signal[i - 1].value);
  }

  /** The position pushed for entry `i` lies between the smallest and the
      largest index of entries `i-1`, `i` and `i+1`. */
  lemma CentroidBounds(signal: seq<Peak>, i: int)
    requires 1 <= i < |signal| - 1 && signal[i].value > 0.0
    ensures var p0 := signal[i - 1].index as real;
            var p1 := signal[i].index as real;
            var p2 := signal[i + 1].index as real;
            Min(p0, Min(p1, p2)) <= Centroid(signal, i) <= Max(p0, Max(p1, p2))
  {
    PowEvenPositive(signal[i - 1].value, WeightExponent);
    PowEvenPositive(signal[i].value, WeightExponent);
    PowEvenPositive(signal[i + 1].value, WeightExponent);
    CentroidExpanded(signal, i);
    var p0, p1, p2 := signal[i - 1].index as real, signal[i].index as real, signal[i + 1].index as real;
    var w0, w1, w2 := Weight(signal[i - 1].value), Weight(signal[i].value), Weight(signal[i + 1].value);
    PositiveTotalWeight(signal, i);
    WeightedAverageBounds(p0, p1, p2, w0, w1, w2,
                          PositionMoment(signal, i - 1, i + 2), TotalWeight(signal, i - 1, i + 2));
  }

  /** Formant `f` was pushed for some positive strict local maximum among the
      interior entries `1..n-1`. */
  ghost predicate ComesFrom(signal: seq<Peak>, n: int, f: Formant)
  {
    exists i :: 1 <= i < n && IsPositiveLocalMax(signal, i) && f == FormantAt(signal, i)
  }

  /** Every slot is either untouched `[0, 0, 0]` or a pushed formant, and the
      untouched slots come first. */
  ghost predicate SlotsWellFormed(signal: seq<Peak>, n: int, slots: seq<Formant>)
  {
    && (forall j :: 0 <= j < |slots| ==>
          slots[j] == Unfilled || (slots[j].filled && ComesFrom(signal, n, slots[j])))
    && (forall j, j' :: 0 <= j < j' < |slots| && slots[j].filled ==> slots[j'].filled)
  }

  lemma {:induction false} FormantScanWellFormed(signal: seq<Peak>, formantCount: nat, n: nat)
    requires n <= |signal|
    ensures SlotsWellFormed(signal, n, FormantScan(signal, formantCount, n))
    decreases n
  {
    if n > 1 {
      var slots := FormantScan(signal, formantCount, n - 1);
      FormantScanWellFormed(signal, formantCount, n - 1);
      var i := n - 1;
      forall f | f in slots && f.filled && ComesFrom(signal, n - 1, f)
        ensures ComesFrom(signal, n, f)
      {
        var i' :| 1 <= i' < n - 1 && IsPositiveLocalMax(signal, i') && f == FormantAt(signal, i');
      }
      if Qualifies(signal, i, slots[0].magnitude) {
        var next := slots[1..] + [FormantAt(signal, i)];
        assert next == FormantScan(signal, formantCount, n);
        assert IsPositiveLocalMax(signal, i);
        assert ComesFrom(signal, n, FormantAt(signal, i));
        forall j | 0 <= j < |next|
          ensures next[j] == Unfilled || (next[j].filled && ComesFrom(signal, n, next[j]))
        {
          if j < |next| - 1 {
            assert next[j] == slots[j + 1];
          }
        }
      }
    }
  }

  /** The newest slot is filled exactly when the scanned interior entries
      `1..n-1` contain a positive strict local maximum. */
  lemma {:induction false} LastSlotFilledIff(signal: seq<Peak>, formantCount: nat, n: nat)
    requires n <= |signal|
    ensures FormantScan(signal, formantCount, n)[formantCount].filled <==>
              exists i :: 1 <= i < n && IsPositiveLocalMax(signal, i)
    decreases n
  {
    var slots := FormantScan(signal, formantCount, n);
    FormantScanWellFormed(signal, formantCount, n);
    if slots[formantCount].filled {
      assert ComesFrom(signal, n, slots[formantCount]);
    }
    if n > 1 {
      var prev := FormantScan(signal, formantCount, n - 1);
      LastSlotFilledIff(signal, formantCount, n - 1);
      FormantScanWellFormed(signal, formantCount, n - 1);
      var i := n - 1;
      if IsPositiveLocalMax(signal, i) && !prev[formantCount].filled {
        assert !prev[0].filled;
        assert prev[0] == Unfilled;
        assert Qualifies(signal, i, prev[0].magnitude);
      }
    }
  }

  /** `getFormants` returns exactly `formantCount + 1` slots. Each is either
      the initial `[0, 0, 0]` or was pushed for a positive strict local
      maximum of the peak sequence, at that entry's weighted centroid, and the
      initial slots all come before the pushed ones. The newest slot is filled
      exactly when such a local maximum exists. */
  lemma GetFormantsProperties(signal: seq<Peak>, formantCount: nat)
    ensures var r := FormantsSpec(signal, formantCount);
            && |r| == formantCount + 1
            && (forall j :: 0 <= j < |r| && !r[j].filled ==> r[j] == Unfilled)
            && (forall j :: 0 <= j < |r| && r[j].filled ==>
                  exists i :: IsPositiveLocalMax(signal, i) && r[j] == FormantAt(signal, i))
            && (forall j, j' :: 0 <= j < j' < |r| && r[j].filled ==> r[j'].filled)
            && (r[formantCount].filled <==> exists i :: IsPositiveLocalMax(signal, i))
  {
    var r := FormantsSpec(signal, formantCount);
    FormantScanWellFormed(signal, formantCount, |signal|);
    LastSlotFilledIff(signal, formantCount, |signal|);
    forall j | 0 <= j < |r| && r[j].filled
      ensures exists i :: IsPositiveLocalMax(signal, i) && r[j] == FormantAt(signal, i)
    {
      assert ComesFrom(signal, |signal|, r[j]);
    }
    if exists i :: IsPositiveLocalMax(signal, i) {
      var i :| IsPositiveLocalMax(signal, i);
      assert 1 <= i < |signal|;
    }
  }

  /** When every index of the peak sequence is non-negative, so is every
      slot's position. */
  lemma FormantPositionsNonNegative(signal: seq<Peak>, formantCount: nat)
    requires forall k :: 0 <= k < |signal| ==> signal[k].index >= 0
    ensures var r := FormantsSpec(signal, formantCount);
            forall j :: 0 <= j < |r| ==> r[j].position >= 0.0
  {
    var r := FormantsSpec(signal, formantCount);
    GetFormantsProperties(signal, formantCount);
    forall j | 0 <= j < |r|
      ensures r[j].position >= 0.0
    {
      if r[j].filled {
        var i :| IsPositiveLocalMax(signal, i) && r[j] == FormantAt(signal, i);
        CentroidBounds(signal, i);
      }
    }
  }

  // ---------------------------------------------------------------------
  // The two-slot window `calculateFirstFormantFrequency` asks for

  /** With one formant requested the window has two slots, and each push goes
      to the last of them. Slot 0 is therefore filled only after a second
      positive strict local maximum has been pushed. */
  lemma {:induction false} Slot0NeedsTwo(signal: seq<Peak>, n: nat)
    requires n <= |signal|
    ensures FormantScan(signal, 1, n)[0].filled ==>
              exists i, j :: 1 <= i < j < n && IsPositiveLocalMax(signal, i) && IsPositiveLocalMax(signal, j)
    decreases n
  {
    if n > 1 {
      var prev := FormantScan(signal, 1, n - 1);
      Slot0NeedsTwo(signal, n - 1);
      var j := n - 1;
      if Qualifies(signal, j, prev[0].magnitude) && prev[1].filled {
        LastSlotFilledIff(signal, 1, n - 1);
        var i :| 1 <= i < n - 1 && IsPositiveLocalMax(signal, i);
        assert IsPositiveLocalMax(signal, j);
      }
    }
  }

  /** The scan of a peak sequence whose only positive strict local maximum is
      entry `k`: nothing before `k`, then that formant in the last slot while
      slot 0 stays `[0, 0, 0]`. */
  lemma {:induction false} SingleMaximumScan(signal: seq<Peak>, n: nat, k: int)
    requires n <= |signal|
    requires IsPositiveLocalMax(signal, k)
    requires forall i :: IsPositiveLocalMax(signal, i) ==> i == k
    ensures FormantScan(signal, 1, n)
         == if k < n then [Unfilled, FormantAt(signal, k)] else [Unfilled, Unfilled]
    decreases n
  {
    if n <= 1 {
      assert FormantScan(signal, 1, n) == [Unfilled, Unfilled];
    } else {
      SingleMaximumScan(signal, n - 1, k);
      var prev := FormantScan(signal, 1, n - 1);
      var i := n - 1;
      assert Qualifies(signal, i, prev[0].magnitude) <==> IsPositiveLocalMax(signal, i);
      if i == k {
        assert prev[1..] + [FormantAt(signal, k)] == [Unfilled, FormantAt(signal, k)];
      }
    }
  }

  /** A single positive strict local maximum leaves slot 0 of a one-formant
      search at `[0, 0, 0]` and puts its formant in the last slot. */
  lemma SingleMaximumGivesZeroFirstFormant(signal: seq<Peak>, k: int)
    requires IsPositiveLocalMax(signal, k)
    requires forall i :: IsPositiveLocalMax(signal, i) ==> i == k
    ensures FormantsSpec(signal, 1) == [Unfilled, FormantAt(signal, k)]
  {
    SingleMaximumScan(signal, |signal|, k);
  }
}
