/** The integer core of `Unit.simulate.update` in nctrl/unit.py: an offline
    replay of the firing-rate trigger over a recorded spike histogram. The
    histogram is smoothed by a box-car moving sum,
    `np.convolve(hist, np.ones(B), 'same')`, and the stimulation times are
    the indices where the smoothed count first reaches `spike_count`,
    `np.where(np.diff((conv >= spike_count).astype(int)) > 0)[0] + 1`. */
module Unit {
  import opened Common
  import Decoder

  function Min(a: int, b: int): int { if a <= b then a else b }
  function Max(a: int, b: int): int { if a >= b then a else b }

  /** Entry k of the full convolution of `hist` with `ones(B)`:
      the sum over j of hist[j] * [0 <= k - j < B]. */
  function KernelSum(hist: seq<nat>, B: nat, k: int): (s: nat)
    ensures s <= Sum(hist)
  {
    if hist == [] then 0
    else
      var j := |hist| - 1;
      KernelSum(hist[..j], B, k) + (if 0 <= k - j < B then hist[j] else 0)
  }

  /** Where the 'same' output starts inside the full convolution: NumPy
      centres the output on the shorter of the two inputs. */
  function SameOffset(M: nat, B: nat): (off: nat)
    requires M >= 1 && B >= 1
  {
    (Min(M, B) - 1) / 2
  }

  /** `np.convolve(hist, np.ones(B), 'same')`: max(len(hist), B) moving
      sums, each between 0 and the total spike count. NumPy raises
      ValueError when either input is empty. */
  function BoxCar(hist: seq<nat>, B: nat): (r: Result<seq<nat>>)
    ensures r.Err? <==> hist == [] || B == 0
    ensures r.Err? ==> r.error == ValueError
    ensures r.Ok? ==> |r.value| == Max(|hist|, B)
    ensures r.Ok? ==> forall i :: 0 <= i < |r.value| ==> r.value[i] <= Sum(hist)
  {
    if hist == [] || B == 0 then Err(ValueError)
    else
      var off := SameOffset(|hist|, B);
      var conv := seq(Max(|hist|, B), i requires 0 <= i => KernelSum(hist, B, i + off));
      assert forall i :: 0 <= i < |conv| ==> conv[i] == KernelSum(hist, B, i + off);
      Ok(conv)
  }

  /** x clipped to the index range [0, n]. */
  function Clip(x: int, n: nat): (c: nat)
    ensures c <= n
  {
    if x < 0 then 0 else if x > n then n else x
  }

  /** Extending a window by the bin after it adds that bin's count. */
  lemma SumExtend(s: seq<nat>, lo: nat, n: nat)
    requires lo < n <= |s|
    ensures Sum(s[lo..n]) == Sum(s[..n - 1][lo..n - 1]) + s[n - 1]
  {
    assert s[lo..n][..n - 1 - lo] == s[..n - 1][lo..n - 1];
  }

  lemma SliceOfPrefix(s: seq<nat>, m: nat, a: nat, b: nat)
    requires a <= b <= m <= |s|
    ensures s[..m][a..b] == s[a..b]
  {
  }

  /** Full-convolution entry k is the sum of the B histogram bins ending
      at k, clipped to the histogram. */
  lemma {:induction false} KernelSumIsWindowSum(hist: seq<nat>, B: nat, k: int)
    requires B >= 1
    ensures KernelSum(hist, B, k) == Sum(hist[Clip(k - B + 1, |hist|)..Clip(k + 1, |hist|)])
  {
    var n := |hist|;
    if n > 0 {
      KernelSumIsWindowSum(hist[..n - 1], B, k);
      var lo := Clip(k - B + 1, n);
      if k - B + 1 <= n - 1 <= k {
        SumExtend(hist, lo, n);
      } else if k < n - 1 {
        SliceOfPrefix(hist, n - 1, lo, Clip(k + 1, n));
      }
    }
  }

  /** Each moving sum covers the B bins from i + off - B + 1 to i + off,
      clipped to the histogram, where off is (B - 1) / 2 when B is at most
      the histogram's length (then the output is as long as the histogram). */
  lemma BoxCarWindow(hist: seq<nat>, B: nat, i: nat)
    requires hist != [] && B >= 1 && i < Max(|hist|, B)
    ensures B <= |hist| ==> |BoxCar(hist, B).value| == |hist|
    ensures var off := SameOffset(|hist|, B);
            BoxCar(hist, B).value[i]
              == Sum(hist[Clip(i + off - B + 1, |hist|)..Clip(i + off + 1, |hist|)])
    ensures B <= |hist| ==>
              var h := (B - 1) / 2;
              BoxCar(hist, B).value[i] == Sum(hist[Clip(i + h - B + 1, |hist|)..Clip(i + h + 1, |hist|)])
  {
    KernelSumIsWindowSum(hist, B, i + SameOffset(|hist|, B));
  }

  /** `(conv >= spike_count).astype(int)`. */
  function Indicator(conv: seq<int>, k: int): (b: seq<int>)
    ensures |b| == |conv|
  {
    seq(|conv|, i requires 0 <= i < |conv| => if conv[i] >= k then 1 else 0)
  }

  /** `np.diff`: differences of neighbours, one fewer than the input. */
  function Diff(s: seq<int>): (d: seq<int>)
    ensures |d| == if s == [] then 0 else |s| - 1
  {
    if |s| <= 1 then [] else seq(|s| - 1, i requires 0 <= i < |s| - 1 => s[i + 1] - s[i])
  }

  /** Each element is larger than the one before it. */
  predicate StrictlyIncreasing(s: seq<int>)
  {
    forall j :: 0 < j < |s| ==> s[j - 1] < s[j]
  }

  /** `np.where(d > 0)[0]`: the indices of the positive entries, ascending. */
  function PositiveIndices(d: seq<int>): (idx: seq<nat>)
    ensures forall j :: 0 <= j < |idx| ==> idx[j] < |d| && d[idx[j]] > 0
    ensures forall i :: 0 <= i < |d| && d[i] > 0 ==> i in idx
  {
    if d == [] then []
    else
      var n := |d| - 1;
      var init := PositiveIndices(d[..n]);
      var idx := init + (if d[n] > 0 then [n] else []);
      assert forall j :: 0 <= j < |init| ==> idx[j] == init[j] && init[j] < n && d[init[j]] > 0;
      assert forall i :: 0 <= i < n && d[i] > 0 ==> i in init;
      idx
  }

  /** The indices come out in ascending order. */
  lemma {:induction false} PositiveIndicesAscend(d: seq<int>)
    ensures StrictlyIncreasing(PositiveIndices(d))
  {
    if d != [] {
      var n := |d| - 1;
      PositiveIndicesAscend(d[..n]);
      var init := PositiveIndices(d[..n]);
      var idx := PositiveIndices(d);
      assert idx == init + (if d[n] > 0 then [n] else []);
      forall j | 0 < j < |idx|
        ensures idx[j - 1] < idx[j]
      {
        if j < |init| {
          assert idx[j - 1] == init[j - 1] && idx[j] == init[j];
        } else {
          assert idx[j - 1] == init[j - 1] < n == idx[j];
        }
      }
    }
  }

  /** `th_up_idx`: the indices where the moving sum reaches `spike_count`. */
  function RisingEdges(conv: seq<int>, k: int): (e: seq<nat>)
    ensures forall j :: 0 <= j < |e| ==> 1 <= e[j] < |conv|
  {
    PlusOne(PositiveIndices(Diff(Indicator(conv, k))))
  }

  /** `idx + 1` on an index array. */
  function PlusOne(idx: seq<nat>): (r: seq<nat>)
    ensures |r| == |idx| && forall j :: 0 <= j < |idx| ==> r[j] == idx[j] + 1
  {
    seq(|idx|, j requires 0 <= j < |idx| => idx[j] + 1)
  }

  /** Entry i of the differenced indicator is positive exactly when the
      moving sum crosses `spike_count` between i and i + 1. */
  lemma DiffPositiveAt(conv: seq<int>, k: int, i: nat)
    requires i + 1 < |conv|
    ensures Diff(Indicator(conv, k))[i] > 0 <==> conv[i] < k <= conv[i + 1]
  {
  }

  /** Entry j of `th_up_idx` is one past entry j of the positive indices. */
  lemma RisingEdgeAt(conv: seq<int>, k: int, j: nat)
    requires j < |RisingEdges(conv, k)|
    ensures var p := PositiveIndices(Diff(Indicator(conv, k)));
            |p| == |RisingEdges(conv, k)| && RisingEdges(conv, k)[j] == p[j] + 1
  {
  }

  /** A reported index is a crossing. */
  lemma ReportedIsCrossing(conv: seq<int>, k: int, j: nat)
    requires j < |RisingEdges(conv, k)|
    ensures var i := RisingEdges(conv, k)[j];
            1 <= i < |conv| && conv[i - 1] < k <= conv[i]
  {
    var p := PositiveIndices(Diff(Indicator(conv, k)));
    RisingEdgeAt(conv, k, j);
    DiffPositiveAt(conv, k, p[j]);
  }

  /** A crossing is reported. */
  lemma CrossingIsReported(conv: seq<int>, k: int, i: nat)
    requires 1 <= i < |conv| && conv[i - 1] < k <= conv[i]
    ensures i in RisingEdges(conv, k)
  {
    var p := PositiveIndices(Diff(Indicator(conv, k)));
    DiffPositiveAt(conv, k, i - 1);
    assert i - 1 in p;
    var j :| 0 <= j < |p| && p[j] == i - 1;
    assert PlusOne(p)[j] == i;
  }

  lemma RisingEdgesSound(conv: seq<int>, k: int)
    ensures forall i :: i in RisingEdges(conv, k) ==> 1 <= i < |conv| && conv[i - 1] < k <= conv[i]
  {
    var e := RisingEdges(conv, k);
    forall j | 0 <= j < |e|
      ensures 1 <= e[j] < |conv| && conv[e[j] - 1] < k <= conv[e[j]]
    {
      ReportedIsCrossing(conv, k, j);
    }
  }

  lemma RisingEdgesComplete(conv: seq<int>, k: int)
    ensures forall i :: 1 <= i < |conv| && conv[i - 1] < k <= conv[i] ==> i in RisingEdges(conv, k)
  {
    forall i: nat | 1 <= i < |conv| && conv[i - 1] < k <= conv[i]
      ensures i in RisingEdges(conv, k)
    {
      CrossingIsReported(conv, k, i);
    }
  }

  lemma RisingEdgesAscend(conv: seq<int>, k: int)
    ensures StrictlyIncreasing(RisingEdges(conv, k))
  {
    var e := RisingEdges(conv, k);
    PositiveIndicesAscend(Diff(Indicator(conv, k)));
    forall j | 0 < j < |e|
      ensures e[j - 1] < e[j]
    {
      RisingEdgeAt(conv, k, j - 1);
      RisingEdgeAt(conv, k, j);
    }
  }

  /** Index i is reported exactly when the moving sum is below `spike_count`
      at i - 1 and at or above it at i; so index 0 never is, and the
      indices come out strictly increasing. */
  lemma RisingEdgesExactly(conv: seq<int>, k: int)
    ensures forall i :: i in RisingEdges(conv, k) <==> 1 <= i < |conv| && conv[i - 1] < k <= conv[i]
    ensures 0 !in RisingEdges(conv, k)
    ensures StrictlyIncreasing(RisingEdges(conv, k))
  {
    RisingEdgesSound(conv, k);
    RisingEdgesComplete(conv, k);
    RisingEdgesAscend(conv, k);
  }

  /** Between two consecutive reported indices the moving sum drops below
      `spike_count` again: one crossing is reported once. */
  lemma DropBetweenEdges(conv: seq<int>, k: int, j: nat)
    requires j + 1 < |RisingEdges(conv, k)|
    ensures var e := RisingEdges(conv, k);
            exists m :: e[j] < m < e[j + 1] && conv[m] < k
  {
    var e := RisingEdges(conv, k);
    RisingEdgesExactly(conv, k);
    assert e[j] in e && e[j + 1] in e;
    var m := e[j + 1] - 1;
    assert e[j] < m < e[j + 1] && conv[m] < k;
  }

  /** The offline rule agrees with the live detector: feeding the moving
      sums, one per call, to a fresh `FrThreshold` with `nspike` equal to
      `spike_count` returns 1 exactly at the reported indices, plus index 0
      when the first sum already reaches the threshold. */
  lemma FreshDetectorFiresAtRisingEdges(conv: seq<int>, k: int)
    ensures forall i :: 0 <= i < |conv| ==>
              (Decoder.Responses(conv, k, false)[i] == 1 <==>
                 i in RisingEdges(conv, k) || (i == 0 && conv[0] >= k))
  {
    RisingEdgesExactly(conv, k);
    forall i | 0 <= i < |conv|
      ensures Decoder.Responses(conv, k, false)[i] == 1 <==>
                i in RisingEdges(conv, k) || (i == 0 && conv[0] >= k)
    {
      Decoder.ResponseAt(conv, k, false, i);
    }
  }
}
