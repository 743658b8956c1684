/** The spike-count decoders of nctrl/decoder.py: `FrThreshold`, a
    rising-edge detector on one unit's spike count over the binner window,
    and `Spikes`, which reports which of up to 16 target units fired in the
    newest bin. The binner output X is a B x N matrix of spike counts,
    B bins (rows) by N units (columns). */
module Decoder {
  import opened Common

  /** `nspike` of a detector built with no arguments (1e6 in the source). */
  const DefaultNSpike: int := 1000000

  /** `Spikes.fit` keeps at most this many target units, one per output channel. */
  const MaxChannels: nat := 16

  /** X has B rows of exactly `width` unit counts each, as a NumPy array does. */
  predicate IsMatrix(X: seq<seq<nat>>, width: nat)
  {
    forall b :: 0 <= b < |X| ==> |X[b]| == width
  }

  /** `X[:, u].sum()`: unit u's spike count summed over all B bins. */
  function ColumnSum(X: seq<seq<nat>>, u: nat): (s: nat)
    requires forall b :: 0 <= b < |X| ==> u < |X[b]|
    ensures forall b :: 0 <= b < |X| ==> X[b][u] <= s
  {
    if X == [] then 0 else ColumnSum(X[..|X| - 1], u) + X[|X| - 1][u]
  }

  /** `X[:, u]`: unit u's count in each bin, oldest bin first. */
  function Column(X: seq<seq<nat>>, u: nat): (c: seq<int>)
    requires forall b :: 0 <= b < |X| ==> u < |X[b]|
    ensures |c| == |X| && forall b :: 0 <= b < |X| ==> c[b] == X[b][u]
  {
    seq(|X|, b requires 0 <= b < |X| => X[b][u])
  }

  /** The column count is the plain sum of the column. */
  lemma {:induction false} ColumnSumIsSum(X: seq<seq<nat>>, u: nat)
    requires forall b :: 0 <= b < |X| ==> u < |X[b]|
    ensures ColumnSum(X, u) == Sum(Column(X, u))
  {
    if X != [] {
      var n := |X| - 1;
      ColumnSumIsSum(X[..n], u);
      assert Column(X, u)[..n] == Column(X[..n], u);
    }
  }

  /** Only column u is read: two matrices that agree on column u, bin by
      bin, have the same count, whatever their other columns hold. */
  lemma {:induction false} ColumnSumReadsOnlyColumn(X: seq<seq<nat>>, Y: seq<seq<nat>>, u: nat)
    requires |X| == |Y|
    requires forall b :: 0 <= b < |X| ==> u < |X[b]| && u < |Y[b]| && X[b][u] == Y[b][u]
    ensures ColumnSum(X, u) == ColumnSum(Y, u)
  {
    if X != [] {
      ColumnSumReadsOnlyColumn(X[..|X| - 1], Y[..|Y| - 1], u);
    }
  }

  /** The value `FrThreshold.predict` returns, given the latch before the
      call and the unit's count: 1 on the rising edge only. */
  function Fire(wasActive: bool, count: int, nspike: int): (y: nat)
    ensures y <= 1
    ensures y == 1 <==> !wasActive && count >= nspike
  {
    if wasActive then 0
    else if count >= nspike then 1
    else 0
  }

  /** What successive `predict` calls return when they see the unit counts
      `counts`, one per call, starting from latch `active`. After each call
      the latch is `count >= nspike`. */
  function Responses(counts: seq<int>, nspike: int, active: bool): (ys: seq<nat>)
    ensures |ys| == |counts|
  {
    if counts == [] then []
    else [Fire(active, counts[0], nspike)] + Responses(counts[1..], nspike, counts[0] >= nspike)
  }

  /** The i-th response depends only on the i-th count and on whether the
      previous count reached the threshold: the latch before call i. */
  lemma {:induction false} ResponseAt(counts: seq<int>, nspike: int, active: bool, i: nat)
    requires i < |counts|
    ensures Responses(counts, nspike, active)[i]
            == Fire(if i == 0 then active else counts[i - 1] >= nspike, counts[i], nspike)
  {
    if i > 0 {
      ResponseAt(counts[1..], nspike, counts[0] >= nspike, i - 1);
    }
  }

  /** While the count stays at or above the threshold, at most one call of a
      run returns 1, and only the first: the detector is an edge detector. */
  lemma OneFirePerEpisode(counts: seq<int>, nspike: int, active: bool, lo: nat, hi: nat)
    requires lo <= hi <= |counts|
    requires forall i :: lo <= i < hi ==> counts[i] >= nspike
    ensures forall i :: lo < i < hi ==> Responses(counts, nspike, active)[i] == 0
  {
    forall i | lo < i < hi
      ensures Responses(counts, nspike, active)[i] == 0
    {
      ResponseAt(counts, nspike, active, i);
    }
  }

  /** A latch that has been released fires again on the next call whose
      count reaches the threshold. */
  lemma RearmsAfterRelease(counts: seq<int>, nspike: int, active: bool, i: nat)
    requires 0 < i < |counts|
    requires counts[i - 1] < nspike <= counts[i]
    ensures Responses(counts, nspike, active)[i] == 1
  {
    ResponseAt(counts, nspike, active, i);
  }

  /** The hysteresis edge detector. */
  class FrThreshold {
    var unitId: int
    var nspike: int
    var isActive: bool

    /** A new detector is released; its defaults are unit 0 and 1e6 spikes. */
    constructor (unitId: int := 0, nspike: int := DefaultNSpike)
      ensures this.unitId == unitId && this.nspike == nspike && !isActive
    {
      this.unitId := unitId;
      this.nspike := nspike;
      isActive := false;
    }

    /** Sets the fields whose argument is given; the latch is left alone. */
    method Fit(unitId: Option<int>, nspike: Option<int>)
      modifies this`unitId, this`nspike
      ensures this.unitId == if unitId.Some? then unitId.value else old(this.unitId)
      ensures this.nspike == if nspike.Some? then nspike.value else old(this.nspike)
      ensures isActive == old(isActive)
    {
      if unitId.Some? {
        this.unitId := unitId.value;
      }
      if nspike.Some? {
        this.nspike := nspike.value;
      }
    }

    /** Returns 1 when the unit's count over the window reaches `nspike` and
        the latch was released, 0 otherwise; afterwards the latch records
        whether the count reached `nspike`, whatever it was before. A unit
        id outside the matrix raises IndexError and changes nothing. */
    method Predict(X: seq<seq<nat>>, width: nat) returns (r: Result<nat>)
      requires IsMatrix(X, width)
      modifies this`isActive
      ensures PyIndex(unitId, width).None? ==> r == Err(IndexError) && isActive == old(isActive)
      ensures PyIndex(unitId, width).Some? ==>
                var count := ColumnSum(X, PyIndex(unitId, width).value);
                r == Ok(Fire(old(isActive), count, nspike)) && isActive == (count >= nspike)
    {
      var column := PyIndex(unitId, width);
      if column.None? {
        return Err(IndexError);
      }
      var count := ColumnSum(X, column.value);
      if isActive {
        if count < nspike {
          isActive := false;
          return Ok(0);
        } else {
          return Ok(0);
        }
      } else {
        if count >= nspike {
          isActive := true;
          return Ok(1);
        } else {
          return Ok(0);
        }
      }
    }
  }

  /** The first `MaxChannels` ids of `ids`, in order: all of them when there
      are no more than that. */
  function FirstChannels(ids: seq<int>): (kept: seq<int>)
    ensures |kept| == if |ids| > MaxChannels then MaxChannels else |ids|
    ensures forall i :: 0 <= i < |kept| ==> kept[i] == ids[i]
  {
    if |ids| > MaxChannels then ids[..MaxChannels] else ids
  }

  /** What `Spikes.predict` returns: the int 0 when there are no target
      units, else one flag per target unit. */
  datatype SpikesOutput = Zero | Flags(fired: seq<bool>)

  /** Every id of `ids` indexes a column of a `width`-wide matrix. */
  predicate AllIndexable(ids: seq<int>, width: nat)
  {
    forall i :: 0 <= i < |ids| ==> PyIndex(ids[i], width).Some?
  }

  /** The identity decoder: which target units spiked in the newest bin. */
  class Spikes {
    var unitIds: seq<int>

    /** The ids given to the constructor are kept as they are (no truncation). */
    constructor (unitIds: Option<seq<int>>)
      ensures this.unitIds == if unitIds.Some? then unitIds.value else []
    {
      this.unitIds := if unitIds.Some? then unitIds.value else [];
    }

    method Fit(unitIds: seq<int>)
      modifies this`unitIds
      ensures this.unitIds == FirstChannels(unitIds)
    {
      this.unitIds := FirstChannels(unitIds);
    }

    /** `X[-1, unit_ids] > 0`: flag i says whether target unit i has a
        positive count in the last bin; earlier bins are never read. An
        empty matrix or an id outside it raises IndexError. */
    function Predict(X: seq<seq<nat>>, width: nat): (r: Result<SpikesOutput>)
      reads this
      requires IsMatrix(X, width)
      ensures r == Ok(Zero) <==> unitIds == []
      ensures r.Err? <==> unitIds != [] && (X == [] || !AllIndexable(unitIds, width))
      ensures r.Err? ==> r.error == IndexError
      ensures r.Ok? && r.value.Flags? ==>
                |r.value.fired| == |unitIds| &&
                forall i :: 0 <= i < |unitIds| ==>
                  (r.value.fired[i] <==> X[|X| - 1][PyIndex(unitIds[i], width).value] > 0)
    {
      var ids := unitIds;
      if ids == [] then Ok(Zero)
      else if X == [] || !AllIndexable(ids, width) then Err(IndexError)
      else
        var last := X[|X| - 1];
        Ok(Flags(seq(|ids|, i requires 0 <= i < |ids| => last[PyIndex(ids[i], width).value] > 0)))
    }
  }

  /** Two matrices with the same newest bin give the same `Spikes.predict`
      answer: earlier bins are ignored. */
  lemma SpikesReadsOnlyLastBin(s: Spikes, X: seq<seq<nat>>, Y: seq<seq<nat>>, width: nat)
    requires IsMatrix(X, width) && IsMatrix(Y, width)
    requires X != [] && Y != [] && X[|X| - 1] == Y[|Y| - 1]
    ensures s.Predict(X, width) == s.Predict(Y, width)
  {
  }
}
