/** The newer real-time loop, nctrl-BMI/BMIrealtime_Func.py: each
    iteration updates the target unit's raster and, with the shared trigger
    rule, sends 'a' (laser on) or 'b' (laser off) at once. Unlike the older
    loop it keeps no hold window. */
module BmiNew {
  import opened Common
  import Decoder
  import opened BmiRule
  import BmiOld

  /** Raster times are taken modulo this period. */
  const RasterPeriod: int := 1000

  /** The bytes one iteration writes: exactly one with a serial port,
      'a' on a trigger and 'b' otherwise; none without a port. */
  function Command(hasPort: bool, trigger: bool): (w: seq<byte>)
    ensures hasPort ==> |w| == 1 && (w[0] == SignalOn <==> trigger) && (w[0] == SignalOff <==> !trigger)
    ensures !hasPort ==> w == []
  {
    if !hasPort then []
    else if trigger then [SignalOn]
    else [SignalOff]
  }

  /** Once the older loop's hold window has expired, the two loops write
      the same bytes; the older loop differs only by staying silent while
      the window is open. */
  lemma AgreesWithOldOnceHoldExpired(hasPort: bool, trigger: bool, now: int, lastSignal: int, hold: int)
    ensures now - lastSignal >= hold ==>
              BmiOld.Actuation(hasPort, trigger, now, lastSignal, hold) == Command(hasPort, trigger)
    ensures now - lastSignal < hold && hasPort && !trigger ==>
              BmiOld.Actuation(hasPort, trigger, now, lastSignal, hold) == [] != Command(hasPort, trigger)
  {
  }

  predicate Sorted(s: seq<int>)
  {
    forall i, j :: 0 <= i < j < |s| ==> s[i] <= s[j]
  }

  predicate InPeriod(s: seq<int>)
  {
    forall i :: 0 <= i < |s| ==> 0 <= s[i] < RasterPeriod
  }

  /** `plot_raster`'s bookkeeping on `spike_times`: a spike of another unit
      leaves the list alone; a spike of the target unit appends its time
      modulo 1000, after clearing the list when that time is smaller than
      the list's last one (the raster has wrapped round). The list stays
      sorted and within [0, 1000). */
  function RasterUpdate(times: seq<int>, targetId: int, event: BmiOutput): (times': seq<int>)
    ensures event.spkId != targetId ==> times' == times
    ensures event.spkId == targetId ==>
              var rmT := PyMod(event.timestamp, RasterPeriod);
              times' != [] && times'[|times'| - 1] == rmT &&
              (times' == [rmT] || times' == times + [rmT]) &&
              (times' == times + [rmT] <==> times == [] || times[|times| - 1] <= rmT)
    ensures Sorted(times) ==> Sorted(times')
    ensures InPeriod(times) ==> InPeriod(times')
  {
    var rmT := PyMod(event.timestamp, RasterPeriod);
    if event.spkId == targetId then
      var kept := if |times| != 0 && times[|times| - 1] > rmT then [] else times;
      assert kept == [] ==> kept + [rmT] == [rmT];
      kept + [rmT]
    else times
  }

  class BMIRealtime {
    /** Whether `bmi.TTLserial` is a port; without one nothing is written. */
    const hasPort: bool
    /** Every byte written to `TTLserial`, oldest first. */
    var ttl: seq<byte>
    /** `bmi_func`'s local list `spike_times`, which `plot_raster` updates
        in place and which is carried from one iteration to the next. */
    var spikeTimes: seq<int>

    predicate Valid()
      reads this
    {
      (!hasPort ==> ttl == []) && Sorted(spikeTimes) && InPeriod(spikeTimes)
    }

    /** The object as `bmi_func` finds it: nothing written, empty raster. */
    constructor (hasPort: bool)
      ensures Valid() && this.hasPort == hasPort && ttl == [] && spikeTimes == []
    {
      this.hasPort := hasPort;
      ttl := [];
      spikeTimes := [];
    }

    /** The raster bookkeeping of `plot_raster` (the drawing is not modelled). */
    method PlotRaster(targetNeuronId: int, event: BmiOutput)
      modifies this`spikeTimes
      ensures spikeTimes == RasterUpdate(old(spikeTimes), targetNeuronId, event)
    {
      var rmT := PyMod(event.timestamp, RasterPeriod);
      if event.spkId == targetNeuronId {
        if |spikeTimes| != 0 {
          if spikeTimes[|spikeTimes| - 1] > rmT {
            spikeTimes := [];
          }
        }
        spikeTimes := spikeTimes + [rmT];
      }
    }

    method SendSignal()
      modifies this`ttl
      ensures ttl == old(ttl) + Command(hasPort, true)
    {
      if hasPort {
        ttl := ttl + [SignalOn];
      }
    }

    method ResetSignal()
      modifies this`ttl
      ensures ttl == old(ttl) + Command(hasPort, false)
    {
      if hasPort {
        ttl := ttl + [SignalOff];
      }
    }

    /** One iteration of `bmi_func`'s loop for the event `event` and the
        binner matrix X (read only when the mode asks for it). */
    method Step(cfg: Config, event: BmiOutput, X: seq<seq<nat>>, width: nat)
      requires Valid() && CanRead(cfg, X, width)
      modifies this`ttl, this`spikeTimes
      ensures Valid()
      ensures spikeTimes == RasterUpdate(old(spikeTimes), cfg.targetId, event)
      ensures ttl == old(ttl) + Command(hasPort, Triggered(cfg, X, width, event.spkId))
    {
      PlotRaster(cfg.targetId, event);
      if Triggered(cfg, X, width, event.spkId) {
        SendSignal();
      } else {
        ResetSignal();
      }
    }
  }
}
