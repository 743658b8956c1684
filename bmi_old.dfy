/** The older real-time loop, Old_version/nctrl-BMI/BMIrealtime_Func.py:
    each iteration updates a per-unit raster, decides with the shared
    trigger rule, and either sends 'a' (laser on, restarting the hold
    window) or, once `laser_duration` has passed since the last 'a', sends
    'b' (laser off). The wall clock `time.time()` is the argument `now`. */
module BmiOld {
  import opened Common
  import Decoder
  import opened BmiRule

  /** The clock reading of the most recent 'a' of a byte log whose k-th
      byte was written at time stamps[k]; None when no 'a' was written. */
  function LastActivation(ttl: seq<byte>, stamps: seq<int>): (t: Option<int>)
    requires |stamps| == |ttl|
    ensures t.Some? <==> SignalOn in ttl
    ensures t.Some? ==> exists k :: 0 <= k < |ttl| && ttl[k] == SignalOn && stamps[k] == t.value &&
                                    forall j :: k < j < |ttl| ==> ttl[j] != SignalOn
  {
    if ttl == [] then None
    else if ttl[|ttl| - 1] == SignalOn then Some(stamps[|ttl| - 1])
    else
      var n := |ttl| - 1;
      assert ttl == ttl[..n] + [ttl[n]];
      var t := LastActivation(ttl[..n], stamps[..n]);
      assert t.Some? ==> exists k :: 0 <= k < |ttl| && ttl[k] == SignalOn && stamps[k] == t.value &&
                                     forall j :: k < j < |ttl| ==> ttl[j] != SignalOn;
      t
  }

  /** The hold guarantee: every 'b' was written at least `hold` after the
      most recent 'a' before it. */
  predicate HoldRespected(ttl: seq<byte>, stamps: seq<int>, hold: int)
    requires |stamps| == |ttl|
  {
    forall k :: 0 <= k < |ttl| && ttl[k] == SignalOff ==>
      var last := LastActivation(ttl[..k], stamps[..k]);
      last.Some? ==> stamps[k] - last.value >= hold
  }

  /** The bytes one iteration writes: `send_signal_to_teensy` on a trigger,
      `reset_signal_to_teensy` otherwise; nothing without a serial port. */
  function Actuation(hasPort: bool, trigger: bool, now: int, lastSignal: int, hold: int): (w: seq<byte>)
    ensures |w| <= 1
    ensures w == [] <==> !hasPort || (!trigger && now - lastSignal < hold)
    ensures SignalOn in w <==> hasPort && trigger
    ensures SignalOff in w <==> hasPort && !trigger && now - lastSignal >= hold
  {
    if !hasPort then []
    else if trigger then [SignalOn]
    else if now - lastSignal >= hold then [SignalOff]
    else []
  }

  /** `last_signal_time` after the iteration: only a written 'a' moves it. */
  function NextSignalTime(hasPort: bool, trigger: bool, now: int, lastSignal: int): (t: int)
    ensures t != lastSignal ==> hasPort && trigger && t == now
    ensures hasPort && trigger ==> t == now
  {
    if hasPort && trigger then now else lastSignal
  }

  /** `n` copies of the clock reading `now`. */
  function Stamped(now: int, n: nat): (s: seq<int>)
    ensures |s| == n
  {
    seq(n, _ => now)
  }

  /** Appending one byte written at `now` keeps the hold guarantee when a
      'b' comes at least `hold` after the most recent 'a'; an appended 'a'
      becomes the most recent one. */
  lemma AppendKeepsHold(ttl: seq<byte>, stamps: seq<int>, hold: int, c: byte, now: int)
    requires |stamps| == |ttl| && HoldRespected(ttl, stamps, hold)
    requires c == SignalOff && LastActivation(ttl, stamps).Some? ==>
               now - LastActivation(ttl, stamps).value >= hold
    ensures HoldRespected(ttl + [c], stamps + [now], hold)
    ensures LastActivation(ttl + [c], stamps + [now])
              == if c == SignalOn then Some(now) else LastActivation(ttl, stamps)
  {
    var ttl', stamps' := ttl + [c], stamps + [now];
    assert ttl'[..|ttl|] == ttl && stamps'[..|ttl|] == stamps;
    forall k | 0 <= k < |ttl'| && ttl'[k] == SignalOff
      ensures var last := LastActivation(ttl'[..k], stamps'[..k]);
              last.Some? ==> stamps'[k] - last.value >= hold
    {
      if k < |ttl| {
        assert ttl'[..k] == ttl[..k] && stamps'[..k] == stamps[..k];
      }
    }
  }

  /** One iteration keeps the hold guarantee, and `last_signal_time` stays
      the time of the most recent 'a'. */
  lemma HoldStep(ttl: seq<byte>, stamps: seq<int>, hold: int, lastSignal: int,
                 hasPort: bool, trigger: bool, now: int)
    requires |stamps| == |ttl| && HoldRespected(ttl, stamps, hold)
    requires LastActivation(ttl, stamps).Some? ==> LastActivation(ttl, stamps).value == lastSignal
    ensures var w := Actuation(hasPort, trigger, now, lastSignal, hold);
            var ttl', stamps' := ttl + w, stamps + Stamped(now, |w|);
            HoldRespected(ttl', stamps', hold) &&
            (LastActivation(ttl', stamps').Some? ==>
               LastActivation(ttl', stamps').value == NextSignalTime(hasPort, trigger, now, lastSignal))
  {
    var w := Actuation(hasPort, trigger, now, lastSignal, hold);
    if w == [] {
      assert ttl + w == ttl && stamps + Stamped(now, 0) == stamps;
    } else {
      assert w == [w[0]] && Stamped(now, 1) == [now];
      AppendKeepsHold(ttl, stamps, hold, w[0], now);
    }
  }

  /** `plot_raster`'s bookkeeping: the event's unit gets a list if it had
      none; on a window rollover every list is emptied; then the event's
      time within the window is appended to its unit's list. */
  function RasterUpdate(times: map<int, seq<int>>, spkId: int, rmT: int, rollover: bool)
    : (times': map<int, seq<int>>)
    ensures times'.Keys == times.Keys + {spkId}
    ensures times'[spkId] == (if rollover || spkId !in times then [] else times[spkId]) + [rmT]
    ensures forall u :: u in times && u != spkId ==>
              times'[u] == if rollover then [] else times[u]
  {
    var withUnit := if spkId in times then times else times[spkId := []];
    var cleared := if rollover then map u | u in withUnit :: [] else withUnit;
    cleared[spkId := cleared[spkId] + [rmT]]
  }

  /** Every stored raster time lies in [0, window). */
  predicate InWindow(times: map<int, seq<int>>, window: int)
  {
    forall u :: u in times ==> forall k :: 0 <= k < |times[u]| ==> 0 <= times[u][k] < window
  }

  /** With a positive window, every raster time stays within the window. */
  lemma RasterStaysInWindow(times: map<int, seq<int>>, t: int, spkId: int, window: int, rollover: bool)
    requires window > 0 && InWindow(times, window)
    ensures InWindow(RasterUpdate(times, spkId, PyMod(t, window), rollover), window)
  {
    var times' := RasterUpdate(times, spkId, PyMod(t, window), rollover);
    forall u | u in times'
      ensures forall k :: 0 <= k < |times'[u]| ==> 0 <= times'[u][k] < window
    {
      if u == spkId && !rollover && spkId in times {
        assert times'[u] == times[u] + [PyMod(t, window)];
      }
    }
  }

  class BMIRealtime {
    /** Whether `bmi.TTLserial` is a port; without one nothing is written. */
    const hasPort: bool
    /** Every byte written to `TTLserial`, oldest first. */
    var ttl: seq<byte>
    /** The clock reading at which each byte of `ttl` was written. */
    ghost var stamps: seq<int>
    /** `spike_times_dict`: raster times per unit id. */
    var spikeTimes: map<int, seq<int>>
    var lastSignalTime: int
    var laserDuration: int
    /** `bmi_func`'s local `start_time`, carried from one iteration to the next. */
    var startTime: int

    ghost predicate Valid()
      reads this
    {
      |stamps| == |ttl| &&
      (!hasPort ==> ttl == []) &&
      HoldRespected(ttl, stamps, laserDuration) &&
      (LastActivation(ttl, stamps).Some? ==> LastActivation(ttl, stamps).value == lastSignalTime)
    }

    /** The object as `bmi_func` finds it: nothing written, no raster, last
        signal at time 0, and `laser_duration` as `start_bmi_realtime` set it. */
    constructor (hasPort: bool, laserDuration: int)
      ensures Valid()
      ensures this.hasPort == hasPort && this.laserDuration == laserDuration
      ensures ttl == [] && spikeTimes == map[] && lastSignalTime == 0 && startTime == 0
    {
      this.hasPort := hasPort;
      this.laserDuration := laserDuration;
      ttl, stamps := [], [];
      spikeTimes := map[];
      lastSignalTime := 0;
      startTime := 0;
    }

    /** The raster bookkeeping of `plot_raster` (the drawing is not modelled).
        `t % window_duration` raises ZeroDivisionError for a zero window. */
    method PlotRaster(event: BmiOutput, windowDuration: int, updateFlag: bool)
      requires windowDuration != 0
      modifies this`spikeTimes
      ensures spikeTimes == RasterUpdate(old(spikeTimes), event.spkId,
                                         PyMod(event.timestamp, windowDuration), updateFlag)
    {
      var rmT := PyMod(event.timestamp, windowDuration);
      if event.spkId !in spikeTimes {
        spikeTimes := spikeTimes[event.spkId := []];
      }
      if updateFlag {
        spikeTimes := map u | u in spikeTimes :: [];
      }
      spikeTimes := spikeTimes[event.spkId := spikeTimes[event.spkId] + [rmT]];
    }

    /** Writes 'a' and restarts the hold window. */
    method SendSignal(now: int)
      requires Valid()
      modifies this`ttl, this`stamps, this`lastSignalTime
      ensures Valid()
      ensures ttl == old(ttl) + Actuation(hasPort, true, now, old(lastSignalTime), laserDuration)
      ensures lastSignalTime == NextSignalTime(hasPort, true, now, old(lastSignalTime))
    {
      HoldStep(ttl, stamps, laserDuration, lastSignalTime, hasPort, true, now);
      assert Stamped(now, 1) == [now];
      if hasPort {
        ttl, stamps := ttl + [SignalOn], stamps + [now];
        lastSignalTime := now;
      } else {
        assert ttl + [] == ttl && stamps + [] == stamps;
      }
    }

    /** Writes 'b' once `laser_duration` has passed since the last 'a'. */
    method ResetSignal(now: int)
      requires Valid()
      modifies this`ttl, this`stamps
      ensures Valid()
      ensures ttl == old(ttl) + Actuation(hasPort, false, now, lastSignalTime, laserDuration)
    {
      HoldStep(ttl, stamps, laserDuration, lastSignalTime, hasPort, false, now);
      assert Stamped(now, 1) == [now];
      assert ttl + [] == ttl && stamps + [] == stamps;
      if hasPort {
        var currentTime := now;
        if currentTime - lastSignalTime >= laserDuration {
          ttl, stamps := ttl + [SignalOff], stamps + [now];
        }
      }
    }

    /** One iteration of `bmi_func`'s loop for the event `event`, the
        binner matrix X (read only when the mode asks for it) and the
        clock reading `now`. */
    method Step(cfg: Config, event: BmiOutput, X: seq<seq<nat>>, width: nat, now: int)
      requires Valid() && cfg.windowDuration != 0 && CanRead(cfg, X, width)
      modifies this`ttl, this`stamps, this`lastSignalTime, this`spikeTimes, this`startTime
      ensures Valid()
      ensures var rollover := event.timestamp - old(startTime) > cfg.windowDuration;
              startTime == (if rollover then event.timestamp else old(startTime)) &&
              spikeTimes == RasterUpdate(old(spikeTimes), event.spkId,
                                         PyMod(event.timestamp, cfg.windowDuration), rollover)
      ensures var fire := Triggered(cfg, X, width, event.spkId);
              ttl == old(ttl) + Actuation(hasPort, fire, now, old(lastSignalTime), laserDuration) &&
              lastSignalTime == NextSignalTime(hasPort, fire, now, old(lastSignalTime))
    {
      var updateFlag := false;
      if event.timestamp - startTime > cfg.windowDuration {
        updateFlag := true;
        startTime := event.timestamp;
      }
      PlotRaster(event, cfg.windowDuration, updateFlag);
      if Triggered(cfg, X, width, event.spkId) {
        SendSignal(now);
      } else {
        ResetSignal(now);
      }
    }
  }
}
