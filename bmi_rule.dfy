/** What the two versions of `BMIRealtime.bmi_func`
    (Old_version/nctrl-BMI/BMIrealtime_Func.py and
    nctrl-BMI/BMIrealtime_Func.py) have in common: the event they read each
    iteration, their parameters, the bytes they send to the Teensy, and the
    mode-gated rule that decides whether to send the stimulation byte. */
module BmiRule {
  import opened Common
  import Decoder

  /** `mode` values that switch one of the two votes off; any other mode
      string leaves both on. */
  const SpikeIdMode: string := "spike ID"
  const FiringRateMode: string := "firing rate"

  const SignalOn: byte := 0x61   // 'a', laser on
  const SignalOff: byte := 0x62  // 'b', laser off

  /** One result of `bmi.read_bmi()`: the acquisition timestamp and the id
      of the unit the spike was sorted into. */
  datatype BmiOutput = BmiOutput(timestamp: int, spkId: int)

  /** The arguments of `bmi_func`. */
  datatype Config = Config(
    mode: string,
    targetId: int,
    neuronId: int,
    threshold: int,
    windowDuration: int)

  /** The binner matrix X is `width` units wide and, whenever the mode
      consults it, `neuron_id` indexes one of its columns. */
  predicate CanRead(cfg: Config, X: seq<seq<nat>>, width: nat)
  {
    Decoder.IsMatrix(X, width) &&
    (cfg.mode != SpikeIdMode ==> PyIndex(cfg.neuronId, width).Some?)
  }

  /** Whether an iteration sends the stimulation byte: the firing-rate vote
      (neuron_id's count summed over the binner window reaches `threshold`),
      taken unless the mode is "spike ID", OR the spike-id vote (the event
      came from `targetID`), taken unless the mode is "firing rate". */
  function Triggered(cfg: Config, X: seq<seq<nat>>, width: nat, spkId: int): (fire: bool)
    requires CanRead(cfg, X, width)
    ensures cfg.mode == SpikeIdMode ==> (fire <==> spkId == cfg.targetId)
    ensures cfg.mode == FiringRateMode ==>
              (fire <==> Decoder.ColumnSum(X, PyIndex(cfg.neuronId, width).value) >= cfg.threshold)
    ensures cfg.mode != SpikeIdMode && cfg.mode != FiringRateMode ==>
              (fire <==> Decoder.ColumnSum(X, PyIndex(cfg.neuronId, width).value) >= cfg.threshold
                         || spkId == cfg.targetId)
  {
    var frFlag := cfg.mode != SpikeIdMode &&
                  Decoder.ColumnSum(X, PyIndex(cfg.neuronId, width).value) >= cfg.threshold;
    var spkFlag := cfg.mode != FiringRateMode && spkId == cfg.targetId;
    frFlag || spkFlag
  }

  /** Of the binner matrix only column `neuron_id` matters: two matrices
      that agree on it, bin by bin, lead to the same decision. */
  lemma TriggeredReadsOnlyNeuronColumn(cfg: Config, X: seq<seq<nat>>, Y: seq<seq<nat>>, width: nat, spkId: int)
    requires CanRead(cfg, X, width) && CanRead(cfg, Y, width)
    requires |X| == |Y|
    requires cfg.mode != SpikeIdMode ==>
               forall b :: 0 <= b < |X| ==>
                 X[b][PyIndex(cfg.neuronId, width).value] == Y[b][PyIndex(cfg.neuronId, width).value]
    ensures Triggered(cfg, X, width, spkId) == Triggered(cfg, Y, width, spkId)
  {
    if cfg.mode != SpikeIdMode {
      Decoder.ColumnSumReadsOnlyColumn(X, Y, PyIndex(cfg.neuronId, width).value);
    }
  }
}
