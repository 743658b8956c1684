# nctrl-BMI decision and actuation core, in Dafny

This project models the closed-loop stimulation logic of nctrl-BMI and proves
properties of it. Spike counts from a binner come in; a decoder or a mode-gated
rule decides; bytes go out on a serial link to a laser controller (a Teensy).

| file | models |
|---|---|
| `common.dfy` | serial bytes; `ValueError`/`IndexError` as a `Result`; Python indexing (negative indices, `IndexError`); Python's `%` |
| `decoder.dfy` | `FrThreshold` (edge detector on one unit's windowed count) and `Spikes` (which target units fired in the newest bin; `fit` keeps at most 16 of them), from `nctrl/decoder.py` |
| `output.dfy` | `Laser` from `nctrl/output.py`: the serial port is an append-only byte log; the command bytes `a A e E d<digits> p<packbits>` with a decoder that reads them back, and `np.packbits` with its inverse |
| `bmi_rule.dfy` | the event, the parameters and the mode-gated OR rule shared by both versions of `BMIRealtime.bmi_func` |
| `bmi_old.dfy` | `Old_version/nctrl-BMI/BMIrealtime_Func.py`: one loop iteration, the `a`/`b` hold window (`laser_duration`), and the per-unit raster dictionary |
| `bmi_new.dfy` | `nctrl-BMI/BMIrealtime_Func.py`: one loop iteration with no hold, and the single-unit raster list |
| `unit.dfy` | the integer part of `Unit.simulate.update` in `nctrl/unit.py`: the box-car moving sum and the rising-edge indices. A lemma ties them to `FrThreshold` |

The stateful parts are classes whose methods change their fields:
- `FrThreshold`, `Spikes` and `Laser`;
- `BMIRealtime` in each version. Its fields also hold the loop locals `start_time` and `spike_times`, because they carry over from one iteration to the next.

Each method's `ensures` ties its new state to a pure function of the old state, and the properties are proved about those functions.

The older loop's hold guarantee is an invariant of its class: no `b` is written less than `laser_duration` after the most recent `a`. A ghost sequence gives the clock reading of every byte written, and the invariant is stated over it.

The wall clock `time.time()` is an integer argument `now`. The spiketag binner output is a B×N matrix of naturals. The event from `read_bmi()` is a (timestamp, unit id) pair.

Behaviour the model keeps as the code has it:
- `FrThreshold.predict` is an edge detector. It returns 1 only on the call where the count first reaches `nspike`, and 0 while the latch is set.
- The older loop sends `a` again on every triggering iteration, with no de-duplication. Each one restarts the hold window.
- `Laser` switches off with `A`; the BMI loops use `b`.
- `Laser` has no dry mode. Only the BMI loops skip writing when there is no serial port.

## Model

| member | source | states |
|---|---|---|
| Common.PyIndex | nctrl/decoder.py:22 | an index is accepted exactly when `-n <= i < n`, and a negative one counts from the end; otherwise IndexError |
| Common.PyMod | Old_version/nctrl-BMI/BMIrealtime_Func.py:34 | Python's `t % w`: `t` minus it is a multiple of `w`, and it lies in `[0, w)` for a positive `w` and in `(w, 0]` for a negative one, which fixes it for both signs |
| Decoder.ColumnSum | nctrl/decoder.py:22 | `X[:, u].sum()` is at least every count in column u |
| Decoder.Column | nctrl/decoder.py:22 | `X[:, u]` has one entry per bin, the unit's count in that bin |
| Decoder.ColumnSumIsSum | nctrl/decoder.py:22 | the column count is the plain sum of `X[:, u]` |
| Decoder.ColumnSumReadsOnlyColumn | nctrl/decoder.py:22 | two matrices that agree on column u give the same count, whatever their other columns hold |
| Decoder.Fire | nctrl/decoder.py:23-34 | `predict` returns 0 or 1, and 1 exactly when the latch was released and the count reaches `nspike` |
| Decoder.Responses | nctrl/decoder.py:19-34 | successive `predict` calls give one answer per count |
| Decoder.ResponseAt | nctrl/decoder.py:23-34 | the i-th answer depends only on count i and on whether count i-1 reached `nspike` (the latch before call i) |
| Decoder.OneFirePerEpisode | nctrl/decoder.py:23-28 | over a run of counts at or above `nspike`, no call after the first returns 1 |
| Decoder.RearmsAfterRelease | nctrl/decoder.py:24-32 | after a count below `nspike`, the next count reaching it returns 1 |
| Decoder.FrThreshold.constructor | nctrl/decoder.py:5-9 | a new detector is released, with unit 0 and `nspike` 1e6 by default |
| Decoder.FrThreshold.Fit | nctrl/decoder.py:11-17 | only the fields whose argument is given change, and the latch is never reset |
| Decoder.FrThreshold.Predict | nctrl/decoder.py:19-34 | returns `Fire(old latch, column sum, nspike)`; afterwards the latch equals `sum >= nspike` whatever it was before; a unit id outside the matrix raises IndexError and changes nothing |
| Decoder.FirstChannels | nctrl/decoder.py:44 | keeps exactly the first min(16, len) ids, in their original order |
| Decoder.Spikes.constructor | nctrl/decoder.py:38-40 | the given ids are kept untruncated, and no ids means the empty list |
| Decoder.Spikes.Fit | nctrl/decoder.py:42-44 | the stored ids are the first min(16, len) given ids |
| Decoder.Spikes.Predict | nctrl/decoder.py:46-47 | 0 exactly when there are no target ids; otherwise one flag per id, true exactly when that id's count in the last bin is positive; IndexError exactly for an empty matrix or an id outside it |
| Decoder.SpikesReadsOnlyLastBin | nctrl/decoder.py:47 | two matrices with the same last bin give the same answer |
| Output.Decimal | nctrl/output.py:42 | `str(n)` is a non-empty string of ASCII digits with no leading zero, and 0 is exactly `"0"`; with ParseDecimalOfDecimal this fixes it as the decimal form of n |
| Output.ParseDecimalOfDecimal | nctrl/output.py:42 | the digits of a duration parse back to that duration |
| Output.PackBits | nctrl/output.py:23 | `np.packbits` makes `ceil(len / 8)` bytes |
| Output.UnpackPackBits | nctrl/output.py:23 | unpacking the packed bytes gives back every flag, in order, then the zero bits that pad the last byte |
| Output.RowBits | nctrl/output.py:23 | `astype(np.uint8)` keeps one flag per element |
| Output.Encode | nctrl/output.py:19-42 | each command is at least one byte: `a`, `A`, `e`, `E`, `d` with the decimal digits, or `p` with the packed mask; DecodeEncode proves each reads back as its command |
| Output.DecodeEncode | nctrl/output.py:19-42 | every command byte string the laser writes reads back as that command |
| Output.ValidDuration | nctrl/output.py:40 | the durations `set_duration` accepts: any bool (an int in Python) and any int that is not negative; every other value raises ValueError (SetDuration) |
| Output.DurationBytes | nctrl/output.py:42 | a valid int duration is sent as `d` followed by `str(n)` (Decimal), which reads back as that duration; a bool is sent as `dTrue` or `dFalse` |
| Output.CallBytes | nctrl/output.py:15-24 | `__call__` raises ValueError exactly for an array of more than one row whose first row packs to an odd number of bytes (the uint16 view) |
| Output.CallBytesMeaning | nctrl/output.py:15-24 | the int 1 or True reads back as activate `a`; any other int or False as deactivate `A`; a multi-row array as `p` with bytes that unpack to its first row's flags plus padding; anything else writes nothing |
| Output.Laser.Init | nctrl/output.py:8-12 | the duration is stored as given and nothing has been written |
| Output.Laser.Open | nctrl/output.py:8-13 | opening fails with ValueError exactly for an invalid duration; otherwise the duration is stored unchanged and the log holds that duration's bytes |
| Output.Laser.Call | nctrl/output.py:15-24 | appends exactly `CallBytes(y)`, or raises and appends nothing |
| Output.Laser.On | nctrl/output.py:29-32 | appends exactly the enable command `e` |
| Output.Laser.Off | nctrl/output.py:34-37 | appends exactly the disable command `E` |
| Output.Laser.SetDuration | nctrl/output.py:39-44 | a non-int or negative duration raises ValueError before anything is written; a valid one appends its duration bytes; the stored duration never changes |
| BmiRule.Triggered | Old_version/nctrl-BMI/BMIrealtime_Func.py:87-98 | "spike ID" mode fires exactly on a target-unit spike; "firing rate" mode fires exactly when `neuron_id`'s summed count reaches `threshold`; any other mode fires on either |
| BmiRule.TriggeredReadsOnlyNeuronColumn | nctrl-BMI/BMIrealtime_Func.py:66-71 | only column `neuron_id` of the binner matrix can affect the decision |
| BmiOld.LastActivation | Old_version/nctrl-BMI/BMIrealtime_Func.py:62-64 | the time of the most recent `a` exists exactly when an `a` was written, and is the time of an `a` after which no `a` was written |
| BmiOld.Actuation | Old_version/nctrl-BMI/BMIrealtime_Func.py:60-71 | at most one byte per iteration; nothing exactly when there is no port, or no trigger while the hold is open; `a` exactly when there is a port and a trigger; `b` exactly when there is a port, no trigger and `laser_duration` has passed since the last `a` |
| BmiOld.NextSignalTime | Old_version/nctrl-BMI/BMIrealtime_Func.py:61-64 | `last_signal_time` moves only when an `a` is written, and then to `now` |
| BmiOld.AppendKeepsHold | Old_version/nctrl-BMI/BMIrealtime_Func.py:62-70 | writing a byte keeps the hold guarantee when a `b` comes at least `laser_duration` after the most recent `a`; a written `a` becomes the most recent one |
| BmiOld.HoldStep | Old_version/nctrl-BMI/BMIrealtime_Func.py:60-71 | an iteration keeps the hold guarantee, and `last_signal_time` stays the time of the most recent `a` |
| BmiOld.RasterUpdate | Old_version/nctrl-BMI/BMIrealtime_Func.py:34-44 | no key is removed and the event's unit gains one; the event's list ends with `rm_t`; on rollover every other list is empty and that one is `[rm_t]`; otherwise other lists are unchanged |
| BmiOld.RasterStaysInWindow | Old_version/nctrl-BMI/BMIrealtime_Func.py:34 | with a positive window every stored raster time stays in `[0, window_duration)` |
| BmiOld.BMIRealtime.constructor | Old_version/nctrl-BMI/BMIrealtime_Func.py:26-29 | nothing written, no raster, last signal at time 0, the hold invariant holds |
| BmiOld.BMIRealtime.PlotRaster | Old_version/nctrl-BMI/BMIrealtime_Func.py:31-44 | the dictionary becomes `RasterUpdate` of the old one |
| BmiOld.BMIRealtime.SendSignal | Old_version/nctrl-BMI/BMIrealtime_Func.py:60-64 | with a port, appends `a` and sets `last_signal_time` to `now`; without one, changes nothing; keeps the hold invariant |
| BmiOld.BMIRealtime.ResetSignal | Old_version/nctrl-BMI/BMIrealtime_Func.py:66-71 | appends `b` exactly when there is a port and `now - last_signal_time >= laser_duration`; keeps the hold invariant |
| BmiOld.BMIRealtime.Step | Old_version/nctrl-BMI/BMIrealtime_Func.py:74-101 | `start_time` moves to the timestamp exactly when it is more than `window_duration` old, and that is the raster rollover; the bytes are `Actuation` of the trigger rule; the hold invariant is kept |
| BmiNew.Command | nctrl-BMI/BMIrealtime_Func.py:48-56 | with a port exactly one byte, `a` on a trigger and `b` otherwise; without one nothing |
| BmiNew.AgreesWithOldOnceHoldExpired | nctrl-BMI/BMIrealtime_Func.py:77-80 | once the older loop's hold has expired both versions write the same bytes; inside the hold the older one withholds the `b` the newer one sends |
| BmiNew.RasterUpdate | nctrl-BMI/BMIrealtime_Func.py:30-37 | another unit's spike leaves the list unchanged; a target spike leaves it non-empty and ending with `t mod 1000`; it is cleared exactly when its last time exceeds that; the list stays sorted and within `[0, 1000)` |
| BmiNew.BMIRealtime.constructor | nctrl-BMI/BMIrealtime_Func.py:59 | nothing written and an empty raster |
| BmiNew.BMIRealtime.PlotRaster | nctrl-BMI/BMIrealtime_Func.py:27-37 | the list becomes `RasterUpdate` of the old one |
| BmiNew.BMIRealtime.SendSignal | nctrl-BMI/BMIrealtime_Func.py:48-51 | appends `a` exactly when there is a port |
| BmiNew.BMIRealtime.ResetSignal | nctrl-BMI/BMIrealtime_Func.py:53-56 | appends `b` exactly when there is a port |
| BmiNew.BMIRealtime.Step | nctrl-BMI/BMIrealtime_Func.py:58-80 | the raster follows `RasterUpdate`, the bytes are `Command` of the trigger rule, and the list stays sorted and in range |
| Unit.KernelSum | nctrl/unit.py:99 | an entry of the full convolution is at most the total spike count |
| Unit.BoxCar | nctrl/unit.py:99 | ValueError exactly for an empty histogram or B = 0; otherwise max(len, B) sums, each between 0 and the total spike count |
| Unit.KernelSumIsWindowSum | nctrl/unit.py:99 | entry k of the full convolution is the sum of the B bins ending at k, clipped to the histogram |
| Unit.BoxCarWindow | nctrl/unit.py:99 | for B <= len the output is as long as the histogram, and entry i sums the bins from `i + (B-1)/2 - B + 1` to `i + (B-1)/2`, clipped |
| Unit.Indicator | nctrl/unit.py:104 | `(conv >= spike_count).astype(int)` has one entry per sum |
| Unit.Diff | nctrl/unit.py:104 | `np.diff` is one shorter than a non-empty input |
| Unit.PositiveIndices | nctrl/unit.py:104 | `np.where(d > 0)[0]` lists exactly the indices of positive entries |
| Unit.PositiveIndicesAscend | nctrl/unit.py:104 | those indices are strictly increasing |
| Unit.DiffPositiveAt | nctrl/unit.py:104 | the differenced indicator is positive at i exactly when `conv[i] < spike_count <= conv[i+1]` |
| Unit.ReportedIsCrossing | nctrl/unit.py:104 | every reported index i has `i >= 1` and `conv[i-1] < spike_count <= conv[i]` |
| Unit.CrossingIsReported | nctrl/unit.py:104 | every such crossing is reported |
| Unit.RisingEdges | nctrl/unit.py:104 | every entry of `th_up_idx` lies in `[1, len(conv))` |
| Unit.RisingEdgesSound | nctrl/unit.py:104 | every reported index is an upward crossing |
| Unit.RisingEdgesComplete | nctrl/unit.py:104 | every upward crossing is reported |
| Unit.RisingEdgesAscend | nctrl/unit.py:104 | the reported indices strictly increase |
| Unit.RisingEdgesExactly | nctrl/unit.py:104 | i is reported exactly at upward crossings; 0 never is; the indices strictly increase |
| Unit.DropBetweenEdges | nctrl/unit.py:104 | between two consecutive reported indices the moving sum falls below `spike_count` |
| Unit.FreshDetectorFiresAtRisingEdges | nctrl/unit.py:104 | a fresh `FrThreshold` fed the moving sums with `nspike = spike_count` returns 1 exactly at the reported indices, plus index 0 when `conv[0] >= spike_count` |

## Left out

- spiketag's `BMI`, `Binner`, `read_bmi` and `close` are foreign code. The binner output is an input matrix and each event an input (timestamp, unit id) pair.
- `nctrl/core.py` is not part of this model. It contains the probe-file search, the Qt application, and the wiring of `predict` into `Laser.__call__`.
- `nctrl/gui.py` and the `GUIView` classes are not part of this model: they are widgets, pandas I/O and floating-point statistics.
- Console output is not modelled: `print('laser !!')` in `Laser.__call__` and the `tprint` calls in `FrThreshold.fit`, `Laser.on`, `Laser.off` and `Laser.set_duration` write only to the terminal, never to the serial port.
- `Laser.print_serial` is not modelled. It is a blocking poll for the device's acknowledgement, and reading acknowledgements is treated as a no-op.
- Not modelled: constructing `serial.Serial`, `flushInput`, `flushOutput` and `flush`. They change nothing in the byte log.
- All plotting, `clear_output` and `time.sleep` in both `plot_raster` versions are left out. Only their raster bookkeeping is modelled.
- The infinite `while True` loops are not modelled as loops. One iteration is a `Step` method, and `time.time()` is the argument `now`.
- `start_bmi_realtime` is left out: `pos_buffer_len` is float arithmetic, and the `KeyboardInterrupt`/`finally` shutdown is I/O. Its one effect on the model, setting `laser_duration`, is the old-version constructor's argument.
- In `nctrl/unit.py` the floating-point pieces are left out: the `np.arange` time bins, `np.histogram`, the midpoints `t` and `laser_fr`. The model starts from an integer histogram.
- `t_window` of both decoders is left out. It is handed to spiketag's `Decoder` base class, and nothing modelled reads it.
- Decoder.FrThreshold.constructor: `nspike` is an integer. The source's default is the float `1e6`; its integer value is used.
- Output.Laser.Call: an array argument is a list of integer rows. A list whose first element has no `astype` raises AttributeError in the source, and that case is not modelled.
- Output.Laser.Call: a 1-D array, such as the flags `Spikes.predict` returns, is modelled as rows of one element each. Its `y[0]` is then one value, which packs to one byte, so `.view(np.uint16)` raises ValueError whenever there are two or more targets. The model reproduces this only under that encoding.
- BmiOld.BMIRealtime.Step: requires `neuron_id` to index a column and `window_duration` to be nonzero. In the source a bad `neuron_id` raises IndexError and a zero window raises ZeroDivisionError, and either one ends the loop.
- BmiOld.BMIRealtime.PlotRaster: requires a nonzero window, because `t % 0` raises ZeroDivisionError in the source.
- BmiNew.BMIRealtime.Step: requires `neuron_id` to index a column; in the source a bad one raises IndexError and ends the loop.
- BmiOld.BMIRealtime.constructor: takes `laser_duration` as an argument. The source's `__init__` sets 1 and `start_bmi_realtime` overwrites it before the loop starts.
