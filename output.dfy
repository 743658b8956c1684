/** The laser controller link of nctrl/output.py: every `Laser` operation
    appends an ASCII command to the serial port, modelled as the log of all
    bytes written so far. The commands are

      'a'            activate (pulse on)        'A'  deactivate (pulse off)
      'e'            enable the device          'E'  disable the device
      'd' <digits>   set the pulse duration in ms, in decimal
      'p' <bytes>    channel pattern, `np.packbits` of the channel flags

    Reading acknowledgements back from the device is not modelled. */
module Output {
  import opened Common

  const ActivateByte: byte := 0x61    // 'a'
  const DeactivateByte: byte := 0x41  // 'A'
  const EnableByte: byte := 0x65      // 'e'
  const DisableByte: byte := 0x45     // 'E'
  const DurationByte: byte := 0x64    // 'd'
  const PatternByte: byte := 0x70     // 'p'
  const ZeroDigit: byte := 0x30       // '0'

  const TrueText: seq<byte> := [0x54, 0x72, 0x75, 0x65]         // "True"
  const FalseText: seq<byte> := [0x46, 0x61, 0x6c, 0x73, 0x65]  // "False"

  /** Pulse duration, in ms, of a laser opened without one. */
  const DefaultDuration: int := 500

  /** The Python values the laser methods distinguish: an `int`, a `bool`
      (which Python also counts as an `int`, equal to 1 or 0), a list or
      ndarray given as its rows, and anything else. A 1-D array, such as
      the flags `Spikes.predict` returns, is a sequence of one-element rows:
      its `y[0]` is a single value, which packs to one byte. */
  datatype PyValue = PyInt(i: int) | PyBool(b: bool) | PyArray(rows: seq<seq<int>>) | PyOther

  // ---- decimal digits (the `f'd{duration}'` encoding) ----

  predicate IsDigit(c: byte)
  {
    ZeroDigit <= c <= ZeroDigit + 9
  }

  predicate AllDigits(s: seq<byte>)
  {
    forall k :: 0 <= k < |s| ==> IsDigit(s[k])
  }

  /** `str(n)` of a non-negative int, as ASCII: at least one digit, and no
      leading zero unless n is 0. */
  function Decimal(n: nat): (s: seq<byte>)
    ensures |s| >= 1 && AllDigits(s)
    ensures s[0] == ZeroDigit ==> n == 0 && s == [ZeroDigit]
  {
    if n < 10 then [ZeroDigit + n as byte]
    else Decimal(n / 10) + [ZeroDigit + (n % 10) as byte]
  }

  /** The number a string of ASCII digits denotes. */
  function ParseDecimal(s: seq<byte>): nat
    requires AllDigits(s)
  {
    if s == [] then 0
    else ParseDecimal(s[..|s| - 1]) * 10 + (s[|s| - 1] - ZeroDigit) as nat
  }

  lemma {:induction false} ParseDecimalOfDecimal(n: nat)
    ensures ParseDecimal(Decimal(n)) == n
  {
    var s := Decimal(n);
    if n >= 10 {
      assert s[..|s| - 1] == Decimal(n / 10);
      ParseDecimalOfDecimal(n / 10);
    }
  }

  // ---- bit packing (`np.packbits`, most significant bit first) ----

  function Pow2(n: nat): (p: nat)
    ensures p >= 1
  {
    if n == 0 then 1 else 2 * Pow2(n - 1)
  }

  function Zeros(n: nat): (z: seq<bool>)
    ensures |z| == n && forall k :: 0 <= k < n ==> !z[k]
  {
    seq(n, _ => false)
  }

  /** The number whose binary digits, most significant first, are `bits`. */
  function BitsValue(bits: seq<bool>): (v: nat)
    ensures v < Pow2(|bits|)
  {
    if bits == [] then 0
    else 2 * BitsValue(bits[..|bits| - 1]) + (if bits[|bits| - 1] then 1 else 0)
  }

  /** One packed byte: up to eight flags, padded with zero bits on the right. */
  function PackByte(chunk: seq<bool>): byte
    requires |chunk| <= 8
  {
    assert Pow2(8) == 256;
    BitsValue(chunk + Zeros(8 - |chunk|)) as byte
  }

  /** `np.packbits`: eight flags per byte, the first flag in the most
      significant bit, the last byte padded with zero bits. */
  function PackBits(bits: seq<bool>): (packed: seq<byte>)
    ensures |packed| == (|bits| + 7) / 8
    decreases |bits|
  {
    if bits == [] then []
    else if |bits| < 8 then [PackByte(bits)]
    else [PackByte(bits[..8])] + PackBits(bits[8..])
  }

  /** The low n bits of x, most significant first. */
  function UnpackByte(x: nat, n: nat): (bits: seq<bool>)
    ensures |bits| == n
  {
    if n == 0 then [] else UnpackByte(x / 2, n - 1) + [x % 2 == 1]
  }

  /** `np.unpackbits`: eight flags per byte, most significant bit first. */
  function UnpackBits(packed: seq<byte>): (bits: seq<bool>)
    ensures |bits| == 8 * |packed|
  {
    if packed == [] then [] else UnpackByte(packed[0] as nat, 8) + UnpackBits(packed[1..])
  }

  /** The number of zero bits `packbits` adds after n flags. */
  function PadLength(n: nat): nat
  {
    (8 - n % 8) % 8
  }

  lemma PadLengthSkipsByte(n: nat)
    requires n >= 8
    ensures PadLength(n - 8) == PadLength(n)
  {
    assert (n - 8) % 8 == n % 8;
  }

  lemma {:induction false} UnpackBitsValue(bits: seq<bool>)
    ensures UnpackByte(BitsValue(bits), |bits|) == bits
  {
    if bits != [] {
      var init := bits[..|bits| - 1];
      var v := BitsValue(bits);
      assert v / 2 == BitsValue(init) && (v % 2 == 1 <==> bits[|bits| - 1]);
      UnpackBitsValue(init);
    }
  }

  lemma UnpackBitsCons(head: byte, rest: seq<byte>)
    ensures UnpackBits([head] + rest) == UnpackByte(head as nat, 8) + UnpackBits(rest)
  {
    assert ([head] + rest)[1..] == rest;
  }

  /** Unpacking one packed byte gives its flags back, then the padding. */
  lemma UnpackPackByte(chunk: seq<bool>)
    requires |chunk| <= 8
    ensures UnpackByte(PackByte(chunk) as nat, 8) == chunk + Zeros(8 - |chunk|)
  {
    UnpackBitsValue(chunk + Zeros(8 - |chunk|));
  }

  lemma PackBitsCons(bits: seq<bool>)
    requires |bits| >= 8
    ensures PackBits(bits) == [PackByte(bits[..8])] + PackBits(bits[8..])
  {
  }

  /** A full byte comes back without padding. */
  lemma UnpackPackFullByte(chunk: seq<bool>)
    requires |chunk| == 8
    ensures UnpackByte(PackByte(chunk) as nat, 8) == chunk
  {
    UnpackPackByte(chunk);
    assert chunk + Zeros(0) == chunk;
  }

  lemma Regroup(bits: seq<bool>, pad: seq<bool>)
    requires |bits| >= 8
    ensures bits[..8] + (bits[8..] + pad) == bits + pad
  {
    assert bits[..8] + bits[8..] == bits;
  }

  /** One step of the round trip: the first byte unpacks separately from
      the rest. */
  lemma UnpackPackBitsStep(bits: seq<bool>)
    requires |bits| >= 8
    ensures UnpackBits(PackBits(bits))
              == UnpackByte(PackByte(bits[..8]) as nat, 8) + UnpackBits(PackBits(bits[8..]))
  {
    PackBitsCons(bits);
    UnpackBitsCons(PackByte(bits[..8]), PackBits(bits[8..]));
  }

  lemma PadLengthShort(n: nat)
    requires 0 < n < 8
    ensures PadLength(n) == 8 - n
  {
    assert n % 8 == n;
  }

  lemma PackBitsShort(bits: seq<bool>)
    requires 0 < |bits| < 8
    ensures PackBits(bits) == [PackByte(bits)]
  {
  }

  lemma UnpackSingle(b: byte)
    ensures UnpackBits([b]) == UnpackByte(b as nat, 8)
  {
    UnpackBitsCons(b, []);
    assert [b] + [] == [b];
  }

  /** A last, partial byte comes back with its zero padding. */
  lemma UnpackPackShort(bits: seq<bool>)
    requires 0 < |bits| < 8
    ensures UnpackBits(PackBits(bits)) == bits + Zeros(PadLength(|bits|))
  {
    var b := PackByte(bits);
    PackBitsShort(bits);
    UnpackSingle(b);
    UnpackPackByte(bits);
    PadLengthShort(|bits|);
    assert Zeros(PadLength(|bits|)) == Zeros(8 - |bits|);
  }

  /** Packing loses nothing: unpacking gives back every flag, in order,
      followed by the zero padding. */
  lemma {:induction false} UnpackPackBits(bits: seq<bool>)
    ensures UnpackBits(PackBits(bits)) == bits + Zeros(PadLength(|bits|))
    decreases |bits|
  {
    if bits == [] {
    } else if |bits| < 8 {
      UnpackPackShort(bits);
    } else {
      UnpackPackBits(bits[8..]);
      UnpackPackBitsStep(bits);
      UnpackPackFullByte(bits[..8]);
      PadLengthSkipsByte(|bits|);
      Regroup(bits, Zeros(PadLength(|bits|)));
    }
  }

  /** The flags `packbits` sees in an integer row: `astype(np.uint8)` wraps
      each value modulo 256, and a nonzero byte is a set flag. */
  function RowBits(row: seq<int>): (bits: seq<bool>)
    ensures |bits| == |row|
  {
    seq(|row|, k requires 0 <= k < |row| => row[k] % 256 != 0)
  }

  // ---- the command set ----

  datatype Command =
    | Activate
    | Deactivate
    | Enable
    | Disable
    | SetDuration(ms: nat)
    | Pattern(mask: seq<byte>)

  /** The bytes the laser writes for one command. */
  function Encode(c: Command): (s: seq<byte>)
    ensures |s| >= 1
  {
    match c
    case Activate => [ActivateByte]
    case Deactivate => [DeactivateByte]
    case Enable => [EnableByte]
    case Disable => [DisableByte]
    case SetDuration(ms) => [DurationByte] + Decimal(ms)
    case Pattern(mask) => [PatternByte] + mask
  }

  /** The protocol's reading of one command's bytes: the reference that
      `Encode` is checked against. */
  function Decode(s: seq<byte>): Option<Command>
  {
    if s == [ActivateByte] then Some(Activate)
    else if s == [DeactivateByte] then Some(Deactivate)
    else if s == [EnableByte] then Some(Enable)
    else if s == [DisableByte] then Some(Disable)
    else if |s| > 1 && s[0] == DurationByte && AllDigits(s[1..]) then Some(SetDuration(ParseDecimal(s[1..])))
    else if |s| >= 1 && s[0] == PatternByte then Some(Pattern(s[1..]))
    else None
  }

  /** Every command the laser sends reads back as itself; in particular the
      decimal digits of a duration parse back to that duration. */
  lemma DecodeEncode(c: Command)
    ensures Decode(Encode(c)) == Some(c)
  {
    match c
    case SetDuration(ms) =>
      var s := Encode(c);
      assert s[1..] == Decimal(ms);
      ParseDecimalOfDecimal(ms);
    case Pattern(mask) =>
      assert Encode(c)[1..] == mask;
    case _ =>
  }

  // ---- what each `Laser` method writes ----

  /** `set_duration` accepts an `int` (a `bool` included) that is not negative. */
  predicate ValidDuration(d: PyValue)
  {
    d.PyBool? || (d.PyInt? && d.i >= 0)
  }

  /** `f'd{duration}'.encode()` for an accepted duration: a real int is sent
      as `d` followed by `str(n)`, which reads back as that duration; a bool is
      sent as its name, 'True' or 'False'. */
  function DurationBytes(d: PyValue): (s: seq<byte>)
    requires ValidDuration(d)
    ensures |s| >= 1 && s[0] == DurationByte
    ensures d.PyInt? ==> s[1..] == Decimal(d.i)
    ensures d.PyInt? ==> Decode(s) == Some(SetDuration(d.i))
    ensures d.PyBool? ==> s[1..] == if d.b then TrueText else FalseText
  {
    if d.PyInt? then
      DecodeEncode(SetDuration(d.i));
      Encode(SetDuration(d.i))
    else
      [DurationByte] + if d.b then TrueText else FalseText
  }

  /** The number of bytes `packbits` makes of a row is odd: then the
      `.view(np.uint16)` that follows raises ValueError. */
  predicate OddPackedLength(row: seq<int>)
  {
    (|row| + 7) / 8 % 2 == 1
  }

  /** What `Laser.__call__(y)` writes, or the error it raises: an array of
      more than one row whose first row packs to an odd number of bytes
      raises ValueError, and nothing else does. */
  function CallBytes(y: PyValue): (r: Result<seq<byte>>)
    ensures r.Err? <==> y.PyArray? && |y.rows| > 1 && OddPackedLength(y.rows[0])
    ensures r.Err? ==> r.error == ValueError
  {
    match y
    case PyInt(i) =>
      if i == 1 then Ok(Encode(Activate)) else Ok(Encode(Deactivate))
    case PyBool(b) =>
      if b then Ok(Encode(Activate)) else Ok(Encode(Deactivate))
    case PyArray(rows) =>
      if |rows| > 1 then
        var packed := PackBits(RowBits(rows[0]));
        if |packed| % 2 == 1 then Err(ValueError)
        else Ok(Encode(Pattern(packed)))
      else Ok([])
    case PyOther => Ok([])
  }

  /** What the written bytes mean to the device. The int 1 (or True) reads
      as Activate and every other int (or False) as Deactivate; an array of
      more than one row sends its first row as a Pattern whose bytes unpack
      to that row's flags followed by zero padding; anything else writes
      nothing. */
  lemma CallBytesMeaning(y: PyValue)
    ensures (y.PyInt? && y.i == 1) || (y.PyBool? && y.b) ==>
              CallBytes(y).Ok? && Decode(CallBytes(y).value) == Some(Activate)
    ensures (y.PyInt? && y.i != 1) || (y.PyBool? && !y.b) ==>
              CallBytes(y).Ok? && Decode(CallBytes(y).value) == Some(Deactivate)
    ensures y.PyArray? && |y.rows| > 1 && !OddPackedLength(y.rows[0]) ==>
              CallBytes(y).Ok? && Decode(CallBytes(y).value).Some? &&
              Decode(CallBytes(y).value).value.Pattern? &&
              UnpackBits(Decode(CallBytes(y).value).value.mask)
                == RowBits(y.rows[0]) + Zeros(PadLength(|y.rows[0]|))
    ensures (y.PyArray? && |y.rows| <= 1) || y.PyOther? ==> CallBytes(y) == Ok([])
  {
    match y
    case PyArray(rows) =>
      if |rows| > 1 && !OddPackedLength(rows[0]) {
        var bits := RowBits(rows[0]);
        DecodeEncode(Pattern(PackBits(bits)));
        UnpackPackBits(bits);
      }
    case _ =>
  }

  /** A laser on an open serial port. */
  class Laser {
    /** The duration the laser was opened with, exactly as given; no later
        call changes it. */
    var duration: PyValue
    /** Every byte written to the serial port so far, oldest first. */
    var log: seq<byte>

    /** The fields as they stand before the constructor's `set_duration`
        call: the port is open and nothing has been written. */
    constructor Init(duration: PyValue)
      ensures this.duration == duration && log == []
    {
      this.duration := duration;
      log := [];
    }

    /** `Laser(port, duration=500)`: stores the duration, then sends it with
        `set_duration`, which raises ValueError for an invalid one. */
    static method Open(duration: PyValue := PyInt(DefaultDuration)) returns (r: Result<Laser>)
      ensures r.Err? <==> !ValidDuration(duration)
      ensures r.Err? ==> r.error == ValueError
      ensures r.Ok? ==> fresh(r.value) && r.value.duration == duration
      ensures r.Ok? ==> r.value.log == DurationBytes(duration)
    {
      var laser := new Laser.Init(duration);
      var sent := laser.SetDuration(duration);
      if sent.Err? {
        return Err(sent.error);
      }
      return Ok(laser);
    }

    /** `laser(y)`: writes the bytes of `CallBytes(y)`, or raises and
        writes nothing. */
    method Call(y: PyValue) returns (r: Result<()>)
      modifies this`log
      ensures CallBytes(y).Err? ==> r == Err(CallBytes(y).error) && log == old(log)
      ensures CallBytes(y).Ok? ==> r == Ok(()) && log == old(log) + CallBytes(y).value
    {
      match y {
        case PyInt(i) =>
          if i == 1 {
            log := log + [ActivateByte];
          } else {
            log := log + [DeactivateByte];
          }
          assert CallBytes(y) == Ok(log[|old(log)|..]);
        case PyBool(b) =>
          if b {
            log := log + [ActivateByte];
          } else {
            log := log + [DeactivateByte];
          }
          assert CallBytes(y) == Ok(log[|old(log)|..]);
        case PyArray(rows) =>
          if |rows| > 1 {
            var packed := PackBits(RowBits(rows[0]));
            if |packed| % 2 == 1 {
              return Err(ValueError);
            }
            log := log + [PatternByte] + packed;
            assert CallBytes(y) == Ok([PatternByte] + packed);
          }
        case PyOther =>
      }
      r := Ok(());
    }

    method On()
      modifies this`log
      ensures log == old(log) + Encode(Enable)
    {
      log := log + [EnableByte];
    }

    method Off()
      modifies this`log
      ensures log == old(log) + Encode(Disable)
    {
      log := log + [DisableByte];
    }

    /** Validates the duration before anything is written: a non-int or a
        negative int raises ValueError. The stored `duration` never changes. */
    method SetDuration(d: PyValue) returns (r: Result<()>)
      modifies this`log
      ensures !ValidDuration(d) ==> r == Err(ValueError) && log == old(log)
      ensures ValidDuration(d) ==> r == Ok(()) && log == old(log) + DurationBytes(d)
      ensures duration == old(duration)
    {
      if !(d.PyInt? || d.PyBool?) || (d.PyInt? && d.i < 0) {
        return Err(ValueError);
      }
      log := log + DurationBytes(d);
      r := Ok(());
    }
  }
}
