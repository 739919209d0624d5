/** Decoding of the MAX31855 thermocouple converter's 32-bit frame:
    D31..D18 hold the thermocouple temperature as a 14-bit two's-complement
    number in units of 0.25 degC, D16 is the fault flag. The SPI transfer
    itself is replaced by the four bytes it returns, in the order received. */
module Thermocouple {

  /** What `getRawValue` returns when the fault bit is set. */
  const FaultValue: int := -32000

  /** The frame as the converter sends it: the first byte received carries
      bits 31..24. */
  function Frame(received: seq<bv8>): bv32
    requires |received| == 4
  {
    (received[0] as bv32 << 24) | (received[1] as bv32 << 16)
      | (received[2] as bv32 << 8) | received[3] as bv32
  }

  /** Reading a 4-byte buffer as a `uint32_t` on a little-endian target:
      byte 0 is the least significant. */
  function LittleEndian(b0: bv8, b1: bv8, b2: bv8, b3: bv8): bv32
  {
    b0 as bv32 | (b1 as bv32 << 8) | (b2 as bv32 << 16) | (b3 as bv32 << 24)
  }

  predicate FaultBit(w: bv32)
  {
    w & (1 << 16) != 0
  }

  predicate SignBit(w: bv32)
  {
    w & (1 << 31) != 0
  }

  /** Bits 31..18 of the frame, unsigned. */
  function TempField(w: bv32): (f: int)
    ensures 0 <= f < 0x4000
  {
    FieldBits(w);
    FieldValue(w >> 18);
    (w >> 18) as int
  }

  /** The 14-bit two's-complement reading of a field. */
  function SignExtend14(f: int): (v: int)
    requires 0 <= f < 0x4000
    ensures -0x2000 <= v < 0x2000
    ensures (v - f) % 0x4000 == 0
  {
    if f >= 0x2000 then f - 0x4000 else f
  }

  /** The C cast of a `uint16_t` bit pattern (held in the low 16 bits) to
      `int16_t`. */
  function Int16Of(v: bv32): (n: int)
    requires v < 0x1_0000
  {
    if v >= 0x8000 then v as int - 0x1_0000 else v as int
  }

  /** The decoding step of `getRawValue`: the fault sentinel, or the
      temperature field sign-extended through the 16-bit `val`. */
  function DecodeRaw(w: bv32): (r: int)
    ensures FaultBit(w) ==> r == FaultValue
    ensures !FaultBit(w) ==> r == SignExtend14(TempField(w))
  {
    if w & (1 << 16) != 0 then
      FaultValue
    else
      SignExtension(w);
      Int16Of(Val16(w))
  }

  /** `val`, a uint16_t: the low 16 bits of the field, with bits 15 and 14
      forced on when the sign bit D31 is set. */
  function Val16(w: bv32): (v: bv32)
    ensures v < 0x1_0000
  {
    if w & (1 << 31) != 0 then (0xC000 | ((w >> 18) & ((1 << 18) - 1))) & 0xFFFF
    else (w >> 18) & 0xFFFF
  }

  /** The bit manipulation of the source agrees with the arithmetic meaning:
      `0xC000 | field` sets bits 15 and 14 exactly when bit 13 (the sign of
      the 14-bit field) is set, and the cast to `int16_t` reads that. */
  lemma SignExtension(w: bv32)
    ensures SignBit(w) <==> TempField(w) >= 0x2000
    ensures SignBit(w) ==> Int16Of(Val16(w)) == TempField(w) - 0x4000
    ensures !SignBit(w) ==> Int16Of(Val16(w)) == TempField(w)
  {
    var f := w >> 18;
    FieldBits(w);
    FieldValue(f);
    if SignBit(w) {
      OrSetsTopBits(f);
      AddFits(f);
      NegativeField(f, f + 0xC000);
    } else {
      MaskKeepsField(f);
    }
  }

  lemma NegativeField(f: bv32, v: bv32)
    requires 0x2000 <= f as int < 0x4000
    requires v as int == f as int + 0xC000
    ensures v < 0x1_0000 && Int16Of(v) == f as int - 0x4000
  {
  }

  lemma MaskKeepsField(f: bv32)
    requires f < 0x4000
    ensures f & 0xFFFF == f
  {
  }

  lemma FieldBits(w: bv32)
    ensures w >> 18 < 0x4000
    ensures SignBit(w) <==> w >> 18 >= 0x2000
  {
  }

  lemma FieldValue(f: bv32)
    requires f < 0x4000
    ensures (f >= 0x2000) <==> f as int >= 0x2000
    ensures f as int < 0x4000
  {
  }

  lemma OrSetsTopBits(f: bv32)
    requires 0x2000 <= f < 0x4000
    ensures (0xC000 | (f & ((1 << 18) - 1))) & 0xFFFF == f + 0xC000
  {
  }

  lemma AddFits(f: bv32)
    requires f < 0x4000
    ensures (f + 0xC000) as int == f as int + 0xC000
  {
  }

  /** `getCelsius`: the raw reading times 0.25 degC (exact in `float` for
      every value `getRawValue` can return). */
  function Celsius(raw: int): real
  {
    raw as real * 0.25
  }

  class Max31855 {
    const portCS: int
    var errorState: bool

    constructor (portCS: int)
      ensures this.portCS == portCS && !errorState
    {
      this.portCS := portCS;
      errorState := false;
    }

    /** `getRawValue` with the four bytes the SPI transfers return passed in. */
    method GetRawValue(received: seq<bv8>) returns (r: int)
      requires |received| == 4
      modifies this
      ensures errorState == FaultBit(Frame(received))
      ensures r == DecodeRaw(Frame(received))
    {
      var buffer := new bv8[4];
      var i := 3;
      while i >= 0
        invariant -1 <= i <= 3
        invariant forall j :: i < j <= 3 ==> buffer[j] == received[3 - j]
      {
        buffer[i] := received[3 - i];
        i := i - 1;
      }
      var intval := LittleEndian(buffer[0], buffer[1], buffer[2], buffer[3]);
      FrameIsLittleEndian(received);
      if intval & (1 << 16) != 0 {
        errorState := true;
        return FaultValue;
      }
      errorState := false;
      // `val` is a uint16_t: the low 16 bits of a 32-bit word
      var val: bv32;
      if intval & (1 << 31) != 0 {
        val := (0xC000 | ((intval >> 18) & ((1 << 18) - 1))) & 0xFFFF;
      } else {
        val := (intval >> 18) & 0xFFFF;
      }
      SignExtension(intval);
      r := Int16Of(val);
    }

    method GetCelsius(received: seq<bv8>) returns (c: real)
      requires |received| == 4
      modifies this
      ensures errorState == FaultBit(Frame(received))
      ensures c == Celsius(DecodeRaw(Frame(received)))
    {
      var rawVal := GetRawValue(received);
      c := rawVal as real * 0.25;
    }
  }

  /** Filling the buffer from index 3 down to 0 and reading it little-endian
      puts the first received byte in bits 31..24. */
  lemma FrameIsLittleEndian(received: seq<bv8>)
    requires |received| == 4
    ensures LittleEndian(received[3], received[2], received[1], received[0]) == Frame(received)
  {
  }

  /** A fault-free reading lies in the 14-bit range, and is negative exactly
      when the sign bit D31 is set. */
  lemma DecodeRange(w: bv32)
    requires !FaultBit(w)
    ensures -0x2000 <= DecodeRaw(w) < 0x2000
    ensures DecodeRaw(w) < 0 <==> SignBit(w)
  {
    FieldBits(w);
    FieldValue(w >> 18);
  }

  /** The fault flag decides the result whatever the other bits hold. */
  lemma FaultDominates(w: bv32, w': bv32)
    requires FaultBit(w) && FaultBit(w')
    ensures DecodeRaw(w) == DecodeRaw(w') == FaultValue
  {
  }

  /** Bit 17 and bits 15..0 (the reference-junction temperature and the
      detail fault bits) never change a fault-free reading. */
  lemma IgnoredBits(w: bv32, noise: bv32)
    requires !FaultBit(w)
    requires noise & 0xFFFC_0000 == 0 && noise & (1 << 16) == 0
    ensures !FaultBit(w ^ noise) && DecodeRaw(w ^ noise) == DecodeRaw(w)
  {
    NoiseBits(w, noise);
    assert TempField(w ^ noise) == TempField(w);
  }

  lemma NoiseBits(w: bv32, noise: bv32)
    requires noise & 0xFFFC_0000 == 0 && noise & (1 << 16) == 0
    ensures (w ^ noise) >> 18 == w >> 18
    ensures (w ^ noise) & (1 << 16) == w & (1 << 16)
  {
  }

  /** Temperatures in degC: the fault sentinel reads as -8000 degC, every
      other reading lies in the converter's 14-bit range. */
  lemma CelsiusRange(w: bv32)
    ensures FaultBit(w) ==> Celsius(DecodeRaw(w)) == -8000.0
    ensures !FaultBit(w) ==> -2048.0 <= Celsius(DecodeRaw(w)) <= 2047.75
  {
  }
}
