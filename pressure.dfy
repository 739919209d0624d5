/** The MPX4250 absolute-pressure sensor read through a 10-bit ADC: a reading
    outside the sensor's output band counts as a fault (short to ground or to
    5 V) and the last good reading is held, while a saturating 8-bit counter
    tracks how persistent the faults are. */
module PressureSensor {
  import opened CArith

  /** ADC count of 0.2 V, the sensor's output at 0 kPa. */
  const BinMin: int := 41
  /** ADC count of 4.9 V, the sensor's output at 260 kPa. */
  const BinMax: int := 1003
  /** Measurable pressure range in pascal. */
  const PMin: int := 0
  const PMax: int := 260000
  /** `errorState()` reports a fault once the counter is above this. */
  const ErrorThreshold: int := 0x1F

  /** What `analogRead` can return: a 10-bit conversion. */
  type Adc = x: int | 0 <= x <= 1023

  /** The 8-bit fault counter (`byte m_ErrorCounter`). */
  type Counter = c: int | 0 <= c <= 0xFF

  predicate OutOfRange(adc: int)
  {
    adc > BinMax || adc < BinMin
  }

  /** A reading is refused, and the last good value held, only while the
      counter can still count up. */
  predicate Refused(counter: Counter, adc: int)
  {
    OutOfRange(adc) && counter < 0xFF
  }

  /** The counter after one reading: up on a refused reading, otherwise down
      towards zero. It can never leave the byte range. */
  function NextCounter(counter: Counter, adc: int): (c: Counter)
    ensures c == counter + 1 || c == counter - 1 || c == counter == 0
  {
    if Refused(counter, adc) then counter + 1
    else if counter > 0 then counter - 1
    else counter
  }

  /** The raw value `getRawValue` returns (and, when accepted, stores). */
  function HeldReading(last: int, counter: Counter, adc: int): (r: int)
    ensures r == last || r == adc
    ensures !OutOfRange(adc) ==> r == adc
  {
    if Refused(counter, adc) then last else adc
  }

  /** `getPressure`'s conversion of a raw reading to pascal, on 32-bit
      `long` with C's truncating division. */
  function PressureOf(raw: int): int
  {
    CDiv((raw - BinMin) * (PMax - PMin), BinMax - BinMin)
  }

  /** The counter after a sequence of readings, in order. */
  function RunCounter(counter: Counter, readings: seq<int>): Counter
    decreases |readings|
  {
    if readings == [] then counter
    else RunCounter(NextCounter(counter, readings[0]), readings[1..])
  }

  class Mpx4250 {
    const aPin: int
    var errorCounter: Counter
    var lastValue: int

    constructor (aPin: int)
      ensures this.aPin == aPin && errorCounter == 0 && lastValue == BinMin
    {
      this.aPin := aPin;
      errorCounter := 0;
      lastValue := BinMin;
    }

    /** `getRawValue` with the conversion result `adc` passed in. */
    method GetRawValue(adc: Adc) returns (r: int)
      modifies this
      ensures errorCounter == NextCounter(old(errorCounter), adc)
      ensures r == lastValue == HeldReading(old(lastValue), old(errorCounter), adc)
      ensures Refused(old(errorCounter), adc) ==> r == old(lastValue) && errorCounter == old(errorCounter) + 1
      ensures !Refused(old(errorCounter), adc) ==>
                r == adc && errorCounter == (if old(errorCounter) > 0 then old(errorCounter) - 1 else 0)
    {
      if (adc > BinMax || adc < BinMin) && errorCounter < 0xFF {
        errorCounter := errorCounter + 1;
        return lastValue;
      } else if errorCounter > 0 {
        errorCounter := errorCounter - 1;
      }
      lastValue := adc;
      return lastValue;
    }

    method GetPressure(adc: Adc) returns (p: int)
      modifies this
      ensures errorCounter == NextCounter(old(errorCounter), adc)
      ensures lastValue == HeldReading(old(lastValue), old(errorCounter), adc)
      ensures p == PressureOf(lastValue)
    {
      var sensVal := GetRawValue(adc);
      p := CDiv((sensVal - BinMin) * (PMax - PMin), BinMax - BinMin);
    }

    predicate ErrorState()
      reads this
    {
      errorCounter > ErrorThreshold
    }
  }

  /** A run of faulty readings below saturation counts every one of them. */
  lemma {:induction false} FaultsCount(counter: Counter, readings: seq<int>)
    requires counter + |readings| <= 0xFF
    requires forall i :: 0 <= i < |readings| ==> OutOfRange(readings[i])
    ensures RunCounter(counter, readings) == counter + |readings|
    decreases |readings|
  {
    if readings != [] {
      FaultsCount(counter + 1, readings[1..]);
    }
  }

  /** From a fresh sensor, `errorState()` turns true exactly when 32
      consecutive faulty readings have been seen. */
  lemma FaultBurstRaisesError(readings: seq<int>)
    requires |readings| <= 0xFF
    requires forall i :: 0 <= i < |readings| ==> OutOfRange(readings[i])
    ensures RunCounter(0, readings) > ErrorThreshold <==> |readings| >= 32
  {
    FaultsCount(0, readings);
  }

  /** At saturation a faulty reading is accepted as if it were good, and the
      counter steps back below 255. */
  lemma SaturatedCounterAcceptsReading(last: int, adc: int)
    ensures NextCounter(0xFF, adc) == 0xFE
    ensures HeldReading(last, 0xFF, adc) == adc
  {
  }

  /** The two ends of the sensor's band map to the ends of the pressure range. */
  lemma PressureEndpoints()
    ensures PressureOf(BinMin) == PMin
    ensures PressureOf(BinMax) == PMax
  {
    CDivExact(PMax - PMin, BinMax - BinMin);
  }

  /** Within the band the conversion stays in range and never decreases. */
  lemma PressureInBand(raw: int, raw': int)
    requires BinMin <= raw <= raw' <= BinMax
    ensures PMin <= PressureOf(raw) <= PressureOf(raw') <= PMax
  {
    MapBetween(raw - BinMin, BinMax - BinMin, PMax - PMin);
    MapBetween(raw' - BinMin, BinMax - BinMin, PMax - PMin);
    MulLe(raw - BinMin, raw' - BinMin, PMax - PMin);
    CDivMonotone((raw - BinMin) * (PMax - PMin), (raw' - BinMin) * (PMax - PMin), BinMax - BinMin);
  }

  lemma CDivMonotone(a: int, a': int, b: int)
    requires 0 <= a <= a' && b > 0
    ensures CDiv(a, b) <= CDiv(a', b)
  {
    var q, q' := CDiv(a, b), CDiv(a', b);
    if q > q' {
      MulLe(q' + 1, q, b);
    }
  }

  /** Any reading the ADC can deliver keeps the product inside a 32-bit `long`. */
  lemma PressureProductFitsLong(raw: Adc)
    ensures -0x8000_0000 <= (raw - BinMin) * (PMax - PMin) < 0x8000_0000
  {
    MulLe(raw - BinMin, 1023 - BinMin, PMax - PMin);
    MulLe(-BinMin, raw - BinMin, PMax - PMin);
  }

  /** A fresh sensor reports no fault; if its first reading is faulty it
      reports the held band minimum, that is 0 Pa. */
  method FreshSensorFirstFault(adc: Adc) returns (p: int, fault: bool)
    requires OutOfRange(adc)
    ensures p == 0 && !fault
  {
    var s := new Mpx4250(0);
    p := s.GetPressure(adc);
    fault := s.ErrorState();
  }
}
