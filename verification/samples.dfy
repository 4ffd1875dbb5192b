/**
 * The sample reader: status-bit availability checks, six-byte sample reads,
 * decoding of the little-endian signed 16-bit register pairs and the linear
 * scaling to g and degrees per second.
 */
module Samples {
  import opened Wrappers
  import opened Bits
  import opened Registers
  import opened Transport
  import opened Access
  import opened Handle

  /** A signed 16-bit sample count, the register pairs' native format. */
  newtype Int16 = x: int | -0x8000 <= x < 0x8000

  /** Full-scale values the read-out assumes: 4 g and 2000 degrees per second. */
  const ACCEL_FULL_SCALE: real := 4.0
  const GYRO_FULL_SCALE: real := 2000.0

  /** The status-register bits announcing a new accelerometer or gyroscope sample. */
  const ACCEL_READY: Byte := 0x01
  const GYRO_READY: Byte := 0x02

  /** The signed value of a low/high register pair (two's complement, low byte first). */
  function Int16LE(lo: Byte, hi: Byte): Int16 {
    var u := hi as int * 0x100 + lo as int;
    (if u < 0x8000 then u else u - 0x10000) as Int16
  }

  /** The low/high register pair holding a signed value. */
  function Int16Bytes(v: Int16): (Byte, Byte) {
    var u := if v < 0 then v as int + 0x10000 else v as int;
    ((u % 0x100) as Byte, (u / 0x100) as Byte)
  }

  lemma Int16RoundTrip(v: Int16)
    ensures Int16LE(Int16Bytes(v).0, Int16Bytes(v).1) == v
  {
  }

  lemma Int16BytesRoundTrip(lo: Byte, hi: Byte)
    ensures Int16Bytes(Int16LE(lo, hi)) == (lo, hi)
  {
  }

  /** Three axes of raw counts, in X, Y, Z register order. */
  datatype Raw3 = Raw3(x: Int16, y: Int16, z: Int16)

  /** The raw sample six consecutive output registers hold. */
  function Raw3Of(data: seq<Byte>): Raw3
    requires |data| == 6
  {
    Raw3(Int16LE(data[0], data[1]), Int16LE(data[2], data[3]), Int16LE(data[4], data[5]))
  }

  /** The six register bytes that hold a raw sample. */
  function Raw3Bytes(raw: Raw3): (s: seq<Byte>)
    ensures |s| == 6
  {
    var (xl, xh) := Int16Bytes(raw.x);
    var (yl, yh) := Int16Bytes(raw.y);
    var (zl, zh) := Int16Bytes(raw.z);
    [xl, xh, yl, yh, zl, zh]
  }

  lemma Raw3RoundTrip(raw: Raw3)
    ensures Raw3Of(Raw3Bytes(raw)) == raw
  {
    Int16RoundTrip(raw.x);
    Int16RoundTrip(raw.y);
    Int16RoundTrip(raw.z);
  }

  /** The raw sample the sensor holds in the six registers from `base` on. */
  function RawAt(bus: Bus, base: Byte): Raw3 {
    Raw3Of(bus.Block(base, 6))
  }

  /** Counts to physical units: `raw * fullScale / 32768`. */
  function Scale(raw: Int16, fullScale: real): (v: real)
    requires fullScale > 0.0
    ensures -fullScale <= v < fullScale
  {
    ScaleBound(raw, fullScale);
    raw as real * fullScale / 32768.0
  }

  lemma ScaleBound(raw: Int16, fullScale: real)
    requires fullScale > 0.0
    ensures -fullScale <= raw as real * fullScale / 32768.0 < fullScale
  {
    var q := raw as real / 32768.0;
    assert -1.0 <= q < 1.0;
    assert raw as real * fullScale / 32768.0 == q * fullScale;
    FractionBound(q, fullScale);
  }

  lemma FractionBound(q: real, fullScale: real)
    requires -1.0 <= q < 1.0 && fullScale > 0.0
    ensures -fullScale <= q * fullScale < fullScale
  {
    assert (1.0 - q) * fullScale > 0.0;
    assert (q + 1.0) * fullScale >= 0.0;
  }

  /** Physical units back to counts. */
  function Unscale(v: real, fullScale: real): real
    requires fullScale > 0.0
  {
    v * 32768.0 / fullScale
  }

  /** The scaling loses nothing: the raw count is recovered from the physical value. */
  lemma UnscaleScale(raw: Int16, fullScale: real)
    requires fullScale > 0.0
    ensures Unscale(Scale(raw, fullScale), fullScale) == raw as real
  {
  }

  function Scale3(raw: Raw3, fullScale: real): Vec3
    requires fullScale > 0.0
  {
    Vec3(Scale(raw.x, fullScale), Scale(raw.y, fullScale), Scale(raw.z, fullScale))
  }

  /** Every scaled axis is in range, and unscaling gives back the counts. */
  lemma Scale3Counts(raw: Raw3, fullScale: real)
    requires fullScale > 0.0
    ensures InRange(Scale3(raw, fullScale), fullScale)
    ensures Counts(Scale3(raw, fullScale), fullScale) == AsVec3(raw)
  {
    UnscaleScale(raw.x, fullScale);
    UnscaleScale(raw.y, fullScale);
    UnscaleScale(raw.z, fullScale);
  }

  /** The counts behind a physical sample. */
  function Counts(v: Vec3, fullScale: real): Vec3
    requires fullScale > 0.0
  {
    Vec3(Unscale(v.x, fullScale), Unscale(v.y, fullScale), Unscale(v.z, fullScale))
  }

  function AsVec3(raw: Raw3): Vec3 {
    Vec3(raw.x as real, raw.y as real, raw.z as real)
  }

  /** Every axis lies in the half-open full-scale range. */
  predicate InRange(v: Vec3, fullScale: real) {
    && -fullScale <= v.x < fullScale
    && -fullScale <= v.y < fullScale
    && -fullScale <= v.z < fullScale
  }

  /**
   * The truth value of C's `x & mask` for an `int` x and a one-byte mask:
   * only the low eight bits of x's two's-complement form matter, so -1
   * passes every mask.
   */
  predicate TestBit(x: int, mask: Byte) {
    And(Truncate(x), mask) != 0
  }

  /** Bit 0 of a status read, in arithmetic terms. */
  lemma TestBitZero(s: int)
    requires s == -1 || 0 <= s < 0x100
    ensures TestBit(s, ACCEL_READY) <==> s == -1 || s % 2 == 1
  {
    MaskBit(Truncate(s), ACCEL_READY, 0);
  }

  /** Bit 1 of a status read, in arithmetic terms. */
  lemma TestBitOne(s: int)
    requires s == -1 || 0 <= s < 0x100
    ensures TestBit(s, GYRO_READY) <==> s == -1 || (s / 2) % 2 == 1
  {
    MaskBit(Truncate(s), GYRO_READY, 1);
    var t := Truncate(s) as nat;
    assert BitSet(t, 1) <==> BitSet(t / 2, 0);
    assert s == -1 ==> t == 0xFF;
  }

  /** `accelerationAvailable`: 1 when bit 0 of the status read is set, where a failed read (-1) has every bit set. */
  function AccelerationAvailable(d: Driver, bus: Bus): (r: Reply)
    ensures r.value == 0 || r.value == 1
    ensures var s := ReadRegister(d.binding, bus, STATUS_REG).value;
      r.value == 1 <==> s == -1 || s % 2 == 1
    ensures r.trace == ReadRegister(d.binding, bus, STATUS_REG).trace
    ensures r.bus.regs == bus.regs
    ensures r.bus == ReadRegister(d.binding, bus, STATUS_REG).bus
    ensures bus.Reliable() ==> r.bus.Reliable()
    ensures Writes(r.trace) == []
  {
    var status := ReadRegister(d.binding, bus, STATUS_REG);
    TestBitZero(status.value);
    Reply(if TestBit(status.value, ACCEL_READY) then 1 else 0, status.bus, status.trace)
  }

  /** `gyroscopeAvailable`: 1 when bit 1 of the status read is set, where a failed read (-1) has every bit set. */
  function GyroscopeAvailable(d: Driver, bus: Bus): (r: Reply)
    ensures r.value == 0 || r.value == 1
    ensures var s := ReadRegister(d.binding, bus, STATUS_REG).value;
      r.value == 1 <==> s == -1 || (s / 2) % 2 == 1
    ensures r.trace == ReadRegister(d.binding, bus, STATUS_REG).trace
    ensures r.bus.regs == bus.regs
    ensures r.bus == ReadRegister(d.binding, bus, STATUS_REG).bus
    ensures bus.Reliable() ==> r.bus.Reliable()
    ensures Writes(r.trace) == []
  {
    var status := ReadRegister(d.binding, bus, STATUS_REG);
    TestBitOne(status.value);
    Reply(if TestBit(status.value, GYRO_READY) then 1 else 0, status.bus, status.trace)
  }

  /** A status read that fails reports both kinds of data as available. */
  lemma FailedStatusReadReportsData(d: Driver, bus: Bus)
    requires ReadRegister(d.binding, bus, STATUS_REG).value == -1
    ensures AccelerationAvailable(d, bus).value == 1
    ensures GyroscopeAvailable(d, bus).value == 1
  {
  }

  /** A three-axis read: return code 1 or 0, the physical values (`None` for NaN), the bus afterwards and the bus actions. */
  datatype Sample = Sample(code: int, value: Option<Vec3>, bus: Bus, trace: seq<Event>)

  /** Reads and scales the six output registers from `base`; any return code but 1 is a failure. */
  function ReadSample(b: Binding, bus: Bus, base: Byte, fullScale: real): (r: Sample)
    requires fullScale > 0.0
    ensures r.code == 0 || r.code == 1
    ensures r.code == 1 <==> ReadRegisters(b, bus, base, 6).code == 1
    ensures r.code == 0 <==> r.value == None
    ensures r.code == 1 ==> InRange(r.value.value, fullScale)
    ensures r.code == 1 ==> Counts(r.value.value, fullScale) == AsVec3(RawAt(bus, base))
    ensures r.trace == ReadRegisters(b, bus, base, 6).trace
    ensures r.bus.regs == bus.regs
    ensures bus.Reliable() ==> r.bus.Reliable()
    ensures Writes(r.trace) == []
  {
    var burst := ReadRegisters(b, bus, base, 6);
    if burst.code != 1 then Sample(0, None, burst.bus, burst.trace)
    else
      assert burst.data == bus.Block(base, 6);
      Scale3Counts(Raw3Of(burst.data), fullScale);
      Sample(1, Some(Scale3(Raw3Of(burst.data), fullScale)), burst.bus, burst.trace)
  }

  /**
   * `readAcceleration`: on success each axis is its signed register pair
   * times 4/32768 g, hence within [-4, 4); on failure NaN and 0.
   */
  function ReadAcceleration(d: Driver, bus: Bus): (r: Sample)
    ensures r.code == 0 || r.code == 1
    ensures r.code == 1 <==> ReadRegisters(d.binding, bus, OUTX_L_XL, 6).code == 1
    ensures r.code == 0 <==> r.value == None
    ensures r.code == 1 ==> InRange(r.value.value, ACCEL_FULL_SCALE)
    ensures r.code == 1 ==> Counts(r.value.value, ACCEL_FULL_SCALE) == AsVec3(RawAt(bus, OUTX_L_XL))
    ensures r.bus.regs == bus.regs
    ensures bus.Reliable() ==> r.bus.Reliable()
    ensures Writes(r.trace) == []
  {
    ReadSample(d.binding, bus, OUTX_L_XL, ACCEL_FULL_SCALE)
  }

  /**
   * `readGyroscope`: on success each axis is its signed register pair times
   * 2000/32768 degrees per second, within [-2000, 2000), with no drift
   * subtracted; on failure NaN and 0.
   */
  function ReadGyroscope(d: Driver, bus: Bus): (r: Sample)
    ensures r.code == 0 || r.code == 1
    ensures r.code == 1 <==> ReadRegisters(d.binding, bus, OUTX_L_G, 6).code == 1
    ensures r.code == 0 <==> r.value == None
    ensures r.code == 1 ==> InRange(r.value.value, GYRO_FULL_SCALE)
    ensures r.code == 1 ==> Counts(r.value.value, GYRO_FULL_SCALE) == AsVec3(RawAt(bus, OUTX_L_G))
    ensures r.bus.regs == bus.regs
    ensures bus.Reliable() ==> r.bus.Reliable()
    ensures Writes(r.trace) == []
  {
    ReadSample(d.binding, bus, OUTX_L_G, GYRO_FULL_SCALE)
  }

  /** The stored drift plays no part in a gyroscope read. */
  lemma GyroscopeIgnoresDrift(d: Driver, bus: Bus, drift: Option<Vec3>)
    ensures ReadGyroscope(d.(drift := drift), bus) == ReadGyroscope(d, bus)
  {
  }

  /**
   * The sample read as the source writes it: the failure test is
   * `!readRegisters(...)`, which only catches the code 0. After an
   * unacknowledged address phase (code -1) the read reports success and
   * scales whatever the uninitialised buffer held, given here as `stale`.
   */
  function ReadSampleAsWritten(b: Binding, bus: Bus, base: Byte, fullScale: real, stale: Raw3): (r: Sample)
    requires fullScale > 0.0
    ensures r.code == 0 || r.code == 1
    ensures r.code == 0 <==> ReadRegisters(b, bus, base, 6).code == 0
    ensures r.code == 0 <==> r.value == None
    ensures ReadRegisters(b, bus, base, 6).code == -1 ==> r.value == Some(Scale3(stale, fullScale))
    ensures ReadRegisters(b, bus, base, 6).code != -1 ==> r == ReadSample(b, bus, base, fullScale)
  {
    var burst := ReadRegisters(b, bus, base, 6);
    if burst.code == 0 then Sample(0, None, burst.bus, burst.trace)
    else
      var raw := if burst.code == 1 then Raw3Of(burst.data) else stale;
      Sample(1, Some(Scale3(raw, fullScale)), burst.bus, burst.trace)
  }

  function ReadAccelerationAsWritten(d: Driver, bus: Bus, stale: Raw3): (r: Sample)
    ensures r.code == 0 || r.code == 1
    ensures ReadRegisters(d.binding, bus, OUTX_L_XL, 6).code != -1 ==> r == ReadAcceleration(d, bus)
    ensures r.code == 0 <==> ReadRegisters(d.binding, bus, OUTX_L_XL, 6).code == 0
    ensures ReadRegisters(d.binding, bus, OUTX_L_XL, 6).code == -1 ==> r.value == Some(Scale3(stale, ACCEL_FULL_SCALE))
  {
    ReadSampleAsWritten(d.binding, bus, OUTX_L_XL, ACCEL_FULL_SCALE, stale)
  }

  function ReadGyroscopeAsWritten(d: Driver, bus: Bus, stale: Raw3): (r: Sample)
    ensures r.code == 0 || r.code == 1
    ensures ReadRegisters(d.binding, bus, OUTX_L_G, 6).code != -1 ==> r == ReadGyroscope(d, bus)
    ensures r.code == 0 <==> ReadRegisters(d.binding, bus, OUTX_L_G, 6).code == 0
    ensures ReadRegisters(d.binding, bus, OUTX_L_G, 6).code == -1 ==> r.value == Some(Scale3(stale, GYRO_FULL_SCALE))
  {
    ReadSampleAsWritten(d.binding, bus, OUTX_L_G, GYRO_FULL_SCALE, stale)
  }

  /**
   * Over two-wire, an unacknowledged address phase moves no data, yet the
   * read as written reports success with the stale buffer's values; the
   * corrected read reports failure and NaN.
   */
  lemma NackedAccelerationReadReportsSuccess(d: Driver, bus: Bus, stale: Raw3)
    requires d.binding.TwoWire? && !bus.Next().acked
    ensures ReadRegisters(d.binding, bus, OUTX_L_XL, 6).trace == [WireWrite(d.binding.slaveAddress, [OUTX_L_XL], false)]
    ensures ReadAccelerationAsWritten(d, bus, stale).code == 1
    ensures ReadAccelerationAsWritten(d, bus, stale).value == Some(Scale3(stale, ACCEL_FULL_SCALE))
    ensures ReadAcceleration(d, bus).code == 0 && ReadAcceleration(d, bus).value == None
  {
  }

  lemma NackedGyroscopeReadReportsSuccess(d: Driver, bus: Bus, stale: Raw3)
    requires d.binding.TwoWire? && !bus.Next().acked
    ensures ReadRegisters(d.binding, bus, OUTX_L_G, 6).trace == [WireWrite(d.binding.slaveAddress, [OUTX_L_G], false)]
    ensures ReadGyroscopeAsWritten(d, bus, stale).code == 1
    ensures ReadGyroscopeAsWritten(d, bus, stale).value == Some(Scale3(stale, GYRO_FULL_SCALE))
    ensures ReadGyroscope(d, bus).code == 0 && ReadGyroscope(d, bus).value == None
  {
  }

  /** `accelerationSampleRate`: the configured 104 Hz, not read from the sensor. */
  function AccelerationSampleRate(): (hz: real)
    ensures hz == 104.0
  {
    104.0
  }

  /** `gyroscopeSampleRate`: the configured 104 Hz, not read from the sensor. */
  function GyroscopeSampleRate(): (hz: real)
    ensures hz == 104.0
  {
    104.0
  }

  /** `unreadFifoSampleCount`: a stub whose -1 is never a real count. */
  function UnreadFifoSampleCount(): (n: int)
    ensures n == -1
  {
    -1
  }
}
