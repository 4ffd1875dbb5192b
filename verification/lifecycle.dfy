/**
 * Start-up and shutdown: the identity check, the fixed configuration
 * sequence, calibration, the optional FIFO set-up, and the power-down on
 * teardown.
 */
module Lifecycle {
  import opened Bits
  import opened Registers
  import opened Transport
  import opened Access
  import opened Handle
  import opened Calibration

  /** Gyroscope at 104 Hz, accelerometer at 104 Hz and 4 g, output data rate divided by four. */
  const CONFIG_WRITES: seq<(Byte, Byte)> := [(CTRL2_G, 0x4C), (CTRL1_XL, 0x4A), (CTRL8_XL, 0x05)]

  /** Both sensors into the FIFO without decimation; continuous mode at 104 Hz. */
  const FIFO_WRITES: seq<(Byte, Byte)> := [(FIFO_CTRL3, 0x11), (FIFO_CTRL5, 0x26)]

  /** Both sensors powered down. */
  const POWER_DOWN_WRITES: seq<(Byte, Byte)> := [(CTRL2_G, 0x00), (CTRL1_XL, 0x00)]

  /** The block-data-update bit of CTRL3_C. */
  const BDU: Byte := 0x40

  /** The bus afterwards and the bus actions taken. */
  datatype Ended = Ended(bus: Bus, trace: seq<Event>)

  /**
   * `end`: over synchronous serial, only the bus session ends; over
   * two-wire, both control registers are first written with 0x00.
   */
  function End(b: Binding, bus: Bus): (r: Ended)
    ensures |r.trace| > 0 && r.trace[|r.trace| - 1] == BusEnd
    ensures b.Spi? ==> r.trace == [BusEnd] && r.bus == bus
    ensures b.Spi? ==> Writes(r.trace) == []
    ensures b.TwoWire? ==> Writes(r.trace) == POWER_DOWN_WRITES
    ensures b.TwoWire? && bus.Reliable() ==> r.bus.Reg(CTRL2_G) == 0 && r.bus.Reg(CTRL1_XL) == 0
  {
    match b
    case Spi(_, _) => Ended(bus, [BusEnd])
    case TwoWire(_) =>
      var gyroOff := WriteRegister(b, bus, CTRL2_G, 0x00);
      var accelOff := WriteRegister(b, gyroOff.bus, CTRL1_XL, 0x00);
      WritesAppend(gyroOff.trace, accelOff.trace);
      WritesAppend(gyroOff.trace + accelOff.trace, [BusEnd]);
      Ended(accelOff.bus, gyroOff.trace + accelOff.trace + [BusEnd])
  }

  /**
   * The CTRL3_C value written when FIFO mode is armed: the read result
   * truncated to a byte (so a failed read, -1, becomes 0xFF) with the
   * block-data-update bit set.
   */
  function SetBlockDataUpdate(current: int): (v: Byte)
    ensures And(v, BDU) == BDU
    ensures And(v, 0xBF) == And(Truncate(current), 0xBF)
    ensures current == -1 ==> v == 0xFF
    ensures And(Truncate(current), BDU) == BDU ==> v == Truncate(current)
  {
    var prior := Truncate(current);
    SetBitSets(prior, BDU, 6);
    assert !BitSet(0xBF, 6);
    SetBitKeeps(prior, BDU, 6, 0xBF);
    MaskBit(prior, BDU, 6);
    assert BitSet(prior as nat, 6) ==> Or(prior, BDU) == prior by {
      if BitSet(prior as nat, 6) {
        SetBitIdle(prior, BDU, 6);
      }
    }
    assert current == -1 ==> prior == 0xFF && BitSet(0xFF, 6);
    Or(prior, BDU)
  }

  /** The identity `begin` reads from WHO_AM_I: the register's byte or -1. */
  function Identity(d: Driver, bus: Bus): int {
    ReadRegister(d.binding, bus, WHO_AM_I_REG).value
  }

  /** The return code of `begin`, the driver, the bus afterwards and the bus actions. */
  datatype Started = Started(code: int, driver: Driver, bus: Bus, trace: seq<Event>)

  /**
   * The part of `begin` after a matching identity and before the FIFO: the
   * three configuration writes, in order, then calibration.
   */
  function Configure(d: Driver, bus: Bus, window: seq<Tick>): (r: Started)
    ensures Writes(r.trace) == CONFIG_WRITES
    ensures r.driver == Calibrate(d, WriteRegister(d.binding, WriteRegister(d.binding, WriteRegister(d.binding, bus, CTRL2_G, 0x4C).bus, CTRL1_XL, 0x4A).bus, CTRL8_XL, 0x05).bus, window).driver
  {
    var gyro := WriteRegister(d.binding, bus, CTRL2_G, 0x4C);
    var accel := WriteRegister(d.binding, gyro.bus, CTRL1_XL, 0x4A);
    var odr := WriteRegister(d.binding, accel.bus, CTRL8_XL, 0x05);
    var cal := Calibrate(d, odr.bus, window);
    WritesAppend4(gyro.trace, accel.trace, odr.trace, cal.trace);
    Started(1, cal.driver, cal.bus, gyro.trace + accel.trace + odr.trace + cal.trace)
  }

  /**
   * The FIFO set-up: a read-modify-write of CTRL3_C that sets the
   * block-data-update bit, then the two FIFO control registers.
   */
  function ArmFifo(b: Binding, bus: Bus): (r: Ended)
    ensures Writes(r.trace) == [(CTRL3_C, SetBlockDataUpdate(ReadRegister(b, bus, CTRL3_C).value))] + FIFO_WRITES
  {
    var ctrl3 := ReadRegister(b, bus, CTRL3_C);
    var value := SetBlockDataUpdate(ctrl3.value);
    var bdu := WriteRegister(b, ctrl3.bus, CTRL3_C, value);
    var fifo3 := WriteRegister(b, bdu.bus, FIFO_CTRL3, 0x11);
    var fifo5 := WriteRegister(b, fifo3.bus, FIFO_CTRL5, 0x26);
    WritesAppend4(ctrl3.trace, bdu.trace, fifo3.trace, fifo5.trace);
    Ended(fifo5.bus, ctrl3.trace + bdu.trace + fifo3.trace + fifo5.trace)
  }

  /**
   * `begin`: checks the identity, then configures, calibrates over `window`
   * and optionally arms the FIFO. It returns 0 only for a wrong or absent
   * identity; configuration and calibration failures still return 1.
   */
  function Begin(d: Driver, bus: Bus, useFifo: bool, window: seq<Tick>): (r: Started)
    ensures r.code == 0 || r.code == 1
    ensures r.code == 1 <==> Identity(d, bus) == WHO_AM_I_VALUE
    ensures |r.trace| >= 2 && r.trace[0] == BusBegin
    ensures r.trace[1] == AddressPhase(d.binding, WHO_AM_I_REG, 1)
    ensures r.code == 0 ==> r.driver == d && r.trace[|r.trace| - 1] == BusEnd
    ensures r.code == 1 ==> r.driver.binding == d.binding && r.driver.fifoEnabled == useFifo
    ensures r.code == 1 ==> r.driver.drift == Configure(d, ReadRegister(d.binding, bus, WHO_AM_I_REG).bus, window).driver.drift
  {
    var id := ReadRegister(d.binding, bus, WHO_AM_I_REG);
    if id.value != WHO_AM_I_VALUE then
      var teardown := End(d.binding, id.bus);
      Started(0, d, teardown.bus, [BusBegin] + id.trace + teardown.trace)
    else
      var config := Configure(d, id.bus, window);
      var configured := config.driver.(fifoEnabled := useFifo);
      var trace := [BusBegin] + id.trace + config.trace;
      if !useFifo then
        Started(1, configured, config.bus, trace)
      else
        var fifo := ArmFifo(d.binding, config.bus);
        Started(1, configured, fifo.bus, trace + fifo.trace)
  }

  /**
   * A wrong or missing identity makes `begin` return 0 without configuring:
   * over two-wire the only writes are the power-down of `end`, over
   * synchronous serial there are none.
   */
  lemma BeginIdentityMismatch(d: Driver, bus: Bus, useFifo: bool, window: seq<Tick>)
    requires Identity(d, bus) != WHO_AM_I_VALUE
    ensures Begin(d, bus, useFifo, window).code == 0
    ensures d.binding.TwoWire? ==> Writes(Begin(d, bus, useFifo, window).trace) == POWER_DOWN_WRITES
    ensures d.binding.Spi? ==> Writes(Begin(d, bus, useFifo, window).trace) == []
  {
    var id := ReadRegister(d.binding, bus, WHO_AM_I_REG);
    var teardown := End(d.binding, id.bus);
    WritesAppend([BusBegin], id.trace);
    WritesAppend([BusBegin] + id.trace, teardown.trace);
  }

  /** The bus once the identity has matched and the configuration and calibration have run. */
  function ConfiguredBus(d: Driver, bus: Bus, window: seq<Tick>): Bus {
    Configure(d, ReadRegister(d.binding, bus, WHO_AM_I_REG).bus, window).bus
  }

  /**
   * After a matching identity, the writes of `begin` are the configuration
   * writes followed, in FIFO mode, by those of the FIFO set-up.
   */
  lemma BeginMatchWrites(d: Driver, bus: Bus, useFifo: bool, window: seq<Tick>)
    requires Identity(d, bus) == WHO_AM_I_VALUE
    ensures !useFifo ==> Writes(Begin(d, bus, useFifo, window).trace) == CONFIG_WRITES
    ensures useFifo ==> Writes(Begin(d, bus, useFifo, window).trace)
                        == CONFIG_WRITES + Writes(ArmFifo(d.binding, ConfiguredBus(d, bus, window)).trace)
  {
    var id := ReadRegister(d.binding, bus, WHO_AM_I_REG);
    var config := Configure(d, id.bus, window);
    var prefix := [BusBegin] + id.trace;
    WritesAppend([BusBegin], id.trace);
    assert Writes(prefix) == [];
    WritesAppend(prefix, config.trace);
    assert Writes(prefix + config.trace) == CONFIG_WRITES;
    if useFifo {
      var fifo := ArmFifo(d.binding, config.bus);
      WritesAppend(prefix + config.trace, fifo.trace);
    }
  }

  /**
   * A matching identity makes `begin` return 1 after writing exactly the
   * configuration registers, in order, followed when FIFO mode is requested
   * by CTRL3_C with the block-data-update bit set and the two FIFO control
   * registers.
   */
  lemma BeginIdentityMatch(d: Driver, bus: Bus, useFifo: bool, window: seq<Tick>)
    requires Identity(d, bus) == WHO_AM_I_VALUE
    ensures Begin(d, bus, useFifo, window).code == 1
    ensures !useFifo ==> Writes(Begin(d, bus, useFifo, window).trace) == CONFIG_WRITES
    ensures useFifo ==> |Writes(Begin(d, bus, useFifo, window).trace)| == 6
    ensures useFifo ==> Writes(Begin(d, bus, useFifo, window).trace)[..3] == CONFIG_WRITES
    ensures useFifo ==> Writes(Begin(d, bus, useFifo, window).trace)[3].0 == CTRL3_C
    ensures useFifo ==> Writes(Begin(d, bus, useFifo, window).trace)[3].1
                        == SetBlockDataUpdate(ReadRegister(d.binding, ConfiguredBus(d, bus, window), CTRL3_C).value)
    ensures useFifo ==> And(Writes(Begin(d, bus, useFifo, window).trace)[3].1, BDU) == BDU
    ensures useFifo ==> Writes(Begin(d, bus, useFifo, window).trace)[4..] == FIFO_WRITES
  {
    BeginMatchWrites(d, bus, useFifo, window);
    if useFifo {
      var w := Writes(Begin(d, bus, useFifo, window).trace);
      var f := Writes(ArmFifo(d.binding, ConfiguredBus(d, bus, window)).trace);
      assert w == CONFIG_WRITES + f;
      assert w[..3] == CONFIG_WRITES;
      assert w[3] == f[0];
      assert w[4..] == f[1..];
    }
  }
}
