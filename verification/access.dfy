/**
 * Register access: how single- and multi-byte register reads and writes are
 * framed on each transport, and the integer return codes they report.
 */
module Access {
  import opened Bits
  import opened Registers
  import opened Transport

  /** The read flag a synchronous-serial command byte carries in its top bit. */
  const SPI_READ: Byte := 0x80

  /** The first bus action of a register read: the address phase. */
  function AddressPhase(b: Binding, address: Byte, length: nat): Event {
    match b
    case TwoWire(device) => WireWrite(device, [address], false)
    case Spi(_, _) => SpiRead(Or(SPI_READ, address), length)
  }

  /**
   * Outcome of a multi-byte read: the return code, the bytes copied into the
   * caller's buffer (none unless the code is 1), the bus afterwards, and the
   * bus actions taken.
   */
  datatype Burst = Burst(code: int, data: seq<Byte>, bus: Bus, trace: seq<Event>)

  /** `readRegisters`: -1 for an unacknowledged address phase, 0 for a short read, 1 otherwise. */
  function ReadRegisters(b: Binding, bus: Bus, address: Byte, length: nat): (r: Burst)
    ensures r.code == -1 || r.code == 0 || r.code == 1
    ensures b.Spi? ==> r.code == 1
    ensures b.TwoWire? ==> (r.code == -1 <==> !bus.Next().acked)
    ensures b.TwoWire? ==> (r.code == 0 <==> bus.Next().acked && !bus.Next().complete)
    ensures r.code == 1 ==> |r.data| == length
    ensures r.code == 1 ==> forall i :: 0 <= i < length ==> r.data[i] == bus.Reg(Offset(address, i))
    ensures r.code != 1 ==> r.data == []
    ensures |r.trace| > 0 && r.trace[0] == AddressPhase(b, address, length)
    ensures b.TwoWire? ==> (r.code == -1 <==> |r.trace| == 1)
    ensures b.TwoWire? && r.code != -1 ==> r.trace == [r.trace[0], WireRequest(b.slaveAddress, length)]
    ensures b.Spi? ==> r.trace == [r.trace[0]] && r.bus == bus
    ensures r.bus.regs == bus.regs
    ensures bus.Reliable() ==> r.bus.Reliable()
    ensures Writes(r.trace) == []
  {
    match b
    case Spi(_, _) =>
      Burst(1, bus.Block(address, length), bus, [AddressPhase(b, address, length)])
    case TwoWire(device) =>
      var outcome := bus.Next();
      var addressed := [AddressPhase(b, address, length)];
      assert Writes(addressed + [WireRequest(device, length)]) == [] by {
        WritesAppend(addressed, [WireRequest(device, length)]);
      }
      if !outcome.acked then
        Burst(-1, [], bus.Advance(), addressed)
      else if !outcome.complete then
        Burst(0, [], bus.Advance(), addressed + [WireRequest(device, length)])
      else
        Burst(1, bus.Block(address, length), bus.Advance(), addressed + [WireRequest(device, length)])
  }

  /** A synchronous-serial read command has the read flag set and keeps the register address in its low seven bits. */
  lemma SpiReadCommand(csPin: int, irqPin: int, address: Byte, length: nat)
    ensures var e := AddressPhase(Spi(csPin, irqPin), address, length);
      && e.SpiRead?
      && And(e.command, SPI_READ) == SPI_READ
      && And(e.command, 0x7F) == And(address, 0x7F)
  {
    OrCommutes(SPI_READ, address);
    SetBitSets(address, SPI_READ, 7);
    assert !BitSet(0x7F, 7);
    SetBitKeeps(address, SPI_READ, 7, 0x7F);
  }

  /** An integer result together with the bus afterwards and the bus actions taken. */
  datatype Reply = Reply(value: int, bus: Bus, trace: seq<Event>)

  /** `readRegister`: the register's byte, or the sentinel -1 when the one-byte read does not report 1. */
  function ReadRegister(b: Binding, bus: Bus, address: Byte): (r: Reply)
    ensures r.value == -1 || 0 <= r.value < 0x100
    ensures r.value == -1 <==> ReadRegisters(b, bus, address, 1).code != 1
    ensures r.value != -1 ==> r.value == bus.Reg(address) as int
    ensures r.trace == ReadRegisters(b, bus, address, 1).trace
    ensures r.bus == ReadRegisters(b, bus, address, 1).bus
    ensures r.bus.regs == bus.regs
    ensures Writes(r.trace) == []
  {
    var burst := ReadRegisters(b, bus, address, 1);
    if burst.code != 1 then Reply(-1, burst.bus, burst.trace)
    else Reply(burst.data[0] as int, burst.bus, burst.trace)
  }

  /** `writeRegister`: 1 on success; over two-wire, 0 when the transmission is not acknowledged. */
  function WriteRegister(b: Binding, bus: Bus, address: Byte, value: Byte): (r: Reply)
    ensures r.value == 0 || r.value == 1
    ensures b.Spi? ==> r.value == 1 && r.trace == [SpiWrite(address, value)]
    ensures b.TwoWire? ==> (r.value == 0 <==> !bus.Next().acked)
    ensures b.TwoWire? ==> r.trace == [WireWrite(b.slaveAddress, [address, value], true)]
    ensures Writes(r.trace) == [(address, value)]
    ensures r.value == 1 ==> r.bus.Reg(address) == value
    ensures forall a :: a != address ==> r.bus.Reg(a) == bus.Reg(a)
    ensures r.value == 0 ==> r.bus.regs == bus.regs
    ensures bus.Reliable() ==> r.bus.Reliable()
  {
    match b
    case Spi(_, _) =>
      Reply(1, bus.Store(address, value), [SpiWrite(address, value)])
    case TwoWire(device) =>
      var sent := [WireWrite(device, [address, value], true)];
      if !bus.Next().acked then Reply(0, bus.Advance(), sent)
      else Reply(1, bus.Advance().Store(address, value), sent)
  }

  /** A register written and then read back on a bus that acknowledges both transactions returns the value written. */
  lemma WriteThenRead(b: Binding, bus: Bus, address: Byte, value: Byte)
    requires b.TwoWire? ==> bus.Next().acked && bus.Advance().Next() == Healthy
    ensures ReadRegister(b, WriteRegister(b, bus, address, value).bus, address).value == value as int
  {
  }
}
