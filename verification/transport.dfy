/**
 * The abstract bus the driver talks through. The sensor is a register file;
 * the two-wire bus additionally answers each transaction with a scripted
 * acknowledge / completeness outcome. Every driver operation reports the
 * transactions it put on the bus as a trace of events.
 */
module Transport {
  import opened Registers

  /** The two mutually exclusive ways a handle can be wired to the sensor. */
  datatype Binding =
    | TwoWire(slaveAddress: Byte)
    | Spi(csPin: int, irqPin: int)

  /**
   * How the two-wire bus answers one transaction: `acked` is false when the
   * address phase (or, for a write, the transmission) is not acknowledged;
   * `complete` is false when a read request delivers fewer bytes than asked.
   */
  datatype Response = Response(acked: bool, complete: bool)

  const Healthy: Response := Response(true, true)

  /** Register values the sensor itself changes between two polls (new status bits, new samples). */
  type Tick = map<Byte, Byte>

  /**
   * The sensor's registers (absent ones read as 0) and the outcomes the
   * two-wire bus gives to its next transactions; once the script is
   * exhausted every transaction is healthy.
   */
  datatype Bus = Bus(regs: map<Byte, Byte>, responses: seq<Response>) {

    function Reg(a: Byte): Byte {
      if a in regs then regs[a] else 0
    }

    /** The outcome of the next two-wire transaction. */
    function Next(): Response {
      if |responses| == 0 then Healthy else responses[0]
    }

    /** The bus once the next two-wire transaction has taken place. */
    function Advance(): (b: Bus)
      ensures b.regs == regs
      ensures Reliable() ==> b.Reliable()
    {
      if |responses| == 0 then this else this.(responses := responses[1..])
    }

    /** True when every transaction still to come is acknowledged and complete. */
    predicate Reliable() {
      forall i :: 0 <= i < |responses| ==> responses[i] == Healthy
    }

    /** The sensor after it latched `v` into register `a`. */
    function Store(a: Byte, v: Byte): (b: Bus)
      ensures b.Reg(a) == v
      ensures forall a' :: a' != a ==> b.Reg(a') == Reg(a')
      ensures b.responses == responses
    {
      Bus(regs[a := v], responses)
    }

    /** The `n` bytes a burst read starting at `a` clocks out. */
    function Block(a: Byte, n: nat): (s: seq<Byte>)
      ensures |s| == n
      ensures forall i :: 0 <= i < n ==> s[i] == Reg(Offset(a, i))
    {
      seq(n, i requires 0 <= i < n => Reg(Offset(a, i)))
    }

    /** The bus after the sensor updated its own registers. */
    function Apply(t: Tick): (b: Bus)
      ensures forall a :: a in t ==> b.Reg(a) == t[a]
      ensures forall a :: a !in t ==> b.Reg(a) == Reg(a)
      ensures b.responses == responses
    {
      Bus(regs + t, responses)
    }
  }

  /** One observable bus action of the driver. */
  datatype Event =
    | BusBegin
    | BusEnd
      /** Two-wire transmission of `bytes` to `device`, ending with a STOP when `stop`. */
    | WireWrite(device: Byte, bytes: seq<Byte>, stop: bool)
      /** Two-wire read request for `length` bytes after a repeated START. */
    | WireRequest(device: Byte, length: nat)
      /** One chip-select frame clocking out `command` then `value`. */
    | SpiWrite(command: Byte, value: Byte)
      /** One chip-select frame clocking out `command` then clocking in `length` bytes. */
    | SpiRead(command: Byte, length: nat)

  /** The register write an event carries, as a logging bus double would record it. */
  function WriteOf(e: Event): seq<(Byte, Byte)> {
    match e
    case WireWrite(_, bytes, stop) => if stop && |bytes| == 2 then [(bytes[0], bytes[1])] else []
    case SpiWrite(command, value) => [(command, value)]
    case _ => []
  }

  /** Every register write in a trace, in bus order. */
  function Writes(trace: seq<Event>): seq<(Byte, Byte)> {
    if |trace| == 0 then [] else WriteOf(trace[0]) + Writes(trace[1..])
  }

  lemma {:induction false} WritesAppend(a: seq<Event>, b: seq<Event>)
    ensures Writes(a + b) == Writes(a) + Writes(b)
  {
    if |a| == 0 {
      assert a + b == b;
    } else {
      assert (a + b)[1..] == a[1..] + b;
      WritesAppend(a[1..], b);
    }
  }

  /** The writes of four consecutive stretches of bus activity, in order. */
  lemma WritesAppend4(a: seq<Event>, b: seq<Event>, c: seq<Event>, e: seq<Event>)
    ensures Writes(a + b + c + e) == Writes(a) + Writes(b) + Writes(c) + Writes(e)
  {
    WritesAppend(a, b);
    WritesAppend(a + b, c);
    WritesAppend(a + b + c, e);
  }
}
