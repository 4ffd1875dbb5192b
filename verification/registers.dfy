/** The LSM6DS3 register map the driver uses, and the byte type of the bus. */
module Registers {
  import opened Bits

  /** One byte on the bus or in a register. */
  newtype Byte = x: int | 0 <= x < 0x100

  /** Bitwise OR of two bytes. */
  function Or(a: Byte, b: Byte): Byte {
    OrBound(a as nat, b as nat, 8);
    OrBits(a as nat, b as nat) as Byte
  }

  /** Bitwise AND of two bytes. */
  function And(a: Byte, b: Byte): Byte {
    AndBound(a as nat, b as nat);
    AndBits(a as nat, b as nat) as Byte
  }

  /** OR does not depend on the order of its operands. */
  lemma OrCommutes(a: Byte, b: Byte)
    ensures Or(a, b) == Or(b, a)
  {
    var ab, ba := Or(a, b) as nat, Or(b, a) as nat;
    forall k | 0 <= k < 8
      ensures BitSet(ab, k) <==> BitSet(ba, k)
    {
      OrBit(a as nat, b as nat, k);
      OrBit(b as nat, a as nat, k);
    }
    BitsEqual(ab, ba, 8);
  }

  /** Masking with the single bit `k` leaves that bit when it is set and zero otherwise. */
  lemma MaskBit(p: Byte, bit: Byte, k: nat)
    requires bit as nat == Pow2(k)
    ensures BitSet(p as nat, k) ==> And(p, bit) == bit
    ensures !BitSet(p as nat, k) ==> And(p, bit) == 0
  {
    var m := And(p, bit) as nat;
    forall j | 0 <= j < 8
      ensures BitSet(m, j) <==> BitSet(p as nat, k) && BitSet(bit as nat, j)
    {
      AndBit(p as nat, bit as nat, j);
      PowBit(k, j);
    }
    if BitSet(p as nat, k) {
      forall j | 0 <= j < 8
        ensures BitSet(m, j) <==> BitSet(bit as nat, j)
      {
        PowBit(k, j);
      }
      BitsEqual(m, bit as nat, 8);
    } else {
      forall j | 0 <= j < 8
        ensures BitSet(m, j) <==> BitSet(0, j)
      {
        ZeroBits(j);
      }
      BitsEqual(m, 0, 8);
    }
  }

  /** Setting bit `k` with OR leaves it set. */
  lemma SetBitSets(p: Byte, bit: Byte, k: nat)
    requires bit as nat == Pow2(k)
    ensures And(Or(p, bit), bit) == bit
  {
    OrBit(p as nat, bit as nat, k);
    PowBit(k, k);
    MaskBit(Or(p, bit), bit, k);
  }

  /** Setting bit `k` with OR changes nothing a mask without bit `k` can see. */
  lemma SetBitKeeps(p: Byte, bit: Byte, k: nat, mask: Byte)
    requires bit as nat == Pow2(k)
    requires !BitSet(mask as nat, k)
    ensures And(Or(p, bit), mask) == And(p, mask)
  {
    var raised, kept := And(Or(p, bit), mask) as nat, And(p, mask) as nat;
    forall j | 0 <= j < 8
      ensures BitSet(raised, j) <==> BitSet(kept, j)
    {
      AndBit(Or(p, bit) as nat, mask as nat, j);
      AndBit(p as nat, mask as nat, j);
      OrBit(p as nat, bit as nat, j);
      PowBit(k, j);
    }
    BitsEqual(raised, kept, 8);
  }

  /** Setting a bit that is already set changes nothing. */
  lemma SetBitIdle(p: Byte, bit: Byte, k: nat)
    requires bit as nat == Pow2(k)
    requires BitSet(p as nat, k)
    ensures Or(p, bit) == p
  {
    var q, v := Or(p, bit) as nat, p as nat;
    forall j | 0 <= j < 8
      ensures BitSet(q, j) <==> BitSet(v, j)
    {
      OrBit(p as nat, bit as nat, j);
      PowBit(k, j);
    }
    BitsEqual(q, v, 8);
  }

  /**
   * The C conversion of an `int` to `uint8_t`: the low eight bits of its
   * two's-complement representation, so -1 becomes 0xFF.
   */
  function Truncate(x: int): (b: Byte)
    ensures (x - b as int) % 0x100 == 0
    ensures 0 <= x < 0x100 ==> b as int == x
    ensures x == -1 ==> b == 0xFF
  {
    (x % 0x100) as Byte
  }

  /** Default two-wire slave address of the sensor. */
  const ADDRESS: Byte := 0x6A

  const FIFO_CTRL1: Byte := 0x06
  const FIFO_CTRL2: Byte := 0x07
  const FIFO_CTRL3: Byte := 0x08
  const FIFO_CTRL4: Byte := 0x09
  const FIFO_CTRL5: Byte := 0x0A

  const WHO_AM_I_REG: Byte := 0x0F
  const CTRL1_XL: Byte := 0x10
  const CTRL2_G: Byte := 0x11
  const CTRL3_C: Byte := 0x12

  const STATUS_REG: Byte := 0x1E

  const CTRL6_C: Byte := 0x15
  const CTRL7_G: Byte := 0x16
  const CTRL8_XL: Byte := 0x17

  const OUT_TEMP_L: Byte := 0x20
  const OUT_TEMP_H: Byte := 0x21

  const OUTX_L_G: Byte := 0x22
  const OUTX_H_G: Byte := 0x23
  const OUTY_L_G: Byte := 0x24
  const OUTY_H_G: Byte := 0x25
  const OUTZ_L_G: Byte := 0x26
  const OUTZ_H_G: Byte := 0x27

  const OUTX_L_XL: Byte := 0x28
  const OUTX_H_XL: Byte := 0x29
  const OUTY_L_XL: Byte := 0x2A
  const OUTY_H_XL: Byte := 0x2B
  const OUTZ_L_XL: Byte := 0x2C
  const OUTZ_H_XL: Byte := 0x2D

  const FIFO_STATUS1: Byte := 0x3A
  const FIFO_STATUS2: Byte := 0x3B
  const FIFO_STATUS3: Byte := 0x3C
  const FIFO_STATUS4: Byte := 0x3D
  const FIFO_DATA_OUT_L: Byte := 0x3E
  const FIFO_DATA_OUT_H: Byte := 0x3F

  /** The value WHO_AM_I holds on a genuine LSM6DS3. */
  const WHO_AM_I_VALUE: int := 0x69

  /** The register `i` places after `a`, as the sensor's address auto-increment walks it. */
  function Offset(a: Byte, i: nat): Byte {
    Truncate(a as int + i)
  }
}
