/**
  Fixed-width unsigned values of the BatPU-2 machine and the 8-bit
  arithmetic its ALU performs. Dafny integers are unbounded, so every C
  conversion that truncates (`(uint8_t)x`, `(int8_t)x`, `uint16_t` `++`)
  is written out here.
 */
module Bits {

  /** A 4-bit instruction field: an opcode or a register index. */
  type Nibble = x: int | 0 <= x < 16

  /** An 8-bit register value (`uint8_t`). */
  type Byte = x: int | 0 <= x < 256

  /** A 16-bit value (`uint16_t`): an instruction word, an address or a stack slot. */
  type Word = x: int | 0 <= x < 0x1_0000

  /** The `(uint8_t)` conversion: the low 8 bits, for negative values too. */
  function Truncate8(x: int): (r: Byte)
    ensures (x - r) % 256 == 0
    ensures 0 <= x < 256 ==> r == x
  {
    x % 256
  }

  /** The `(int8_t)` conversion of a byte: its two's-complement reading. */
  function Int8(b: Byte): (r: int)
    ensures -128 <= r < 128
    ensures (r - b) % 256 == 0
  {
    if b < 128 then b else b - 256
  }

  /** `w++` on a `uint16_t`: adds one and wraps 0xFFFF round to 0. */
  function Increment(w: Word): (r: Word)
    ensures w < 0xFFFF ==> r == w + 1
    ensures w == 0xFFFF ==> r == 0
  {
    (w + 1) % 0x1_0000
  }

  /** 2 to the power n. */
  function Pow2(n: nat): (p: nat)
    ensures p >= 1
  {
    if n == 0 then 1 else 2 * Pow2(n - 1)
  }

  /**
    Bitwise OR of the low `n` bits of two naturals, one bit at a time from
    bit 0 up. Each result bit is set when either operand bit is.
   */
  function OrBits(a: nat, b: nat, n: nat): (r: nat)
    requires a < Pow2(n) && b < Pow2(n)
    ensures r < Pow2(n)
    ensures a <= r && b <= r
    ensures r == 0 <==> a == 0 && b == 0
  {
    if n == 0 then 0
    else (if a % 2 == 1 || b % 2 == 1 then 1 else 0) + 2 * OrBits(a / 2, b / 2, n - 1)
  }

  /** Bitwise AND of the low `n` bits: a result bit is set when both operand bits are. */
  function AndBits(a: nat, b: nat, n: nat): (r: nat)
    requires a < Pow2(n) && b < Pow2(n)
    ensures r <= a && r <= b
    ensures a == Pow2(n) - 1 ==> r == b
  {
    if n == 0 then 0
    else (if a % 2 == 1 && b % 2 == 1 then 1 else 0) + 2 * AndBits(a / 2, b / 2, n - 1)
  }

  /** Bitwise XOR of the low `n` bits: a result bit is set when the operand bits differ. */
  function XorBits(a: nat, b: nat, n: nat): (r: nat)
    requires a < Pow2(n) && b < Pow2(n)
    ensures r < Pow2(n)
    ensures r == 0 <==> a == b
    ensures b == 0 ==> r == a
  {
    if n == 0 then 0
    else (if a % 2 != b % 2 then 1 else 0) + 2 * XorBits(a / 2, b / 2, n - 1)
  }

  /** `a | b` on two bytes. */
  function Or(a: Byte, b: Byte): (r: Byte)
    ensures a <= r && b <= r
    ensures r == 0 <==> a == 0 && b == 0
  {
    assert Pow2(8) == 256;
    OrBits(a, b, 8)
  }

  /** `a & b` on two bytes. */
  function And(a: Byte, b: Byte): (r: Byte)
    ensures r <= a && r <= b
    ensures a == 255 ==> r == b
  {
    assert Pow2(8) == 256;
    AndBits(a, b, 8)
  }

  /** `a ^ b` on two bytes. */
  function Xor(a: Byte, b: Byte): (r: Byte)
    ensures r == 0 <==> a == b
    ensures b == 0 ==> r == a
  {
    assert Pow2(8) == 256;
    XorBits(a, b, 8)
  }

  /**
    `~(a | b)` stored into a `uint8_t`: C promotes the operands to `int`,
    complements (giving `-1 - (a | b)`) and the store keeps the low 8 bits.
   */
  function Nor(a: Byte, b: Byte): (r: Byte)
    ensures r == 255 - Or(a, b)
    ensures r == 0 <==> Or(a, b) == 255
  {
    var o := Or(a, b);
    assert (-1 - o) % 256 == 255 - o;
    Truncate8(-1 - o)
  }

  /** Subtracting through the signed reading gives the unsigned difference modulo 256. */
  lemma SignedDifferenceModulo(a: Byte, b: Byte)
    ensures Truncate8(Int8(a) - Int8(b)) == (a - b) % 256
  {
    var d := Int8(a) - Int8(b);
    if a < 128 && b >= 128 {
      assert d == (a - b) + 256;
    } else if a >= 128 && b < 128 {
      assert d == (a - b) - 256;
    } else {
      assert d == a - b;
    }
  }
}
