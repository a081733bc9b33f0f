/**
  The BatPU-2 instruction encoding: a 16-bit word split into a 4-bit
  opcode, three 4-bit register fields and an 8-bit immediate that
  overlaps the last two register fields.
 */
module Codec {
  import opened Bits

  /** The sixteen opcodes, in the order of their numbers 0x0 .. 0xF. */
  datatype Opcode =
    | NOP | HLT | ADD | SUB | NOR | AND | XOR | RSH
    | LDI | ADI | JMP | BRH | CAL | RET | LOD | STR

  /** The number an opcode has in the top nibble of an instruction word. */
  function Number(op: Opcode): (n: Nibble)
  {
    match op
    case NOP => 0x0 case HLT => 0x1 case ADD => 0x2 case SUB => 0x3
    case NOR => 0x4 case AND => 0x5 case XOR => 0x6 case RSH => 0x7
    case LDI => 0x8 case ADI => 0x9 case JMP => 0xA case BRH => 0xB
    case CAL => 0xC case RET => 0xD case LOD => 0xE case STR => 0xF
  }

  /** The opcode a 4-bit number names; every number names one, so decoding never fails. */
  function OpcodeOf(n: Nibble): (op: Opcode)
    ensures Number(op) == n
  {
    [NOP, HLT, ADD, SUB, NOR, AND, XOR, RSH, LDI, ADI, JMP, BRH, CAL, RET, LOD, STR][n]
  }

  /** Numbering is a bijection between opcodes and nibbles. */
  lemma {:induction false} OpcodeOfNumber(op: Opcode)
    ensures OpcodeOf(Number(op)) == op
  {
    match op
    case NOP => case HLT => case ADD => case SUB =>
    case NOR => case AND => case XOR => case RSH =>
    case LDI => case ADI => case JMP => case BRH =>
    case CAL => case RET => case LOD => case STR =>
  }

  /** A decoded instruction: every field is a view of the same word. */
  datatype Instruction = Instruction(opcode: Opcode, regA: Nibble, regB: Nibble, regC: Nibble, imm: Byte)

  /** The fields are consistent views of one word: `imm` is the low byte, i.e. `regB:regC`. */
  predicate WellFormed(inst: Instruction)
  {
    inst.imm == inst.regB * 16 + inst.regC
  }

  /**
    Splits a raw word into its fields by shifts and masks: bits 15-12,
    11-8, 7-4, 3-0 and the low byte. Total on every 16-bit word. What the
    fields mean is proved separately, in DecodeFields, so that the
    arithmetic stays out of every proof that merely decodes a word.
   */
  function Decode(w: Word): (inst: Instruction)
  {
    Instruction(OpcodeOf((w / 4096) % 16), (w / 256) % 16, (w / 16) % 16, w % 16, w % 256)
  }

  /**
    The decoded fields are consistent views of the word and together hold
    all of it: the four nibbles are its base-16 digits, most significant first.
   */
  lemma DecodeFields(w: Word)
    ensures WellFormed(Decode(w))
    ensures var inst := Decode(w);
      Number(inst.opcode) * 4096 + inst.regA * 256 + inst.regB * 16 + inst.regC == w
  {
    var d0, q0 := w % 16, w / 16;
    var d1, q1 := q0 % 16, q0 / 16;
    var d2, d3 := q1 % 16, q1 / 16;
    assert w == q1 * 256 + d1 * 16 + d0;
    DivMod(w, 256, q1, d1 * 16 + d0);
    DivMod(w, 4096, d3, d2 * 256 + d1 * 16 + d0);
  }

  /** Reassembles a word from its fields; the inverse of Decode. */
  function Encode(inst: Instruction): (w: Word)
    requires WellFormed(inst)
    ensures Decode(w) == inst
  {
    DecodeDigits(inst.opcode, inst.regA, inst.regB, inst.regC);
    Number(inst.opcode) * 4096 + inst.regA * 256 + inst.regB * 16 + inst.regC
  }

  /** Decoding the word with hexadecimal digits op, a, b, c gives exactly those fields. */
  lemma DecodeDigits(op: Opcode, a: Nibble, b: Nibble, c: Nibble)
    ensures var w := Number(op) * 4096 + a * 256 + b * 16 + c;
      0 <= w < 0x1_0000 && Decode(w) == Instruction(op, a, b, c, b * 16 + c)
  {
    var n := Number(op);
    var w := n * 4096 + a * 256 + b * 16 + c;
    DivMod(w, 16, n * 256 + a * 16 + b, c);
    DivMod(w, 256, n * 16 + a, b * 16 + c);
    DivMod(w, 4096, n, a * 256 + b * 16 + c);
    DivMod(n * 16 + a, 16, n, a);
    DivMod(n * 256 + a * 16 + b, 16, n * 16 + a, b);
    OpcodeOfNumber(op);
  }

  /** Quotient and remainder are determined by the division equation. */
  lemma DivMod(w: int, d: int, q: int, r: int)
    requires 0 <= r < d && w == q * d + r
    ensures w / d == q && w % d == r
  {
    var q', r' := w / d, w % d;
    assert (q - q') * d == r' - r;
    if q > q' {
      MulAtLeast(q - q', d);
    } else if q < q' {
      MulAtLeast(q' - q, d);
    }
  }

  lemma MulAtLeast(k: int, d: int)
    requires k >= 1 && d >= 1
    ensures k * d >= d
  {
  }

  /** Encoding a decoded word gives the word back, so no two words decode alike. */
  lemma EncodeDecode(w: Word)
    ensures WellFormed(Decode(w)) && Encode(Decode(w)) == w
    ensures forall v: Word :: Decode(v) == Decode(w) ==> v == w
  {
    DecodeFields(w);
    forall v: Word | Decode(v) == Decode(w) ensures v == w {
      DecodeFields(v);
    }
  }
}
