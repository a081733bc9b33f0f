/**
  What one `execute` step does, opcode by opcode, stated in terms of the
  operand values it reads (register 0 reads as 0) and plain modular
  arithmetic rather than the C-shaped writes of Machine.Dispatch.
 */
module StepLaws {
  import opened Bits
  import opened Codec
  import opened CallStacks
  import opened Machine

  /** ADD: regC gets the sum modulo 256; carry is unsigned overflow, zero tests the stored byte. */
  lemma ExecuteAdd(s: State, inst: Instruction)
    requires s.Valid() && inst.opcode == ADD
    ensures var a, b, t := Operand(s, inst.regA), Operand(s, inst.regB), Execute(s, inst);
      && t.registers == s.registers[inst.regC := (a + b) % 256][0 := 0]
      && t.flags == Flags((a + b) % 256 == 0, a + b > 255)
      && t.pc == Increment(s.pc) && t.memory == s.memory && t.stack == s.stack
  {
  }

  /**
    SUB: regC gets the difference modulo 256, but carry compares the
    operands as signed bytes, so 200 - 1 sets carry and 1 - 200 does not.
   */
  lemma ExecuteSub(s: State, inst: Instruction)
    requires s.Valid() && inst.opcode == SUB
    ensures var a, b, t := Operand(s, inst.regA), Operand(s, inst.regB), Execute(s, inst);
      && t.registers == s.registers[inst.regC := (a - b) % 256][0 := 0]
      && t.flags == Flags((a - b) % 256 == 0, Int8(a) < Int8(b))
      && t.pc == Increment(s.pc) && t.memory == s.memory && t.stack == s.stack
  {
    SignedDifferenceModulo(Operand(s, inst.regA), Operand(s, inst.regB));
  }

  /** The byte NOR, AND and XOR store, by opcode. */
  function LogicResult(op: Opcode, a: Byte, b: Byte): (v: Byte)
    requires op in {NOR, AND, XOR}
  {
    match op
    case NOR => 255 - Or(a, b)
    case AND => And(a, b)
    case XOR => Xor(a, b)
  }

  /** NOR, AND, XOR: regC gets the bitwise result, carry is cleared, zero tests the result. */
  lemma ExecuteLogic(s: State, inst: Instruction)
    requires s.Valid() && inst.opcode in {NOR, AND, XOR}
    ensures var v, t := LogicResult(inst.opcode, Operand(s, inst.regA), Operand(s, inst.regB)), Execute(s, inst);
      && t.registers == s.registers[inst.regC := v][0 := 0]
      && t.flags == Flags(v == 0, false)
      && t.pc == Increment(s.pc) && t.memory == s.memory && t.stack == s.stack
  {
  }

  /**
    RSH: regC gets half of regA. Carry is bit 0 of regA as it reads after
    the write, which is bit 1 of the original value when regA is regC.
   */
  lemma ExecuteRsh(s: State, inst: Instruction)
    requires s.Valid() && inst.opcode == RSH
    ensures var a, t := Operand(s, inst.regA), Execute(s, inst);
      && t.registers == s.registers[inst.regC := a / 2][0 := 0]
      && t.flags.zero == (a < 2)
      && t.flags.carry == (if inst.regA == inst.regC then (a / 2) % 2 == 1 else a % 2 == 1)
      && t.pc == Increment(s.pc) && t.memory == s.memory && t.stack == s.stack
  {
  }

  /** LDI: regA gets the immediate; zero is set exactly when the immediate is 0, carry is cleared. */
  lemma ExecuteLdi(s: State, inst: Instruction)
    requires s.Valid() && inst.opcode == LDI
    ensures var t := Execute(s, inst);
      && t.registers == s.registers[inst.regA := inst.imm][0 := 0]
      && t.flags == Flags(inst.imm == 0, false)
      && t.pc == Increment(s.pc) && t.memory == s.memory && t.stack == s.stack
  {
  }

  /** ADI: regA gets regA + imm modulo 256, with the same flags as ADD. */
  lemma ExecuteAdi(s: State, inst: Instruction)
    requires s.Valid() && inst.opcode == ADI
    ensures var a, t := Operand(s, inst.regA), Execute(s, inst);
      && t.registers == s.registers[inst.regA := (a + inst.imm) % 256][0 := 0]
      && t.flags == Flags((a + inst.imm) % 256 == 0, a + inst.imm > 255)
      && t.pc == Increment(s.pc) && t.memory == s.memory && t.stack == s.stack
  {
  }

  /** LOD: regA gets the low 8 bits of the word addressed by regB; flags are untouched. */
  lemma ExecuteLod(s: State, inst: Instruction)
    requires s.Valid() && inst.opcode == LOD
    ensures var t := Execute(s, inst);
      && t.registers == s.registers[inst.regA := s.memory[Operand(s, inst.regB)] % 256][0 := 0]
      && t.flags == s.flags
      && t.pc == Increment(s.pc) && t.memory == s.memory && t.stack == s.stack
  {
  }

  /**
    STR: the word addressed by regB gets regA. Addresses are register
    values, so only the first 256 words of memory can be written.
   */
  lemma ExecuteStr(s: State, inst: Instruction)
    requires s.Valid() && inst.opcode == STR
    ensures var t := Execute(s, inst);
      && t.memory == s.memory[Operand(s, inst.regB) := Operand(s, inst.regA)]
      && (forall i :: 256 <= i < MemorySize ==> t.memory[i] == s.memory[i])
      && t.registers == s.registers[0 := 0] && t.flags == s.flags
      && t.pc == Increment(s.pc) && t.stack == s.stack
  {
  }

  /** HLT and NOP change nothing but register 0 and, for NOP, the program counter. */
  lemma ExecuteHaltNop(s: State, inst: Instruction)
    requires s.Valid() && inst.opcode in {HLT, NOP}
    ensures var t := Execute(s, inst);
      t == s.(registers := s.registers[0 := 0],
              pc := if inst.opcode == NOP then Increment(s.pc) else s.pc)
  {
  }

  /**
    JMP, BRH, CAL, RET: only the program counter and the stack change.
    JMP goes to imm; BRH goes to imm when zero is set and otherwise stays
    put; CAL pushes the address of the CAL itself and goes to imm; RET goes
    to the popped value with no adjustment (0xFFFF on an empty stack).
   */
  lemma ExecuteControl(s: State, inst: Instruction)
    requires s.Valid() && inst.opcode in {JMP, BRH, CAL, RET}
    ensures var op, t := inst.opcode, Execute(s, inst);
      && t.registers == s.registers[0 := 0] && t.flags == s.flags && t.memory == s.memory
      && (op == JMP ==> t.pc == inst.imm && t.stack == s.stack)
      && (op == BRH ==> t.pc == (if s.flags.zero then inst.imm else s.pc) && t.stack == s.stack)
      && (op == CAL ==> t.pc == inst.imm && t.stack == Push(s.stack, s.pc))
      && (op == RET ==> (t.stack, t.pc) == Pop(s.stack))
      && (op == RET && s.stack.sp == 0 ==> t.pc == Underflow)
  {
  }

  /** The opcodes that fall through to the next word advance the program counter by one, modulo 2^16. */
  lemma ExecuteAdvancesPc(s: State, inst: Instruction)
    requires s.Valid()
    requires inst.opcode in {NOP, ADD, SUB, NOR, AND, XOR, RSH, LDI, ADI, LOD, STR}
    ensures Execute(s, inst).pc == Increment(s.pc)
  {
  }

  /** The eight opcodes that compute no ALU result leave both flags alone; NOR, AND, XOR and LDI clear carry. */
  lemma ExecuteFlagFrame(s: State, inst: Instruction)
    requires s.Valid()
    ensures inst.opcode in {NOP, HLT, JMP, BRH, CAL, RET, LOD, STR} ==> Execute(s, inst).flags == s.flags
    ensures inst.opcode in {NOR, AND, XOR, LDI} ==> !Execute(s, inst).flags.carry
  {
  }

  /** Register 0 holds 0 after every step and reads as 0 during it, whatever it held before. */
  lemma RegisterZeroIsHardwired(s: State, inst: Instruction, v: Byte)
    requires s.Valid()
    ensures Execute(s, inst).registers[0] == 0
    ensures Execute(s, inst) == Execute(s.(registers := s.registers[0 := v]), inst)
  {
  }
}
