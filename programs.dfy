/**
  Small whole programs, loaded at address 0 of any valid state whose pc
  is 0: the observable results of the ADD flags, the LDI zero flag and
  the CAL/RET pair.
 */
module Programs {
  import opened Bits
  import opened Codec
  import opened CallStacks
  import opened Machine
  import opened StepLaws
  import opened RunLaws

  /** The program is loaded at address 0 and the program counter is 0. */
  predicate LoadedAtZero(s: State, program: seq<Word>)
    requires s.Valid()
  {
    s.pc == 0 && |program| <= MemorySize && s.memory[..|program|] == program
  }

  /** One step of a run on a word already known to decode to a non-HLT `inst`. */
  lemma RunStep(s: State, fuel: nat, inst: Instruction)
    requires s.Valid() && 0 < fuel && s.pc < MemorySize
    requires Decode(s.memory[s.pc]) == inst && inst.opcode != HLT
    ensures Run(s, fuel) == Run(Execute(s, inst), fuel - 1)
  {
  }

  /** The last step of a run, on a word known to decode to HLT. */
  lemma RunHalt(s: State, fuel: nat, inst: Instruction)
    requires s.Valid() && 0 < fuel && s.pc < MemorySize
    requires Decode(s.memory[s.pc]) == inst && inst.opcode == HLT
    ensures Run(s, fuel) == Outcome(Halted, s.(registers := s.registers[0 := 0]))
  {
    ExecuteHaltNop(s, inst);
  }

  /** The instruction words of the addition program decode to LDI r1,x; LDI r2,y; ADD r1,r2,r3; HLT. */
  lemma AdditionDecodes(x: Byte, y: Byte)
    ensures Decode(0x8100 + x) == Instruction(LDI, 1, x / 16, x % 16, x)
    ensures Decode(0x8200 + y) == Instruction(LDI, 2, y / 16, y % 16, y)
    ensures Decode(0x2123) == Instruction(ADD, 1, 2, 3, 0x23)
    ensures Decode(0x1000) == Instruction(HLT, 0, 0, 0, 0)
  {
    assert Encode(Instruction(LDI, 1, x / 16, x % 16, x)) == 0x8100 + x;
    assert Encode(Instruction(LDI, 2, y / 16, y % 16, y)) == 0x8200 + y;
    assert Encode(Instruction(ADD, 1, 2, 3, 0x23)) == 0x2123;
    assert Encode(Instruction(HLT, 0, 0, 0, 0)) == 0x1000;
  }

  /**
    LDI r1,x; LDI r2,y; ADD r1,r2,r3; HLT halts at address 3 with r1 = x,
    r2 = y, r3 = (x + y) mod 256, zero set exactly when that sum byte is 0
    and carry set exactly when x + y exceeds 255, from any registers, flags
    and stack, given at least four steps.
   */
  lemma Addition(s0: State, fuel: nat, x: Byte, y: Byte)
    requires s0.Valid() && LoadedAtZero(s0, [0x8100 + x, 0x8200 + y, 0x2123, 0x1000]) && fuel >= 4
    ensures var r := Run(s0, fuel);
      && r.status == Halted && r.state.pc == 3
      && r.state.registers[1] == x && r.state.registers[2] == y && r.state.registers[3] == (x + y) % 256
      && r.state.flags == Flags((x + y) % 256 == 0, x + y > 255)
  {
    var program := [0x8100 + x, 0x8200 + y, 0x2123, 0x1000];
    assert s0.memory[0] == program[0] && s0.memory[1] == program[1];
    assert s0.memory[2] == program[2] && s0.memory[3] == program[3];
    AdditionDecodes(x, y);
    AdditionSteps(s0, fuel, x, y);
  }

  /** The four steps of Addition, once the words are decoded. */
  lemma AdditionSteps(s0: State, fuel: nat, x: Byte, y: Byte)
    requires s0.Valid() && s0.pc == 0 && fuel >= 4
    requires Decode(s0.memory[0]) == Instruction(LDI, 1, x / 16, x % 16, x)
    requires Decode(s0.memory[1]) == Instruction(LDI, 2, y / 16, y % 16, y)
    requires Decode(s0.memory[2]) == Instruction(ADD, 1, 2, 3, 0x23)
    requires Decode(s0.memory[3]) == Instruction(HLT, 0, 0, 0, 0)
    ensures var r := Run(s0, fuel);
      && r.status == Halted && r.state.pc == 3
      && r.state.registers[1] == x && r.state.registers[2] == y && r.state.registers[3] == (x + y) % 256
      && r.state.flags == Flags((x + y) % 256 == 0, x + y > 255)
  {
    var i0, i1, i2 := Decode(s0.memory[0]), Decode(s0.memory[1]), Decode(s0.memory[2]);
    var s1 := Execute(s0, i0);
    ExecuteLdi(s0, i0);
    RunStep(s0, fuel, i0);
    var s2 := Execute(s1, i1);
    ExecuteLdi(s1, i1);
    RunStep(s1, fuel - 1, i1);
    var s3 := Execute(s2, i2);
    ExecuteAdd(s2, i2);
    RunStep(s2, fuel - 2, i2);
    RunHalt(s3, fuel - 3, Decode(s0.memory[3]));
  }

  /** LDI r1,x; HLT halts at address 1 with the zero flag set exactly when x is 0: LDI tests the loaded value. */
  lemma LoadSetsZero(s0: State, fuel: nat, x: Byte)
    requires s0.Valid() && LoadedAtZero(s0, [0x8100 + x, 0x1000]) && fuel >= 2
    ensures var r := Run(s0, fuel);
      && r.status == Halted && r.state.pc == 1 && r.state.registers[1] == x
      && r.state.flags == Flags(x == 0, false)
  {
    var program := [0x8100 + x, 0x1000];
    assert s0.memory[0] == program[0] && s0.memory[1] == program[1];
    AdditionDecodes(x, 0);
    var i0 := Decode(s0.memory[0]);
    var s1 := Execute(s0, i0);
    ExecuteLdi(s0, i0);
    RunStep(s0, fuel, i0);
    RunHalt(s1, fuel - 1, Decode(s1.memory[1]));
  }

  /**
    CAL 2; HLT; RET never reaches its HLT when started on an empty stack:
    RET returns to the CAL, which calls again, for any step budget.
   */
  lemma CallReturnNeverHalts(s0: State, fuel: nat)
    requires s0.Valid() && LoadedAtZero(s0, [0xC002, 0x1000, 0xD000]) && s0.stack.sp == 0
    ensures Run(s0, fuel).status == OutOfFuel
  {
    var program := [0xC002, 0x1000, 0xD000];
    assert s0.memory[0] == program[0] && s0.memory[2] == program[2];
    assert Decode(s0.memory[s0.pc]).imm == 2;
    CallToReturnNeverHalts(s0, fuel);
  }
}
