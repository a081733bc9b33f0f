/**
  The BatPU-2 machine state and the meaning of one instruction step and
  of a run, as pure functions. The CPU class in module Cpu is proved to
  change its arrays and fields exactly as these functions say.
 */
module Machine {
  import opened Bits
  import opened Codec
  import opened CallStacks

  /** Size of the instruction memory in words (`MEMORY_SIZE`). */
  const MemorySize := 2048

  /** Number of general-purpose registers. */
  const RegisterCount := 16

  datatype Flags = Flags(zero: bool, carry: bool)

  /** The fields of the C `CPU` struct, as values. */
  datatype State = State(
    registers: seq<Byte>,
    pc: Word,
    flags: Flags,
    memory: seq<Word>,
    stack: CallStack)
  {
    predicate Valid()
    {
      |registers| == RegisterCount && |memory| == MemorySize && stack.Valid()
    }
  }

  /** The zero-initialised CPU with a loaded program image. */
  function Initial(image: seq<Word>): (s: State)
    requires |image| == MemorySize
    ensures s.Valid() && s.memory == image && s.pc == 0 && s.flags == Flags(false, false)
    ensures forall i :: 0 <= i < RegisterCount ==> s.registers[i] == 0
    ensures s.stack.sp == 0 && forall i :: 0 <= i < Capacity ==> s.stack.slots[i] == 0
  {
    State(seq(RegisterCount, _ => 0), 0, Flags(false, false), image, Empty())
  }

  /** The value an operand register has while a step runs: register 0 has just been cleared. */
  function Operand(s: State, r: Nibble): (v: Byte)
    requires s.Valid()
    ensures r == 0 ==> v == 0
    ensures r != 0 ==> v == s.registers[r]
  {
    s.registers[0 := 0][r]
  }

  /** Clears register 0, as `execute` does on entry and on exit. */
  function ClearZero(s: State): (t: State)
    requires s.Valid()
    ensures t.Valid() && t.registers[0] == 0
  {
    s.(registers := s.registers[0 := 0])
  }

  /** Clearing register 0 leaves the other fifteen registers and the rest of the state as they were. */
  lemma ClearZeroFrame(s: State)
    requires s.Valid()
    ensures var t := ClearZero(s);
      && (forall i :: 0 < i < RegisterCount ==> t.registers[i] == s.registers[i])
      && t.pc == s.pc && t.flags == s.flags && t.memory == s.memory && t.stack == s.stack
  {
  }

  /**
    The body of the `switch` in `execute`, on a state whose register 0 is
    already 0. What each case does is stated per opcode in module StepLaws.
   */
  function Dispatch(s: State, inst: Instruction): (t: State)
    requires s.Valid()
    ensures t.Valid()
  {
    var regs := s.registers;
    var next := Increment(s.pc);
    match inst.opcode
    case NOP =>
      s.(pc := next)
    case HLT =>
      s
    case ADD =>
      var result := regs[inst.regA] as int + regs[inst.regB];
      var regs' := regs[inst.regC := Truncate8(result)];
      s.(registers := regs', flags := Flags(regs'[inst.regC] == 0, result > 0xFF), pc := next)
    case SUB =>
      var result := Int8(regs[inst.regA]) - Int8(regs[inst.regB]);
      var regs' := regs[inst.regC := Truncate8(result)];
      s.(registers := regs', flags := Flags(regs'[inst.regC] == 0, result < 0), pc := next)
    case NOR =>
      var regs' := regs[inst.regC := Nor(regs[inst.regA], regs[inst.regB])];
      s.(registers := regs', flags := Flags(regs'[inst.regC] == 0, false), pc := next)
    case AND =>
      var regs' := regs[inst.regC := And(regs[inst.regA], regs[inst.regB])];
      s.(registers := regs', flags := Flags(regs'[inst.regC] == 0, false), pc := next)
    case XOR =>
      var regs' := regs[inst.regC := Xor(regs[inst.regA], regs[inst.regB])];
      s.(registers := regs', flags := Flags(regs'[inst.regC] == 0, false), pc := next)
    case RSH =>
      var regs' := regs[inst.regC := regs[inst.regA] / 2];
      s.(registers := regs', flags := Flags(regs'[inst.regC] == 0, regs'[inst.regA] % 2 == 1), pc := next)
    case LDI =>
      var regs' := regs[inst.regA := inst.imm];
      s.(registers := regs', flags := Flags(regs'[inst.regA] == 0, false), pc := next)
    case ADI =>
      var result := regs[inst.regA] as int + inst.imm;
      var regs' := regs[inst.regA := Truncate8(result)];
      s.(registers := regs', flags := Flags(regs'[inst.regA] == 0, result > 0xFF), pc := next)
    case JMP =>
      s.(pc := inst.imm)
    case BRH =>
      if s.flags.zero then s.(pc := inst.imm) else s
    case CAL =>
      s.(stack := Push(s.stack, s.pc), pc := inst.imm)
    case RET =>
      var (stack', top) := Pop(s.stack);
      s.(stack := stack', pc := top)
    case LOD =>
      s.(registers := regs[inst.regA := Truncate8(s.memory[regs[inst.regB]])], pc := next)
    case STR =>
      s.(memory := s.memory[regs[inst.regB] := regs[inst.regA]], pc := next)
  }

  /**
    `execute`: one instruction step. Register 0 is cleared before the
    opcode's effect and again after it, so it holds 0 whatever was written.
    Only STR changes the memory, and only RET and CAL touch the stack.
   */
  function Execute(s: State, inst: Instruction): (t: State)
    requires s.Valid()
    ensures t.Valid() && t.registers[0] == 0
    ensures inst.opcode != STR ==> t.memory == s.memory
    ensures inst.opcode !in {CAL, RET} ==> t.stack == s.stack
  {
    ClearZero(Dispatch(ClearZero(s), inst))
  }

  /** How a fuelled run ended. */
  datatype Status =
    | Halted     // an HLT instruction was executed
    | Fault      // the program counter left instruction memory (undefined in C)
    | OutOfFuel  // the step budget was used up

  datatype Outcome = Outcome(status: Status, state: State)

  /**
    `run` with a step budget: fetch the word at the program counter,
    decode it, execute it, and stop right after an HLT. At most `fuel`
    instructions are executed.
   */
  function Run(s: State, fuel: nat): (r: Outcome)
    requires s.Valid()
    ensures r.state.Valid()
    ensures r.status == Fault ==> r.state.pc >= MemorySize
    decreases fuel, 1
  {
    if fuel == 0 then Outcome(OutOfFuel, s)
    else if s.pc >= MemorySize then Outcome(Fault, s)
    else
      var inst := Decode(s.memory[s.pc]);
      Continue(inst, Execute(s, inst), fuel)
  }

  /** The `break` test of `run`: after `inst` has run, stop if it was HLT, else go on with one step less. */
  function Continue(inst: Instruction, t: State, fuel: nat): (r: Outcome)
    requires t.Valid() && fuel > 0
    ensures r.state.Valid()
    ensures r.status == Fault ==> r.state.pc >= MemorySize
    decreases fuel, 0
  {
    if inst.opcode == HLT then Outcome(Halted, t) else Run(t, fuel - 1)
  }
}
