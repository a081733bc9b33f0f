/**
  The simulator as the C code runs it: one `CPU` object whose arrays and
  fields `push`, `pop`, `execute` and `run` update in place. Every method
  is proved to change the object exactly as the pure functions of modules
  CallStacks and Machine say.
 */
module Cpu {
  import opened Bits
  import opened Codec
  import opened CallStacks
  import opened Machine

  class CPU {
    const registers: array<Byte>
    var programCounter: Word
    var zero: bool
    var carry: bool
    const instructionMemory: array<Word>
    const stack: array<Word>
    var stackPointer: nat

    ghost predicate Valid()
      reads this
    {
      && registers.Length == RegisterCount
      && instructionMemory.Length == MemorySize
      && stack.Length == Capacity
      && stackPointer <= Capacity
      && stack != instructionMemory
    }

    /** The call stack as a value. */
    ghost function StackSnapshot(): (c: CallStack)
      reads this, stack
      requires Valid()
      ensures c.Valid()
    {
      CallStack(stack[..], stackPointer)
    }

    /** The whole machine as a value. */
    ghost function Snapshot(): (s: State)
      reads this, registers, instructionMemory, stack
      requires Valid()
      ensures s.Valid()
    {
      State(registers[..], programCounter, Flags(zero, carry), instructionMemory[..], StackSnapshot())
    }

    /** `CPU cpu = {0}` followed by loading a program image into instruction memory. */
    constructor (image: seq<Word>)
      requires |image| == MemorySize
      ensures Valid() && fresh(registers) && fresh(instructionMemory) && fresh(stack)
      ensures Snapshot() == Initial(image)
    {
      registers := new Byte[RegisterCount](_ => 0);
      instructionMemory := new Word[MemorySize](i requires 0 <= i < MemorySize => image[i]);
      stack := new Word[Capacity](_ => 0);
      programCounter, zero, carry, stackPointer := 0, false, false, 0;
      new;
      assert registers[..] == seq(RegisterCount, _ => 0);
      assert instructionMemory[..] == image;
      assert stack[..] == seq(Capacity, _ => 0);
    }

    /** `push`: stores the value in the next free slot, or drops it when all 16 are in use. */
    method Push(value: Word)
      requires Valid()
      modifies this`stackPointer, stack
      ensures Valid()
      ensures StackSnapshot() == CallStacks.Push(old(StackSnapshot()), value)
    {
      if stackPointer < Capacity {
        stack[stackPointer] := value;
        stackPointer := stackPointer + 1;
      }
    }

    /** `pop`: removes and returns the top entry, or returns 0xFFFF and changes nothing when empty. */
    method Pop() returns (value: Word)
      requires Valid()
      modifies this`stackPointer
      ensures Valid()
      ensures (StackSnapshot(), value) == CallStacks.Pop(old(StackSnapshot()))
    {
      if stackPointer > 0 {
        stackPointer := stackPointer - 1;
        return stack[stackPointer];
      }
      return Underflow;
    }

    /** `execute`: applies one decoded instruction. */
    method Execute(inst: Instruction)
      requires Valid()
      modifies this, registers, instructionMemory, stack
      ensures Valid()
      ensures Snapshot() == Machine.Execute(old(Snapshot()), inst)
    {
      registers[0] := 0;
      ghost var cleared := Snapshot();
      assert cleared == ClearZero(old(Snapshot()));
      match inst.opcode {
        case ADD | SUB | ADI => Arithmetic(inst);
        case NOR | AND | XOR | RSH | LDI => Logic(inst);
        case LOD | STR => Access(inst);
        case NOP | HLT | JMP | BRH | CAL | RET => Transfer(inst);
      }
      assert Snapshot() == Dispatch(cleared, inst);
      registers[0] := 0;
    }

    /** The `switch` cases of `execute` that add or subtract: the result byte, zero and carry. */
    method Arithmetic(inst: Instruction)
      requires Valid() && inst.opcode in {ADD, SUB, ADI}
      modifies this`zero, this`carry, this`programCounter, registers
      ensures Valid()
      ensures Snapshot() == Dispatch(old(Snapshot()), inst)
    {
      var next := Increment(programCounter);
      match inst.opcode {
        case ADD =>
          var result := registers[inst.regA] as int + registers[inst.regB];
          registers[inst.regC] := Truncate8(result);
          zero := registers[inst.regC] == 0;
          carry := result > 0xFF;
        case SUB =>
          var result := Int8(registers[inst.regA]) - Int8(registers[inst.regB]);
          registers[inst.regC] := Truncate8(result);
          zero := registers[inst.regC] == 0;
          carry := result < 0;
        case ADI =>
          var result := registers[inst.regA] as int + inst.imm;
          registers[inst.regA] := Truncate8(result);
          zero := registers[inst.regA] == 0;
          carry := result > 0xFF;
      }
      programCounter := next;
    }

    /** The `switch` cases of `execute` that store a bitwise, shifted or immediate byte. */
    method Logic(inst: Instruction)
      requires Valid() && inst.opcode in {NOR, AND, XOR, RSH, LDI}
      modifies this`zero, this`carry, this`programCounter, registers
      ensures Valid()
      ensures Snapshot() == Dispatch(old(Snapshot()), inst)
    {
      var next := Increment(programCounter);
      match inst.opcode {
        case NOR =>
          registers[inst.regC] := Nor(registers[inst.regA], registers[inst.regB]);
          zero := registers[inst.regC] == 0;
          carry := false;
        case AND =>
          registers[inst.regC] := And(registers[inst.regA], registers[inst.regB]);
          zero := registers[inst.regC] == 0;
          carry := false;
        case XOR =>
          registers[inst.regC] := Xor(registers[inst.regA], registers[inst.regB]);
          zero := registers[inst.regC] == 0;
          carry := false;
        case RSH =>
          registers[inst.regC] := registers[inst.regA] / 2;
          zero := registers[inst.regC] == 0;
          carry := registers[inst.regA] % 2 == 1;
        case LDI =>
          registers[inst.regA] := inst.imm;
          zero := registers[inst.regA] == 0;
          carry := false;
      }
      programCounter := next;
    }

    /** The `switch` cases of `execute` that read or write instruction memory. */
    method Access(inst: Instruction)
      requires Valid() && inst.opcode in {LOD, STR}
      modifies this`programCounter, registers, instructionMemory
      ensures Valid()
      ensures Snapshot() == Dispatch(old(Snapshot()), inst)
    {
      if inst.opcode == LOD {
        registers[inst.regA] := Truncate8(instructionMemory[registers[inst.regB]]);
      } else {
        instructionMemory[registers[inst.regB]] := registers[inst.regA];
      }
      programCounter := Increment(programCounter);
    }

    /** The `switch` cases of `execute` that only move the program counter and the stack. */
    method Transfer(inst: Instruction)
      requires Valid() && inst.opcode in {NOP, HLT, JMP, BRH, CAL, RET}
      modifies this`programCounter, this`stackPointer, stack
      ensures Valid()
      ensures Snapshot() == Dispatch(old(Snapshot()), inst)
    {
      match inst.opcode {
        case NOP =>
          programCounter := Increment(programCounter);
        case HLT =>
        case JMP =>
          programCounter := inst.imm;
        case BRH =>
          if zero {
            programCounter := inst.imm;
          }
        case CAL =>
          Push(programCounter);
          programCounter := inst.imm;
        case RET =>
          programCounter := Pop();
      }
    }

    /**
      `run` with a step budget: fetch, decode and execute until an HLT has
      been executed. Stops with Fault instead of reading outside the
      memory, and with OutOfFuel after `fuel` instructions.
     */
    method Run(fuel: nat) returns (status: Status)
      requires Valid()
      modifies this, registers, instructionMemory, stack
      ensures Valid()
      ensures Outcome(status, Snapshot()) == Machine.Run(old(Snapshot()), fuel)
    {
      var remaining := fuel;
      while remaining > 0
        invariant Valid()
        invariant Machine.Run(Snapshot(), remaining) == Machine.Run(old(Snapshot()), fuel)
        decreases remaining
      {
        if programCounter >= MemorySize {
          return Fault;
        }
        var raw := instructionMemory[programCounter];
        var inst := Decode(raw);
        Execute(inst);
        if inst.opcode == HLT {
          return Halted;
        }
        remaining := remaining - 1;
      }
      return OutOfFuel;
    }
  }
}
