/**
  Properties of the fetch-decode-execute loop `run`, modelled by
  Machine.Run with a step budget.
 */
module RunLaws {
  import opened Bits
  import opened Codec
  import opened CallStacks
  import opened Machine
  import opened StepLaws

  /**
    A run that halts stops right after executing an HLT: the program
    counter still holds the address of that HLT word.
   */
  lemma {:induction false} RunHaltsOnHlt(s: State, fuel: nat)
    requires s.Valid() && Run(s, fuel).status == Halted
    ensures var t := Run(s, fuel).state;
      && t.pc < MemorySize
      && Decode(t.memory[t.pc]).opcode == HLT
      && t.registers[0] == 0
    decreases fuel
  {
    var inst := Decode(s.memory[s.pc]);
    if inst.opcode == HLT {
      ExecuteHaltNop(s, inst);
    } else {
      RunHaltsOnHlt(Execute(s, inst), fuel - 1);
    }
  }

  /** Running for f + g steps is running for f steps and, if the budget ran out, g more. */
  lemma {:induction false} RunSplit(s: State, f: nat, g: nat)
    requires s.Valid()
    ensures Run(s, f + g) == (var r := Run(s, f); if r.status == OutOfFuel then Run(r.state, g) else r)
    decreases f
  {
    if f > 0 && s.pc < MemorySize {
      var inst := Decode(s.memory[s.pc]);
      if inst.opcode != HLT {
        var t := Execute(s, inst);
        RunSplit(t, f - 1, g);
        assert Run(s, f + g) == Run(t, f + g - 1);
      }
    }
  }

  /** Once a run has halted or faulted, a larger budget gives the same outcome. */
  lemma RunMonotone(s: State, f: nat, g: nat)
    requires s.Valid() && f <= g && Run(s, f).status != OutOfFuel
    ensures Run(s, g) == Run(s, f)
  {
    RunSplit(s, f, g - f);
  }

  /**
    A BRH whose zero flag is clear does not advance the program counter,
    so the loop executes it again and again and never halts.
   */
  lemma {:induction false} UntakenBranchSpins(s: State, fuel: nat)
    requires s.Valid() && s.pc < MemorySize && !s.flags.zero
    requires Decode(s.memory[s.pc]).opcode == BRH
    ensures Run(s, fuel).status == OutOfFuel
    decreases fuel
  {
    if fuel > 0 {
      var inst := Decode(s.memory[s.pc]);
      ExecuteControl(s, inst);
      UntakenBranchSpins(Execute(s, inst), fuel - 1);
    }
  }

  /**
    CAL to a RET comes back to the CAL itself, not to the word after it:
    two steps later the program counter, the live stack entries, the
    registers, the flags and the memory are as they were (register 0 cleared).
   */
  lemma CallThenReturn(s: State)
    requires s.Valid() && s.pc < MemorySize && s.stack.sp < Capacity
    requires Decode(s.memory[s.pc]).opcode == CAL
    requires Decode(s.memory[Decode(s.memory[s.pc]).imm]).opcode == RET
    ensures var t := Run(s, 2);
      && t.status == OutOfFuel
      && t.state.pc == s.pc && t.state.stack.sp == s.stack.sp
      && t.state.stack.Contents() == s.stack.Contents()
      && t.state.registers == s.registers[0 := 0] && t.state.flags == s.flags
      && t.state.memory == s.memory
  {
    var call := Decode(s.memory[s.pc]);
    var s1 := Execute(s, call);
    ExecuteControl(s, call);
    var ret := Decode(s1.memory[s1.pc]);
    ExecuteControl(s1, ret);
    PopAfterPush(s.stack, s.pc);
    assert Run(s1, 1) == Outcome(OutOfFuel, Execute(s1, ret));
  }

  /** Hence a CAL whose target is a RET loops for ever: the program never halts. */
  lemma {:induction false} CallToReturnNeverHalts(s: State, fuel: nat)
    requires s.Valid() && s.pc < MemorySize && s.stack.sp < Capacity
    requires Decode(s.memory[s.pc]).opcode == CAL
    requires Decode(s.memory[Decode(s.memory[s.pc]).imm]).opcode == RET
    ensures Run(s, fuel).status == OutOfFuel
    decreases fuel
  {
    if fuel >= 2 {
      CallThenReturn(s);
      RunSplit(s, 2, fuel - 2);
      CallToReturnNeverHalts(Run(s, 2).state, fuel - 2);
    } else if fuel == 1 {
      ExecuteControl(s, Decode(s.memory[s.pc]));
    }
  }

  /**
    On a full stack the CAL's push is dropped, so the RET pops the entry that
    was already on top: the program counter goes there, not back to the CAL,
    and the stack loses that entry.
   */
  lemma CallOnFullStackReturnsToTop(s: State)
    requires s.Valid() && s.pc < MemorySize && s.stack.sp == Capacity
    requires Decode(s.memory[s.pc]).opcode == CAL
    requires Decode(s.memory[Decode(s.memory[s.pc]).imm]).opcode == RET
    ensures var t := Run(s, 2);
      && t.status == OutOfFuel
      && t.state.pc == s.stack.slots[Capacity - 1] && t.state.stack.sp == Capacity - 1
      && t.state.stack.Contents() == s.stack.Contents()[..Capacity - 1]
      && t.state.registers == s.registers[0 := 0] && t.state.flags == s.flags
      && t.state.memory == s.memory
  {
    var call := Decode(s.memory[s.pc]);
    var s1 := Execute(s, call);
    ExecuteControl(s, call);
    var ret := Decode(s1.memory[s1.pc]);
    ExecuteControl(s1, ret);
    assert Run(s1, 1) == Outcome(OutOfFuel, Execute(s1, ret));
  }
}
