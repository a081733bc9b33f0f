# BatPU-2 CPU simulator core in Dafny

This project models the core of the BatPU-2 virtual machine, a C simulator of
a small educational CPU. The machine has sixteen 8-bit registers, of which
register 0 always reads as zero. It has a zero flag and a carry flag, a 16-bit
program counter, 2048 words of 16-bit instruction memory and a 16-slot call
stack. Every instruction is one 16-bit word.

The model follows `src/cpu.c` and is split into these modules:

- `Bits` (bits.dfy): the fixed-width integer types and the C conversions the
  simulator relies on. These are `(uint8_t)` truncation, the `(int8_t)`
  reading, `uint16_t` increment with wrap-around, and the bitwise
  OR/AND/XOR/NOR of bytes. The bitwise operations are defined bit by bit on
  integers.
- `Codec` (codec.dfy): the sixteen opcodes and `decode_instruction`, with an
  encoder proved to be its inverse.
- `CallStacks` (callstack.dfy): `push` and `pop` on the bounded stack, as
  functions on a value.
- `Machine` (machine.dfy): the CPU state as a value. `Execute` is one pass
  through `execute`, with the `switch` in `Dispatch`. `Run` is the `run`
  loop with a step budget.
- `StepLaws` (steplaws.dfy): what one step does for each opcode. Each
  effect is stated in terms of operand values and modular arithmetic.
- `RunLaws` (runlaws.dfy): properties of the fetch-decode-execute loop.
- `Cpu` (cpu.dfy): the simulator as the C code runs it. It is a `CPU` class
  with the register file, instruction memory and stack as arrays, plus
  fields for the program counter, flags and stack pointer. `Push`, `Pop`,
  `Execute` and `Run` update these in place. Each method is proved to leave
  the object in exactly the state the matching pure function gives.
- `Programs` (programs.dfy): whole small programs run from any loaded state.

Where the BatPU-2 instruction set as published and the C code disagree, the
model follows the code:

- LDI sets the zero flag when the loaded immediate is 0. The published
  instruction set says LDI never sets zero.
- BRH tests only the zero flag and jumps to the 8-bit `imm`. When it is not
  taken, the program counter stays where it is. The published instruction set has a
  two-bit condition selector and a 10-bit address, and adds 1 when the
  branch is not taken.
- CAL pushes the address of the CAL itself. RET jumps to the popped value
  without adding 1. So when the stack holds fewer than 16 entries, a CAL to
  a RET comes back to the CAL and calls again. When the stack is full, the
  push is dropped, and the RET jumps to the entry that was already on top.
- RSH takes its carry from bit 0 of `regA` as it reads after `regC` has been
  written. When `regA` is `regC`, that is bit 1 of the original value, not
  the bit shifted out.
- LOD and STR are implemented. They address memory with the value of
  `regB`, so they only reach words 0 to 255. LOD keeps the low 8 bits of the
  word it reads.
- `cond` and `address` instruction fields and the branch-condition enum are
  declared in `src/cpu.h` but never decoded or used. They are not modelled.

## Model

| member | source | states |
|---|---|---|
| Bits.Truncate8 | src/cpu.c:105 | `(uint8_t)x` keeps x modulo 256, and leaves bytes as they are |
| Bits.Int8 | src/cpu.c:117 | `(int8_t)b` is the signed byte in -128..127 that is congruent to b modulo 256 |
| Bits.Increment | src/cpu.c:110 | the `uint16_t` `program_counter++` adds 1 below 0xFFFF and wraps 0xFFFF to 0 |
| Bits.OrBits | src/cpu.c:130 | bitwise OR of n-bit numbers stays below 2^n, is at least each operand, and is 0 exactly when both operands are 0 |
| Bits.AndBits | src/cpu.c:142 | bitwise AND is at most each operand, and with an all-ones operand gives the other operand |
| Bits.XorBits | src/cpu.c:154 | bitwise XOR stays below 2^n, is 0 exactly when the operands are equal, and XOR with 0 is the identity |
| Bits.Or | src/cpu.c:130 | OR on bytes is a byte that is at least each operand, and is 0 exactly when both are 0 |
| Bits.And | src/cpu.c:142 | `a & b` on bytes is at most each operand, and 255 & b is b |
| Bits.Xor | src/cpu.c:154 | `a ^ b` on bytes is 0 exactly when a equals b, and a ^ 0 is a |
| Bits.Nor | src/cpu.c:130 | the complement of the OR, stored in a byte, is 255 minus the OR, so it is 0 exactly when the OR is 255 |
| Bits.SignedDifferenceModulo | src/cpu.c:117-118 | truncating the signed difference of two bytes gives their unsigned difference modulo 256 |
| Codec.Number | src/cpu.c:26-43 | the enum value of each opcode, 0x0 for NOP up to 0xF for STR; that this numbering is a bijection onto 0..15 is Codec.OpcodeOfNumber with Codec.OpcodeOf |
| Codec.OpcodeOf | src/cpu.c:26-43 | every 4-bit number names the opcode whose enum value it is |
| Codec.OpcodeOfNumber | src/cpu.c:26-43 | opcode numbering is a bijection between the sixteen opcodes and 0..15 |
| Codec.Decode | src/cpu.c:77-87 | `decode_instruction` by shifts and masks, total on every 16-bit word; what the fields mean is stated in Codec.DecodeFields, Codec.DecodeDigits and Codec.EncodeDecode |
| Codec.DecodeFields | src/cpu.c:77-87 | the decoded imm is regB:regC, and the opcode, regA, regB and regC digits reassemble to the original word |
| Codec.DecodeDigits | src/cpu.c:80-84 | decoding the word with hex digits op, a, b, c gives those four fields and imm = b*16 + c |
| Codec.Encode | src/cpu.c:77-87 | every consistent instruction has a 16-bit word that decodes to it |
| Codec.EncodeDecode | src/cpu.c:77-87 | encoding a decoded word gives the word back, so decoding is injective on 16-bit words |
| CallStacks.Empty | src/cpu.c:312 | the zero-initialised stack is valid, holds no entries, and all sixteen slots are 0 |
| CallStacks.Push | src/cpu.c:56-62 | below capacity, push appends the value and keeps every other slot; at capacity it changes nothing |
| CallStacks.Pop | src/cpu.c:64-72 | with entries, pop returns the top entry and removes it, slots untouched; when empty it returns 0xFFFF and changes nothing |
| CallStacks.PopAfterPush | src/cpu.c:56-72 | a pop right after a push that was not dropped returns the pushed value and restores the old entries |
| CallStacks.PushesSaturate | src/cpu.c:56-62 | after any sequence of pushes the pointer is the old pointer plus the count, capped at 16, and the entries are the first pushes that fitted |
| Machine.Initial | src/cpu.c:312 | `CPU cpu = {0}` with a loaded image: all registers 0, pc 0, zero and carry flags clear, stack pointer 0 with every slot 0, memory is the image |
| Machine.Operand | src/cpu.c:90 | during a step, register 0 reads as 0 and every other register reads its value |
| Machine.ClearZero | src/cpu.c:242 | after the store register 0 holds 0 and the state is still well formed |
| Machine.ClearZeroFrame | src/cpu.c:242 | clearing register 0 leaves registers 1 to 15, pc, flags, memory and stack as they were |
| Machine.Dispatch | src/cpu.c:91-241 | every case of the `switch` keeps the state well formed; the effect of each case is stated in the StepLaws rows |
| Machine.Execute | src/cpu.c:89-243 | after every step register 0 holds 0, only STR changes memory, and only CAL and RET change the stack |
| Machine.Run | src/cpu.c:245-261 | the run loop keeps the state well formed, and a run stops with a fault only when the program counter is outside instruction memory |
| Machine.Continue | src/cpu.c:256-259 | the `break` after HLT and the next iteration otherwise keep the state well formed, and fault only with pc outside instruction memory |
| StepLaws.ExecuteAdd | src/cpu.c:101-112 | ADD stores (a + b) mod 256 in regC, zero tests that byte, carry is a + b > 255, and pc advances |
| StepLaws.ExecuteSub | src/cpu.c:114-125 | SUB stores (a - b) mod 256 in regC, zero tests that byte, carry compares a and b as signed bytes, and pc advances |
| StepLaws.ExecuteLogic | src/cpu.c:127-161 | NOR, AND and XOR store 255 - OR(a, b), AND(a, b) or XOR(a, b) in regC, clear carry, set zero from the stored byte, and pc advances |
| StepLaws.ExecuteRsh | src/cpu.c:163-173 | RSH stores a/2 in regC, zero is a < 2, and carry is bit 0 of regA read after the write, which is bit 1 of a when regA is regC |
| StepLaws.ExecuteLdi | src/cpu.c:175-185 | LDI stores imm in regA, sets zero exactly when imm is 0, clears carry, and pc advances |
| StepLaws.ExecuteAdi | src/cpu.c:187-198 | ADI stores (a + imm) mod 256 in regA, with the same zero and carry rules as ADD |
| StepLaws.ExecuteLod | src/cpu.c:224-229 | LOD stores the low byte of the word addressed by regB in regA and leaves the flags unchanged |
| StepLaws.ExecuteStr | src/cpu.c:231-236 | STR writes regA's value at the address in regB, so words 256 and above never change |
| StepLaws.ExecuteHaltNop | src/cpu.c:92-99 | HLT changes nothing but register 0; NOP also advances pc |
| StepLaws.ExecuteControl | src/cpu.c:200-222 | JMP jumps to imm. BRH jumps to imm when zero is set and otherwise leaves pc unchanged. CAL pushes the current pc and jumps. RET sets pc to the popped value, which is 0xFFFF on an empty stack |
| StepLaws.ExecuteAdvancesPc | src/cpu.c:92-236 | NOP, the eight ALU opcodes, LOD and STR advance pc by exactly one modulo 2^16 |
| StepLaws.ExecuteFlagFrame | src/cpu.c:92-236 | NOP, HLT, JMP, BRH, CAL, RET, LOD and STR leave both flags alone; NOR, AND, XOR and LDI clear carry |
| StepLaws.RegisterZeroIsHardwired | src/cpu.c:90-242 | register 0 holds 0 after every step, and whatever it held before does not affect the step |
| RunLaws.RunHaltsOnHlt | src/cpu.c:245-261 | a run that halts stops with pc still on the HLT word it executed |
| RunLaws.RunSplit | src/cpu.c:245-261 | running f + g steps is running f steps and then, if the budget ran out, g more |
| RunLaws.RunMonotone | src/cpu.c:245-261 | once a run halts or faults, a larger budget gives the same outcome |
| RunLaws.UntakenBranchSpins | src/cpu.c:205-210 | a BRH with the zero flag clear re-executes itself for ever |
| RunLaws.CallThenReturn | src/cpu.c:212-222 | when the stack holds fewer than 16 entries, a CAL whose target is a RET returns to the CAL itself with stack, registers, flags and memory restored |
| RunLaws.CallToReturnNeverHalts | src/cpu.c:212-222 | when the stack holds fewer than 16 entries, a CAL whose target is a RET never halts, whatever the budget |
| RunLaws.CallOnFullStackReturnsToTop | src/cpu.c:56-72 | when the stack holds 16 entries, the CAL's push is dropped, so its RET jumps to the old top entry and leaves 15 entries; registers, flags and memory are as they were |
| Programs.AdditionDecodes | src/cpu.c:77-87 | the words of the addition program decode to LDI r1,x; LDI r2,y; ADD r1,r2,r3; HLT |
| Programs.AdditionSteps | src/cpu.c:245-261 | the four decoded steps of the addition program halt at address 3 with the sum and flags of ADD |
| Programs.Addition | src/cpu.c:101-112 | LDI r1,x; LDI r2,y; ADD r1,r2,r3; HLT halts at address 3 with r3 = (x + y) mod 256, zero when that byte is 0, carry when x + y > 255 |
| Programs.LoadSetsZero | src/cpu.c:175-185 | LDI r1,x; HLT halts with r1 = x and the zero flag set exactly when x is 0 |
| Programs.CallReturnNeverHalts | src/cpu.c:212-222 | CAL 2; HLT; RET started on an empty stack never reaches its HLT |
| Cpu.CPU.constructor | src/cpu.c:312 | a new CPU holds the initial state with the given memory image |
| Cpu.CPU.Push | src/cpu.c:56-62 | `push` changes the stack array and pointer exactly as CallStacks.Push says |
| Cpu.CPU.Pop | src/cpu.c:64-72 | `pop` returns the value and leaves the stack as CallStacks.Pop says |
| Cpu.CPU.Execute | src/cpu.c:89-243 | `execute` leaves the object in the state Machine.Execute gives |
| Cpu.CPU.Arithmetic | src/cpu.c:101-125 | the ADD, SUB and ADI cases update registers, flags and pc as the corresponding Dispatch case says |
| Cpu.CPU.Logic | src/cpu.c:127-185 | the NOR, AND, XOR, RSH and LDI cases update registers, flags and pc as the corresponding Dispatch case says |
| Cpu.CPU.Access | src/cpu.c:224-236 | the LOD and STR cases update registers, memory and pc as the corresponding Dispatch case says |
| Cpu.CPU.Transfer | src/cpu.c:92-222 | the NOP, HLT, JMP, BRH, CAL and RET cases update pc and stack as the corresponding Dispatch case says |
| Cpu.CPU.Run | src/cpu.c:245-261 | the `run` loop with a step budget ends with the status and state Machine.Run gives |

## Left out

- `load_program` (src/cpu.c:265-299) reads a text file, so it is not modelled. The model takes the loaded instruction memory as a parameter.
- `print_registers` and `main` (src/cpu.c:303-321) are console output and process wiring, so they are not modelled.
- `src/cpu.h` is not part of this model. It holds only declarations. Its `cond` and `address` fields and its `Condition` enum are never used by the code.
- The `default:` case of the `switch` (src/cpu.c:238-240) cannot be reached. Every 4-bit opcode has a case, and `Opcode` has exactly sixteen values.
- The `Flags` bit-field packing is modelled as two booleans.
- The `uint16_t opcode` field of the C `Instruction` becomes the `Opcode` datatype. Decoding masks it to 4 bits, so it always names one of the sixteen opcodes.
- Machine.Dispatch: its own contract states only well-formedness. The effect of each opcode on registers, flags, pc, memory and stack is proved about Machine.Execute in the StepLaws lemmas instead, so that proofs which merely step the machine do not carry sixteen per-case facts.
- Codec.Decode: it has no contract of its own. The meaning of the fields is proved in Codec.DecodeFields and Codec.DecodeDigits, so that proofs which merely decode a word do not carry the division and remainder facts.
- Machine.Run: `run` has no step bound, and a program without a reachable HLT loops for ever. The model runs at most `fuel` instructions and reports `OutOfFuel` when the budget is used up. RunLaws.RunSplit and RunLaws.RunMonotone relate different budgets.
- Machine.Run: fetching with a program counter of 2048 or more reads outside the C array, which is undefined behaviour. For example, this happens after RET on an empty stack. The model stops with `Fault` instead of reading.
- Cpu.CPU.Run: the same two limits as Machine.Run apply. The loop returns `Fault` before an out-of-range fetch and `OutOfFuel` after `fuel` steps.
