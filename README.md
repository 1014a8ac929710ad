# RV32I instruction-set simulator, modelled in Dafny

The repository is a small RISC-V simulator written in C++. Its core is the
`RISCV32` class in `RISCV32.cpp`. It holds 32 general registers `reg32`,
the program counters `pc` and `pc_next`, a 64 KiB byte memory `Memory32::mem`
(`MEM_SIZE` = 0x10000) and the flag `mem_access_align`. Its parts are:

- `imm_gen`, which builds an instruction's immediate;
- `execute32`, which decodes one 32-bit word and runs one of the 37
  `base_I32` handlers (the RV32I base integer instructions);
- the `Memory32` byte, halfword and word accessors;
- the constructor and `run`, the fetch–execute loop.

`RISCV.cpp` holds an earlier draft of the memory accessors. It uses 64-bit
addresses and returns status codes.

The project has five modules:

| file | module | what it holds |
|---|---|---|
| `bits.dfy` | `Bits` | bit-field extraction, two's-complement order, arithmetic shift, little-endian packing and splitting, with their value lemmas |
| `decode.dfy` | `Decode` | field extraction, `imm_gen`, and the handler selection made by `execute32`'s switch, given as a function and as a table of opcode/funct3/funct7 patterns |
| `machine.dfy` | `Machine` | the specification on values: `State`, the `Memory32` accessors with their faults, every handler (`Exec`), `Execute`, one cycle of `run` (`Cycle`) and the whole loop (`Loop`, `Run`) |
| `hart.dfy` | `Hart32` | class `Hart`: the simulator's state as fields (`regs` and `mem` are arrays), with one method per source operation, each proved to do what its `Machine` function computes |
| `draft.dfy` | `DraftMemory` | the `RISCV.cpp` accessors as functions on values with their lemmas, and class `Riscv` whose methods update an array in place |

The model follows the code, not the RV32I manual:

- `lb` and `lh` zero-extend, exactly as `lbu` and `lhu` do.
- `jalr` writes rd before it reads rs1.
- An opcode that `execute32` has no case for does nothing.
- funct7 is looked at only to tell ADD from SUB, SRL from SRA and SRLI from SRAI.
- Memory32 tests alignment before bounds. The draft tests bounds first.

Faults (`INSTR_ERR`, `MEM_ALIGN_ERR`, `MEM_OUT_ERR`, which throw
`std::runtime_error`) are the values `InvalidInstruction`, `Unaligned` and
`OutOfBounds` of a `Result`. A faulting operation leaves the state unchanged, because every handler raises its fault before it writes anything.

## Model

Rows name the functions that model the source and the lemmas and methods that state what they promise. Lemmas that only unfold a definition for the verifier (CycleCases, CycleExecutes, LoopStep, LoopStops, ImmGenIsJumpFormula) and arithmetic helpers (EvenTarget, ClearedSum, AddZero, RegisterForm, Widen8Value, Widen16Value, the Bits packing lemmas) are proof helpers and have no row.

| member | source | states |
|---|---|---|
| Bits.SignedLessIsTwosComplementOrder | RISCV32.cpp:681-686 | the `(int32_t)` comparison used by slt/blt is the order of the two's-complement values |
| Bits.SraBits | RISCV32.cpp:709-714 | the `(int32_t)x >> s` of sra (and of srai, lines 652-657) is the logical shift with every vacated high bit a copy of bit 31, for every x and every s below 32; the sign bit is kept |
| Decode.Opcode | RISCV32.cpp:142 | the opcode field is below 0x80; with the other fields it rebuilds the word (FieldsRebuildWord) |
| Decode.Funct3 | RISCV32.cpp:146 | funct3 is below 8; with the other fields it rebuilds the word (FieldsRebuildWord) |
| Decode.Funct7 | RISCV32.cpp:147 | funct7 is below 0x80; with the other fields it rebuilds the word (FieldsRebuildWord) |
| Decode.FieldsRebuildWord | RISCV32.cpp:142-147 | funct7, rs2, rs1, funct3, rd and opcode together rebuild the instruction word |
| Decode.ImmGen | RISCV32.cpp:91-140 | imm_gen, case by opcode and funct3; its meaning per case is stated by ImmGenUpper, ImmGenJump, ImmGenBranch, ImmGenImmediate, ImmGenStore, ImmGenShiftAmount and ImmGenNoImmediate against the instruction-set immediates ImmU/ImmJ/ImmB/ImmI/ImmS |
| Decode.UpperFormula | RISCV32.cpp:97-101 | `instr & 0xFFFFF000` is the U-type immediate: low 12 bits zero, upper 20 bits those of instr |
| Decode.JumpFormulaIsImmJ | RISCV32.cpp:103-104 | the jal mask-and-shift expression is the J-type immediate: even, with bits 31..20 copies of the sign |
| Decode.ImmediateFormulaIsImmI | RISCV32.cpp:106-113 | the I-type expression sign-extends bits 31..20 |
| Decode.BranchFormulaIsImmB | RISCV32.cpp:109-110 | the branch expression is the B-type immediate: even and sign-extended from bit 12 |
| Decode.StoreFormulaIsImmS | RISCV32.cpp:115-116 | the store expression is the S-type immediate, low five bits from bits 11..7 |
| Decode.ImmGenUpper | RISCV32.cpp:97-101 | for lui and auipc, imm_gen clears the low 12 bits and keeps the upper 20 |
| Decode.ImmGenJump | RISCV32.cpp:103-104 | for jal, imm_gen gives the even, sign-extended J-type offset |
| Decode.ImmGenBranch | RISCV32.cpp:109-110 | for branches, imm_gen gives the even, sign-extended B-type offset |
| Decode.ImmGenImmediate | RISCV32.cpp:106-113 | for jalr, loads and the non-shift OP-IMM cases, imm_gen is the sign-extended I-type immediate |
| Decode.ImmGenStore | RISCV32.cpp:115-116 | for stores, imm_gen is the sign-extended S-type immediate |
| Decode.ImmGenShiftAmount | RISCV32.cpp:119-122 | for slli/srli/srai, imm_gen is bits 24..20 only: below 32 and independent of funct7 |
| Decode.ImmGenNoImmediate | RISCV32.cpp:135-138 | for OP and every other opcode, imm_gen returns `-1` (0xFFFFFFFF) |
| Decode.ImmGenJalMinusFour | RISCV32.cpp:103-104 | `0xFFDFF06F` is `jal x0, -4`, and its immediate is 0xFFFFFFFC |
| Decode.Select | RISCV32.cpp:149-327 | the switch of execute32: a handler, INSTR_ERR (Illegal) or nothing (Unmatched); SelectHandlerIff, SelectIllegalIff and SelectUnmatchedIff state each outcome against the independent pattern table PatternOf |
| Decode.SelectHandlerIff | RISCV32.cpp:149-327 | execute32 runs handler op exactly when the word matches op's opcode/funct3/funct7 pattern (both directions) |
| Decode.SelectedMatches | RISCV32.cpp:149-327 | the selected handler's pattern matches the word |
| Decode.MatchedSelected | RISCV32.cpp:149-327 | a word matching a handler's pattern selects that handler |
| Decode.SelectIllegalIff | RISCV32.cpp:166-323 | INSTR_ERR is raised exactly for a known opcode with an unlisted funct3, or a funct7 other than 0x00/0x20 where funct7 is tested |
| Decode.SelectUnmatchedIff | RISCV32.cpp:325 | the word is ignored exactly when its opcode is none of the nine with a case |
| Decode.SelectIgnoresFunct7 | RISCV32.cpp:232-323 | outside srli/srai and add/sub, srl/sra, two words equal in opcode and funct3 select the same handler |
| Decode.SelectJalrAnyFunct3 | RISCV32.cpp:162-164 | opcode 0x67 selects jalr whatever funct3 is |
| Decode.SelectDepartsFromIsa | RISCV32.cpp:232-325 | slli with funct7 = 1 runs as slli and shifts by 1; srli with funct7 = 1 is invalid; ecall, ebreak and fence do nothing |
| Machine.AccessFault | RISCV32.cpp:329-391 | the two tests every Memory32 accessor makes, alignment first; their meaning is stated by AccessFaultCases, PastEndIsExact, NeverUnaligned and AlignmentCheckedFirst |
| Machine.Load8 | RISCV32.cpp:329-337 | read_mem_u8 on values: a fault or mem[addr] (StoreThenLoad8) |
| Machine.Load16 | RISCV32.cpp:339-347 | read_mem_u16 on values: a fault or the little-endian halfword (Load16IsLittleEndian) |
| Machine.Load32 | RISCV32.cpp:349-357 | read_mem_u32 on values: a fault or the little-endian word (Load32IsLittleEndian) |
| Machine.Store8 | RISCV32.cpp:359-367 | write_mem_u8 on values; read-back, frame and fault agreement in StoreThenLoad8 |
| Machine.Store16 | RISCV32.cpp:369-378 | write_mem_u16 on values; read-back, frame and fault agreement in StoreThenLoad16 |
| Machine.Store32 | RISCV32.cpp:380-391 | write_mem_u32 on values; read-back, frame and fault agreement in StoreThenLoad32 |
| Machine.AccessFaultCases | RISCV32.cpp:329-391 | an access is Unaligned iff the check is on and the address is misaligned, OutOfBounds iff it is aligned or unchecked and runs past the end |
| Machine.PastEndIsExact | RISCV32.cpp:333-385 | the test `addr >= MEM_SIZE - (w-1)` is exactly `addr + w > MEM_SIZE` |
| Machine.NeverUnaligned | RISCV32.cpp:330 | with the check off, or for a byte, no access is Unaligned |
| Machine.AlignmentCheckedFirst | RISCV32.cpp:340-354 | an address both misaligned and past the end raises the alignment error; unchecked it raises out of bounds |
| Machine.StoreThenLoad8 | RISCV32.cpp:359-367 | a byte write (with read_mem_u8, lines 329-337) fails iff the read fails, with the same fault; a read returns mem[addr]; after a write, the read gives the byte back and no other byte changes |
| Machine.StoreThenLoad16 | RISCV32.cpp:369-378 | a halfword write (with read_mem_u16, lines 339-347) fails exactly as the read does; the read gives the halfword back and bytes outside the two change not |
| Machine.StoreThenLoad32 | RISCV32.cpp:380-391 | a word write (with read_mem_u32, lines 349-357) fails exactly as the read does; the read gives the word back and bytes outside the four change not |
| Machine.Load16IsLittleEndian | RISCV32.cpp:346 | a halfword read is the little-endian value of mem[addr..addr+2] |
| Machine.Load32IsLittleEndian | RISCV32.cpp:356 | a word read is the little-endian value of mem[addr..addr+4] |
| Machine.WriteReg | RISCV32.cpp:440-728 | `if (rd != 0) reg32[rd] = v`: x0 keeps its value, rd gets v, every other register is kept |
| Machine.RegValue | RISCV32.cpp:660-728 | the value each OP handler writes to rd; stated by SetLessThanIff, ShiftAmountLowFiveBits, AluExamples and, for sra, Bits.SraBits |
| Machine.ImmValue | RISCV32.cpp:596-657 | the value each OP-IMM handler writes to rd; ImmediateFormMatchesRegisterForm ties it to RegValue |
| Machine.Taken | RISCV32.cpp:473-525 | the comparison of each branch; TakenIsBranchCondition ties it to the reference conditions |
| Machine.LoadWord | RISCV32.cpp:528-571 | the Memory32 read each load makes, zero-extended; LoadWordValue and LoadWordFaults state its value and faults |
| Machine.StoreWord | RISCV32.cpp:574-593 | the Memory32 write each store makes with the low bits of x[rs2]; StoreWordFaults and Store*Value state its faults and effect |
| Machine.Exec | RISCV32.cpp:440-728 | the 37 base_I32 handlers as one function on the state; ExecFrame, ExecFaults, the jump, branch, load and store lemmas below state what each does |
| Machine.ExecFrame | RISCV32.cpp:440-728 | a handler leaves pc and x0 alone and changes no register but rd; branches and stores change no register; only stores change memory; only jumps and branches change pc_next |
| Machine.ExecFaults | RISCV32.cpp:528-593 | only loads and stores can fail, and they fail exactly with the access fault of x[rs1] + imm at their width |
| Machine.LoadWordFaults | RISCV32.cpp:528-571 | each load fails exactly when its Memory32 access faults |
| Machine.StoreWordFaults | RISCV32.cpp:574-593 | each store fails exactly when its Memory32 access faults |
| Machine.JalLinksAndJumps | RISCV32.cpp:455-461 | jal sets pc_next to pc + imm and links pc + 4 into rd |
| Machine.JalrLinksBeforeReading | RISCV32.cpp:464-470 | jalr links pc + 4 first, so with rd = rs1 ≠ 0 the target is pc + 4 + imm; the target has bit 0 cleared |
| Machine.JalrSameRegisterExample | RISCV32.cpp:464-470 | `jalr x5, 0(x5)` at 0x100 with x5 = 0x2000 goes to 0x104; `jalr x6, 0(x5)` goes to 0x2000 |
| Machine.TakenIsBranchCondition | RISCV32.cpp:473-525 | the branch test agrees with the reference conditions =, ≠, signed <, signed ≥, unsigned <, unsigned ≥ |
| Machine.BranchTakenIff | RISCV32.cpp:473-525 | a branch sets pc_next to pc + imm when its condition holds and otherwise leaves the state unchanged |
| Machine.ImmediateFormMatchesRegisterForm | RISCV32.cpp:596-728 | addi…srai compute what add…sra compute with imm in place of x[rs2]; so sltiu compares against the sign-extended immediate as unsigned |
| Machine.ShiftAmountLowFiveBits | RISCV32.cpp:674-714 | sll, srl and sra use only the low five bits of x[rs2]; a shift by 33 is a shift by 1 |
| Machine.SetLessThanIff | RISCV32.cpp:681-693 | slt gives 1 iff x[rs1] < x[rs2] as signed, sltu iff as unsigned |
| Machine.AluExamples | RISCV32.cpp:596-728 | additions wrap modulo 2^32; srai copies the sign bit and srli does not (for all inputs see Bits.SraBits); `sltiu rd, rs1, -1` is 1 unless x[rs1] is 0xFFFFFFFF |
| Machine.SignedLoadsZeroExtend | RISCV32.cpp:528-571 | lb behaves exactly as lbu, and lh as lhu |
| Machine.LoadByteExample | RISCV32.cpp:528-535 | lb of the byte 0x80 gives 0x00000080, not 0xFFFFFF80 |
| Machine.LoadValue | RISCV32.cpp:528-571 | a successful load puts into rd the little-endian value of the bytes at x[rs1] + imm |
| Machine.LoadWordValue | RISCV32.cpp:528-571 | each load's value is the little-endian value of its width's bytes |
| Machine.StoreByteValue | RISCV32.cpp:574-579 | sb writes the low byte of x[rs2], which a byte read returns, and changes no other byte |
| Machine.StoreHalfValue | RISCV32.cpp:581-586 | sh writes the low 16 bits of x[rs2] and changes no byte outside the two |
| Machine.StoreWordValue | RISCV32.cpp:588-593 | sw writes x[rs2] and changes no byte outside the four |
| Machine.Execute | RISCV32.cpp:141-327 | execute32: decode, select, and run the handler; stated by ExecuteInvalidIff, ExecuteUnknownOpcode, ExecuteRunsHandler and ExecuteFrame |
| Machine.ExecuteInvalidIff | RISCV32.cpp:141-327 | execute32 raises INSTR_ERR exactly for the illegal combinations |
| Machine.ExecNeverInvalid | RISCV32.cpp:440-728 | no handler raises INSTR_ERR |
| Machine.ExecuteUnknownOpcode | RISCV32.cpp:325 | a word with an unknown opcode leaves the state unchanged |
| Machine.ExecuteRunsHandler | RISCV32.cpp:141-327 | a word matching a handler's pattern runs that handler with the extracted fields and imm_gen's immediate |
| Machine.ExecuteFrame | RISCV32.cpp:141-327 | execute32 never changes pc or x0; outside jumps and branches pc_next is untouched |
| Machine.ShiftBy33Example | RISCV32.cpp:638-643 | slli with a shift field of 33 (funct7 = 1) shifts by 1 |
| Machine.Cycle | RISCV32.cpp:49-58 | one iteration of run's loop: pc := pc_next, pc_next += 4, fetch, stop on a zero word or a fault, else execute; its properties are CycleSequential, CycleKeepsZero and, over the whole loop, LoopHalted, LoopReachedEnd and LoopKeepsZero |
| Machine.CycleSequential | RISCV32.cpp:49-58 | after a non-control instruction, pc is the old pc_next and pc_next is 4 more |
| Machine.CycleKeepsZero | RISCV32.cpp:48-59 | a cycle keeps x0 |
| Machine.IterateKeepsZero | RISCV32.cpp:48-59 | a loop whose step keeps x0 keeps x0 = 0 |
| Machine.IterateReachedEnd | RISCV32.cpp:48 | the loop exits at the end only when pc_next equals the target |
| Machine.IterateStopped | RISCV32.cpp:52-57 | a halted or faulted loop ended on a step that halted or faulted |
| Machine.Loop | RISCV32.cpp:48-59 | the while loop of run, bounded by fuel; stated by LoopHalted, LoopReachedEnd, LoopKeepsZero and BranchToSelfNeverEnds |
| Machine.Boot | RISCV32.cpp:43-46 | the register set-up of run; stated by BootRegisters |
| Machine.Run | RISCV32.cpp:42-59 | run: Boot, then Loop; stated by RunKeepsZero, RetReachesEnd and SumProgram |
| Machine.LoopHalted | RISCV32.cpp:54-57 | the loop halts only where the word at pc is zero |
| Machine.LoopKeepsZero | RISCV32.cpp:48-59 | the loop keeps x0 = 0 |
| Machine.LoopReachedEnd | RISCV32.cpp:48 | reaching the end means pc_next == END & 0xFFFFFFFE |
| Machine.RunKeepsZero | RISCV32.cpp:42-59 | after run, x0 is 0 |
| Machine.BootRegisters | RISCV32.cpp:43-46 | run starts with x0 = 0, x1 = END, x2 = MEM_SIZE - 1 and no other register, memory or counter changed |
| Machine.ExecuteRet | RISCV32.cpp:464-470 | `jalr x0, 0(x1)` sets pc_next to x1 & ~1 |
| Machine.RetReachesEnd | RISCV32.cpp:42-59 | if pc_next holds `ret`, run ends at END after one cycle |
| Machine.ExecuteBranchToSelf | RISCV32.cpp:473-480 | `beq x0, x0, 0` sets pc_next to pc |
| Machine.BranchToSelfNeverEnds | RISCV32.cpp:48-59 | a `beq x0, x0, 0` self-loop runs out of any fuel without halting, faulting or reaching END |
| Machine.ExecuteSumProgram | RISCV32.cpp:596-665 | the three words of `addi x1,x0,5; addi x2,x0,7; add x3,x1,x2` each run their handler |
| Machine.SumProgram | RISCV32.cpp:42-59 | run of that program with x0 = 0 halts at the zero word after it, with x3 = 12 |
| Machine.SumProgramFrom4 | RISCV32.cpp:48-59 | the same program from its second word, with x1 = 5, halts with x3 = 12 |
| Machine.SumProgramFrom8 | RISCV32.cpp:48-59 | the same program from its third word, with x1 = 5 and x2 = 7, halts with x3 = 12 |
| Hart32.ImageMemory | RISCV32.cpp:393-400 | the memory holds the program image from address 0, and zero bytes beyond it |
| Hart32.Hart.constructor | RISCV32.cpp:20-40 | alignment check as asked, debug forced on, not running, registers zero, image loaded, pc = pc_next = entrypoint |
| Hart32.Hart.CheckAccess | RISCV32.cpp:329-391 | the test `Memory32`'s accessors make before touching memory, alignment first |
| Hart32.Hart.ReadU8 | RISCV32.cpp:329-337 | read_mem_u8 returns the byte or the fault `Machine.Load8` gives |
| Hart32.Hart.ReadU16 | RISCV32.cpp:339-347 | read_mem_u16 returns what `Machine.Load16` gives |
| Hart32.Hart.ReadU32 | RISCV32.cpp:349-357 | read_mem_u32 returns what `Machine.Load32` gives |
| Hart32.Hart.WriteU8 | RISCV32.cpp:359-367 | write_mem_u8 leaves the state `Machine.Store8` gives; on a fault memory is unchanged |
| Hart32.Hart.WriteU16 | RISCV32.cpp:369-378 | write_mem_u16 leaves the state `Machine.Store16` gives; on a fault memory is unchanged |
| Hart32.Hart.WriteU32 | RISCV32.cpp:380-391 | write_mem_u32 leaves the state `Machine.Store32` gives; on a fault memory is unchanged |
| Hart32.Hart.SetReg | RISCV32.cpp:444 | the `if (rd != 0) reg32[rd] = v` every handler ends with |
| Hart32.Hart.Upper | RISCV32.cpp:440-452 | lui and auipc leave the state `Exec` gives |
| Hart32.Hart.Jump | RISCV32.cpp:455-470 | jal and jalr leave the state `Exec` gives, linking before they read rs1 |
| Hart32.Hart.BranchOp | RISCV32.cpp:473-525 | the six branches leave the state `Exec` gives |
| Hart32.Hart.LoadOp | RISCV32.cpp:528-571 | the five loads leave the state or fault `Exec` gives; on a fault no register changes |
| Hart32.Hart.StoreOp | RISCV32.cpp:574-593 | the three stores leave the state or fault `Exec` gives; on a fault memory is unchanged |
| Hart32.Hart.StoreByte | RISCV32.cpp:574-579 | sb leaves the state or fault `Exec` gives |
| Hart32.Hart.StoreHalf | RISCV32.cpp:581-586 | sh leaves the state or fault `Exec` gives |
| Hart32.Hart.StoreFull | RISCV32.cpp:588-593 | sw leaves the state or fault `Exec` gives |
| Hart32.Hart.OpImmediate | RISCV32.cpp:596-657 | addi…srai leave the state `Exec` gives; srai fills with the sign bit (Bits.SraBits) |
| Hart32.Hart.OpRegister | RISCV32.cpp:660-728 | add…and leave the state `Exec` gives; sra fills with the sign bit (Bits.SraBits) |
| Hart32.Hart.Execute32 | RISCV32.cpp:141-327 | execute32 leaves the state or fault `Machine.Execute` gives; on a fault nothing changes |
| Hart32.Hart.Step | RISCV32.cpp:49-58 | one loop iteration; halting, faulting or continuing exactly as `Machine.Loop` says |
| Hart32.Hart.Boot | RISCV32.cpp:43-46 | run's set-up of running, x0, x1 and x2 |
| Hart32.Hart.RunLoop | RISCV32.cpp:48-59 | the while loop ends in the state and status `Machine.Loop` gives; `running` is false exactly when it halted |
| Hart32.Hart.Run | RISCV32.cpp:42-59 | run ends in the state and status `Machine.Run` gives |
| DraftMemory.Read8 | RISCV.cpp:15-22 | read_mem_u8 on values: None for status 1, the byte otherwise (Access8Iff, WriteThenRead8) |
| DraftMemory.Read16 | RISCV.cpp:24-34 | read_mem_u16 on values: bounds test, then alignment test (Access16Iff, Read16IsLittleEndian) |
| DraftMemory.Read32 | RISCV.cpp:36-46 | read_mem_u32 on values (Access32Iff, Read32IsLittleEndian) |
| DraftMemory.Read64 | RISCV.cpp:48-58 | read_mem_u64 on values (Access64Iff, Read64IsLittleEndian) |
| DraftMemory.Write8 | RISCV.cpp:60-67 | write_mem_u8 on values: None for status 1, the new memory otherwise (WriteThenRead8) |
| DraftMemory.Write16 | RISCV.cpp:69-80 | write_mem_u16 on values (Access16Iff, WriteThenRead16) |
| DraftMemory.Write32 | RISCV.cpp:82-95 | write_mem_u32 on values (Access32Iff, WriteThenRead32) |
| DraftMemory.Write64 | RISCV.cpp:97-114 | write_mem_u64 on values (Access64Iff, WriteThenRead64) |
| DraftMemory.Access8Iff | RISCV.cpp:15-22 | a byte read, and a byte write (lines 60-67), succeeds iff addr < MEM_SIZE, whatever the alignment flag |
| DraftMemory.Access16Iff | RISCV.cpp:24-34 | a halfword read, and a halfword write (lines 69-80), succeeds iff addr + 2 ≤ MEM_SIZE and, when checked, addr is even |
| DraftMemory.Access32Iff | RISCV.cpp:36-46 | a word read, and a word write (lines 82-95), succeeds iff addr + 4 ≤ MEM_SIZE and, when checked, addr is a multiple of 4 |
| DraftMemory.Access64Iff | RISCV.cpp:48-58 | a doubleword read, and a doubleword write (lines 97-114), succeeds iff addr + 8 ≤ MEM_SIZE and, when checked, addr is a multiple of 8 |
| DraftMemory.Read16IsLittleEndian | RISCV.cpp:32 | read_mem_u16 gives the little-endian value of two bytes |
| DraftMemory.Read32IsLittleEndian | RISCV.cpp:44 | read_mem_u32 gives the little-endian value of four bytes |
| DraftMemory.Read64IsLittleEndian | RISCV.cpp:56 | read_mem_u64 gives the little-endian value of eight bytes |
| DraftMemory.WriteThenRead8 | RISCV.cpp:60-67 | a byte write succeeds iff the read (lines 15-22) does; reading back gives the byte, other bytes unchanged |
| DraftMemory.WriteThenRead16 | RISCV.cpp:69-80 | a halfword write succeeds iff the read (lines 24-34) does; reading back gives the halfword, other bytes unchanged |
| DraftMemory.WriteThenRead32 | RISCV.cpp:82-95 | a word write succeeds iff the read (lines 36-46) does; reading back gives the word, other bytes unchanged |
| DraftMemory.WriteThenRead64 | RISCV.cpp:97-114 | a doubleword write succeeds iff the read (lines 48-58) does; reading back gives the doubleword, other bytes unchanged |
| DraftMemory.Riscv.constructor | RISCV.cpp:5-8 | both flags 0 |
| DraftMemory.Riscv.WithModes | RISCV.cpp:10-13 | the flags as given |
| DraftMemory.Riscv.ReadMemU8 | RISCV.cpp:15-22 | returns 0 and the byte, or 1 with `*data` untouched, as `Read8` says |
| DraftMemory.Riscv.ReadMemU16 | RISCV.cpp:24-34 | returns 0 and the halfword, or 1 with `*data` untouched, as `Read16` says |
| DraftMemory.Riscv.ReadMemU32 | RISCV.cpp:36-46 | returns 0 and the word, or 1 with `*data` untouched, as `Read32` says |
| DraftMemory.Riscv.ReadMemU64 | RISCV.cpp:48-58 | returns 0 and the doubleword, or 1 with `*data` untouched, as `Read64` says |
| DraftMemory.Riscv.WriteMemU8 | RISCV.cpp:60-67 | returns 0 and leaves memory as `Write8` gives, or 1 with memory unchanged |
| DraftMemory.Riscv.WriteMemU16 | RISCV.cpp:69-80 | returns 0 and leaves memory as `Write16` gives, or 1 with memory unchanged |
| DraftMemory.Riscv.WriteMemU32 | RISCV.cpp:82-95 | returns 0 and leaves memory as `Write32` gives, or 1 with memory unchanged |
| DraftMemory.Riscv.WriteMemU64 | RISCV.cpp:97-114 | returns 0 and leaves memory as `Write64` gives, or 1 with memory unchanged |

## Left out

- Tracing is not modelled. This covers `print_inst`, `print_reg_all`, the `print_mem_*` dumps, the debug strings every handler builds, and the "Program Ends." output. None of them changes the state. `debug` is stored but has no effect.
- `read_program` reads a file. The model takes the program image as a byte sequence given to the constructor. The image is copied from address 0, at most MEM_SIZE bytes.
- `mem_start` is accepted and ignored, as in the source, where it is commented out. The same holds for the flags M, A and F: the extensions and their handlers are not part of this model.
- `main.cpp` and the `RISCV_32I` draft directory are not part of this model.
- `END` and `running` are not declared in any of the files modelled. `END` is a parameter of `Run`, and `running` is a field of `Hart`.
- Hart32.Hart.Run: the source loop may not terminate, so it is bounded by a `fuel` count. Running out of fuel is reported as `OutOfFuel`, a status the source does not have.
- Hart32.Hart.Run: an exception thrown from `execute32` or from the fetch ends `run` in the source. The model returns a `Faulted` status.
- Hart32.Hart.ReadU32: mem[addr+3] is promoted to `int` before the shift by 24 (line 356). For a byte of 0x80 or more that shift overflows `int`, and C++ before C++20 leaves the result undefined. The model takes the intended unsigned value.
- Decode.ImmGenImmediate: `imm_gen` and `srai` shift a negative `int32_t` right. C++ before C++20 leaves that implementation-defined. The model uses the arithmetic shift every mainstream compiler emits.
- DraftMemory.Riscv.constructor: the draft's `mem` array is never initialised. The constructors state only its length.
- DraftMemory.Riscv.ReadMemU64: addresses are `u64`, the integers below 2^64. The mask `addr & (w-1)` is written `addr % w`, which is the same for unsigned values and powers of two. No address arithmetic in the draft can wrap, because a cut address is at most 7 below MEM_SIZE.
- DraftMemory: the order of the bounds and alignment tests is followed in the methods. It cannot be observed, because both tests return the same code 1.
- DraftMemory: each draft accessor is specified by its own function. No lemma relates these functions to the Memory32 ones.
