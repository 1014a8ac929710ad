/**
 * Decoding of RV32I instruction words as RISCV32.cpp does it: the field
 * extraction at the top of execute32, the immediate generator imm_gen, and the
 * nested switch on opcode, funct3 and funct7 that picks one of the 37 handlers.
 * The immediate formats of the RISC-V Unprivileged ISA (version 20191213,
 * sections 2.2 and 2.3) are given independently, as reference definitions.
 */
module Decode {
  import opened Bits

  datatype Option<T> = None | Some(value: T)

  // ---------------------------------------------------------------- fields

  function Opcode(instr: bv32): (r: bv32)
    ensures r < 0x80
  {
    instr & 0x7F
  }

  function Rd(instr: bv32): bv5
  {
    ((instr >> 7) & 0x1F) as bv5
  }

  function Rs1(instr: bv32): bv5
  {
    ((instr >> 15) & 0x1F) as bv5
  }

  function Rs2(instr: bv32): bv5
  {
    ((instr >> 20) & 0x1F) as bv5
  }

  function Funct3(instr: bv32): (r: bv32)
    ensures r < 8
  {
    (instr >> 12) & 0x7
  }

  function Funct7(instr: bv32): (r: bv32)
    ensures r < 0x80
  {
    (instr >> 25) & 0x7F
  }

  /** The six fields cover the word: putting them back in place rebuilds the instruction. */
  lemma FieldsRebuildWord(instr: bv32)
    ensures instr == (Funct7(instr) << 25) | ((Rs2(instr) as bv32) << 20) | ((Rs1(instr) as bv32) << 15)
                   | (Funct3(instr) << 12) | ((Rd(instr) as bv32) << 7) | Opcode(instr)
  {}

  // ------------------------------------------- immediate formats of the ISA

  /** U-type: instr[31:12] in the upper 20 bits, zeros below. */
  function ImmU(instr: bv32): bv32
  {
    Field(instr, 31, 12) << 12
  }

  /** I-type: instr[31:20], sign-extended from bit 11. */
  function ImmI(instr: bv32): bv32
  {
    SignExtend(Field(instr, 31, 20), 12)
  }

  /** S-type: instr[31:25] : instr[11:7], sign-extended from bit 11. */
  function ImmS(instr: bv32): bv32
  {
    SignExtend((Field(instr, 31, 25) << 5) | Field(instr, 11, 7), 12)
  }

  /** B-type: instr[31] : instr[7] : instr[30:25] : instr[11:8] : 0, sign-extended from bit 12. */
  function ImmB(instr: bv32): bv32
  {
    SignExtend((Field(instr, 31, 31) << 12) | (Field(instr, 7, 7) << 11)
               | (Field(instr, 30, 25) << 5) | (Field(instr, 11, 8) << 1), 13)
  }

  /** J-type: instr[31] : instr[19:12] : instr[20] : instr[30:21] : 0, sign-extended from bit 20. */
  function ImmJ(instr: bv32): bv32
  {
    SignExtend(JumpOffset(instr), 21)
  }

  /** The 21-bit J-type offset before sign extension. */
  function JumpOffset(instr: bv32): bv32
  {
    (Field(instr, 31, 31) << 20) | (Field(instr, 19, 12) << 12) | (Field(instr, 20, 20) << 11) | (Field(instr, 30, 21) << 1)
  }

  // ------------------------------------------------------------- imm_gen

  /** What imm_gen returns (as -1) for an instruction class without an immediate. */
  const NoImmediate: bv32 := 0xFFFF_FFFF

  // The shift-and-mask expressions imm_gen builds each immediate with.

  function JumpFormula(instr: bv32): bv32
  {
    (Sra(instr, 11) & 0xFFF0_0000) | (instr & 0x000F_F000) | ((instr >> 9) & 0x0000_0800) | ((instr >> 20) & 0x0000_07FE)
  }

  function ImmediateFormula(instr: bv32): bv32
  {
    (Sra(instr, 20) & 0xFFFF_F000) | ((instr >> 20) & 0x0000_0FFF)
  }

  function BranchFormula(instr: bv32): bv32
  {
    (Sra(instr, 19) & 0xFFFF_F000) | ((instr << 4) & 0x0000_0800) | ((instr >> 20) & 0x0000_07E0) | ((instr >> 7) & 0x0000_001E)
  }

  function StoreFormula(instr: bv32): bv32
  {
    (Sra(instr, 20) & 0xFFFF_F000) | ((instr >> 20) & 0x0000_0FE0) | ((instr >> 7) & 0x0000_001F)
  }

  lemma UpperFormula(instr: bv32)
    ensures instr & 0xFFFF_F000 == ImmU(instr)
    ensures (instr & 0xFFFF_F000) & 0xFFF == 0 && (instr & 0xFFFF_F000) >> 12 == instr >> 12
  {}

  lemma JumpFormulaIsImmJ(instr: bv32)
    ensures JumpFormula(instr) == ImmJ(instr)
    ensures JumpFormula(instr) & 1 == 0
    ensures JumpFormula(instr) >> 20 == (if instr >> 31 == 1 then 0xFFF else 0)
  {
    if instr >> 31 == 1 {
    } else {
    }
  }

  lemma ImmediateFormulaIsImmI(instr: bv32)
    ensures ImmediateFormula(instr) == ImmI(instr)
    ensures ImmediateFormula(instr) & 0xFFF == instr >> 20
  {
    if instr >> 31 == 1 {
    } else {
    }
  }

  lemma BranchFormulaIsImmB(instr: bv32)
    ensures BranchFormula(instr) == ImmB(instr)
    ensures BranchFormula(instr) & 1 == 0
    ensures BranchFormula(instr) >> 12 == (if instr >> 31 == 1 then 0xF_FFFF else 0)
  {
    if instr >> 31 == 1 {
    } else {
    }
  }

  lemma StoreFormulaIsImmS(instr: bv32)
    ensures StoreFormula(instr) == ImmS(instr)
    ensures StoreFormula(instr) & 0x1F == (instr >> 7) & 0x1F
  {
    if instr >> 31 == 1 {
    } else {
    }
  }

  /**
   * imm_gen: the immediate of `instr`, selected by its opcode. The arithmetic
   * shifts of `instr_s` (the word read as int32_t) are modelled by Sra.
   */
  function ImmGen(instr: bv32): bv32
  {
    var opcode := instr & 0x7F;
    var funct3 := (instr >> 12) & 0x7;
    if opcode == 0x37 then instr & 0xFFFF_F000
    else if opcode == 0x17 then instr & 0xFFFF_F000
    else if opcode == 0x6F then JumpFormula(instr)
    else if opcode == 0x67 then ImmediateFormula(instr)
    else if opcode == 0x63 then BranchFormula(instr)
    else if opcode == 0x03 then ImmediateFormula(instr)
    else if opcode == 0x23 then StoreFormula(instr)
    else if opcode == 0x13 then
      if funct3 == 1 || funct3 == 5 then (instr >> 20) & 0x1F
      else if funct3 == 0 || funct3 == 2 || funct3 == 3 || funct3 == 4 || funct3 == 6 || funct3 == 7 then
        ImmediateFormula(instr)
      else NoImmediate
    else if opcode == 0x33 then NoImmediate
    else NoImmediate
  }

  /** LUI and AUIPC: the word with its low 12 bits cleared, which is the U-type immediate. */
  lemma ImmGenUpper(instr: bv32)
    requires Opcode(instr) == 0x37 || Opcode(instr) == 0x17
    ensures ImmGen(instr) == ImmU(instr)
    ensures ImmGen(instr) & 0xFFF == 0 && ImmGen(instr) >> 12 == instr >> 12
  {
    assert ImmGen(instr) == instr & 0xFFFF_F000;
    UpperFormula(instr);
  }

  /** JAL: the J-type immediate; bit 0 is always clear and bits 31..20 all copy instr[31]. */
  lemma ImmGenJump(instr: bv32)
    requires Opcode(instr) == 0x6F
    ensures ImmGen(instr) == ImmJ(instr)
    ensures ImmGen(instr) & 1 == 0
    ensures ImmGen(instr) >> 20 == (if instr >> 31 == 1 then 0xFFF else 0)
  {
    ImmGenIsJumpFormula(instr);
    JumpFormulaIsImmJ(instr);
  }

  lemma ImmGenIsJumpFormula(instr: bv32)
    requires Opcode(instr) == 0x6F
    ensures ImmGen(instr) == JumpFormula(instr)
  {}

  /** BRANCH: the B-type immediate; bit 0 is always clear and bits 31..12 all copy instr[31]. */
  lemma ImmGenBranch(instr: bv32)
    requires Opcode(instr) == 0x63
    ensures ImmGen(instr) == ImmB(instr)
    ensures ImmGen(instr) & 1 == 0
    ensures ImmGen(instr) >> 12 == (if instr >> 31 == 1 then 0xF_FFFF else 0)
  {
    assert ImmGen(instr) == BranchFormula(instr);
    BranchFormulaIsImmB(instr);
  }

  /** JALR, LOAD and the non-shift OP-IMM instructions: instr[31:20] sign-extended. */
  lemma ImmGenImmediate(instr: bv32)
    requires Opcode(instr) == 0x67 || Opcode(instr) == 0x03
          || (Opcode(instr) == 0x13 && Funct3(instr) != 1 && Funct3(instr) != 5)
    ensures ImmGen(instr) == ImmI(instr)
    ensures ImmGen(instr) & 0xFFF == instr >> 20
  {
    assert ImmGen(instr) == ImmediateFormula(instr);
    ImmediateFormulaIsImmI(instr);
  }

  /** STORE: instr[31:25] : instr[11:7] sign-extended. */
  lemma ImmGenStore(instr: bv32)
    requires Opcode(instr) == 0x23
    ensures ImmGen(instr) == ImmS(instr)
    ensures ImmGen(instr) & 0x1F == (instr >> 7) & 0x1F
  {
    assert ImmGen(instr) == StoreFormula(instr);
    StoreFormulaIsImmS(instr);
  }

  /** SLLI, SRLI, SRAI: the unsigned 5-bit shift amount instr[24:20]; bits 31..25 play no part. */
  lemma ImmGenShiftAmount(instr: bv32)
    requires Opcode(instr) == 0x13 && (Funct3(instr) == 1 || Funct3(instr) == 5)
    ensures ImmGen(instr) == Field(instr, 24, 20)
    ensures ImmGen(instr) < 32
    ensures ImmGen(instr) == ImmGen(instr & 0x01FF_FFFF)
  {}

  /** OP and every opcode imm_gen does not know: -1. */
  lemma ImmGenNoImmediate(instr: bv32)
    requires Opcode(instr) !in {0x37, 0x17, 0x6F, 0x67, 0x63, 0x03, 0x23, 0x13}
    ensures ImmGen(instr) == NoImmediate
  {}

  /** `jal x0, -4` (0xFFDFF06F) decodes to the offset -4. */
  lemma ImmGenJalMinusFour()
    ensures Opcode(0xFFDF_F06F) == 0x6F && Rd(0xFFDF_F06F) == 0
    ensures ImmGen(0xFFDF_F06F) == 0xFFFF_FFFC
  {}

  // ------------------------------------------------------------ dispatch

  /** The handlers of the BRANCH case, by funct3. */
  datatype BranchKind = BEQ | BNE | BLT | BGE | BLTU | BGEU

  /** The handlers of the LOAD case, by funct3. */
  datatype LoadKind = LB | LH | LW | LBU | LHU

  /** The handlers of the STORE case, by funct3. */
  datatype StoreKind = SB | SH | SW

  /** The handlers of the OP-IMM case. */
  datatype ImmKind = ADDI | SLTI | SLTIU | XORI | ORI | ANDI | SLLI | SRLI | SRAI

  /** The handlers of the OP case. */
  datatype RegKind = ADD | SUB | SLL | SLT | SLTU | XOR | SRL | SRA | OR | AND

  /**
   * The 37 handlers of base_I32, grouped as execute32's outer switch groups
   * them: by opcode first, then by the kind the inner switch picks.
   */
  datatype Op =
    | LUI | AUIPC | JAL | JALR
    | Branch(branch: BranchKind)
    | Load(load: LoadKind)
    | Store(store: StoreKind)
    | OpImm(imm: ImmKind)
    | OpReg(reg: RegKind)

  /** Where execute32's switch ends: a handler, an "Invalid instruction" throw, or `default: break`. */
  datatype Selection = Handler(op: Op) | Illegal | Unmatched

  /** The nested switch of execute32, on (opcode, funct3, funct7). */
  function Select(instr: bv32): Selection
  {
    var opcode, funct3, funct7 := Opcode(instr), Funct3(instr), Funct7(instr);
    if opcode == 0x37 then Handler(LUI)
    else if opcode == 0x17 then Handler(AUIPC)
    else if opcode == 0x6F then Handler(JAL)
    else if opcode == 0x67 then Handler(JALR)
    else if opcode == 0x63 then SelectBranch(funct3)
    else if opcode == 0x03 then SelectLoad(funct3)
    else if opcode == 0x23 then SelectStore(funct3)
    else if opcode == 0x13 then SelectOpImm(funct3, funct7)
    else if opcode == 0x33 then SelectOp(funct3, funct7)
    else Unmatched
  }

  /** The BRANCH (0x63) case, on funct3. */
  function SelectBranch(funct3: bv32): Selection
  {
    if funct3 == 0 then Handler(Branch(BEQ))
    else if funct3 == 1 then Handler(Branch(BNE))
    else if funct3 == 4 then Handler(Branch(BLT))
    else if funct3 == 5 then Handler(Branch(BGE))
    else if funct3 == 6 then Handler(Branch(BLTU))
    else if funct3 == 7 then Handler(Branch(BGEU))
    else Illegal
  }

  /** The LOAD (0x03) case, on funct3. */
  function SelectLoad(funct3: bv32): Selection
  {
    if funct3 == 0 then Handler(Load(LB))
    else if funct3 == 1 then Handler(Load(LH))
    else if funct3 == 2 then Handler(Load(LW))
    else if funct3 == 4 then Handler(Load(LBU))
    else if funct3 == 5 then Handler(Load(LHU))
    else Illegal
  }

  /** The STORE (0x23) case, on funct3. */
  function SelectStore(funct3: bv32): Selection
  {
    if funct3 == 0 then Handler(Store(SB))
    else if funct3 == 1 then Handler(Store(SH))
    else if funct3 == 2 then Handler(Store(SW))
    else Illegal
  }

  /** The OP-IMM (0x13) case, on funct3 and, for the right shifts only, funct7. */
  function SelectOpImm(funct3: bv32, funct7: bv32): Selection
  {
    if funct3 == 0 then Handler(OpImm(ADDI))
    else if funct3 == 2 then Handler(OpImm(SLTI))
    else if funct3 == 3 then Handler(OpImm(SLTIU))
    else if funct3 == 4 then Handler(OpImm(XORI))
    else if funct3 == 6 then Handler(OpImm(ORI))
    else if funct3 == 7 then Handler(OpImm(ANDI))
    else if funct3 == 1 then Handler(OpImm(SLLI))
    else if funct3 == 5 then
      if funct7 == 0x00 then Handler(OpImm(SRLI))
      else if funct7 == 0x20 then Handler(OpImm(SRAI))
      else Illegal
    else Illegal
  }

  /** The OP (0x33) case, on funct3 and, for ADD/SUB and SRL/SRA only, funct7. */
  function SelectOp(funct3: bv32, funct7: bv32): Selection
  {
    if funct3 == 0 then
      if funct7 == 0x00 then Handler(OpReg(ADD))
      else if funct7 == 0x20 then Handler(OpReg(SUB))
      else Illegal
    else if funct3 == 1 then Handler(OpReg(SLL))
    else if funct3 == 2 then Handler(OpReg(SLT))
    else if funct3 == 3 then Handler(OpReg(SLTU))
    else if funct3 == 4 then Handler(OpReg(XOR))
    else if funct3 == 5 then
      if funct7 == 0x00 then Handler(OpReg(SRL))
      else if funct7 == 0x20 then Handler(OpReg(SRA))
      else Illegal
    else if funct3 == 6 then Handler(OpReg(OR))
    else if funct3 == 7 then Handler(OpReg(AND))
    else Illegal
  }

  /** An encoding pattern: the opcode, and the funct3 and funct7 values required, if any. */
  datatype Pattern = Pattern(opcode: bv32, funct3: Option<bv32>, funct7: Option<bv32>)

  /**
   * The encoding of each handler (the RV32I opcode map, chapter 24 of the ISA),
   * with funct7 required only where execute32 inspects it and funct3 not
   * required for JALR.
   */
  function PatternOf(op: Op): Pattern
  {
    match op
    case LUI => Pattern(0x37, None, None)
    case AUIPC => Pattern(0x17, None, None)
    case JAL => Pattern(0x6F, None, None)
    case JALR => Pattern(0x67, None, None)
    case Branch(k) => Pattern(0x63, Some(BranchFunct3(k)), None)
    case Load(k) => Pattern(0x03, Some(LoadFunct3(k)), None)
    case Store(k) => Pattern(0x23, Some(StoreFunct3(k)), None)
    case OpImm(k) => Pattern(0x13, Some(ImmFunct3(k)), if k == SRLI then Some(0x00) else if k == SRAI then Some(0x20) else None)
    case OpReg(k) => Pattern(0x33, Some(RegFunct3(k)), if k in {ADD, SRL} then Some(0x00) else if k in {SUB, SRA} then Some(0x20) else None)
  }

  function BranchFunct3(k: BranchKind): bv32
  {
    match k
    case BEQ => 0
    case BNE => 1
    case BLT => 4
    case BGE => 5
    case BLTU => 6
    case BGEU => 7
  }

  function LoadFunct3(k: LoadKind): bv32
  {
    match k
    case LB => 0
    case LH => 1
    case LW => 2
    case LBU => 4
    case LHU => 5
  }

  function StoreFunct3(k: StoreKind): bv32
  {
    match k
    case SB => 0
    case SH => 1
    case SW => 2
  }

  function ImmFunct3(k: ImmKind): bv32
  {
    match k
    case ADDI => 0
    case SLLI => 1
    case SLTI => 2
    case SLTIU => 3
    case XORI => 4
    case SRLI => 5
    case SRAI => 5
    case ORI => 6
    case ANDI => 7
  }

  function RegFunct3(k: RegKind): bv32
  {
    match k
    case ADD => 0
    case SUB => 0
    case SLL => 1
    case SLT => 2
    case SLTU => 3
    case XOR => 4
    case SRL => 5
    case SRA => 5
    case OR => 6
    case AND => 7
  }

  predicate Matches(instr: bv32, p: Pattern)
  {
    && Opcode(instr) == p.opcode
    && (p.funct3.Some? ==> Funct3(instr) == p.funct3.value)
    && (p.funct7.Some? ==> Funct7(instr) == p.funct7.value)
  }

  /** The opcodes execute32 has a case for. */
  predicate KnownOpcode(instr: bv32)
  {
    Opcode(instr) in {0x37, 0x17, 0x6F, 0x67, 0x63, 0x03, 0x23, 0x13, 0x33}
  }

  /** The combinations execute32 rejects with "Invalid instruction". */
  predicate IllegalCombination(instr: bv32)
  {
    var opcode, funct3, funct7 := Opcode(instr), Funct3(instr), Funct7(instr);
    || (opcode == 0x63 && (funct3 == 2 || funct3 == 3))
    || (opcode == 0x03 && (funct3 == 3 || funct3 == 6 || funct3 == 7))
    || (opcode == 0x23 && funct3 >= 3)
    || (opcode == 0x13 && funct3 == 5 && funct7 != 0x00 && funct7 != 0x20)
    || (opcode == 0x33 && (funct3 == 0 || funct3 == 5) && funct7 != 0x00 && funct7 != 0x20)
  }

  /** execute32 selects a handler exactly when the word matches that handler's encoding. */
  lemma SelectHandlerIff(instr: bv32, op: Op)
    ensures Select(instr) == Handler(op) <==> Matches(instr, PatternOf(op))
  {
    if Select(instr) == Handler(op) {
      SelectedMatches(instr);
    }
    if Matches(instr, PatternOf(op)) {
      MatchedSelected(instr, op);
    }
  }

  lemma SelectedMatches(instr: bv32)
    requires Select(instr).Handler?
    ensures Matches(instr, PatternOf(Select(instr).op))
  {
    var opcode, funct3, funct7 := Opcode(instr), Funct3(instr), Funct7(instr);
    if opcode == 0x63 {
      BranchSelectedMatches(funct3);
    } else if opcode == 0x03 {
      LoadSelectedMatches(funct3);
    } else if opcode == 0x23 {
      StoreSelectedMatches(funct3);
    } else if opcode == 0x13 {
      OpImmSelectedMatches(funct3, funct7);
    } else if opcode == 0x33 {
      OpSelectedMatches(funct3, funct7);
    }
  }

  lemma BranchSelectedMatches(funct3: bv32)
    requires SelectBranch(funct3).Handler?
    ensures PatternOf(SelectBranch(funct3).op) == Pattern(0x63, Some(funct3), None)
  {}

  lemma LoadSelectedMatches(funct3: bv32)
    requires SelectLoad(funct3).Handler?
    ensures PatternOf(SelectLoad(funct3).op) == Pattern(0x03, Some(funct3), None)
  {}

  lemma StoreSelectedMatches(funct3: bv32)
    requires SelectStore(funct3).Handler?
    ensures PatternOf(SelectStore(funct3).op) == Pattern(0x23, Some(funct3), None)
  {}

  lemma OpImmSelectedMatches(funct3: bv32, funct7: bv32)
    requires SelectOpImm(funct3, funct7).Handler?
    ensures var p := PatternOf(SelectOpImm(funct3, funct7).op);
      p.opcode == 0x13 && p.funct3 == Some(funct3) && (p.funct7.Some? ==> p.funct7.value == funct7)
  {}

  lemma OpSelectedMatches(funct3: bv32, funct7: bv32)
    requires SelectOp(funct3, funct7).Handler?
    ensures var p := PatternOf(SelectOp(funct3, funct7).op);
      p.opcode == 0x33 && p.funct3 == Some(funct3) && (p.funct7.Some? ==> p.funct7.value == funct7)
  {}

  lemma MatchedSelected(instr: bv32, op: Op)
    requires Matches(instr, PatternOf(op))
    ensures Select(instr) == Handler(op)
  {
    var p, funct3, funct7 := PatternOf(op), Funct3(instr), Funct7(instr);
    if p.opcode == 0x63 {
      BranchMatchedSelected(op);
      assert Select(instr) == SelectBranch(funct3);
    } else if p.opcode == 0x03 {
      LoadMatchedSelected(op);
      assert Select(instr) == SelectLoad(funct3);
    } else if p.opcode == 0x23 {
      StoreMatchedSelected(op);
      assert Select(instr) == SelectStore(funct3);
    } else if p.opcode == 0x13 {
      OpImmMatchedSelected(op, funct7);
      assert Select(instr) == SelectOpImm(funct3, funct7);
    } else if p.opcode == 0x33 {
      OpMatchedSelected(op, funct7);
      assert Select(instr) == SelectOp(funct3, funct7);
    } else {
      assert op.LUI? || op.AUIPC? || op.JAL? || op.JALR?;
    }
  }

  lemma BranchMatchedSelected(op: Op)
    requires PatternOf(op).opcode == 0x63
    ensures PatternOf(op).funct3.Some? && SelectBranch(PatternOf(op).funct3.value) == Handler(op)
  {}

  lemma LoadMatchedSelected(op: Op)
    requires PatternOf(op).opcode == 0x03
    ensures PatternOf(op).funct3.Some? && SelectLoad(PatternOf(op).funct3.value) == Handler(op)
  {}

  lemma StoreMatchedSelected(op: Op)
    requires PatternOf(op).opcode == 0x23
    ensures PatternOf(op).funct3.Some? && SelectStore(PatternOf(op).funct3.value) == Handler(op)
  {}

  lemma OpImmMatchedSelected(op: Op, funct7: bv32)
    requires PatternOf(op).opcode == 0x13
    requires PatternOf(op).funct7.Some? ==> funct7 == PatternOf(op).funct7.value
    ensures PatternOf(op).funct3.Some? && SelectOpImm(PatternOf(op).funct3.value, funct7) == Handler(op)
  {
    match op.imm
    case SRLI =>
    case SRAI =>
    case _ =>
  }

  lemma OpMatchedSelected(op: Op, funct7: bv32)
    requires PatternOf(op).opcode == 0x33
    requires PatternOf(op).funct7.Some? ==> funct7 == PatternOf(op).funct7.value
    ensures PatternOf(op).funct3.Some? && SelectOp(PatternOf(op).funct3.value, funct7) == Handler(op)
  {
    match op.reg
    case ADD =>
    case SUB =>
    case SRL =>
    case SRA =>
    case _ =>
  }

  /** execute32 throws "Invalid instruction" exactly on the combinations listed above. */
  lemma SelectIllegalIff(instr: bv32)
    ensures Select(instr) == Illegal <==> IllegalCombination(instr)
  {}

  /** execute32 falls through `default: break` exactly when the opcode has no case. */
  lemma SelectUnmatchedIff(instr: bv32)
    ensures Select(instr) == Unmatched <==> !KnownOpcode(instr)
  {}

  /** funct7 is read only for ADD/SUB, SRL/SRA and SRLI/SRAI; elsewhere it cannot change the choice. */
  lemma SelectIgnoresFunct7(i: bv32, j: bv32)
    requires Opcode(i) == Opcode(j) && Funct3(i) == Funct3(j)
    requires !(Opcode(i) == 0x13 && Funct3(i) == 5)
    requires !(Opcode(i) == 0x33 && (Funct3(i) == 0 || Funct3(i) == 5))
    ensures Select(i) == Select(j)
  {}

  /** funct3 is not read for JALR: every JALR-opcode word selects the jalr handler. */
  lemma SelectJalrAnyFunct3(instr: bv32)
    requires Opcode(instr) == 0x67
    ensures Select(instr) == Handler(JALR)
  {}

  /**
   * Where the code departs from the ISA. A word with opcode OP-IMM, funct3 1
   * and funct7 1 (the bit pattern an assembler would need for `slli x1, x1, 33`)
   * is reserved in RV32I but is run as slli by 1, while the same word with
   * funct3 5 is rejected. ECALL, EBREAK and FENCE, which belong to RV32I, reach
   * `default: break` and are skipped without any error.
   */
  lemma SelectDepartsFromIsa()
    ensures Funct7(0x0210_9093) == 1 && Select(0x0210_9093) == Handler(OpImm(SLLI)) && ImmGen(0x0210_9093) == 1
    ensures Funct7(0x0210_D093) == 1 && Select(0x0210_D093) == Illegal
    ensures Select(0x0000_0073) == Unmatched
    ensures Select(0x0010_0073) == Unmatched
    ensures Select(0x0FF0_000F) == Unmatched
  {}
}
