/**
 * The architectural state of the RV32I simulator in RISCV32.cpp and the effect
 * of each of its operations on that state, as pure functions: the Memory32
 * accessors, the 37 base_I32 handlers, execute32 and one iteration of run's
 * loop. The imperative Hart class is proved against these definitions, and the
 * lemmas in this file state what they guarantee.
 */
module Machine {
  import opened Bits
  import opened Decode

  /** Size of the byte-addressed memory (MEM_SIZE in RISCV32.h). */
  const MEM_SIZE := 0x1_0000

  type RegFile = r: seq<bv32> | |r| == 32 witness seq(32, _ => 0)
  type Memory = m: seq<bv8> | |m| == MEM_SIZE witness seq(MEM_SIZE, _ => 0)

  /** reg32, Memory32::mem, pc and pc_next. */
  datatype State = State(regs: RegFile, mem: Memory, pc: bv32, pcNext: bv32)

  /** The three runtime errors the simulator throws. */
  datatype Fault = InvalidInstruction | Unaligned | OutOfBounds

  datatype Result<T> = Ok(value: T) | Err(fault: Fault)

  // ------------------------------------------------------------- Memory32

  /**
   * The checks every Memory32 accessor makes before touching memory: the
   * alignment check (only when it is enabled) comes first, then the bounds
   * check `addr >= MEM_SIZE - (width - 1)`, on unsigned 32-bit values.
   */
  function AccessFault(align: bool, addr: bv32, width: bv32): (r: Option<Fault>)
    requires width == 1 || width == 2 || width == 4
  {
    if align && Misaligned(addr, width) then Some(Unaligned)
    else if PastEnd(addr, width) then Some(OutOfBounds)
    else None
  }

  /**
   * Which check rejects an access: Unaligned exactly when alignment checking is
   * on and `addr` is not a multiple of `width`, whatever the address; otherwise
   * OutOfBounds exactly when the bounds test fails.
   */
  lemma AccessFaultCases(align: bool, addr: bv32, width: bv32)
    requires width == 1 || width == 2 || width == 4
    ensures AccessFault(align, addr, width) == Some(Unaligned) <==> align && Misaligned(addr, width)
    ensures AccessFault(align, addr, width) == Some(OutOfBounds)
        <==> !(align && Misaligned(addr, width)) && PastEnd(addr, width)
  {}

  /** The alignment test `addr % width != 0`, with the literal divisor each accessor uses. */
  predicate Misaligned(addr: bv32, width: bv32)
    requires width == 1 || width == 2 || width == 4
  {
    if width == 1 then addr % 1 != 0
    else if width == 2 then addr % 2 != 0
    else addr % 4 != 0
  }

  /** The bounds test `addr >= MEM_SIZE - (width - 1)` on uint32_t. */
  predicate PastEnd(addr: bv32, width: bv32)
    requires width == 1 || width == 2 || width == 4
  {
    addr >= 0x1_0000 - (width - 1)
  }

  /** The 32-bit bounds test cannot wrap: it fails exactly for accesses reaching past the last byte. */
  lemma PastEndIsExact(addr: bv32, width: bv32)
    requires width == 1 || width == 2 || width == 4
    ensures PastEnd(addr, width) <==> addr as int + width as int > MEM_SIZE
  {}

  /** With checking off, or for single bytes, no access is ever Unaligned. */
  lemma NeverUnaligned(align: bool, addr: bv32, width: bv32)
    requires width == 1 || width == 2 || width == 4
    requires !align || width == 1
    ensures AccessFault(align, addr, width) != Some(Unaligned)
  {}

  /** A halfword at the last byte: Unaligned when checked, because alignment is tested first. */
  lemma AlignmentCheckedFirst()
    ensures AccessFault(true, 0xFFFF, 2) == Some(Unaligned)
    ensures AccessFault(false, 0xFFFF, 2) == Some(OutOfBounds)
    ensures AccessFault(true, 0xFFFD, 4) == Some(Unaligned)
    ensures AccessFault(true, 0xFFFC, 4) == None
  {}

  function Load8(mem: Memory, align: bool, addr: bv32): Result<bv8>
  {
    match AccessFault(align, addr, 1)
    case Some(f) => Err(f)
    case None => Ok(mem[addr as int])
  }

  function Load16(mem: Memory, align: bool, addr: bv32): Result<bv16>
  {
    match AccessFault(align, addr, 2)
    case Some(f) => Err(f)
    case None => Ok(Pack16(mem[addr as int], mem[addr as int + 1]))
  }

  function Load32(mem: Memory, align: bool, addr: bv32): Result<bv32>
  {
    match AccessFault(align, addr, 4)
    case Some(f) => Err(f)
    case None => Ok(Pack32(mem[addr as int], mem[addr as int + 1], mem[addr as int + 2], mem[addr as int + 3]))
  }

  function Store8(mem: Memory, align: bool, addr: bv32, v: bv8): Result<Memory>
  {
    match AccessFault(align, addr, 1)
    case Some(f) => Err(f)
    case None =>
      var m: Memory := mem[addr as int := v];
      Ok(m)
  }

  function Store16(mem: Memory, align: bool, addr: bv32, v: bv16): Result<Memory>
  {
    match AccessFault(align, addr, 2)
    case Some(f) => Err(f)
    case None =>
      var b := Split16(v);
      var m: Memory := mem[addr as int := b[0]][addr as int + 1 := b[1]];
      Ok(m)
  }

  function Store32(mem: Memory, align: bool, addr: bv32, v: bv32): Result<Memory>
  {
    match AccessFault(align, addr, 4)
    case Some(f) => Err(f)
    case None =>
      var b := Split32(v);
      var m: Memory := mem[addr as int := b[0]][addr as int + 1 := b[1]][addr as int + 2 := b[2]][addr as int + 3 := b[3]];
      Ok(m)
  }

  /** The byte accessors read and write exactly mem[addr]. */
  lemma StoreThenLoad8(mem: Memory, align: bool, addr: bv32, v: bv8)
    ensures Store8(mem, align, addr, v).Err? <==> Load8(mem, align, addr).Err?
    ensures Store8(mem, align, addr, v).Err? ==> Store8(mem, align, addr, v).fault == Load8(mem, align, addr).fault
    ensures Load8(mem, align, addr).Ok? ==> Load8(mem, align, addr).value == mem[addr as int]
    ensures Store8(mem, align, addr, v).Ok? ==>
      var m := Store8(mem, align, addr, v).value;
      && Load8(m, align, addr) == Ok(v)
      && forall i :: 0 <= i < MEM_SIZE && i != addr as int ==> m[i] == mem[i]
  {}

  /** A successful halfword load reads mem[addr] and mem[addr + 1] as a little-endian number. */
  lemma Load16IsLittleEndian(mem: Memory, align: bool, addr: bv32)
    requires Load16(mem, align, addr).Ok?
    ensures addr as int + 2 <= MEM_SIZE
    ensures Load16(mem, align, addr).value as int == LittleEndian(mem[addr as int .. addr as int + 2])
  {
    BytesAreLittleEndian16(mem, addr as int);
  }

  lemma BytesAreLittleEndian16(mem: Memory, a: int)
    requires 0 <= a <= MEM_SIZE - 2
    ensures Pack16(mem[a], mem[a + 1]) as int == LittleEndian(mem[a .. a + 2])
  {
    assert mem[a .. a + 2] == [mem[a], mem[a + 1]];
    Pack16IsLittleEndian(mem[a], mem[a + 1]);
  }

  /** A successful word load reads mem[addr .. addr + 4] as a little-endian number. */
  lemma Load32IsLittleEndian(mem: Memory, align: bool, addr: bv32)
    requires Load32(mem, align, addr).Ok?
    ensures addr as int + 4 <= MEM_SIZE
    ensures Load32(mem, align, addr).value as int == LittleEndian(mem[addr as int .. addr as int + 4])
  {
    BytesAreLittleEndian32(mem, addr as int);
  }

  lemma BytesAreLittleEndian32(mem: Memory, a: int)
    requires 0 <= a <= MEM_SIZE - 4
    ensures Pack32(mem[a], mem[a + 1], mem[a + 2], mem[a + 3]) as int == LittleEndian(mem[a .. a + 4])
  {
    assert mem[a .. a + 4] == [mem[a], mem[a + 1], mem[a + 2], mem[a + 3]];
    Pack32IsLittleEndian(mem[a], mem[a + 1], mem[a + 2], mem[a + 3]);
  }

  /**
   * A halfword store fails exactly when the load at the same address would,
   * with the same fault; when it succeeds, loading the halfword back returns
   * the stored value and no other byte changes.
   */
  lemma StoreThenLoad16(mem: Memory, align: bool, addr: bv32, v: bv16)
    ensures Store16(mem, align, addr, v).Err? <==> Load16(mem, align, addr).Err?
    ensures Store16(mem, align, addr, v).Err? ==> Store16(mem, align, addr, v).fault == Load16(mem, align, addr).fault
    ensures Store16(mem, align, addr, v).Ok? ==>
      var m := Store16(mem, align, addr, v).value;
      && Load16(m, align, addr) == Ok(v)
      && forall i :: 0 <= i < MEM_SIZE && !(addr as int <= i < addr as int + 2) ==> m[i] == mem[i]
  {
    SplitPack16(v);
  }

  /** The same for words. */
  lemma StoreThenLoad32(mem: Memory, align: bool, addr: bv32, v: bv32)
    ensures Store32(mem, align, addr, v).Err? <==> Load32(mem, align, addr).Err?
    ensures Store32(mem, align, addr, v).Err? ==> Store32(mem, align, addr, v).fault == Load32(mem, align, addr).fault
    ensures Store32(mem, align, addr, v).Ok? ==>
      var m := Store32(mem, align, addr, v).value;
      && Load32(m, align, addr) == Ok(v)
      && forall i :: 0 <= i < MEM_SIZE && !(addr as int <= i < addr as int + 4) ==> m[i] == mem[i]
  {
    SplitPack32(v);
  }

  // -------------------------------------------------------------- handlers

  /** `if (rd != 0) reg32[rd] = v`: every handler's register write. */
  function WriteReg(regs: RegFile, rd: bv5, v: bv32): (r: RegFile)
    ensures r[0] == regs[0]
    ensures rd != 0 ==> r[rd] == v
    ensures forall i :: 0 <= i < 32 && i != rd as int ==> r[i] == regs[i]
  {
    if rd != 0 then regs[rd as int := v] else regs
  }

  /** The register numbers and the immediate execute32 passes to a handler. */
  datatype Operands = Operands(rd: bv5, rs1: bv5, rs2: bv5, imm: bv32)

  /** uint32_t addition: the sum modulo 2^32 (the handlers' `(int32_t)imm` converts back to uint32_t). */
  function Add(x: bv32, y: bv32): bv32
  {
    x + y
  }

  /** `& 0xFFFFFFFE`: the value with bit 0 cleared. */
  function ClearBit0(x: bv32): bv32
  {
    x & 0xFFFF_FFFE
  }

  /** `(uint8_t)v` and `(uint16_t)v`: the low 8 or 16 bits that sb and sh store. */
  function Low8(v: bv32): bv8
  {
    (v & 0xFF) as bv8
  }

  function Low16(v: bv32): bv16
  {
    (v & 0xFFFF) as bv16
  }

  /** The state after a handler has written `v` to rd. */
  function WriteRd(s: State, rd: bv5, v: bv32): State
  {
    s.(regs := WriteReg(s.regs, rd, v))
  }

  /** The state after a load handler has read `r`, widened to 32 bits. */
  function Loaded(s: State, rd: bv5, r: Result<bv32>): Result<State>
  {
    match r
    case Err(f) => Err(f)
    case Ok(v) => Ok(WriteRd(s, rd, v))
  }

  /** The state after a store handler has produced `r`. */
  function Stored(s: State, r: Result<Memory>): Result<State>
  {
    match r
    case Err(f) => Err(f)
    case Ok(m) => Ok(s.(mem := m))
  }

  /** A branch handler: pc_next becomes pc + imm when `taken`, and is left alone otherwise. */
  function TakeBranch(s: State, taken: bool, imm: bv32): State
  {
    if taken then s.(pcNext := Add(s.pc, imm)) else s
  }

  function Widen8(r: Result<bv8>): Result<bv32>
  {
    match r
    case Err(f) => Err(f)
    case Ok(v) => Ok(v as bv32)
  }

  function Widen16(r: Result<bv16>): Result<bv32>
  {
    match r
    case Err(f) => Err(f)
    case Ok(v) => Ok(v as bv32)
  }

  /**
   * The value an OP handler computes for rd from a = x[rs1] and b = x[rs2].
   * All arithmetic is on uint32_t, so sums and differences wrap modulo 2^32;
   * `(int32_t)` comparisons become SignedLess and the right shift of an
   * int32_t becomes Sra. Shifts use the low five bits of b.
   */
  function RegValue(k: RegKind, a: bv32, b: bv32): bv32
  {
    match k
    case ADD => a + b
    case SUB => a - b
    case SLL => a << (b & 0x1F)
    case SLT => if SignedLess(a, b) then 1 else 0
    case SLTU => if a < b then 1 else 0
    case XOR => a ^ b
    case SRL => a >> (b & 0x1F)
    case SRA => Sra(a, b & 0x1F)
    case OR => a | b
    case AND => a & b
  }

  /** The value an OP-IMM handler computes for rd from a = x[rs1] and the immediate. */
  function ImmValue(k: ImmKind, a: bv32, imm: bv32): bv32
  {
    match k
    case ADDI => a + imm
    case SLTI => if SignedLess(a, imm) then 1 else 0
    case SLTIU => if a < imm then 1 else 0
    case XORI => a ^ imm
    case ORI => a | imm
    case ANDI => a & imm
    case SLLI => a << (imm & 0x1F)
    case SRLI => a >> (imm & 0x1F)
    case SRAI => Sra(a, imm & 0x1F)
  }

  /** The comparison a branch handler makes between x[rs1] and x[rs2]. */
  predicate Taken(k: BranchKind, a: bv32, b: bv32)
  {
    match k
    case BEQ => a == b
    case BNE => a != b
    case BLT => SignedLess(a, b)
    case BGE => !SignedLess(a, b)
    case BLTU => a < b
    case BGEU => a >= b
  }

  /**
   * The Memory32 read a load handler makes, converted to uint32_t. The byte
   * and halfword reads go through unsigned types whatever the handler, so
   * the value is zero-extended.
   */
  function LoadWord(k: LoadKind, mem: Memory, align: bool, addr: bv32): Result<bv32>
  {
    match k
    case LB => Widen8(Load8(mem, align, addr))
    case LBU => Widen8(Load8(mem, align, addr))
    case LH => Widen16(Load16(mem, align, addr))
    case LHU => Widen16(Load16(mem, align, addr))
    case LW => Load32(mem, align, addr)
  }

  /** The Memory32 write a store handler makes: the low 8, 16 or 32 bits of `v`. */
  function StoreWord(k: StoreKind, mem: Memory, align: bool, addr: bv32, v: bv32): Result<Memory>
  {
    match k
    case SB => Store8(mem, align, addr, Low8(v))
    case SH => Store16(mem, align, addr, Low16(v))
    case SW => Store32(mem, align, addr, v)
  }

  /** The base_I32 handler `op` applied to `s`. */
  function Exec(s: State, align: bool, op: Op, x: Operands): Result<State>
  {
    var a, b := s.regs[x.rs1], s.regs[x.rs2];
    match op
    case LUI => Ok(WriteRd(s, x.rd, x.imm))
    case AUIPC => Ok(WriteRd(s, x.rd, Add(s.pc, x.imm)))
    case JAL => Ok(WriteRd(s, x.rd, Add(s.pc, 4)).(pcNext := Add(s.pc, x.imm)))
    case JALR =>
      // rd is written before rs1 is read.
      var t := WriteRd(s, x.rd, Add(s.pc, 4));
      Ok(t.(pcNext := ClearBit0(Add(t.regs[x.rs1], x.imm))))
    case Branch(k) => Ok(TakeBranch(s, Taken(k, a, b), x.imm))
    case Load(k) => Loaded(s, x.rd, LoadWord(k, s.mem, align, Add(a, x.imm)))
    case Store(k) => Stored(s, StoreWord(k, s.mem, align, Add(a, x.imm), b))
    case OpImm(k) => Ok(WriteRd(s, x.rd, ImmValue(k, a, x.imm)))
    case OpReg(k) => Ok(WriteRd(s, x.rd, RegValue(k, a, b)))
  }

  /** The operands execute32 extracts from `instr`. */
  function OperandsOf(instr: bv32): Operands
  {
    Operands(Rd(instr), Rs1(instr), Rs2(instr), ImmGen(instr))
  }

  /** execute32: decode, then run the selected handler, throw, or do nothing. */
  function Execute(s: State, align: bool, instr: bv32): Result<State>
  {
    match Select(instr)
    case Handler(op) => Exec(s, align, op, OperandsOf(instr))
    case Illegal => Err(InvalidInstruction)
    case Unmatched => Ok(s)
  }

  /** The number of bytes a load or store handler accesses. */
  function Width(op: Op): (w: bv32)
    requires op.Load? || op.Store?
    ensures w == 1 || w == 2 || w == 4
  {
    match op
    case Load(k) => if k.LB? || k.LBU? then 1 else if k.LH? || k.LHU? then 2 else 4
    case Store(k) => if k.SB? then 1 else if k.SH? then 2 else 4
  }

  predicate IsJump(op: Op)
  {
    op.JAL? || op.JALR?
  }

  /**
   * What a handler may change: never pc and never x0; no register but rd;
   * memory only in a store; pc_next only in a jump or a branch; nothing but
   * pc_next in a branch and nothing but memory in a store.
   */
  lemma ExecFrame(s: State, align: bool, op: Op, x: Operands)
    requires Exec(s, align, op, x).Ok?
    ensures var t := Exec(s, align, op, x).value;
      && t.pc == s.pc
      && t.regs[0] == s.regs[0]
      && (forall i :: 0 <= i < 32 && i != x.rd as int ==> t.regs[i] == s.regs[i])
      && (op.Branch? || op.Store? ==> t.regs == s.regs)
      && (!op.Store? ==> t.mem == s.mem)
      && (!op.Branch? && !IsJump(op) ==> t.pcNext == s.pcNext)
  {
    match op
    case Load(_) =>
    case Store(_) =>
    case _ =>
  }

  /**
   * Only loads and stores fail, and exactly when Memory32 rejects the access
   * at x[rs1] + imm; the fault is the one Memory32 raises, before anything is
   * written.
   */
  lemma ExecFaults(s: State, align: bool, op: Op, x: Operands)
    ensures !op.Load? && !op.Store? ==> Exec(s, align, op, x).Ok?
    ensures op.Load? || op.Store? ==>
      var access := AccessFault(align, Add(s.regs[x.rs1], x.imm), Width(op));
      && (Exec(s, align, op, x).Err? <==> access.Some?)
      && (access.Some? ==> Exec(s, align, op, x).fault == access.value)
  {
    match op
    case Load(k) => LoadWordFaults(k, s.mem, align, Add(s.regs[x.rs1], x.imm));
    case Store(k) => StoreWordFaults(k, s.mem, align, Add(s.regs[x.rs1], x.imm), s.regs[x.rs2]);
    case _ =>
  }

  lemma LoadWordFaults(k: LoadKind, mem: Memory, align: bool, addr: bv32)
    ensures LoadWord(k, mem, align, addr).Err? <==> AccessFault(align, addr, Width(Load(k))).Some?
    ensures LoadWord(k, mem, align, addr).Err? ==> LoadWord(k, mem, align, addr).fault == AccessFault(align, addr, Width(Load(k))).value
  {}

  lemma StoreWordFaults(k: StoreKind, mem: Memory, align: bool, addr: bv32, v: bv32)
    ensures StoreWord(k, mem, align, addr, v).Err? <==> AccessFault(align, addr, Width(Store(k))).Some?
    ensures StoreWord(k, mem, align, addr, v).Err? ==> StoreWord(k, mem, align, addr, v).fault == AccessFault(align, addr, Width(Store(k))).value
  {}

  /** JAL links pc + 4 into rd and sets pc_next to pc + imm. */
  lemma JalLinksAndJumps(s: State, align: bool, x: Operands)
    ensures Exec(s, align, JAL, x).Ok?
    ensures var t := Exec(s, align, JAL, x).value;
      && t.pcNext == Add(s.pc, x.imm)
      && (x.rd != 0 ==> t.regs[x.rd] == Add(s.pc, 4))
  {
  }

  /**
   * JALR writes rd before it reads rs1: the target is (x[rs1] + imm) with bit
   * 0 cleared, where x[rs1] is already pc + 4 when rd = rs1 and rd is not x0.
   * (The ISA computes the target from the old x[rs1].) The target is always even.
   */
  lemma JalrLinksBeforeReading(s: State, align: bool, x: Operands)
    ensures Exec(s, align, JALR, x).Ok?
    ensures var t := Exec(s, align, JALR, x).value;
      var base := if x.rd == x.rs1 && x.rd != 0 then Add(s.pc, 4) else s.regs[x.rs1];
      && t.pcNext == ClearBit0(Add(base, x.imm))
      && t.pcNext & 1 == 0
      && (x.rd != 0 ==> t.regs[x.rd] == Add(s.pc, 4))
  {
    var base := if x.rd == x.rs1 && x.rd != 0 then Add(s.pc, 4) else s.regs[x.rs1];
    assert WriteReg(s.regs, x.rd, Add(s.pc, 4))[x.rs1] == base;
    EvenTarget(Add(base, x.imm));
  }

  lemma EvenTarget(y: bv32)
    ensures ClearBit0(y) & 1 == 0
  {}

  /** A JALR with rd = rs1 jumps relative to the next instruction, not to the old register value. */
  lemma JalrSameRegisterExample(s: State, align: bool)
    requires s.pc == 0x100 && s.regs[5] == 0x2000
    ensures Exec(s, align, JALR, Operands(5, 5, 0, 0)).value.pcNext == 0x104
    ensures Exec(s, align, JALR, Operands(6, 5, 0, 0)).value.pcNext == 0x2000
  {
    JalrLinksBeforeReading(s, align, Operands(5, 5, 0, 0));
    JalrLinksBeforeReading(s, align, Operands(6, 5, 0, 0));
  }

  /**
   * The branch conditions of the RV32I base ISA (section 2.5): BLT and BGE
   * compare two's-complement values, BLTU and BGEU unsigned ones.
   */
  predicate BranchCondition(k: BranchKind, a: bv32, b: bv32)
  {
    match k
    case BEQ => a == b
    case BNE => a != b
    case BLT => SignedBelow(a, b)
    case BGE => !SignedBelow(a, b)
    case BLTU => a < b
    case BGEU => !(a < b)
  }

  /** The comparison each branch handler makes is the ISA's branch condition. */
  lemma TakenIsBranchCondition(k: BranchKind, a: bv32, b: bv32)
    ensures Taken(k, a, b) <==> BranchCondition(k, a, b)
  {
    SignedLessIsTwosComplementOrder(a, b);
  }

  /** A branch sets pc_next to pc + imm exactly when its condition holds, and changes nothing else. */
  lemma BranchTakenIff(s: State, align: bool, k: BranchKind, x: Operands)
    ensures Exec(s, align, Branch(k), x)
         == Ok(s.(pcNext := if BranchCondition(k, s.regs[x.rs1], s.regs[x.rs2]) then Add(s.pc, x.imm) else s.pcNext))
  {
    TakenIsBranchCondition(k, s.regs[x.rs1], s.regs[x.rs2]);
  }

  /** The OP handler with the same operation as an OP-IMM handler. */
  function RegisterForm(k: ImmKind): (r: RegKind)
    ensures r != SUB
  {
    match k
    case ADDI => ADD
    case SLTI => SLT
    case SLTIU => SLTU
    case XORI => XOR
    case ORI => OR
    case ANDI => AND
    case SLLI => SLL
    case SRLI => SRL
    case SRAI => SRA
  }

  /**
   * Each OP-IMM handler computes what its OP counterpart computes with the
   * immediate in place of x[rs2].
   */
  lemma ImmediateFormMatchesRegisterForm(k: ImmKind, a: bv32, imm: bv32)
    ensures ImmValue(k, a, imm) == RegValue(RegisterForm(k), a, imm)
  {}

  /** Only the low five bits of a shift amount matter (an amount of 33 shifts by 1). */
  lemma ShiftAmountLowFiveBits(k: RegKind, a: bv32, b: bv32)
    requires k == SLL || k == SRL || k == SRA
    ensures RegValue(k, a, b) == RegValue(k, a, b % 32)
    ensures RegValue(k, a, 33) == RegValue(k, a, 1)
  {}

  /**
   * SLT writes 1 when x[rs1] is below x[rs2] in the two's-complement order and
   * SLTU when it is below in the unsigned order, 0 otherwise; SLTI and SLTIU do
   * the same against the immediate (ImmediateFormMatchesRegisterForm).
   */
  lemma SetLessThanIff(a: bv32, b: bv32)
    ensures RegValue(SLT, a, b) == (if SignedBelow(a, b) then 1 else 0)
    ensures RegValue(SLTU, a, b) == (if a < b then 1 else 0)
  {
    SignedLessIsTwosComplementOrder(a, b);
  }

  /**
   * Concrete values: -1 is below 1 only as a signed number; SRA shifts in
   * copies of the sign bit where SRL shifts in zeros; sums and differences
   * wrap; SLTIU with the immediate -1 (sign-extended to 0xFFFFFFFF) sets rd
   * for every x[rs1] except 0xFFFFFFFF.
   */
  lemma AluExamples(a: bv32)
    ensures RegValue(SLT, 0xFFFF_FFFF, 1) == 1 && RegValue(SLTU, 0xFFFF_FFFF, 1) == 0
    ensures ImmValue(SRAI, 0x8000_0000, 4) == 0xF800_0000
    ensures ImmValue(SRLI, 0x8000_0000, 4) == 0x0800_0000
    ensures RegValue(ADD, 0xFFFF_FFFF, 1) == 0 && RegValue(SUB, 0, 1) == 0xFFFF_FFFF
    ensures ImmValue(SLTIU, a, 0xFFFF_FFFF) == (if a == 0xFFFF_FFFF then 0 else 1)
  {}

  /**
   * LB and LH behave as LBU and LHU: the loaded byte or halfword is cast to
   * int32_t from an unsigned type, so it is zero-extended (the ISA sign-extends).
   */
  lemma SignedLoadsZeroExtend(s: State, align: bool, x: Operands)
    ensures Exec(s, align, Load(LB), x) == Exec(s, align, Load(LBU), x)
    ensures Exec(s, align, Load(LH), x) == Exec(s, align, Load(LHU), x)
  {}

  /** LB of the byte 0x80 puts 0x80 in rd, where RV32I would put 0xFFFFFF80. */
  lemma LoadByteExample(s: State, align: bool, x: Operands)
    requires x.rd != 0 && Load8(s.mem, align, Add(s.regs[x.rs1], x.imm)) == Ok(0x80)
    ensures Exec(s, align, Load(LB), x).Ok? && Exec(s, align, Load(LB), x).value.regs[x.rd] == 0x80
  {}

  /**
   * What a successful load puts in rd: the bytes at x[rs1] + imm read as a
   * little-endian number, so a byte or halfword load leaves the upper bits zero.
   */
  lemma LoadValue(s: State, align: bool, k: LoadKind, x: Operands)
    requires x.rd != 0 && Exec(s, align, Load(k), x).Ok?
    ensures var ea, w := Add(s.regs[x.rs1], x.imm) as int, Width(Load(k)) as int;
      && ea + w <= MEM_SIZE
      && Exec(s, align, Load(k), x).value.regs[x.rd] as int == LittleEndian(s.mem[ea .. ea + w])
  {
    LoadWordValue(k, s.mem, align, Add(s.regs[x.rs1], x.imm));
  }

  lemma LoadWordValue(k: LoadKind, mem: Memory, align: bool, addr: bv32)
    requires LoadWord(k, mem, align, addr).Ok?
    ensures addr as int + Width(Load(k)) as int <= MEM_SIZE
    ensures LoadWord(k, mem, align, addr).value as int == LittleEndian(mem[addr as int .. addr as int + Width(Load(k)) as int])
  {
    if k == LB || k == LBU {
      LoadByteValue(k, mem, align, addr);
    } else if k == LH || k == LHU {
      LoadHalfValue(k, mem, align, addr);
    } else {
      assert LoadWord(k, mem, align, addr) == Load32(mem, align, addr);
      assert Width(Load(k)) as int == 4;
      Load32IsLittleEndian(mem, align, addr);
    }
  }

  lemma LoadByteValue(k: LoadKind, mem: Memory, align: bool, addr: bv32)
    requires k == LB || k == LBU
    requires LoadWord(k, mem, align, addr).Ok?
    ensures addr as int + Width(Load(k)) as int <= MEM_SIZE
    ensures LoadWord(k, mem, align, addr).value as int == LittleEndian(mem[addr as int .. addr as int + Width(Load(k)) as int])
  {
    LoadWordByte(k, mem, align, addr);
    WidenedLoad8IsLittleEndian(mem, align, addr);
  }

  lemma LoadHalfValue(k: LoadKind, mem: Memory, align: bool, addr: bv32)
    requires k == LH || k == LHU
    requires LoadWord(k, mem, align, addr).Ok?
    ensures addr as int + Width(Load(k)) as int <= MEM_SIZE
    ensures LoadWord(k, mem, align, addr).value as int == LittleEndian(mem[addr as int .. addr as int + Width(Load(k)) as int])
  {
    LoadWordHalf(k, mem, align, addr);
    WidenedLoad16IsLittleEndian(mem, align, addr);
  }

  lemma LoadWordByte(k: LoadKind, mem: Memory, align: bool, addr: bv32)
    requires k == LB || k == LBU
    ensures LoadWord(k, mem, align, addr) == Widen8(Load8(mem, align, addr))
    ensures Width(Load(k)) as int == 1
  {}

  lemma LoadWordHalf(k: LoadKind, mem: Memory, align: bool, addr: bv32)
    requires k == LH || k == LHU
    ensures LoadWord(k, mem, align, addr) == Widen16(Load16(mem, align, addr))
    ensures Width(Load(k)) as int == 2
  {}

  lemma WidenedLoad8IsLittleEndian(mem: Memory, align: bool, addr: bv32)
    requires Widen8(Load8(mem, align, addr)).Ok?
    ensures addr as int + 1 <= MEM_SIZE
    ensures Widen8(Load8(mem, align, addr)).value as int == LittleEndian(mem[addr as int .. addr as int + 1])
  {
    Load8IsLittleEndian(mem, align, addr);
    Widen8Value(Load8(mem, align, addr).value);
  }

  lemma WidenedLoad16IsLittleEndian(mem: Memory, align: bool, addr: bv32)
    requires Widen16(Load16(mem, align, addr)).Ok?
    ensures addr as int + 2 <= MEM_SIZE
    ensures Widen16(Load16(mem, align, addr)).value as int == LittleEndian(mem[addr as int .. addr as int + 2])
  {
    Load16IsLittleEndian(mem, align, addr);
    Widen16Value(Load16(mem, align, addr).value);
  }

  /** A successful byte load reads mem[addr] (a one-byte little-endian number). */
  lemma Load8IsLittleEndian(mem: Memory, align: bool, addr: bv32)
    requires Load8(mem, align, addr).Ok?
    ensures addr as int + 1 <= MEM_SIZE
    ensures Load8(mem, align, addr).value as int == LittleEndian(mem[addr as int .. addr as int + 1])
  {
    BytesAreLittleEndian8(mem, addr as int);
  }

  lemma BytesAreLittleEndian8(mem: Memory, a: int)
    requires 0 <= a < MEM_SIZE
    ensures mem[a] as int == LittleEndian(mem[a .. a + 1])
  {
    assert mem[a .. a + 1] == [mem[a]];
    LittleEndian1(mem[a]);
  }

  lemma Widen8Value(v: bv8)
    ensures (v as bv32) as int == v as int
  {}

  lemma Widen16Value(v: bv16)
    ensures (v as bv32) as int == v as int
  {}

  /**
   * What a successful store leaves in memory: the low 8, 16 or 32 bits of
   * x[rs2] at x[rs1] + imm, read back unchanged by a load of the same width,
   * and every other byte as it was.
   */
  lemma StoreByteValue(s: State, align: bool, x: Operands)
    requires Exec(s, align, Store(SB), x).Ok?
    ensures var t, ea := Exec(s, align, Store(SB), x).value, Add(s.regs[x.rs1], x.imm);
      && Load8(t.mem, align, ea) == Ok((s.regs[x.rs2] & 0xFF) as bv8)
      && forall i :: 0 <= i < MEM_SIZE && i != ea as int ==> t.mem[i] == s.mem[i]
  {
    StoreThenLoad8(s.mem, align, Add(s.regs[x.rs1], x.imm), Low8(s.regs[x.rs2]));
  }

  lemma StoreHalfValue(s: State, align: bool, x: Operands)
    requires Exec(s, align, Store(SH), x).Ok?
    ensures var t, ea := Exec(s, align, Store(SH), x).value, Add(s.regs[x.rs1], x.imm);
      && Load16(t.mem, align, ea) == Ok((s.regs[x.rs2] & 0xFFFF) as bv16)
      && forall i :: 0 <= i < MEM_SIZE && !(ea as int <= i < ea as int + 2) ==> t.mem[i] == s.mem[i]
  {
    StoreThenLoad16(s.mem, align, Add(s.regs[x.rs1], x.imm), Low16(s.regs[x.rs2]));
  }

  lemma StoreWordValue(s: State, align: bool, x: Operands)
    requires Exec(s, align, Store(SW), x).Ok?
    ensures var t, ea := Exec(s, align, Store(SW), x).value, Add(s.regs[x.rs1], x.imm);
      && Load32(t.mem, align, ea) == Ok(s.regs[x.rs2])
      && forall i :: 0 <= i < MEM_SIZE && !(ea as int <= i < ea as int + 4) ==> t.mem[i] == s.mem[i]
  {
    StoreThenLoad32(s.mem, align, Add(s.regs[x.rs1], x.imm), s.regs[x.rs2]);
  }

  // ------------------------------------------------------------------ run

  /** What one iteration of run's loop does. */
  datatype Step = Continue(next: State) | ZeroWord(next: State) | Crash(fault: Fault, next: State)

  /** `pc = pc_next; pc_next = pc + 4;` */
  function Advance(s: State): State
  {
    s.(pc := s.pcNext, pcNext := Add(s.pcNext, 4))
  }

  /**
   * One iteration of run's loop: pc := pc_next, pc_next := pc + 4, fetch the
   * word at pc; a zero word ends the loop before anything is executed, any
   * other word goes to execute32. A fault escapes leaving the state as it was
   * just before the throwing call.
   */
  function Cycle(s: State, align: bool): Step
  {
    var s1 := Advance(s);
    match Load32(s1.mem, align, s1.pc)
    case Err(f) => Crash(f, s1)
    case Ok(instr) =>
      if instr == 0 then ZeroWord(s1)
      else
        match Execute(s1, align, instr)
        case Err(f) => Crash(f, s1)
        case Ok(s2) => Continue(s2)
  }

  /** How run ends. OutOfFuel is this model's bound on the number of iterations. */
  datatype Status = Halted | ReachedEnd | Faulted(fault: Fault) | OutOfFuel

  datatype Outcome = Outcome(status: Status, final: State)

  /** The return address run's loop stops at. */
  function EndTarget(end: bv32): bv32
  {
    end & 0xFFFF_FFFE
  }

  /**
   * run's while loop, for at most `fuel` iterations of `step`: it stops
   * before an iteration once pc_next equals `target`, after a zero word or a
   * fault, or when the fuel is spent.
   */
  function Iterate(step: State -> Step, s: State, target: bv32, fuel: nat): Outcome
    decreases fuel
  {
    if s.pcNext == target then Outcome(ReachedEnd, s)
    else if fuel == 0 then Outcome(OutOfFuel, s)
    else
      match step(s)
      case ZeroWord(s1) => Outcome(Halted, s1)
      case Crash(f, s1) => Outcome(Faulted(f), s1)
      case Continue(s1) => Iterate(step, s1, target, fuel - 1)
  }

  /** run's loop: Cycle repeated until pc_next is END with bit 0 cleared. */
  function Loop(s: State, align: bool, end: bv32, fuel: nat): Outcome
  {
    Iterate(t => Cycle(t, align), s, EndTarget(end), fuel)
  }

  /** The registers run sets before its loop: x0 = 0, ra = END, sp = MEM_SIZE - 1 (0xFFFF). */
  function Boot(s: State, end: bv32): State
  {
    s.(regs := s.regs[0 := 0][1 := end][2 := 0xFFFF])
  }

  function Run(s: State, align: bool, end: bv32, fuel: nat): Outcome
  {
    Loop(Boot(s, end), align, end, fuel)
  }

  // ------------------------------------------------------ execute32 facts

  /** execute32 reports "Invalid instruction" exactly for the combinations its switch rejects. */
  lemma ExecuteInvalidIff(s: State, align: bool, instr: bv32)
    ensures Execute(s, align, instr) == Err(InvalidInstruction) <==> IllegalCombination(instr)
  {
    SelectIllegalIff(instr);
    match Select(instr)
    case Handler(op) => ExecNeverInvalid(s, align, op, OperandsOf(instr));
    case Illegal =>
    case Unmatched =>
  }

  /** A handler never raises InvalidInstruction: its only faults are Memory32's. */
  lemma ExecNeverInvalid(s: State, align: bool, op: Op, x: Operands)
    ensures Exec(s, align, op, x) != Err(InvalidInstruction)
  {
    ExecFaults(s, align, op, x);
  }

  /** An opcode execute32 has no case for changes nothing and raises nothing. */
  lemma ExecuteUnknownOpcode(s: State, align: bool, instr: bv32)
    requires !KnownOpcode(instr)
    ensures Execute(s, align, instr) == Ok(s)
  {
    SelectUnmatchedIff(instr);
  }

  /** A word that matches a handler's encoding runs that handler on the fields and the imm_gen immediate. */
  lemma ExecuteRunsHandler(s: State, align: bool, instr: bv32, op: Op)
    requires Matches(instr, PatternOf(op))
    ensures Execute(s, align, instr) == Exec(s, align, op, OperandsOf(instr))
  {
    SelectHandlerIff(instr, op);
  }

  /** execute32 never changes pc or x0, and changes pc_next only through a jump or a branch. */
  lemma ExecuteFrame(s: State, align: bool, instr: bv32)
    requires Execute(s, align, instr).Ok?
    ensures var t := Execute(s, align, instr).value;
      && t.pc == s.pc && t.regs[0] == s.regs[0]
      && (!(Select(instr).Handler? && (Select(instr).op.Branch? || IsJump(Select(instr).op))) ==> t.pcNext == s.pcNext)
  {
    match Select(instr)
    case Handler(op) => ExecFrame(s, align, op, OperandsOf(instr));
    case Illegal =>
    case Unmatched =>
  }

  /**
   * A word whose opcode and shift bits an assembler would write as
   * `slli x1, x1, 33` (reserved in RV32I) shifts x1 left by 1.
   */
  lemma ShiftBy33Example(s: State, align: bool)
    ensures Execute(s, align, 0x0210_9093).Ok?
    ensures Execute(s, align, 0x0210_9093).value.regs[1] == s.regs[1] << 1
  {
    SelectDepartsFromIsa();
    assert OperandsOf(0x0210_9093) == Operands(1, 1, 1, 1);
  }

  // --------------------------------------------------------- run's loop facts

  /**
   * Every iteration first moves pc to pc_next and pc_next to pc_next + 4. A
   * failed fetch or a zero word ends the loop with nothing else changed; any
   * other word is executed, and a fault raised by execute32 leaves the state
   * as it was before the call.
   */
  lemma CycleCases(s: State, align: bool)
    ensures var s1, fetch := Advance(s), Load32(s.mem, align, s.pcNext);
      && s1.pc == s.pcNext && s1.pcNext == Add(s.pcNext, 4) && s1.regs == s.regs && s1.mem == s.mem
      && (fetch.Err? ==> Cycle(s, align) == Crash(fetch.fault, s1))
      && (fetch == Ok(0) ==> Cycle(s, align) == ZeroWord(s1))
      && (fetch.Ok? && fetch.value != 0 ==>
            match Execute(s1, align, fetch.value)
            case Err(f) => Cycle(s, align) == Crash(f, s1)
            case Ok(t) => Cycle(s, align) == Continue(t))
  {}

  /** After an instruction that is neither a jump nor a branch, pc_next is the next word. */
  lemma CycleSequential(s: State, align: bool, instr: bv32)
    requires Load32(s.mem, align, s.pcNext) == Ok(instr) && instr != 0
    requires !(Select(instr).Handler? && (Select(instr).op.Branch? || IsJump(Select(instr).op)))
    requires Cycle(s, align).Continue?
    ensures Cycle(s, align).next.pc == s.pcNext
    ensures Cycle(s, align).next.pcNext == Add(s.pcNext, 4)
  {
    CycleCases(s, align);
    ExecuteFrame(Advance(s), align, instr);
  }

  /** No iteration changes x0. */
  lemma CycleKeepsZero(s: State, align: bool)
    ensures Cycle(s, align).next.regs[0] == s.regs[0]
  {
    CycleCases(s, align);
    var fetch := Load32(s.mem, align, s.pcNext);
    if fetch.Ok? && fetch.value != 0 && Execute(Advance(s), align, fetch.value).Ok? {
      ExecuteFrame(Advance(s), align, fetch.value);
    }
  }

  /** An iteration function that never changes x0 keeps it at zero for the whole loop. */
  lemma {:induction false} IterateKeepsZero(step: State -> Step, s: State, target: bv32, fuel: nat)
    requires forall t: State :: step(t).next.regs[0] == t.regs[0]
    requires s.regs[0] == 0
    ensures Iterate(step, s, target, fuel).final.regs[0] == 0
    decreases fuel
  {
    if s.pcNext != target && fuel > 0 && step(s).Continue? {
      IterateKeepsZero(step, step(s).next, target, fuel - 1);
    }
  }

  /** The loop ends with ReachedEnd only once pc_next is the target. */
  lemma {:induction false} IterateReachedEnd(step: State -> Step, s: State, target: bv32, fuel: nat)
    requires Iterate(step, s, target, fuel).status == ReachedEnd
    ensures Iterate(step, s, target, fuel).final.pcNext == target
    decreases fuel
  {
    if s.pcNext != target {
      IterateReachedEnd(step, step(s).next, target, fuel - 1);
    }
  }

  /** The loop ends with Halted or Faulted only through an iteration that stopped that way. */
  lemma {:induction false} IterateStopped(step: State -> Step, s: State, target: bv32, fuel: nat)
    requires Iterate(step, s, target, fuel).status == Halted || Iterate(step, s, target, fuel).status.Faulted?
    ensures var o := Iterate(step, s, target, fuel);
      exists t: State ::
        (&& step(t).next == o.final
         && (o.status == Halted ==> step(t).ZeroWord?)
         && (o.status.Faulted? ==> step(t) == Crash(o.status.fault, o.final)))
    decreases fuel
  {
    if step(s).Continue? {
      IterateStopped(step, step(s).next, target, fuel - 1);
    } else {
      assert step(s).next == Iterate(step, s, target, fuel).final;
    }
  }

  /** A Halted loop stopped on a zero word fetched at the final pc. */
  lemma LoopHalted(s: State, align: bool, end: bv32, fuel: nat)
    requires Loop(s, align, end, fuel).status == Halted
    ensures Load32(Loop(s, align, end, fuel).final.mem, align, Loop(s, align, end, fuel).final.pc) == Ok(0)
  {
    IterateStopped(t => Cycle(t, align), s, EndTarget(end), fuel);
    var t: State :| Cycle(t, align).next == Loop(s, align, end, fuel).final && Cycle(t, align).ZeroWord?;
    CycleCases(t, align);
  }

  /** x0 reads as zero throughout the loop when it did at the start. */
  lemma LoopKeepsZero(s: State, align: bool, end: bv32, fuel: nat)
    requires s.regs[0] == 0
    ensures Loop(s, align, end, fuel).final.regs[0] == 0
  {
    forall t: State ensures Cycle(t, align).next.regs[0] == t.regs[0] {
      CycleKeepsZero(t, align);
    }
    IterateKeepsZero(t => Cycle(t, align), s, EndTarget(end), fuel);
  }

  /** run clears x0 first, so it ends with x0 = 0 whatever the program does. */
  lemma RunKeepsZero(s: State, align: bool, end: bv32, fuel: nat)
    ensures Run(s, align, end, fuel).final.regs[0] == 0
  {
    LoopKeepsZero(Boot(s, end), align, end, fuel);
  }

  /** The loop reports ReachedEnd only once pc_next is END with bit 0 cleared. */
  lemma LoopReachedEnd(s: State, align: bool, end: bv32, fuel: nat)
    requires Loop(s, align, end, fuel).status == ReachedEnd
    ensures Loop(s, align, end, fuel).final.pcNext == EndTarget(end)
  {
    IterateReachedEnd(t => Cycle(t, align), s, EndTarget(end), fuel);
  }

  /** One iteration that does not stop the loop, unfolded. */
  lemma LoopStep(s: State, align: bool, end: bv32, fuel: nat)
    requires s.pcNext != EndTarget(end) && fuel > 0 && Cycle(s, align).Continue?
    ensures Loop(s, align, end, fuel) == Loop(Cycle(s, align).next, align, end, fuel - 1)
  {}

  /** An iteration that ends the loop: a zero word halts it, a fault stops it with that fault. */
  lemma LoopStops(s: State, align: bool, end: bv32, fuel: nat)
    requires s.pcNext != EndTarget(end) && fuel > 0 && !Cycle(s, align).Continue?
    ensures Loop(s, align, end, fuel).final == Cycle(s, align).next
    ensures Loop(s, align, end, fuel).status ==
      if Cycle(s, align).ZeroWord? then Halted else Faulted(Cycle(s, align).fault)
  {}

  /** An iteration that fetches a non-zero word which execute32 runs without a fault. */
  lemma CycleExecutes(s: State, align: bool, instr: bv32)
    requires Load32(s.mem, align, s.pcNext) == Ok(instr) && instr != 0
    requires Execute(Advance(s), align, instr).Ok?
    ensures Cycle(s, align) == Continue(Execute(Advance(s), align, instr).value)
  {
    CycleCases(s, align);
  }

  // --------------------------------------------------------------- programs

  /** `jalr x0, 0(x1)` (0x00008067, `ret`) sets pc_next to x1 with bit 0 cleared. */
  lemma ExecuteRet(s: State, align: bool)
    ensures Execute(s, align, 0x0000_8067) == Ok(s.(pcNext := EndTarget(s.regs[1])))
  {
    assert Select(0x0000_8067) == Handler(JALR);
    assert OperandsOf(0x0000_8067) == Operands(0, 1, 0, 0);
    JalrLinksBeforeReading(s, align, Operands(0, 1, 0, 0));
    ClearedSum(s.regs[1]);
  }

  lemma ClearedSum(v: bv32)
    ensures ClearBit0(Add(v, 0)) == EndTarget(v)
  {}

  /** A program whose first instruction is `ret` returns to END at once: run reports ReachedEnd. */
  lemma RetReachesEnd(s: State, align: bool, end: bv32, fuel: nat)
    requires fuel > 0 && s.pcNext != EndTarget(end)
    requires Load32(s.mem, align, s.pcNext) == Ok(0x0000_8067)
    ensures Run(s, align, end, fuel).status == ReachedEnd
  {
    var b := Boot(s, end);
    BootRegisters(s, end);
    ExecuteRet(Advance(b), align);
    CycleExecutes(b, align, 0x0000_8067);
    LoopStep(b, align, end, fuel);
  }

  /** `beq x0, x0, 0` (0x00000063) branches to itself: pc_next stays at its own address. */
  lemma ExecuteBranchToSelf(s: State, align: bool)
    ensures Execute(s, align, 0x0000_0063) == Ok(s.(pcNext := s.pc))
  {
    assert Select(0x0000_0063) == Handler(Branch(BEQ));
    assert OperandsOf(0x0000_0063) == Operands(0, 0, 0, 0);
    BranchTakenIff(s, align, BEQ, Operands(0, 0, 0, 0));
    AddZero(s.pc);
  }

  lemma AddZero(v: bv32)
    ensures Add(v, 0) == v
  {}

  /** A program stuck on `beq x0, x0, 0` never halts and never returns: every bound on the iterations runs out. */
  lemma {:induction false} BranchToSelfNeverEnds(s: State, align: bool, end: bv32, fuel: nat)
    requires s.pcNext != EndTarget(end)
    requires Load32(s.mem, align, s.pcNext) == Ok(0x0000_0063)
    ensures Loop(s, align, end, fuel).status == OutOfFuel
    decreases fuel
  {
    if fuel > 0 {
      ExecuteBranchToSelf(Advance(s), align);
      CycleExecutes(s, align, 0x0000_0063);
      LoopStep(s, align, end, fuel);
      BranchToSelfNeverEnds(Cycle(s, align).next, align, end, fuel - 1);
    }
  }

  /** `addi rd, x0, imm`, `add rd, rs1, rs2`: the three words of the sum program below. */
  lemma ExecuteSumProgram(s: State, align: bool)
    ensures Execute(s, align, 0x0050_0093) == Ok(WriteRd(s, 1, ImmValue(ADDI, s.regs[0], 5)))
    ensures Execute(s, align, 0x0070_0113) == Ok(WriteRd(s, 2, ImmValue(ADDI, s.regs[0], 7)))
    ensures Execute(s, align, 0x0020_81B3) == Ok(WriteRd(s, 3, RegValue(ADD, s.regs[1], s.regs[2])))
  {
    assert Select(0x0050_0093) == Handler(OpImm(ADDI)) && OperandsOf(0x0050_0093) == Operands(1, 0, 5, 5);
    assert Select(0x0070_0113) == Handler(OpImm(ADDI)) && OperandsOf(0x0070_0113) == Operands(2, 0, 7, 7);
    assert Select(0x0020_81B3) == Handler(OpReg(ADD)) && OperandsOf(0x0020_81B3) == Operands(3, 1, 2, 0xFFFF_FFFF);
  }

  /** The sum program's words at addresses 0, 4, 8 and 12. */
  predicate SumProgramLoaded(mem: Memory, align: bool)
  {
    && Load32(mem, align, 0) == Ok(0x0050_0093)
    && Load32(mem, align, 4) == Ok(0x0070_0113)
    && Load32(mem, align, 8) == Ok(0x0020_81B3)
    && Load32(mem, align, 12) == Ok(0)
  }

  /**
   * `addi x1, x0, 5; addi x2, x0, 7; add x3, x1, x2` followed by a zero word,
   * loaded at address 0 and entered there: run halts after three
   * instructions with x3 = 12.
   */
  lemma SumProgram(s: State, align: bool, end: bv32)
    requires s.pcNext == 0 && EndTarget(end) !in {0, 4, 8, 12}
    requires SumProgramLoaded(s.mem, align)
    ensures Run(s, align, end, 4).status == Halted
    ensures Run(s, align, end, 4).final.regs[3] == 12
  {
    var s0 := Boot(s, end);
    BootRegisters(s, end);
    ExecuteSumProgram(Advance(s0), align);
    CycleExecutes(s0, align, 0x0050_0093);
    LoopStep(s0, align, end, 4);
    SumProgramFrom4(Cycle(s0, align).next, align, end);
  }

  lemma SumProgramFrom4(s: State, align: bool, end: bv32)
    requires s.pcNext == 4 && EndTarget(end) !in {4, 8, 12}
    requires SumProgramLoaded(s.mem, align) && s.regs[0] == 0 && s.regs[1] == 5
    ensures Loop(s, align, end, 3).status == Halted
    ensures Loop(s, align, end, 3).final.regs[3] == 12
  {
    ExecuteSumProgram(Advance(s), align);
    CycleExecutes(s, align, 0x0070_0113);
    LoopStep(s, align, end, 3);
    SumProgramFrom8(Cycle(s, align).next, align, end);
  }

  lemma SumProgramFrom8(s: State, align: bool, end: bv32)
    requires s.pcNext == 8 && EndTarget(end) !in {8, 12}
    requires SumProgramLoaded(s.mem, align) && s.regs[1] == 5 && s.regs[2] == 7
    ensures Loop(s, align, end, 2).status == Halted
    ensures Loop(s, align, end, 2).final.regs[3] == 12
  {
    ExecuteSumProgram(Advance(s), align);
    CycleExecutes(s, align, 0x0020_81B3);
    LoopStep(s, align, end, 2);
    var t := Cycle(s, align).next;
    assert t.pcNext == 12 && t.regs[3] == 12 && t.mem == s.mem;
    CycleCases(t, align);
  }

  /** The registers run starts its loop with. */
  lemma BootRegisters(s: State, end: bv32)
    ensures var r := Boot(s, end).regs;
      r[0] == 0 && r[1] == end && r[2] == 0xFFFF && forall i :: 3 <= i < 32 ==> r[i] == s.regs[i]
    ensures Boot(s, end).pc == s.pc && Boot(s, end).pcNext == s.pcNext && Boot(s, end).mem == s.mem
  {}

  /** The fault, if any, a handler or execute32 raised, together with the state it left. */
  function AsResult(fault: Option<Fault>, s: State): Result<State>
  {
    match fault
    case Some(f) => Err(f)
    case None => Ok(s)
  }
}
