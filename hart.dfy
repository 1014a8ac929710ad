/**
 * The simulator of RISCV32.cpp as an object. The source keeps its state in
 * static members (reg32, pc, pc_next, Memory32::mem, mem_access_align); here
 * they are the fields of one Hart, and every method that updates them is
 * proved to do what the corresponding function of Machine computes.
 */
module Hart32 {
  import opened Bits
  import opened Decode
  import opened Machine

  /** The memory a program image fills: its first MEM_SIZE bytes at offset 0, zeros after it. */
  function ImageMemory(image: seq<bv8>): (m: Memory)
    ensures forall i :: 0 <= i < MEM_SIZE ==> m[i] == if i < |image| then image[i] else 0
  {
    seq(MEM_SIZE, i requires 0 <= i < MEM_SIZE => if i < |image| then image[i] else 0)
  }

  class Hart {
    /** mem_access_align: whether Memory32 rejects misaligned accesses. */
    var alignCheck: bool
    /** debug_mode; it only selects the trace output, which is not modelled. */
    var debug: bool
    var running: bool
    var pc: bv32
    var pcNext: bv32
    /** reg32 */
    const regs: array<bv32>
    /** Memory32::mem */
    const mem: array<bv8>

    ghost predicate Valid()
      reads this
    {
      regs.Length == 32 && mem.Length == MEM_SIZE
    }

    /** The architectural state the methods below act on. */
    function Snapshot(): State
      requires Valid()
      reads this, regs, mem
    {
      State(regs[..], mem[..], pc, pcNext)
    }

    /**
     * The RISCV32 constructor: alignment checking as requested, debug output
     * forced on, the program image read into memory from offset 0 (the
     * `mem_start` argument is not used), not running, and pc = pc_next =
     * entrypoint. Registers and memory start zeroed, as static storage does.
     * The M, A and F flags select extensions that are not part of this model.
     */
    constructor (alignAccess: bool, debugFlag: bool, m: bool, a: bool, f: bool,
                 image: seq<bv8>, memStart: bv32, entry: bv32)
      ensures Valid() && fresh(regs) && fresh(mem)
      ensures alignCheck == alignAccess && debug && !running
      ensures Snapshot() == State(seq(32, _ => 0), ImageMemory(image), entry, entry)
    {
      alignCheck := alignAccess;
      debug := true;
      regs := new bv32[32](_ => 0);
      mem := new bv8[MEM_SIZE](i requires 0 <= i < MEM_SIZE => if i < |image| then image[i] else 0);
      running := false;
      pc := entry;
      pcNext := entry;
      new;
      assert mem[..] == ImageMemory(image);
      assert regs[..] == seq(32, _ => 0);
    }

    // ------------------------------------------------------------ Memory32

    /**
     * The two tests every Memory32 accessor starts with (MEM_ALIGN_ERR and
     * MEM_OUT_ERR): alignment, when enabled, then bounds.
     */
    method CheckAccess(addr: bv32, width: bv32) returns (fault: Option<Fault>)
      requires width == 1 || width == 2 || width == 4
      ensures fault == AccessFault(alignCheck, addr, width)
    {
      if alignCheck && Misaligned(addr, width) {
        return Some(Unaligned);
      }
      if PastEnd(addr, width) {
        return Some(OutOfBounds);
      }
      fault := None;
    }

    method ReadU8(addr: bv32) returns (r: Result<bv8>)
      requires Valid()
      ensures r == Load8(mem[..], alignCheck, addr)
    {
      var fault := CheckAccess(addr, 1);
      if fault.Some? {
        return Err(fault.value);
      }
      PastEndIsExact(addr, 1);
      r := Ok(mem[addr as int]);
    }

    method ReadU16(addr: bv32) returns (r: Result<bv16>)
      requires Valid()
      ensures r == Load16(mem[..], alignCheck, addr)
    {
      var fault := CheckAccess(addr, 2);
      if fault.Some? {
        return Err(fault.value);
      }
      PastEndIsExact(addr, 2);
      var a := addr as int;
      r := Ok(Pack16(mem[a], mem[a + 1]));
    }

    method ReadU32(addr: bv32) returns (r: Result<bv32>)
      requires Valid()
      ensures r == Load32(mem[..], alignCheck, addr)
    {
      var fault := CheckAccess(addr, 4);
      if fault.Some? {
        return Err(fault.value);
      }
      PastEndIsExact(addr, 4);
      var a := addr as int;
      r := Ok(Pack32(mem[a], mem[a + 1], mem[a + 2], mem[a + 3]));
    }

    method WriteU8(addr: bv32, v: bv8) returns (fault: Option<Fault>)
      requires Valid()
      modifies mem
      ensures AsResult(fault, Snapshot()) == Stored(old(Snapshot()), Store8(old(mem[..]), alignCheck, addr, v))
      ensures fault.Some? ==> mem[..] == old(mem[..])
    {
      fault := CheckAccess(addr, 1);
      if fault.Some? {
        return;
      }
      PastEndIsExact(addr, 1);
      var a := addr as int;
      mem[a] := v;
      assert mem[..] == old(mem[..])[a := v];
      fault := None;
    }

    method WriteU16(addr: bv32, v: bv16) returns (fault: Option<Fault>)
      requires Valid()
      modifies mem
      ensures AsResult(fault, Snapshot()) == Stored(old(Snapshot()), Store16(old(mem[..]), alignCheck, addr, v))
      ensures fault.Some? ==> mem[..] == old(mem[..])
    {
      fault := CheckAccess(addr, 2);
      if fault.Some? {
        return;
      }
      PastEndIsExact(addr, 2);
      var a, b := addr as int, Split16(v);
      mem[a] := b[0];
      mem[a + 1] := b[1];
      fault := None;
    }

    method WriteU32(addr: bv32, v: bv32) returns (fault: Option<Fault>)
      requires Valid()
      modifies mem
      ensures AsResult(fault, Snapshot()) == Stored(old(Snapshot()), Store32(old(mem[..]), alignCheck, addr, v))
      ensures fault.Some? ==> mem[..] == old(mem[..])
    {
      fault := CheckAccess(addr, 4);
      if fault.Some? {
        return;
      }
      PastEndIsExact(addr, 4);
      var a, b := addr as int, Split32(v);
      mem[a] := b[0];
      mem[a + 1] := b[1];
      mem[a + 2] := b[2];
      mem[a + 3] := b[3];
      fault := None;
    }

    // ------------------------------------------------------------ base_I32

    /** `if (rd != 0) reg32[rd] = v;`, the register write every handler ends with. */
    method SetReg(rd: bv5, v: bv32)
      requires Valid()
      modifies regs
      ensures regs[..] == WriteReg(old(regs[..]), rd, v)
    {
      if rd != 0 {
        regs[rd as int] := v;
      }
    }

    /** lui and auipc. */
    method Upper(op: Op, x: Operands)
      requires Valid() && (op == LUI || op == AUIPC)
      modifies regs
      ensures Ok(Snapshot()) == Exec(old(Snapshot()), alignCheck, op, x)
    {
      if op == LUI {
        SetReg(x.rd, x.imm);
      } else {
        SetReg(x.rd, Add(pc, x.imm));
      }
    }

    /** jal and jalr: link pc + 4 into rd, then set pc_next; jalr reads rs1 after the link. */
    method Jump(op: Op, x: Operands)
      requires Valid() && (op == JAL || op == JALR)
      modifies this, regs
      ensures Ok(Snapshot()) == Exec(old(Snapshot()), alignCheck, op, x)
      ensures alignCheck == old(alignCheck) && running == old(running) && debug == old(debug)
    {
      SetReg(x.rd, Add(pc, 4));
      if op == JAL {
        pcNext := Add(pc, x.imm);
      } else {
        pcNext := ClearBit0(Add(regs[x.rs1], x.imm));
      }
    }

    /** beq, bne, blt, bge, bltu and bgeu: pc_next = pc + imm when the condition holds. */
    method BranchOp(k: BranchKind, x: Operands)
      requires Valid()
      modifies this
      ensures Ok(Snapshot()) == Exec(old(Snapshot()), alignCheck, Branch(k), x)
      ensures alignCheck == old(alignCheck) && running == old(running) && debug == old(debug)
    {
      ghost var s := Snapshot();
      assert Exec(s, alignCheck, Branch(k), x) == Ok(TakeBranch(s, Taken(k, s.regs[x.rs1], s.regs[x.rs2]), x.imm));
      if Taken(k, regs[x.rs1], regs[x.rs2]) {
        pcNext := Add(pc, x.imm);
      }
    }

    /**
     * lb, lh, lw, lbu and lhu: read at x[rs1] + imm and write the value,
     * zero-extended, to rd; a Memory32 fault leaves rd as it was.
     */
    method LoadOp(k: LoadKind, x: Operands) returns (fault: Option<Fault>)
      requires Valid()
      modifies regs
      ensures AsResult(fault, Snapshot()) == Exec(old(Snapshot()), alignCheck, Load(k), x)
      ensures fault.Some? ==> regs[..] == old(regs[..])
    {
      ghost var s := Snapshot();
      var addr := Add(regs[x.rs1], x.imm);
      assert Exec(s, alignCheck, Load(k), x) == Loaded(s, x.rd, LoadWord(k, s.mem, alignCheck, addr));
      var data: Result<bv32>;
      match k {
        case LB | LBU =>
          var r := ReadU8(addr);
          data := Widen8(r);
        case LH | LHU =>
          var r := ReadU16(addr);
          data := Widen16(r);
        case LW =>
          data := ReadU32(addr);
      }
      assert data == LoadWord(k, s.mem, alignCheck, addr);
      if data.Err? {
        return Some(data.fault);
      }
      SetReg(x.rd, data.value);
      fault := None;
    }

    /** sb, sh and sw: write the low 8, 16 or 32 bits of x[rs2] at x[rs1] + imm. */
    method StoreOp(k: StoreKind, x: Operands) returns (fault: Option<Fault>)
      requires Valid()
      modifies mem
      ensures AsResult(fault, Snapshot()) == Exec(old(Snapshot()), alignCheck, Store(k), x)
      ensures fault.Some? ==> mem[..] == old(mem[..])
    {
      match k {
        case SB => fault := StoreByte(x);
        case SH => fault := StoreHalf(x);
        case SW => fault := StoreFull(x);
      }
    }

    method StoreByte(x: Operands) returns (fault: Option<Fault>)
      requires Valid()
      modifies mem
      ensures AsResult(fault, Snapshot()) == Exec(old(Snapshot()), alignCheck, Store(SB), x)
      ensures fault.Some? ==> mem[..] == old(mem[..])
    {
      ghost var s := Snapshot();
      var addr, v := Add(regs[x.rs1], x.imm), regs[x.rs2];
      assert Exec(s, alignCheck, Store(SB), x) == Stored(s, StoreWord(SB, s.mem, alignCheck, addr, v));
      assert StoreWord(SB, s.mem, alignCheck, addr, v) == Store8(s.mem, alignCheck, addr, Low8(v));
      fault := WriteU8(addr, Low8(v));
    }

    method StoreHalf(x: Operands) returns (fault: Option<Fault>)
      requires Valid()
      modifies mem
      ensures AsResult(fault, Snapshot()) == Exec(old(Snapshot()), alignCheck, Store(SH), x)
      ensures fault.Some? ==> mem[..] == old(mem[..])
    {
      ghost var s := Snapshot();
      var addr, v := Add(regs[x.rs1], x.imm), regs[x.rs2];
      assert Exec(s, alignCheck, Store(SH), x) == Stored(s, StoreWord(SH, s.mem, alignCheck, addr, v));
      assert StoreWord(SH, s.mem, alignCheck, addr, v) == Store16(s.mem, alignCheck, addr, Low16(v));
      fault := WriteU16(addr, Low16(v));
    }

    method StoreFull(x: Operands) returns (fault: Option<Fault>)
      requires Valid()
      modifies mem
      ensures AsResult(fault, Snapshot()) == Exec(old(Snapshot()), alignCheck, Store(SW), x)
      ensures fault.Some? ==> mem[..] == old(mem[..])
    {
      ghost var s := Snapshot();
      var addr, v := Add(regs[x.rs1], x.imm), regs[x.rs2];
      assert Exec(s, alignCheck, Store(SW), x) == Stored(s, Store32(s.mem, alignCheck, addr, v));
      fault := WriteU32(addr, v);
    }

    /** addi, slti, sltiu, xori, ori, andi, slli, srli and srai. */
    method OpImmediate(k: ImmKind, x: Operands)
      requires Valid()
      modifies regs
      ensures Ok(Snapshot()) == Exec(old(Snapshot()), alignCheck, OpImm(k), x)
    {
      SetReg(x.rd, ImmValue(k, regs[x.rs1], x.imm));
    }

    /** add, sub, sll, slt, sltu, xor, srl, sra, or and and. */
    method OpRegister(k: RegKind, x: Operands)
      requires Valid()
      modifies regs
      ensures Ok(Snapshot()) == Exec(old(Snapshot()), alignCheck, OpReg(k), x)
    {
      SetReg(x.rd, RegValue(k, regs[x.rs1], regs[x.rs2]));
    }

    // ------------------------------------------------------------ execute32

    /**
     * execute32: extract the fields, select the handler by opcode, funct3
     * and funct7, and run it. A rejected combination raises
     * InvalidInstruction; an opcode without a case does nothing.
     */
    method Execute32(instr: bv32) returns (fault: Option<Fault>)
      requires Valid()
      modifies this, regs, mem
      ensures AsResult(fault, Snapshot()) == Execute(old(Snapshot()), alignCheck, instr)
      ensures fault.Some? ==> Snapshot() == old(Snapshot())
      ensures alignCheck == old(alignCheck) && running == old(running) && debug == old(debug)
    {
      var x := Operands(Rd(instr), Rs1(instr), Rs2(instr), ImmGen(instr));
      fault := None;
      match Select(instr) {
        case Handler(op) =>
          match op {
            case LUI => Upper(op, x);
            case AUIPC => Upper(op, x);
            case JAL => Jump(op, x);
            case JALR => Jump(op, x);
            case Branch(k) => BranchOp(k, x);
            case Load(k) => fault := LoadOp(k, x);
            case Store(k) => fault := StoreOp(k, x);
            case OpImm(k) => OpImmediate(k, x);
            case OpReg(k) => OpRegister(k, x);
          }
        case Illegal => fault := Some(InvalidInstruction);
        case Unmatched =>
      }
    }

    // ------------------------------------------------------------------ run

    /**
     * The body of run's loop: `pc = pc_next; pc_next = pc + 4;`, fetch the
     * word at pc, and hand it to execute32 unless it is zero. `zero` reports
     * the zero word that makes run stop; `fault` one raised by the fetch or by
     * execute32, in which case the state is the one after the two assignments.
     * Stated as what it contributes to run's loop when that loop has `fuel`
     * iterations left and has not reached `end`.
     */
    method Step(ghost end: bv32, ghost fuel: nat) returns (zero: bool, fault: Option<Fault>)
      requires Valid() && fuel > 0 && pcNext != EndTarget(end)
      modifies this, regs, mem
      ensures zero ==> Loop(old(Snapshot()), alignCheck, end, fuel) == Outcome(Halted, Snapshot())
      ensures !zero && fault.Some? ==>
        Loop(old(Snapshot()), alignCheck, end, fuel) == Outcome(Faulted(fault.value), Snapshot())
      ensures !zero && fault.None? ==>
        Loop(old(Snapshot()), alignCheck, end, fuel) == Loop(Snapshot(), alignCheck, end, fuel - 1)
      ensures alignCheck == old(alignCheck) && running == old(running) && debug == old(debug)
    {
      ghost var s := Snapshot();
      CycleCases(s, alignCheck);
      pc := pcNext;
      pcNext := Add(pc, 4);
      assert Snapshot() == Advance(s);
      var fetched := ReadU32(pc);
      if fetched.Err? {
        LoopStops(s, alignCheck, end, fuel);
        return false, Some(fetched.fault);
      }
      if fetched.value == 0 {
        LoopStops(s, alignCheck, end, fuel);
        return true, None;
      }
      zero := false;
      fault := Execute32(fetched.value);
      if fault.Some? {
        LoopStops(s, alignCheck, end, fuel);
      } else {
        LoopStep(s, alignCheck, end, fuel);
      }
    }

    /** The registers run sets before its loop: x0 = 0, ra = END, sp = MEM_SIZE - 1. */
    method Boot(end: bv32)
      requires Valid()
      modifies this, regs
      ensures Snapshot() == Machine.Boot(old(Snapshot()), end)
      ensures alignCheck == old(alignCheck) && running && debug == old(debug)
    {
      running := true;
      regs[0] := 0;
      regs[1] := end;
      regs[2] := 0xFFFF;
    }

    /**
     * run's while loop: repeat Step while running and pc_next is not END
     * with bit 0 cleared; a zero word clears running. A fault ends the loop
     * with the state the throwing call left. `fuel` bounds the number of
     * iterations.
     */
    method RunLoop(end: bv32, fuel: nat) returns (status: Status)
      requires Valid() && running
      modifies this, regs, mem
      ensures Outcome(status, Snapshot()) == Loop(old(Snapshot()), alignCheck, end, fuel)
      ensures alignCheck == old(alignCheck) && debug == old(debug)
      ensures running <==> !status.Halted?
    {
      ghost var goal := Loop(Snapshot(), alignCheck, end, fuel);
      var n := fuel;
      while running && pcNext != end & 0xFFFF_FFFE
        invariant Valid() && alignCheck == old(alignCheck) && debug == old(debug)
        invariant running ==> Loop(Snapshot(), alignCheck, end, n) == goal
        invariant !running ==> goal == Outcome(Halted, Snapshot())
        decreases n
      {
        if n == 0 {
          return OutOfFuel;
        }
        var zero, fault := Step(end, n);
        if zero {
          running := false;
          break;
        }
        if fault.Some? {
          return Faulted(fault.value);
        }
        n := n - 1;
      }
      status := if running then ReachedEnd else Halted;
    }

    /** run: Boot, then RunLoop. */
    method Run(end: bv32, fuel: nat) returns (status: Status)
      requires Valid()
      modifies this, regs, mem
      ensures Outcome(status, Snapshot()) == Machine.Run(old(Snapshot()), old(alignCheck), end, fuel)
      ensures alignCheck == old(alignCheck) && debug == old(debug)
      ensures running <==> !status.Halted?
    {
      Boot(end);
      status := RunLoop(end, fuel);
    }
  }
}
