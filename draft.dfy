/**
 * The memory accessors of the earlier, 64-bit-address draft in RISCV.cpp
 * (class RISCV). They differ from Memory32: addresses are uint64_t, the
 * bounds test comes before the alignment test, the byte accessors have no
 * alignment test, and a failure is reported by returning 1 (0 on success)
 * instead of throwing. On failure nothing is written: neither `*data` nor
 * memory.
 *
 * No accessor computes with an address beyond adding at most 7 to one that
 * has passed the bounds test, so addresses are modelled as integers in the
 * range of uint64_t, and the alignment mask `addr & (w - 1)` as `addr % w`,
 * which is the same for unsigned values and the powers of two used.
 */
module DraftMemory {
  import opened Bits
  import opened Decode
  import opened Machine

  newtype u64 = x: int | 0 <= x < 0x1_0000_0000_0000_0000

  /** The two status codes the accessors return. */
  const Success := 0
  const Failure := 1

  // ----------------------------------------------------------- the accessors on values

  function Read8(mem: Memory, addr: u64): Option<bv8>
  {
    if addr as int >= MEM_SIZE then None
    else Some(mem[addr])
  }

  function Read16(mem: Memory, align: bool, addr: u64): Option<bv16>
  {
    if addr as int >= MEM_SIZE - 1 then None
    else if align && addr % 2 != 0 then None
    else
      var a := addr as int;
      Some(Pack16(mem[a], mem[a + 1]))
  }

  function Read32(mem: Memory, align: bool, addr: u64): Option<bv32>
  {
    if addr as int >= MEM_SIZE - 3 then None
    else if align && addr % 4 != 0 then None
    else
      var a := addr as int;
      Some(Pack32(mem[a], mem[a + 1], mem[a + 2], mem[a + 3]))
  }

  function Read64(mem: Memory, align: bool, addr: u64): Option<bv64>
  {
    if addr as int >= MEM_SIZE - 7 then None
    else if align && addr % 8 != 0 then None
    else
      var a := addr as int;
      Some(Pack64(mem[a], mem[a + 1], mem[a + 2], mem[a + 3], mem[a + 4], mem[a + 5], mem[a + 6], mem[a + 7]))
  }

  function Write8(mem: Memory, addr: u64, v: bv8): Option<Memory>
  {
    if addr as int >= MEM_SIZE then None
    else
      var m: Memory := mem[addr as int := v];
      Some(m)
  }

  function Write16(mem: Memory, align: bool, addr: u64, v: bv16): Option<Memory>
  {
    if addr as int >= MEM_SIZE - 1 then None
    else if align && addr % 2 != 0 then None
    else
      var a, b := addr as int, Split16(v);
      var m: Memory := mem[a := b[0]][a + 1 := b[1]];
      Some(m)
  }

  function Write32(mem: Memory, align: bool, addr: u64, v: bv32): Option<Memory>
  {
    if addr as int >= MEM_SIZE - 3 then None
    else if align && addr % 4 != 0 then None
    else
      var a, b := addr as int, Split32(v);
      var m: Memory := mem[a := b[0]][a + 1 := b[1]][a + 2 := b[2]][a + 3 := b[3]];
      Some(m)
  }

  function Write64(mem: Memory, align: bool, addr: u64, v: bv64): Option<Memory>
  {
    if addr as int >= MEM_SIZE - 7 then None
    else if align && addr % 8 != 0 then None
    else
      var a, b := addr as int, Split64(v);
      var m: Memory := mem[a := b[0]][a + 1 := b[1]][a + 2 := b[2]][a + 3 := b[3]]
                          [a + 4 := b[4]][a + 5 := b[5]][a + 6 := b[6]][a + 7 := b[7]];
      Some(m)
  }

  // ------------------------------------------------------------------ reference

  /**
   * When an access of `width` bytes at `addr` is allowed: its last byte lies
   * inside the MEM_SIZE bytes of memory and, for more than one byte with
   * alignment checking on, `addr` is a multiple of `width`.
   */
  predicate Accessible(align: bool, addr: u64, width: nat)
  {
    && addr as int + width <= MEM_SIZE
    && (align && width > 1 ==> addr as int % width == 0)
  }

  /** `width` bytes of `mem` from `a` on are unchanged in `m`, and every other byte is. */
  predicate Framed(mem: Memory, m: Memory, a: int, width: nat)
  {
    forall i :: 0 <= i < MEM_SIZE && !(a <= i < a + width) ==> m[i] == mem[i]
  }

  // --------------------------------------------------------------------- lemmas

  /**
   * Which accesses fail: a byte access exactly past the end of memory,
   * whatever the alignment setting; a wider one when it runs past the end
   * or, with checking on, is misaligned. Both tests report the same code, so
   * their order is not observable.
   */
  lemma Access8Iff(mem: Memory, align: bool, addr: u64, v: bv8)
    ensures Read8(mem, addr).Some? <==> Accessible(align, addr, 1)
    ensures Write8(mem, addr, v).Some? <==> Accessible(align, addr, 1)
  {}

  lemma Access16Iff(mem: Memory, align: bool, addr: u64, v: bv16)
    ensures Read16(mem, align, addr).Some? <==> Accessible(align, addr, 2)
    ensures Write16(mem, align, addr, v).Some? <==> Accessible(align, addr, 2)
  {}

  lemma Access32Iff(mem: Memory, align: bool, addr: u64, v: bv32)
    ensures Read32(mem, align, addr).Some? <==> Accessible(align, addr, 4)
    ensures Write32(mem, align, addr, v).Some? <==> Accessible(align, addr, 4)
  {}

  lemma Access64Iff(mem: Memory, align: bool, addr: u64, v: bv64)
    ensures Read64(mem, align, addr).Some? <==> Accessible(align, addr, 8)
    ensures Write64(mem, align, addr, v).Some? <==> Accessible(align, addr, 8)
  {}

  /** The wider reads assemble their bytes little-endian. */
  lemma Read16IsLittleEndian(mem: Memory, align: bool, addr: u64)
    requires Read16(mem, align, addr).Some?
    ensures addr as int + 2 <= MEM_SIZE
    ensures Read16(mem, align, addr).value as int == LittleEndian(mem[addr as int .. addr as int + 2])
  {
    var a := addr as int;
    assert mem[a .. a + 2] == [mem[a], mem[a + 1]];
    Pack16IsLittleEndian(mem[a], mem[a + 1]);
  }

  lemma Read32IsLittleEndian(mem: Memory, align: bool, addr: u64)
    requires Read32(mem, align, addr).Some?
    ensures addr as int + 4 <= MEM_SIZE
    ensures Read32(mem, align, addr).value as int == LittleEndian(mem[addr as int .. addr as int + 4])
  {
    BytesAreLittleEndian32(mem, addr as int);
  }

  lemma Read64IsLittleEndian(mem: Memory, align: bool, addr: u64)
    requires Read64(mem, align, addr).Some?
    ensures addr as int + 8 <= MEM_SIZE
    ensures Read64(mem, align, addr).value as int == LittleEndian(mem[addr as int .. addr as int + 8])
  {
    BytesAreLittleEndian64(mem, addr as int);
  }

  lemma BytesAreLittleEndian64(mem: Memory, a: int)
    requires 0 <= a <= MEM_SIZE - 8
    ensures Pack64(mem[a], mem[a + 1], mem[a + 2], mem[a + 3], mem[a + 4], mem[a + 5], mem[a + 6], mem[a + 7]) as int
      == LittleEndian(mem[a .. a + 8])
  {
    assert mem[a .. a + 8] == [mem[a], mem[a + 1], mem[a + 2], mem[a + 3], mem[a + 4], mem[a + 5], mem[a + 6], mem[a + 7]];
    Pack64IsLittleEndian(mem[a], mem[a + 1], mem[a + 2], mem[a + 3], mem[a + 4], mem[a + 5], mem[a + 6], mem[a + 7]);
  }

  /**
   * Round trips: a write fails exactly when the read at the same address
   * would; when it succeeds, reading back gives the value written and every
   * byte outside the written ones is as before.
   */
  lemma WriteThenRead8(mem: Memory, align: bool, addr: u64, v: bv8)
    ensures Write8(mem, addr, v).Some? <==> Read8(mem, addr).Some?
    ensures Write8(mem, addr, v).Some? ==>
      var m := Write8(mem, addr, v).value;
      Read8(m, addr) == Some(v) && Framed(mem, m, addr as int, 1)
  {}

  lemma WriteThenRead16(mem: Memory, align: bool, addr: u64, v: bv16)
    ensures Write16(mem, align, addr, v).Some? <==> Read16(mem, align, addr).Some?
    ensures Write16(mem, align, addr, v).Some? ==>
      var m := Write16(mem, align, addr, v).value;
      Read16(m, align, addr) == Some(v) && Framed(mem, m, addr as int, 2)
  {
    SplitPack16(v);
  }

  lemma WriteThenRead32(mem: Memory, align: bool, addr: u64, v: bv32)
    ensures Write32(mem, align, addr, v).Some? <==> Read32(mem, align, addr).Some?
    ensures Write32(mem, align, addr, v).Some? ==>
      var m := Write32(mem, align, addr, v).value;
      Read32(m, align, addr) == Some(v) && Framed(mem, m, addr as int, 4)
  {
    SplitPack32(v);
  }

  lemma WriteThenRead64(mem: Memory, align: bool, addr: u64, v: bv64)
    ensures Write64(mem, align, addr, v).Some? <==> Read64(mem, align, addr).Some?
    ensures Write64(mem, align, addr, v).Some? ==>
      var m := Write64(mem, align, addr, v).value;
      Read64(m, align, addr) == Some(v) && Framed(mem, m, addr as int, 8)
  {
    SplitPack64(v);
  }

  // ---------------------------------------------------------------- class RISCV

  class Riscv {
    /** Non-zero to reject misaligned halfword, word and doubleword accesses. */
    var memAccessAlign: int
    /** Non-zero for debug output, which is not modelled. */
    var debugMode: int
    /** The MEM_SIZE bytes of memory; the source leaves them uninitialised. */
    const mem: array<bv8>

    ghost predicate Valid()
      reads this
    {
      mem.Length == MEM_SIZE
    }

    /** Whether the alignment tests are on (an int flag used as a condition). */
    function Align(): bool
      reads this
    {
      memAccessAlign != 0
    }

    /** RISCV(): misaligned accesses allowed, debug output off. */
    constructor ()
      ensures Valid() && fresh(mem)
      ensures memAccessAlign == 0 && debugMode == 0
    {
      memAccessAlign := 0;
      debugMode := 0;
      mem := new bv8[MEM_SIZE];
    }

    /** RISCV(mem_access, debug): both flags as given. */
    constructor WithModes(memAccess: int, debug: int)
      ensures Valid() && fresh(mem)
      ensures memAccessAlign == memAccess && debugMode == debug
    {
      memAccessAlign := memAccess;
      debugMode := debug;
      mem := new bv8[MEM_SIZE];
    }

    /*
     * Each read takes the value `data` the caller's `*data` holds and returns
     * it as `out`, replaced by the bytes read only when the status is Success.
     */

    method ReadMemU8(addr: u64, data: bv8) returns (status: int, out: bv8)
      requires Valid()
      ensures status == Success || status == Failure
      ensures (if status == Success then Some(out) else None) == Read8(mem[..], addr)
      ensures status == Failure ==> out == data
    {
      if addr as int >= MEM_SIZE {
        return Failure, data;
      }
      out := mem[addr];
      status := Success;
    }

    method ReadMemU16(addr: u64, data: bv16) returns (status: int, out: bv16)
      requires Valid()
      ensures status == Success || status == Failure
      ensures (if status == Success then Some(out) else None) == Read16(mem[..], Align(), addr)
      ensures status == Failure ==> out == data
    {
      if addr as int >= MEM_SIZE - 1 {
        return Failure, data;
      }
      if memAccessAlign != 0 && addr % 2 != 0 {
        return Failure, data;
      }
      var a := addr as int;
      out := Pack16(mem[a], mem[a + 1]);
      status := Success;
    }

    method ReadMemU32(addr: u64, data: bv32) returns (status: int, out: bv32)
      requires Valid()
      ensures status == Success || status == Failure
      ensures (if status == Success then Some(out) else None) == Read32(mem[..], Align(), addr)
      ensures status == Failure ==> out == data
    {
      if addr as int >= MEM_SIZE - 3 {
        return Failure, data;
      }
      if memAccessAlign != 0 && addr % 4 != 0 {
        return Failure, data;
      }
      var a := addr as int;
      out := Pack32(mem[a], mem[a + 1], mem[a + 2], mem[a + 3]);
      status := Success;
    }

    method ReadMemU64(addr: u64, data: bv64) returns (status: int, out: bv64)
      requires Valid()
      ensures status == Success || status == Failure
      ensures (if status == Success then Some(out) else None) == Read64(mem[..], Align(), addr)
      ensures status == Failure ==> out == data
    {
      if addr as int >= MEM_SIZE - 7 {
        return Failure, data;
      }
      if memAccessAlign != 0 && addr % 8 != 0 {
        return Failure, data;
      }
      var a := addr as int;
      out := Pack64(mem[a], mem[a + 1], mem[a + 2], mem[a + 3], mem[a + 4], mem[a + 5], mem[a + 6], mem[a + 7]);
      status := Success;
    }

    method WriteMemU8(addr: u64, data: bv8) returns (status: int)
      requires Valid()
      modifies mem
      ensures status == Success || status == Failure
      ensures status == Success <==> Write8(old(mem[..]), addr, data).Some?
      ensures status == Success ==> mem[..] == Write8(old(mem[..]), addr, data).value
      ensures status == Failure ==> mem[..] == old(mem[..])
    {
      if addr as int >= MEM_SIZE {
        return Failure;
      }
      mem[addr] := data;
      status := Success;
    }

    method WriteMemU16(addr: u64, data: bv16) returns (status: int)
      requires Valid()
      modifies mem
      ensures status == Success || status == Failure
      ensures status == Success <==> Write16(old(mem[..]), Align(), addr, data).Some?
      ensures status == Success ==> mem[..] == Write16(old(mem[..]), Align(), addr, data).value
      ensures status == Failure ==> mem[..] == old(mem[..])
    {
      if addr as int >= MEM_SIZE - 1 {
        return Failure;
      }
      if memAccessAlign != 0 && addr % 2 != 0 {
        return Failure;
      }
      var a, b := addr as int, Split16(data);
      mem[a] := b[0];
      mem[a + 1] := b[1];
      status := Success;
    }

    method WriteMemU32(addr: u64, data: bv32) returns (status: int)
      requires Valid()
      modifies mem
      ensures status == Success || status == Failure
      ensures status == Success <==> Write32(old(mem[..]), Align(), addr, data).Some?
      ensures status == Success ==> mem[..] == Write32(old(mem[..]), Align(), addr, data).value
      ensures status == Failure ==> mem[..] == old(mem[..])
    {
      if addr as int >= MEM_SIZE - 3 {
        return Failure;
      }
      if memAccessAlign != 0 && addr % 4 != 0 {
        return Failure;
      }
      var a, b := addr as int, Split32(data);
      mem[a] := b[0];
      mem[a + 1] := b[1];
      mem[a + 2] := b[2];
      mem[a + 3] := b[3];
      status := Success;
    }

    method WriteMemU64(addr: u64, data: bv64) returns (status: int)
      requires Valid()
      modifies mem
      ensures status == Success || status == Failure
      ensures status == Success <==> Write64(old(mem[..]), Align(), addr, data).Some?
      ensures status == Success ==> mem[..] == Write64(old(mem[..]), Align(), addr, data).value
      ensures status == Failure ==> mem[..] == old(mem[..])
    {
      if addr as int >= MEM_SIZE - 7 {
        return Failure;
      }
      if memAccessAlign != 0 && addr % 8 != 0 {
        return Failure;
      }
      var a, b := addr as int, Split64(data);
      mem[a] := b[0];
      mem[a + 1] := b[1];
      mem[a + 2] := b[2];
      mem[a + 3] := b[3];
      mem[a + 4] := b[4];
      mem[a + 5] := b[5];
      mem[a + 6] := b[6];
      mem[a + 7] := b[7];
      status := Success;
    }
  }
}
