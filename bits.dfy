/**
 * Bit-level helpers shared by the RV32I hart and the earlier memory draft:
 * two's-complement reading of a word, the arithmetic right shift of an
 * `int32_t`, sign extension, and little-endian packing of bytes.
 */
module Bits {

  /**
   * `(int32_t)x < (int32_t)y`, computed on the words: flipping bit 31 maps
   * the two's-complement order onto the unsigned one.
   */
  predicate SignedLess(x: bv32, y: bv32)
  {
    x ^ 0x8000_0000 < y ^ 0x8000_0000
  }

  /**
   * The two's-complement order by cases on the sign bits: a negative word is
   * below every non-negative one, and words of equal sign compare as unsigned.
   */
  predicate SignedBelow(x: bv32, y: bv32)
  {
    if x >> 31 != y >> 31 then x >> 31 == 1 else x < y
  }

  lemma SignedLessIsTwosComplementOrder(x: bv32, y: bv32)
    ensures SignedLess(x, y) <==> SignedBelow(x, y)
  {}

  /** `(int32_t)x >> s` on a two's-complement machine: the vacated high bits copy bit 31. */
  function Sra(x: bv32, s: bv32): bv32
    requires s < 32
  {
    if x & 0x8000_0000 == 0 then x >> s else !(!x >> s)
  }

  /** The arithmetic shift is the logical one with every vacated high bit a copy of bit 31. */
  lemma SraBits(x: bv32, s: bv32)
    requires s < 32
    ensures Sra(x, s) == (x >> s) | (if x >> 31 == 1 then !(0xFFFF_FFFF >> s) else 0)
    ensures Sra(x, s) >> 31 == x >> 31
  {
    if x >> 31 == 1 {} else {}
  }

  /** The `n` low bits of `v`, with bit `n - 1` copied into every bit above them. */
  function SignExtend(v: bv32, n: bv32): bv32
    requires 1 <= n <= 32
  {
    if (v >> (n - 1)) & 1 == 1 then v | (0xFFFF_FFFF << n) else v & !(0xFFFF_FFFF << n)
  }

  /** Bits `hi` down to `lo` of `x`, moved down to bit 0. */
  function Field(x: bv32, hi: bv32, lo: bv32): bv32
    requires lo <= hi < 32
  {
    (x >> lo) & (0xFFFF_FFFF >> (31 - (hi - lo)))
  }

  /** The number whose base-256 digits, least significant first, are `bytes`. */
  function LittleEndian(bytes: seq<bv8>): nat
  {
    if |bytes| == 0 then 0 else bytes[0] as nat + 0x100 * LittleEndian(bytes[1..])
  }

  // Packing of two, four and eight bytes as the accessors do it: byte i is shifted left by 8*i.

  function Pack16(b0: bv8, b1: bv8): bv16
  {
    (b1 as bv16 << 8) | b0 as bv16
  }

  function Pack32(b0: bv8, b1: bv8, b2: bv8, b3: bv8): bv32
  {
    (b3 as bv32 << 24) | (b2 as bv32 << 16) | (b1 as bv32 << 8) | b0 as bv32
  }

  function Pack64(b0: bv8, b1: bv8, b2: bv8, b3: bv8, b4: bv8, b5: bv8, b6: bv8, b7: bv8): bv64
  {
    (b7 as bv64 << 56) | (b6 as bv64 << 48) | (b5 as bv64 << 40) | (b4 as bv64 << 32)
    | (b3 as bv64 << 24) | (b2 as bv64 << 16) | (b1 as bv64 << 8) | b0 as bv64
  }

  // Splitting a value into its bytes as the accessors do it: byte i is (v >> 8*i) & 0xFF.

  function Split16(v: bv16): (r: seq<bv8>)
    ensures |r| == 2
  {
    [(v & 0xFF) as bv8, ((v >> 8) & 0xFF) as bv8]
  }

  function Split32(v: bv32): (r: seq<bv8>)
    ensures |r| == 4
  {
    [(v & 0xFF) as bv8, ((v >> 8) & 0xFF) as bv8, ((v >> 16) & 0xFF) as bv8, ((v >> 24) & 0xFF) as bv8]
  }

  function Split64(v: bv64): (r: seq<bv8>)
    ensures |r| == 8
  {
    [(v & 0xFF) as bv8, ((v >> 8) & 0xFF) as bv8, ((v >> 16) & 0xFF) as bv8, ((v >> 24) & 0xFF) as bv8,
     ((v >> 32) & 0xFF) as bv8, ((v >> 40) & 0xFF) as bv8, ((v >> 48) & 0xFF) as bv8, ((v >> 56) & 0xFF) as bv8]
  }

  /** Splitting a value and packing its bytes again gives the value back. */
  lemma SplitPack16(v: bv16)
    ensures var b := Split16(v); Pack16(b[0], b[1]) == v
  {}

  lemma SplitPack32(v: bv32)
    ensures var b := Split32(v); Pack32(b[0], b[1], b[2], b[3]) == v
  {}

  lemma SplitPack64(v: bv64)
    ensures var b := Split64(v); Pack64(b[0], b[1], b[2], b[3], b[4], b[5], b[6], b[7]) == v
  {}

  /** Packing bytes and splitting the result gives the bytes back. */
  lemma PackSplit32(b0: bv8, b1: bv8, b2: bv8, b3: bv8)
    ensures Split32(Pack32(b0, b1, b2, b3)) == [b0, b1, b2, b3]
  {}

  lemma PackSplit64(b0: bv8, b1: bv8, b2: bv8, b3: bv8, b4: bv8, b5: bv8, b6: bv8, b7: bv8)
    ensures Split64(Pack64(b0, b1, b2, b3, b4, b5, b6, b7)) == [b0, b1, b2, b3, b4, b5, b6, b7]
  {}

  // The value of the packed word as a number: the little-endian sum of its bytes.

  lemma PackValue16(b0: bv8, b1: bv8)
    ensures ((b1 as bv16 << 8) | b0 as bv16) as int == b0 as int + 0x100 * (b1 as int)
  {}

  lemma PackValue32(b0: bv8, b1: bv8, b2: bv8, b3: bv8)
    ensures ((b3 as bv32 << 24) | (b2 as bv32 << 16) | (b1 as bv32 << 8) | b0 as bv32) as int
         == b0 as int + 0x100 * (b1 as int) + 0x1_0000 * (b2 as int) + 0x100_0000 * (b3 as int)
  {}

  lemma PackValue64(b0: bv8, b1: bv8, b2: bv8, b3: bv8, b4: bv8, b5: bv8, b6: bv8, b7: bv8)
    ensures ((b7 as bv64 << 56) | (b6 as bv64 << 48) | (b5 as bv64 << 40) | (b4 as bv64 << 32)
             | (b3 as bv64 << 24) | (b2 as bv64 << 16) | (b1 as bv64 << 8) | b0 as bv64) as int
         == b0 as int + 0x100 * (b1 as int) + 0x1_0000 * (b2 as int) + 0x100_0000 * (b3 as int)
            + 0x1_0000_0000 * (b4 as int) + 0x100_0000_0000 * (b5 as int)
            + 0x1_0000_0000_0000 * (b6 as int) + 0x100_0000_0000_0000 * (b7 as int)
  {}

  lemma LittleEndian1(b: bv8)
    ensures LittleEndian([b]) == b as int
  {
    assert [b][1..] == [];
  }

  lemma LittleEndian2(b0: bv8, b1: bv8)
    ensures LittleEndian([b0, b1]) == b0 as int + 0x100 * (b1 as int)
  {
    calc {
      LittleEndian([b0, b1]);
      b0 as int + 0x100 * LittleEndian([b0, b1][1..]);
      { assert [b0, b1][1..] == [b1]; }
      b0 as int + 0x100 * LittleEndian([b1]);
      { assert [b1][1..] == []; }
      b0 as int + 0x100 * (b1 as int);
    }
  }

  lemma LittleEndian4(b0: bv8, b1: bv8, b2: bv8, b3: bv8)
    ensures LittleEndian([b0, b1, b2, b3])
         == b0 as int + 0x100 * (b1 as int) + 0x1_0000 * (b2 as int) + 0x100_0000 * (b3 as int)
  {
    calc {
      LittleEndian([b0, b1, b2, b3]);
      b0 as int + 0x100 * LittleEndian([b0, b1, b2, b3][1..]);
      { assert [b0, b1, b2, b3][1..] == [b1, b2, b3]; }
      b0 as int + 0x100 * LittleEndian([b1, b2, b3]);
      b0 as int + 0x100 * (b1 as int + 0x100 * LittleEndian([b1, b2, b3][1..]));
      { assert [b1, b2, b3][1..] == [b2, b3]; LittleEndian2(b2, b3); }
      b0 as int + 0x100 * (b1 as int + 0x100 * (b2 as int + 0x100 * (b3 as int)));
    }
  }

  lemma LittleEndian8(b0: bv8, b1: bv8, b2: bv8, b3: bv8, b4: bv8, b5: bv8, b6: bv8, b7: bv8)
    ensures LittleEndian([b0, b1, b2, b3, b4, b5, b6, b7])
         == b0 as int + 0x100 * (b1 as int) + 0x1_0000 * (b2 as int) + 0x100_0000 * (b3 as int)
            + 0x1_0000_0000 * (b4 as int) + 0x100_0000_0000 * (b5 as int)
            + 0x1_0000_0000_0000 * (b6 as int) + 0x100_0000_0000_0000 * (b7 as int)
  {
    var l4 := LittleEndian([b4, b5, b6, b7]);
    calc {
      LittleEndian([b0, b1, b2, b3, b4, b5, b6, b7]);
      { assert [b0, b1, b2, b3, b4, b5, b6, b7][1..] == [b1, b2, b3, b4, b5, b6, b7]; }
      b0 as int + 0x100 * LittleEndian([b1, b2, b3, b4, b5, b6, b7]);
      { assert [b1, b2, b3, b4, b5, b6, b7][1..] == [b2, b3, b4, b5, b6, b7]; }
      b0 as int + 0x100 * (b1 as int + 0x100 * LittleEndian([b2, b3, b4, b5, b6, b7]));
      { assert [b2, b3, b4, b5, b6, b7][1..] == [b3, b4, b5, b6, b7]; }
      b0 as int + 0x100 * (b1 as int + 0x100 * (b2 as int + 0x100 * LittleEndian([b3, b4, b5, b6, b7])));
      { assert [b3, b4, b5, b6, b7][1..] == [b4, b5, b6, b7]; }
      b0 as int + 0x100 * (b1 as int + 0x100 * (b2 as int + 0x100 * (b3 as int + 0x100 * l4)));
      { LittleEndian4(b4, b5, b6, b7); }
      b0 as int + 0x100 * (b1 as int + 0x100 * (b2 as int + 0x100 * (b3 as int + 0x100 *
        (b4 as int + 0x100 * (b5 as int) + 0x1_0000 * (b6 as int) + 0x100_0000 * (b7 as int)))));
    }
  }

  /** The packed word, read as a number, is the little-endian value of its bytes. */
  lemma Pack16IsLittleEndian(b0: bv8, b1: bv8)
    ensures Pack16(b0, b1) as int == LittleEndian([b0, b1])
  {
    var p := Pack16(b0, b1);
    assert p == (b1 as bv16 << 8) | b0 as bv16;
    PackValue16(b0, b1);
    assert p as int == b0 as int + 0x100 * (b1 as int);
    LittleEndian2(b0, b1);
  }

  lemma Pack32IsLittleEndian(b0: bv8, b1: bv8, b2: bv8, b3: bv8)
    ensures Pack32(b0, b1, b2, b3) as int == LittleEndian([b0, b1, b2, b3])
  {
    var p := Pack32(b0, b1, b2, b3);
    assert p == (b3 as bv32 << 24) | (b2 as bv32 << 16) | (b1 as bv32 << 8) | b0 as bv32;
    PackValue32(b0, b1, b2, b3);
    assert p as int == b0 as int + 0x100 * (b1 as int) + 0x1_0000 * (b2 as int) + 0x100_0000 * (b3 as int);
    LittleEndian4(b0, b1, b2, b3);
  }

  lemma Pack64IsLittleEndian(b0: bv8, b1: bv8, b2: bv8, b3: bv8, b4: bv8, b5: bv8, b6: bv8, b7: bv8)
    ensures Pack64(b0, b1, b2, b3, b4, b5, b6, b7) as int == LittleEndian([b0, b1, b2, b3, b4, b5, b6, b7])
  {
    var p := Pack64(b0, b1, b2, b3, b4, b5, b6, b7);
    assert p == (b7 as bv64 << 56) | (b6 as bv64 << 48) | (b5 as bv64 << 40) | (b4 as bv64 << 32)
              | (b3 as bv64 << 24) | (b2 as bv64 << 16) | (b1 as bv64 << 8) | b0 as bv64;
    PackValue64(b0, b1, b2, b3, b4, b5, b6, b7);
    LittleEndian8(b0, b1, b2, b3, b4, b5, b6, b7);
  }

  /** The bytes a value is split into are its little-endian digits. */
  lemma Split32IsLittleEndian(v: bv32)
    ensures LittleEndian(Split32(v)) == v as int
  {
    var b := Split32(v);
    SplitPack32(v);
    Pack32IsLittleEndian(b[0], b[1], b[2], b[3]);
    assert b == [b[0], b[1], b[2], b[3]];
  }

  lemma Split64IsLittleEndian(v: bv64)
    ensures LittleEndian(Split64(v)) == v as int
  {
    var b := Split64(v);
    SplitPack64(v);
    Pack64IsLittleEndian(b[0], b[1], b[2], b[3], b[4], b[5], b[6], b[7]);
    assert b == [b[0], b[1], b[2], b[3], b[4], b[5], b[6], b[7]];
  }
}
