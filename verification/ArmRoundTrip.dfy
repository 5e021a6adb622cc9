/**
  Instruction fields round-trip: for each relocation type, exactly when the addend read back is
  the value written (up to alignment bits that the field drops), and which bits do not change.
 */
module ArmRoundTrip {
  import opened ArmFields

  // ---------------------------------------------------------------- what pack_result and mask_result keep

  lemma Drop1(v: bv32, x: bv32)
    requires x == (v >> 1) | ((0 - (v >> 31)) << 31)
    ensures x & 0x01FF_FFFF == (v >> 1) & 0x01FF_FFFF && x & 0x7FF == (v >> 1) & 0x7FF
    ensures x & 0xFF == (v >> 1) & 0xFF && x & 0x3F == (v >> 1) & 0x3F
  {
  }

  lemma Drop2(v: bv32, x: bv32)
    requires x == (v >> 2) | ((0 - (v >> 31)) << 30)
    ensures x & 0x00FF_FFFF == (v >> 2) & 0x00FF_FFFF && x & 0x1F == (v >> 2) & 0x1F && x & 0xFF == (v >> 2) & 0xFF
  {
  }

  /** The value v lies in [-2^25, 2^25). */
  predicate Fits26(v: bv32) {
    v & 0xFE00_0000 == 0 || v & 0xFE00_0000 == 0xFE00_0000
  }

  lemma Plus26Half(v: bv32, x: bv32)
    requires v & 0x0200_0000 == 0 && x == v & 0x03FF_FFFE
    ensures SignExtend(x, 0x0200_0000) == x && (x == v & 0xFFFF_FFFE <==> v & 0xFE00_0000 == 0)
  {
  }

  lemma Minus26Half(v: bv32, x: bv32)
    requires v & 0x0200_0000 != 0 && x == v & 0x03FF_FFFE
    ensures SignExtend(x, 0x0200_0000) == x | 0xFE00_0000
    ensures x | 0xFE00_0000 == v & 0xFFFF_FFFE <==> v & 0xFE00_0000 == 0xFE00_0000
  {
  }

  lemma Extend26Half(v: bv32, x: bv32)
    requires x == v & 0x03FF_FFFE
    ensures SignExtend(x, 0x0200_0000) == v & 0xFFFF_FFFE <==> Fits26(v)
  {
    if v & 0x0200_0000 == 0 {
      Plus26Half(v, x);
    } else {
      Minus26Half(v, x);
    }
  }

  lemma Plus26Word(v: bv32, x: bv32)
    requires v & 0x0200_0000 == 0 && x == v & 0x03FF_FFFC
    ensures SignExtend(x, 0x0200_0000) == x && (x == v & 0xFFFF_FFFC <==> v & 0xFE00_0000 == 0)
  {
  }

  lemma Minus26Word(v: bv32, x: bv32)
    requires v & 0x0200_0000 != 0 && x == v & 0x03FF_FFFC
    ensures SignExtend(x, 0x0200_0000) == x | 0xFE00_0000
    ensures x | 0xFE00_0000 == v & 0xFFFF_FFFC <==> v & 0xFE00_0000 == 0xFE00_0000
  {
  }

  lemma Extend26Word(v: bv32, x: bv32)
    requires x == v & 0x03FF_FFFC
    ensures SignExtend(x, 0x0200_0000) == v & 0xFFFF_FFFC <==> Fits26(v)
  {
    if v & 0x0200_0000 == 0 {
      Plus26Word(v, x);
    } else {
      Minus26Word(v, x);
    }
  }

  /** The value v lies in [-2^24, 2^24). */
  predicate Fits25(v: bv32) {
    v & 0xFF00_0000 == 0 || v & 0xFF00_0000 == 0xFF00_0000
  }

  lemma Plus25(v: bv32, x: bv32)
    requires v & 0x0100_0000 == 0 && x == v & 0x01FF_FFFE
    ensures SignExtend(x, 0x0100_0000) == x && (x == v & 0xFFFF_FFFE <==> v & 0xFF00_0000 == 0)
  {
  }

  lemma Minus25(v: bv32, x: bv32)
    requires v & 0x0100_0000 != 0 && x == v & 0x01FF_FFFE
    ensures SignExtend(x, 0x0100_0000) == x | 0xFF00_0000
    ensures x | 0xFF00_0000 == v & 0xFFFF_FFFE <==> v & 0xFF00_0000 == 0xFF00_0000
  {
  }

  lemma Extend25(v: bv32, x: bv32)
    requires x == v & 0x01FF_FFFE
    ensures SignExtend(x, 0x0100_0000) == v & 0xFFFF_FFFE <==> Fits25(v)
  {
    if v & 0x0100_0000 == 0 {
      Plus25(v, x);
    } else {
      Minus25(v, x);
    }
  }

  /** The value v lies in [-2^11, 2^11). */
  predicate Fits12(v: bv32) {
    v & 0xFFFF_F800 == 0 || v & 0xFFFF_F800 == 0xFFFF_F800
  }

  lemma Plus12(v: bv32, x: bv32)
    requires v & 0x0000_0800 == 0 && x == v & 0x0000_0FFE
    ensures SignExtend(x, 0x0000_0800) == x && (x == v & 0xFFFF_FFFE <==> v & 0xFFFF_F800 == 0)
  {
  }

  lemma Minus12(v: bv32, x: bv32)
    requires v & 0x0000_0800 != 0 && x == v & 0x0000_0FFE
    ensures SignExtend(x, 0x0000_0800) == x | 0xFFFF_F800
    ensures x | 0xFFFF_F800 == v & 0xFFFF_FFFE <==> v & 0xFFFF_F800 == 0xFFFF_F800
  {
  }

  lemma Extend12(v: bv32, x: bv32)
    requires x == v & 0x0000_0FFE
    ensures SignExtend(x, 0x0000_0800) == v & 0xFFFF_FFFE <==> Fits12(v)
  {
    if v & 0x0000_0800 == 0 {
      Plus12(v, x);
    } else {
      Minus12(v, x);
    }
  }

  /** The value v lies in [-2^8, 2^8). */
  predicate Fits9(v: bv32) {
    v & 0xFFFF_FF00 == 0 || v & 0xFFFF_FF00 == 0xFFFF_FF00
  }

  lemma Plus9(v: bv32, x: bv32)
    requires v & 0x0000_0100 == 0 && x == v & 0x0000_01FE
    ensures SignExtend(x, 0x0000_0100) == x && (x == v & 0xFFFF_FFFE <==> v & 0xFFFF_FF00 == 0)
  {
  }

  lemma Minus9(v: bv32, x: bv32)
    requires v & 0x0000_0100 != 0 && x == v & 0x0000_01FE
    ensures SignExtend(x, 0x0000_0100) == x | 0xFFFF_FF00
    ensures x | 0xFFFF_FF00 == v & 0xFFFF_FFFE <==> v & 0xFFFF_FF00 == 0xFFFF_FF00
  {
  }

  lemma Extend9(v: bv32, x: bv32)
    requires x == v & 0x0000_01FE
    ensures SignExtend(x, 0x0000_0100) == v & 0xFFFF_FFFE <==> Fits9(v)
  {
    if v & 0x0000_0100 == 0 {
      Plus9(v, x);
    } else {
      Minus9(v, x);
    }
  }

  lemma Overflow26(v: bv32)
    ensures BranchOverflow(v) <==> !Fits26(v)
  {
    Top26(v, Asr25(v));
  }

  lemma Top26(v: bv32, x: bv32)
    requires x == (v >> 25) | ((0 - (v >> 31)) << 7)
    ensures x == 0 || x == 0xFFFF_FFFF <==> v & 0xFE00_0000 == 0 || v & 0xFE00_0000 == 0xFE00_0000
  {
  }

  lemma Overflow25(v: bv32)
    ensures ThmBranchOverflow(v) <==> !Fits25(v)
  {
    Top25(v, Asr24(v));
  }

  lemma Top25(v: bv32, x: bv32)
    requires x == (v >> 24) | ((0 - (v >> 31)) << 8)
    ensures x == 0 || x == 0xFFFF_FFFF <==> v & 0xFF00_0000 == 0 || v & 0xFF00_0000 == 0xFF00_0000
  {
  }

  // ---------------------------------------------------------------- ARM branches

  /** The packed and masked value of CALL, PC24, THM_CALL and THM_JUMP24. */
  function PackedCall(v: bv32): bv32 {
    Asr1(v) & 0x01FF_FFFF
  }

  lemma PackedCallBits(v: bv32)
    ensures PackedCall(v) == (v >> 1) & 0x01FF_FFFF
  {
    Drop1(v, Asr1(v));
  }

  lemma BlxBits(m: bv32, v: bv32, x: bv32)
    requires IsBlx(m)
    requires x == (m & 0xFE00_0000) | ((((v >> 1) & 0x01FF_FFFF) & 1) << 24) | (((v >> 1) & 0x01FF_FFFF) >> 1)
    ensures IsBlx(x) && x & 0xFE00_0000 == m & 0xFE00_0000
    ensures (((x & 0xFF_FFFF) << 1) + ((x >> 24) & 1)) << 1 == v & 0x03FF_FFFE
  {
  }

  lemma BlxField(m: bv32, v: bv32, x: bv32)
    requires IsBlx(m) && x == WriteBranch(m, (v >> 1) & 0x01FF_FFFF)
    ensures BranchBits(x) == v & 0x03FF_FFFE && x & 0xFE00_0000 == m & 0xFE00_0000
  {
    BlxBits(m, v, x);
  }

  lemma BlBits(m: bv32, v: bv32, x: bv32)
    requires !IsBlx(m)
    requires x == (m & 0xFF00_0000) | (((v >> 1) & 0x01FF_FFFF) >> 1)
    ensures !IsBlx(x) && x & 0xFF00_0000 == m & 0xFF00_0000
    ensures (x & 0xFF_FFFF) << 2 == v & 0x03FF_FFFC
  {
  }

  lemma BlField(m: bv32, v: bv32, x: bv32)
    requires !IsBlx(m) && x == WriteBranch(m, (v >> 1) & 0x01FF_FFFF)
    ensures BranchBits(x) == v & 0x03FF_FFFC && x & 0xFF00_0000 == m & 0xFF00_0000
  {
    BlBits(m, v, x);
  }

  /**
    CALL and PC24 where the instruction, once converted for a Thumb callee, is a BLX: the value
    reads back, to the halfword, exactly when it does not overflow, and only imm24 and the H bit
    change.
   */
  lemma BlxReadsBack(m: bv32, v: bv32, x: bv32)
    requires IsBlx(m) && x == WriteBranch(m, PackedCall(v))
    ensures ReadBranch(x) == v & 0xFFFF_FFFE <==> !BranchOverflow(v)
    ensures x & 0xFE00_0000 == m & 0xFE00_0000
  {
    PackedCallBits(v);
    BlxField(m, v, x);
    Extend26Half(v, BranchBits(x));
    Overflow26(v);
  }

  /** Any other branch reads back to the word. */
  lemma BlReadsBack(m: bv32, v: bv32, x: bv32)
    requires !IsBlx(m) && x == WriteBranch(m, PackedCall(v))
    ensures ReadBranch(x) == v & 0xFFFF_FFFC <==> !BranchOverflow(v)
    ensures x & 0xFF00_0000 == m & 0xFF00_0000
  {
    PackedCallBits(v);
    BlField(m, v, x);
    Extend26Word(v, BranchBits(x));
    Overflow26(v);
  }

  lemma {:induction false} ThumbCalleeMakesBlx(w: bv32, symval: bv32)
    requires (w >> 25) & 7 == 5
    ensures IsThumb(symval) ==> IsBlx(Converted(w, symval))
    ensures !IsThumb(symval) ==> Converted(w, symval) == w
  {
    if IsThumb(symval) {
      ConvertedBits(w, Converted(w, symval));
    }
  }

  lemma ConvertedBits(w: bv32, x: bv32)
    requires (w >> 25) & 7 == 5 && x == w | 0xF000_0000
    ensures IsBlx(x)
  {
  }

  function PackedJump(v: bv32): bv32 {
    Asr2(v) & 0x00FF_FFFF
  }

  lemma JumpBits(w: bv32, v: bv32, x: bv32)
    requires x == (w & 0xFF00_0000) | ((v >> 2) & 0x00FF_FFFF)
    ensures x & 0xFF00_0000 == w & 0xFF00_0000 && (x >> 24) & 0xFF == (w >> 24) & 0xFF
    ensures (x & 0xFF_FFFF) << 2 == v & 0x03FF_FFFC
    ensures (((x & 0xFF_FFFF) << 1) + ((x >> 24) & 1)) << 1 == (v & 0x03FF_FFFC) | (((w >> 24) & 1) << 1)
  {
  }

  lemma SameTop(w: bv32, x: bv32)
    requires (x >> 24) & 0xFF == (w >> 24) & 0xFF
    ensures IsBlx(x) == IsBlx(w)
  {
  }

  lemma JumpField(w: bv32, v: bv32, x: bv32)
    requires !IsBlx(w) && x == WriteJump(w, (v >> 2) & 0x00FF_FFFF)
    ensures x & 0xFF00_0000 == w & 0xFF00_0000 && BranchBits(x) == v & 0x03FF_FFFC
  {
    JumpBits(w, v, x);
    SameTop(w, x);
  }

  lemma BlxJumpField(w: bv32, v: bv32, x: bv32)
    requires IsBlx(w) && x == WriteJump(w, (v >> 2) & 0x00FF_FFFF)
    ensures x & 0xFF00_0000 == w & 0xFF00_0000 && BranchBits(x) == (v & 0x03FF_FFFC) | (((w >> 24) & 1) << 1)
  {
    JumpBits(w, v, x);
    SameTop(w, x);
  }

  lemma HalfwordLeft(v: bv32, f: bv32)
    requires f == (v & 0x03FF_FFFC) | 2
    ensures SignExtend(f, 0x0200_0000) != v & 0xFFFF_FFFC
  {
  }

  lemma BitOff(w: bv32, v: bv32, f: bv32)
    requires (w >> 24) & 1 == 0 && f == (v & 0x03FF_FFFC) | (((w >> 24) & 1) << 1)
    ensures f == v & 0x03FF_FFFC
  {
  }

  lemma BitOn(w: bv32, v: bv32, f: bv32)
    requires (w >> 24) & 1 != 0 && f == (v & 0x03FF_FFFC) | (((w >> 24) & 1) << 1)
    ensures f == (v & 0x03FF_FFFC) | 2
  {
  }

  lemma PackedJumpBits(v: bv32)
    ensures PackedJump(v) == (v >> 2) & 0x00FF_FFFF
  {
    Drop2(v, Asr2(v));
  }

  /** JUMP24 in an instruction that is not a BLX. */
  lemma JumpReadsBack(w: bv32, v: bv32, x: bv32)
    requires !IsBlx(w) && x == WriteJump(w, PackedJump(v))
    ensures ReadBranch(x) == v & 0xFFFF_FFFC <==> !BranchOverflow(v)
  {
    PackedJumpBits(v);
    JumpField(w, v, x);
    Extend26Word(v, BranchBits(x));
    Overflow26(v);
  }

  lemma JumpInPlainBlx(w: bv32, v: bv32, x: bv32)
    requires IsBlx(w) && (w >> 24) & 1 == 0 && x == WriteJump(w, (v >> 2) & 0x00FF_FFFF)
    ensures ReadBranch(x) == v & 0xFFFF_FFFC <==> !BranchOverflow(v)
  {
    BlxJumpField(w, v, x);
    BitOff(w, v, BranchBits(x));
    Extend26Word(v, BranchBits(x));
    Overflow26(v);
  }

  lemma JumpInOddBlx(w: bv32, v: bv32, x: bv32)
    requires IsBlx(w) && (w >> 24) & 1 != 0 && x == WriteJump(w, (v >> 2) & 0x00FF_FFFF)
    ensures ReadBranch(x) != v & 0xFFFF_FFFC
  {
    BlxJumpField(w, v, x);
    BitOn(w, v, BranchBits(x));
    HalfwordLeft(v, BranchBits(x));
  }

  /**
    JUMP24 in a BLX: the reader, shared with CALL, adds the H bit, which JUMP24 never writes, so
    the value reads back exactly when it does not overflow and the instruction's H bit is clear.
   */
  lemma JumpInBlx(w: bv32, v: bv32, x: bv32)
    requires IsBlx(w) && x == WriteJump(w, PackedJump(v))
    ensures ReadBranch(x) == v & 0xFFFF_FFFC <==> !BranchOverflow(v) && (w >> 24) & 1 == 0
  {
    PackedJumpBits(v);
    if (w >> 24) & 1 == 0 {
      JumpInPlainBlx(w, v, x);
    } else {
      JumpInOddBlx(w, v, x);
    }
  }

  /** JUMP24 changes its 24 bits only. */
  lemma JumpKeeps(w: bv32, v: bv32, x: bv32)
    requires x == WriteJump(w, PackedJump(v))
    ensures x & 0xFF00_0000 == w & 0xFF00_0000
  {
    PackedJumpBits(v);
    JumpBits(w, v, x);
  }

  // ---------------------------------------------------------------- Thumb-2 branches

  lemma ThmBits(hi: bv16, lo: bv16, x: bv32, a: bv16, b: bv16)
    requires a == (hi & 0xF800) | ((((x >> 23) & 1) << 10) as bv16) | (((x >> 11) & 0x3FF) as bv16)
    requires b == (lo & 0xD000) | (((((x >> 22) ^ (1 ^ ((x >> 23) & 1))) & 1) << 13) as bv16)
                  | (((((x >> 21) ^ (1 ^ ((x >> 23) & 1))) & 1) << 11) as bv16) | ((x & 0x7FF) as bv16)
    ensures a & 0xF800 == hi & 0xF800 && b & 0xD000 == lo & 0xD000
    ensures ((((a as bv32 >> 10) & 1) << 23)
             | ((1 ^ (((b as bv32 >> 13) & 1) ^ ((a as bv32 >> 10) & 1))) << 22)
             | ((1 ^ (((b as bv32 >> 11) & 1) ^ ((a as bv32 >> 10) & 1))) << 21)
             | ((a as bv32 & 0x3FF) << 11) | (b as bv32 & 0x7FF)) << 1 == (x & 0xFF_FFFF) << 1
  {
  }

  lemma ThmField(hi: bv16, lo: bv16, x: bv32, a: bv16, b: bv16)
    requires a == ThmHigh(hi, x) && b == ThmLow(lo, x)
    ensures ThmBranchBits(a, b) == (x & 0xFF_FFFF) << 1
  {
    ThmBits(hi, lo, x, a, b);
  }

  /** Writing a Thumb-2 branch leaves the opcode bits alone. */
  lemma ThmBranchKeeps(hi: bv16, lo: bv16, x: bv32, a: bv16, b: bv16)
    requires Pair(a, b) == WriteThmBranch(Pair(hi, lo), x)
    ensures a & 0xF800 == hi & 0xF800 && b & 0xD000 == lo & 0xD000
  {
    ThmBits(hi, lo, x, a, b);
  }

  lemma Halved(v: bv32, x: bv32)
    requires x == (v >> 1) & 0x01FF_FFFF
    ensures (x & 0xFF_FFFF) << 1 == v & 0x01FF_FFFE
  {
  }

  /** THM_JUMP24, and THM_CALL of a Thumb function: reads back exactly when it does not overflow. */
  lemma ThmBranchReadsBack(p: Pair, v: bv32, q: Pair)
    requires q == WriteThmBranch(p, PackedCall(v))
    ensures ReadThmBranch(q) == v & 0xFFFF_FFFE <==> !ThmBranchOverflow(v)
  {
    PackedCallBits(v);
    ThmField(p.hi, p.lo, PackedCall(v), q.hi, q.lo);
    Halved(v, PackedCall(v));
    Extend25(v, ThmBranchBits(q.hi, q.lo));
    Overflow25(v);
  }

  /** The word offset that a BL to ARM code is rounded up to. */
  function RoundedUp(v: bv32): bv32 {
    (v & 0xFFFF_FFFE) + (v & 2)
  }

  lemma RoundedBits(v: bv32, r: bv32, u: bv32, f: bv32)
    requires r == (v >> 1) & 0x01FF_FFFF && u == (v & 0xFFFF_FFFE) + (v & 2) && f == ((r + (r & 1)) & 0xFF_FFFF) << 1
    ensures f == u & 0x01FF_FFFE
  {
  }

  lemma RoundedEven(v: bv32, u: bv32)
    requires u == (v & 0xFFFF_FFFE) + (v & 2)
    ensures u & 0xFFFF_FFFE == u
  {
  }

  lemma ToArmField(p: Pair, r: bv32, q: Pair)
    requires q == WriteThmCallToArm(p, r)
    ensures ThmBranchBits(q.hi, q.lo) == ((r + (r & 1)) & 0xFF_FFFF) << 1
  {
    ThmField(p.hi, p.lo & 0xEFFF, r + (r & 1), q.hi, q.lo);
  }

  lemma EvenReadsBack(q: Pair, u: bv32, f: bv32)
    requires f == ThmBranchBits(q.hi, q.lo) && u & 0xFFFF_FFFE == u && f == u & 0x01FF_FFFE
    ensures ReadThmBranch(q) == u <==> !ThmBranchOverflow(u)
  {
    Extend25(u, f);
    Overflow25(u);
  }

  lemma RoundedReadsBack(p: Pair, v: bv32, r: bv32, u: bv32, q: Pair, f: bv32)
    requires r == (v >> 1) & 0x01FF_FFFF && u == (v & 0xFFFF_FFFE) + (v & 2) && q == WriteThmCallToArm(p, r)
    requires f == ThmBranchBits(q.hi, q.lo) && f == ((r + (r & 1)) & 0xFF_FFFF) << 1
    ensures ReadThmBranch(q) == u <==> !ThmBranchOverflow(u)
  {
    RoundedBits(v, r, u, f);
    RoundedEven(v, u);
    EvenReadsBack(q, u, f);
  }

  lemma RoundedCall(p: Pair, v: bv32, r: bv32, u: bv32, q: Pair)
    requires r == (v >> 1) & 0x01FF_FFFF && u == (v & 0xFFFF_FFFE) + (v & 2) && q == WriteThmCallToArm(p, r)
    ensures ReadThmBranch(q) == u <==> !ThmBranchOverflow(u)
  {
    ToArmField(p, r, q);
    RoundedReadsBack(p, v, r, u, q, ThmBranchBits(q.hi, q.lo));
  }

  /**
    THM_CALL of ARM code: the offset, rounded up to a word, reads back exactly when the rounded
    offset does not overflow.  The code checks the offset before it is rounded.
   */
  lemma ThmCallToArmReadsBack(p: Pair, v: bv32, q: Pair)
    requires q == WriteThmCallToArm(p, PackedCall(v))
    ensures ReadThmBranch(q) == RoundedUp(v) <==> !ThmBranchOverflow(RoundedUp(v))
  {
    PackedCallBits(v);
    RoundedCall(p, v, PackedCall(v), RoundedUp(v), q);
  }

  /** So the largest offset passes the check and reads back as the most negative one. */
  lemma RoundingWraps(p: Pair, q: Pair)
    requires q == WriteThmCallToArm(p, PackedCall(0x00FF_FFFE))
    ensures !ThmBranchOverflow(0x00FF_FFFE) && ReadThmBranch(q) != RoundedUp(0x00FF_FFFE)
  {
    ThmCallToArmReadsBack(p, 0x00FF_FFFE, q);
    Overflow25(0x00FF_FFFE);
    Overflow25(RoundedUp(0x00FF_FFFE));
  }

  /** A BL to ARM code becomes a BLX: bit 12 of the second halfword is cleared. */
  lemma ThmCallToArmKeeps(hi: bv16, lo: bv16, x: bv32, a: bv16, b: bv16)
    requires Pair(a, b) == WriteThmCallToArm(Pair(hi, lo), x)
    ensures a & 0xF800 == hi & 0xF800 && b & 0xD000 == lo & 0xC000
  {
    ThmBranchKeeps(hi, lo & 0xEFFF, x + (x & 1), a, b);
    ClearedTwice(lo, b);
  }

  lemma ClearedTwice(lo: bv16, b: bv16)
    requires b & 0xD000 == (lo & 0xEFFF) & 0xD000
    ensures b & 0xD000 == lo & 0xC000
  {
  }

  // ---------------------------------------------------------------- signed 12-bit offsets

  lemma OffsetBits(w: bv32, v: bv32, a: bv32, x: bv32)
    requires x == (w & 0xFF7F_F000) | (a & 0xFFF) | ((1 ^ ((v >> 31) & 1)) << 23)
    ensures x & 0xFFF == a & 0xFFF && (x >> 23) & 1 == 1 ^ ((v >> 31) & 1)
    ensures x & 0xFF7F_F000 == w & 0xFF7F_F000
  {
  }

  lemma LowPart(a: bv32)
    ensures a & 0xFFF == a <==> a & 0xFFFF_F000 == 0
  {
  }

  lemma NegatedPart(v: bv32, a: bv32)
    requires a == 0 - v
    ensures 0 - (a & 0xFFF) == v <==> a & 0xFFF == a
  {
  }

  lemma OffsetUp(w: bv32, v: bv32, a: bv32, x: bv32)
    requires (v >> 31) & 1 == 0 && x == SetOffset(w, a, v)
    ensures ReadOffset(x) == a & 0xFFF
  {
    OffsetBits(w, v, a, x);
  }

  lemma OffsetDown(w: bv32, v: bv32, a: bv32, x: bv32)
    requires (v >> 31) & 1 == 1 && x == SetOffset(w, a, v)
    ensures ReadOffset(x) == 0 - (a & 0xFFF)
  {
    OffsetBits(w, v, a, x);
  }

  lemma UpReadsBack(w: bv32, v: bv32, a: bv32, x: bv32)
    requires !Negative(v) && a == v && x == SetOffset(w, a, v)
    ensures ReadOffset(x) == v <==> a & 0xFFFF_F000 == 0
  {
    OffsetUp(w, v, a, x);
    LowPart(a);
  }

  lemma DownReadsBack(w: bv32, v: bv32, a: bv32, x: bv32)
    requires Negative(v) && a == 0 - v && x == SetOffset(w, a, v)
    ensures ReadOffset(x) == v <==> a & 0xFFFF_F000 == 0
  {
    OffsetDown(w, v, a, x);
    NegatedPart(v, a);
    LowPart(a);
  }

  /** What abs() gives: a is v or its negation. */
  predicate Magnitude(v: bv32, a: bv32) {
    if Negative(v) then a == 0 - v else a == v
  }

  lemma AbsIsMagnitude(v: bv32)
    ensures Magnitude(v, Abs(v))
  {
  }

  /** ABS12 reads back exactly when the magnitude `a` fits 12 bits. */
  lemma OffsetReadsBack(w: bv32, v: bv32, a: bv32, x: bv32)
    requires Magnitude(v, a) && x == SetOffset(w, a, v)
    ensures ReadOffset(x) == v <==> a & 0xFFFF_F000 == 0
  {
    if Negative(v) {
      DownReadsBack(w, v, a, x);
    } else {
      UpReadsBack(w, v, a, x);
    }
  }

  /** Writing the offset changes the U bit and the low 12 bits only. */
  lemma OffsetKeeps(w: bv32, v: bv32, a: bv32, x: bv32)
    requires x == SetOffset(w, a, v)
    ensures x & 0xFF7F_F000 == w & 0xFF7F_F000
  {
    OffsetBits(w, v, a, x);
  }

  lemma Large(a: bv32)
    requires (a >> 31) & 1 == 0
    ensures a >= 0x1000 <==> a & 0xFFFF_F000 != 0
  {
  }

  lemma MostNegative(v: bv32, a: bv32)
    requires (v >> 31) & 1 == 1 && a == 0 - v
    ensures (a >> 31) & 1 == 1 <==> v == 0x8000_0000
  {
  }

  lemma StillNegative(a: bv32)
    requires (a >> 31) & 1 == 1
    ensures a & 0xFFFF_F000 != 0
  {
  }

  lemma FitsOrNegative(a: bv32)
    ensures a & 0xFFFF_F000 == 0 <==> !Negative(a) && !(a >= 0x1000)
  {
    if Negative(a) {
      StillNegative(a);
    } else {
      Large(a);
    }
  }

  /** The overflow test is right about every value but the most negative one, which it lets pass. */
  lemma OffsetOverflowExact(v: bv32)
    ensures Abs(v) & 0xFFFF_F000 == 0 <==> !OffsetOverflow(v) && v != 0x8000_0000
    ensures !OffsetOverflow(0x8000_0000)
  {
    FitsOrNegative(Abs(v));
    AbsIsMagnitude(v);
    if Negative(v) {
      MostNegative(v, Abs(v));
    }
  }

  lemma ThmUpBits(hi: bv16, lo: bv16, v: bv32, a: bv32, x: bv16, y: bv16)
    requires (v >> 31) & 1 == 0
    requires x == (hi & 0xFF7F) | (((1 ^ ((v >> 31) & 1)) << 7) as bv16) && y == (lo & 0xF000) | ((a & 0xFFF) as bv16)
    ensures (x >> 7) & 1 == 1 && (y as bv32) & 0xFFF == a & 0xFFF
  {
  }

  lemma ThmDownBits(hi: bv16, lo: bv16, v: bv32, a: bv32, x: bv16, y: bv16)
    requires (v >> 31) & 1 == 1
    requires x == (hi & 0xFF7F) | (((1 ^ ((v >> 31) & 1)) << 7) as bv16) && y == (lo & 0xF000) | ((a & 0xFFF) as bv16)
    ensures (x >> 7) & 1 == 0 && (y as bv32) & 0xFFF == a & 0xFFF
  {
  }

  lemma ThmUp(hi: bv16, lo: bv16, v: bv32, a: bv32, q: Pair)
    requires (v >> 31) & 1 == 0 && q.hi == ThmOffsetHigh(hi, v) && q.lo == ThmOffsetLow(lo, a)
    ensures ReadThmOffset(q) == a & 0xFFF
  {
    ThmUpBits(hi, lo, v, a, q.hi, q.lo);
  }

  lemma ThmDown(hi: bv16, lo: bv16, v: bv32, a: bv32, q: Pair)
    requires (v >> 31) & 1 == 1 && q.hi == ThmOffsetHigh(hi, v) && q.lo == ThmOffsetLow(lo, a)
    ensures ReadThmOffset(q) == 0 - (a & 0xFFF)
  {
    ThmDownBits(hi, lo, v, a, q.hi, q.lo);
  }

  lemma ThmUpReadsBack(hi: bv16, lo: bv16, v: bv32, a: bv32, q: Pair)
    requires !Negative(v) && a == v && q.hi == ThmOffsetHigh(hi, v) && q.lo == ThmOffsetLow(lo, a)
    ensures ReadThmOffset(q) == v <==> a & 0xFFFF_F000 == 0
  {
    ThmUp(hi, lo, v, a, q);
    LowPart(a);
  }

  lemma ThmDownReadsBack(hi: bv16, lo: bv16, v: bv32, a: bv32, q: Pair)
    requires Negative(v) && a == 0 - v && q.hi == ThmOffsetHigh(hi, v) && q.lo == ThmOffsetLow(lo, a)
    ensures ReadThmOffset(q) == v <==> a & 0xFFFF_F000 == 0
  {
    ThmDown(hi, lo, v, a, q);
    NegatedPart(v, a);
    LowPart(a);
  }

  /** THM_PC12 reads back exactly when the magnitude `a` fits 12 bits. */
  lemma ThmOffsetReadsBack(hi: bv16, lo: bv16, v: bv32, a: bv32, q: Pair)
    requires Magnitude(v, a) && q.hi == ThmOffsetHigh(hi, v) && q.lo == ThmOffsetLow(lo, a)
    ensures ReadThmOffset(q) == v <==> a & 0xFFFF_F000 == 0
  {
    if Negative(v) {
      ThmDownReadsBack(hi, lo, v, a, q);
    } else {
      ThmUpReadsBack(hi, lo, v, a, q);
    }
  }

  lemma AbsOfLeast()
    ensures Abs(0x8000_0000) == 0x8000_0000 && Magnitude(0x8000_0000, 0x8000_0000)
  {
  }

  /** ABS12: the most negative value passes the test and does not read back. */
  lemma LeastPasses(w: bv32, x: bv32)
    requires x == SetOffset(w, 0x8000_0000, 0x8000_0000)
    ensures !OffsetOverflow(0x8000_0000) && WriteOffset(w, 0x8000_0000) == x
    ensures ReadOffset(x) != 0x8000_0000
  {
    AbsOfLeast();
    OffsetReadsBack(w, 0x8000_0000, 0x8000_0000, x);
  }

  /** And so in THM_PC12. */
  lemma ThmLeastPasses(p: Pair, q: Pair)
    requires q == Pair(ThmOffsetHigh(p.hi, 0x8000_0000), ThmOffsetLow(p.lo, 0x8000_0000))
    ensures WriteThmOffset(p, 0x8000_0000) == q && ReadThmOffset(q) != 0x8000_0000
  {
    AbsOfLeast();
    ThmOffsetReadsBack(p.hi, p.lo, 0x8000_0000, 0x8000_0000, q);
  }

  lemma ThmOffsetKeeps(hi: bv16, lo: bv16, v: bv32, a: bv32, x: bv16, y: bv16)
    requires x == ThmOffsetHigh(hi, v) && y == ThmOffsetLow(lo, a)
    ensures x & 0xFF7F == hi & 0xFF7F && y & 0xF000 == lo & 0xF000
  {
  }

  // ---------------------------------------------------------------- MOVW and MOVT

  lemma MovHalves(w: bv32, g: bv32, x: bv32)
    requires x == (w & 0xFFF0_F000) | ((g & 0xFFFF) & 0xFFF) | ((((g & 0xFFFF) >> 12) & 0xFF) << 16)
    ensures (((x >> 16) & 0xF) << 12) | (x & 0xFFF) == g & 0xFFFF
  {
  }

  lemma Plus16(g: bv32, f: bv32)
    requires g & 0x8000 == 0 && f == g & 0xFFFF
    ensures SignExtend(f, 0x8000) == f
  {
  }

  lemma Minus16(g: bv32, f: bv32)
    requires g & 0x8000 != 0 && f == g & 0xFFFF
    ensures SignExtend(f, 0x8000) == f | 0xFFFF_8000
  {
  }

  lemma Minus16Low(g: bv32, f: bv32)
    requires g & 0x8000 != 0 && f == g & 0xFFFF
    ensures (f | 0xFFFF_8000) & 0xFFFF == g & 0xFFFF
  {
  }

  lemma Extend16(g: bv32, f: bv32)
    requires f == g & 0xFFFF
    ensures SignExtend(f, 0x8000) & 0xFFFF == g & 0xFFFF
  {
    if g & 0x8000 == 0 {
      Plus16(g, f);
    } else {
      Minus16(g, f);
      Minus16Low(g, f);
    }
  }

  lemma MovField(w: bv32, g: bv32, x: bv32)
    requires x == WriteMov(w, g & 0xFFFF)
    ensures MovBits(x) == g & 0xFFFF
  {
    MovHalves(w, g, x);
  }

  /** MOVW and MOVT read back the sign-extended half that was written. */
  lemma MovReadsBack(w: bv32, g: bv32, x: bv32)
    requires x == WriteMov(w, g & 0xFFFF)
    ensures ReadMov(x) == SignExtend(g & 0xFFFF, 0x8000)
  {
    MovField(w, g, x);
  }

  lemma ThmMovHalves(hi: bv16, lo: bv16, g: bv32, a: bv16, b: bv16)
    requires a == (hi & 0xFBF0) | (((((g & 0xFFFF) >> 11) & 1) << 10) as bv16) | ((((g & 0xFFFF) >> 12) & 0xF) as bv16)
    requires b == (lo & 0x8F00) | (((((g & 0xFFFF) >> 8) & 7) << 12) as bv16) | (((g & 0xFFFF) & 0xFF) as bv16)
    ensures ((a as bv32 & 0xF) << 12) | (((a as bv32 >> 10) & 1) << 11) | (((b as bv32 >> 12) & 7) << 8) | (b as bv32 & 0xFF)
            == g & 0xFFFF
  {
  }

  lemma ThmMovField(hi: bv16, lo: bv16, g: bv32, a: bv16, b: bv16)
    requires a == ThmMovHigh(hi, g & 0xFFFF) && b == ThmMovLow(lo, g & 0xFFFF)
    ensures ThmMovBits(a, b) == g & 0xFFFF
  {
    ThmMovHalves(hi, lo, g, a, b);
  }

  lemma ThmMovReadsBack(hi: bv16, lo: bv16, g: bv32, q: Pair)
    requires q.hi == ThmMovHigh(hi, g & 0xFFFF) && q.lo == ThmMovLow(lo, g & 0xFFFF)
    ensures ReadThmMov(q) == SignExtend(g & 0xFFFF, 0x8000)
  {
    ThmMovField(hi, lo, g, q.hi, q.lo);
  }

  lemma MovKeeps(w: bv32, r: bv32, x: bv32)
    requires x == WriteMov(w, r) && r & 0xFFFF == r
    ensures x & 0xFFF0_F000 == w & 0xFFF0_F000
  {
    MovMask(w, r, x);
  }

  lemma MovMask(w: bv32, r: bv32, x: bv32)
    requires x == (w & 0xFFF0_F000) | (r & 0xFFF) | (((r >> 12) & 0xFF) << 16)
    requires r & 0xFFFF == r
    ensures x & 0xFFF0_F000 == w & 0xFFF0_F000
  {
  }

  lemma ThmMovKeeps(hi: bv16, lo: bv16, r: bv32, a: bv16, b: bv16)
    requires a == ThmMovHigh(hi, r) && b == ThmMovLow(lo, r)
    ensures a & 0xFBF0 == hi & 0xFBF0 && b & 0x8F00 == lo & 0x8F00
  {
  }

  lemma Halves(v: bv32, g: bv32, l: bv32, h: bv32)
    requires g == (v >> 16) | ((0 - (v >> 31)) << 16) && l & 0xFFFF == v & 0xFFFF && h & 0xFFFF == g & 0xFFFF
    ensures (h << 16) | (l & 0xFFFF) == v
  {
  }

  lemma ExtendedLow(g: bv32, l: bv32)
    requires l == SignExtend(g & 0xFFFF, 0x8000)
    ensures l & 0xFFFF == g & 0xFFFF
  {
    Extend16(g, g & 0xFFFF);
  }

  lemma ExtendedHalves(v: bv32, g: bv32, l: bv32, h: bv32)
    requires g == (v >> 16) | ((0 - (v >> 31)) << 16)
    requires l == SignExtend(v & 0xFFFF, 0x8000) && h == SignExtend(g & 0xFFFF, 0x8000)
    ensures (h << 16) | (l & 0xFFFF) == v
  {
    ExtendedLow(v, l);
    ExtendedLow(g, h);
    Halves(v, g, l, h);
  }

  /**
    A MOVW and a MOVT together carry the whole value: each reads back its half, and the halves
    make up any value, whatever the two instructions were before.
   */
  lemma MovPairReadsBack(v: bv32, g: bv32, w: bv32, t: bv32, x: bv32, y: bv32)
    requires g == Asr16(v) && x == WriteMov(w, v & 0xFFFF) && y == WriteMov(t, g & 0xFFFF)
    ensures (ReadMov(y) << 16) | (ReadMov(x) & 0xFFFF) == v
  {
    MovReadsBack(w, v, x);
    MovReadsBack(t, g, y);
    ExtendedHalves(v, g, ReadMov(x), ReadMov(y));
  }

  /** The same for the Thumb-2 forms. */
  lemma ThmMovPairReadsBack(v: bv32, g: bv32, p: Pair, t: Pair, x: Pair, y: Pair)
    requires g == Asr16(v) && x == WriteThmMov(p, v & 0xFFFF) && y == WriteThmMov(t, g & 0xFFFF)
    ensures (ReadThmMov(y) << 16) | (ReadThmMov(x) & 0xFFFF) == v
  {
    ThmMovReadsBack(p.hi, p.lo, v, x);
    ThmMovReadsBack(t.hi, t.lo, g, y);
    ExtendedHalves(v, g, ReadThmMov(x), ReadThmMov(y));
  }

  // ---------------------------------------------------------------- 16-bit Thumb

  lemma Jump11Bits(h: bv16, v: bv32, r: bv32, x: bv16)
    requires r == (v >> 1) & 0x7FF && x == (h & 0xF800) | ((r & 0xFFFF) as bv16)
    ensures (x as bv32 & 0x7FF) << 1 == v & 0x0000_0FFE
  {
  }

  lemma Jump11Field(h: bv16, v: bv32, r: bv32, x: bv16, f: bv32)
    requires r == (v >> 1) & 0x7FF && x == WriteJump11(h, r) && f == (x as bv32 & 0x7FF) << 1
    ensures SignExtend(f, 0x0000_0800) == v & 0xFFFF_FFFE <==> Fits12(v)
  {
    Jump11Bits(h, v, r, x);
    Extend12(v, f);
  }

  lemma PackedJump11(v: bv32)
    ensures Asr1(v) & 0x7FF == (v >> 1) & 0x7FF
  {
    Drop1(v, Asr1(v));
  }

  /** THM_JUMP11, which has no overflow test, reads back exactly the values in [-2^11, 2^11). */
  lemma Jump11ReadsBack(h: bv16, v: bv32, x: bv16)
    requires x == WriteJump11(h, Asr1(v) & 0x7FF)
    ensures ReadJump11(x) == v & 0xFFFF_FFFE <==> Fits12(v)
  {
    PackedJump11(v);
    Jump11Field(h, v, Asr1(v) & 0x7FF, x, (x as bv32 & 0x7FF) << 1);
  }

  lemma Jump8Bits(h: bv16, v: bv32, r: bv32, x: bv16)
    requires r == (v >> 1) & 0xFF && x == (h & 0xFF00) | ((r & 0xFFFF) as bv16)
    ensures (x as bv32 & 0xFF) << 1 == v & 0x0000_01FE
  {
  }

  lemma Jump8Field(h: bv16, v: bv32, r: bv32, x: bv16, f: bv32)
    requires r == (v >> 1) & 0xFF && x == WriteByte(h, r) && f == (x as bv32 & 0xFF) << 1
    ensures SignExtend(f, 0x0000_0100) == v & 0xFFFF_FFFE <==> Fits9(v)
  {
    Jump8Bits(h, v, r, x);
    Extend9(v, f);
  }

  /** THM_JUMP8 reads back exactly the values in [-2^8, 2^8). */
  lemma Jump8ReadsBack(h: bv16, v: bv32, x: bv16)
    requires x == WriteByte(h, Asr1(v) & 0xFF)
    ensures ReadJump8(x) == v & 0xFFFF_FFFE <==> Fits9(v)
  {
    Drop1(v, Asr1(v));
    Jump8Field(h, v, Asr1(v) & 0xFF, x, (x as bv32 & 0xFF) << 1);
  }

  lemma Abs5Bits(h: bv16, v: bv32, r: bv32, x: bv16)
    requires r == (v >> 2) & 0x1F && x == (h & 0xF83F) | (((r << 6) & 0xFFFF) as bv16)
    ensures ((x as bv32 >> 6) & 0x1F) << 2 == v & 0x7C
  {
  }

  lemma Unsigned7(v: bv32)
    ensures v & 0x7C == v & 0xFFFF_FFFC <==> v & 0xFFFF_FF80 == 0
  {
  }

  /** THM_ABS5 reads back exactly the values in [0, 2^7). */
  lemma Abs5ReadsBack(h: bv16, v: bv32, x: bv16)
    requires x == WriteAbs5(h, Asr2(v) & 0x1F)
    ensures ReadAbs5(x) == v & 0xFFFF_FFFC <==> v & 0xFFFF_FF80 == 0
  {
    Drop2(v, Asr2(v));
    Abs5Bits(h, v, Asr2(v) & 0x1F, x);
    Unsigned7(v);
  }

  lemma Pc8Bits(h: bv16, v: bv32, r: bv32, x: bv16)
    requires r == (v >> 2) & 0xFF && x == (h & 0xFF00) | ((r & 0xFFFF) as bv16)
    ensures (x as bv32 & 0xFF) << 2 == v & 0x3FC
  {
  }

  lemma Biased10(v: bv32, f: bv32, z: bv32)
    requires f == v & 0x3FC && z == (v & 0xFFFF_FFFC) + 4
    ensures (f + 4) & 0x3FF == z & 0x3FF
  {
  }

  lemma Unbiased10(v: bv32, y: bv32, z: bv32, t: bv32)
    requires y == v & 0xFFFF_FFFC && z == (v & 0xFFFF_FFFC) + 4 && t == (z & 0x3FF) - 4
    ensures t == y <==> z & 0xFFFF_FC00 == 0
  {
  }

  lemma Pc8Field(h: bv16, v: bv32, r: bv32, x: bv16, z: bv32)
    requires r == (v >> 2) & 0xFF && x == WriteByte(h, r) && z == (v & 0xFFFF_FFFC) + 4
    ensures ReadPc8(x) == (z & 0x3FF) - 4
  {
    Pc8Bits(h, v, r, x);
    Biased10(v, (x as bv32 & 0xFF) << 2, z);
  }

  /** THM_PC8 reads back the value y = v without its low bits exactly if y lies in [-4, 1020). */
  lemma Pc8ReadsBack(h: bv16, v: bv32, y: bv32, z: bv32, x: bv16)
    requires y == v & 0xFFFF_FFFC && z == (v & 0xFFFF_FFFC) + 4 && x == WriteByte(h, Asr2(v) & 0xFF)
    ensures ReadPc8(x) == y <==> z & 0xFFFF_FC00 == 0
  {
    Drop2(v, Asr2(v));
    Pc8Field(h, v, Asr2(v) & 0xFF, x, z);
    Unbiased10(v, y, z, ReadPc8(x));
  }

  lemma Jump6Bits(h: bv16, v: bv32, r: bv32, x: bv16)
    requires r == (v >> 1) & 0x3F && x == (h & 0xFD07) | ((((r >> 5) & 1) << 9) as bv16) | (((r & 0x1F) << 3) as bv16)
    ensures (((((x as bv32) >> 9) & 1) << 5) | (((x as bv32) >> 3) & 0x1F)) << 1 == v & 0x7E
  {
  }

  lemma Biased7(v: bv32, f: bv32, z: bv32)
    requires f == v & 0x7E && z == (v & 0xFFFF_FFFE) + 4
    ensures (f + 4) & 0x7F == z & 0x7F
  {
  }

  lemma Unbiased7(v: bv32, y: bv32, z: bv32, t: bv32)
    requires y == v & 0xFFFF_FFFE && z == (v & 0xFFFF_FFFE) + 4 && t == (z & 0x7F) - 4
    ensures t == y <==> z & 0xFFFF_FF80 == 0
  {
  }

  lemma Jump6Field(h: bv16, v: bv32, r: bv32, x: bv16, z: bv32)
    requires r == (v >> 1) & 0x3F && x == WriteJump6(h, r) && z == (v & 0xFFFF_FFFE) + 4
    ensures ReadJump6(x) == (z & 0x7F) - 4
  {
    Jump6Bits(h, v, r, x);
    Biased7(v, (((((x as bv32) >> 9) & 1) << 5) | (((x as bv32) >> 3) & 0x1F)) << 1, z);
  }

  /** THM_JUMP6 reads back the value y = v without its low bit exactly if y lies in [-4, 124). */
  lemma Jump6ReadsBack(h: bv16, v: bv32, y: bv32, z: bv32, x: bv16)
    requires y == v & 0xFFFF_FFFE && z == (v & 0xFFFF_FFFE) + 4 && x == WriteJump6(h, Asr1(v) & 0x3F)
    ensures ReadJump6(x) == y <==> z & 0xFFFF_FF80 == 0
  {
    Drop1(v, Asr1(v));
    Jump6Field(h, v, Asr1(v) & 0x3F, x, z);
    Unbiased7(v, y, z, ReadJump6(x));
  }

  /** The 16-bit forms change their fields only. */
  lemma HalvesKeep(h: bv16, r: bv32)
    ensures r & 0x7FF == r ==> WriteJump11(h, r) & 0xF800 == h & 0xF800
    ensures r & 0xFF == r ==> WriteByte(h, r) & 0xFF00 == h & 0xFF00
    ensures r & 0x1F == r ==> WriteAbs5(h, r) & 0xF83F == h & 0xF83F
    ensures WriteJump6(h, r) & 0xFD07 == h & 0xFD07
  {
  }
}
