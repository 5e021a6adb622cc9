/**
  Instruction fields of ARM relocations (src/utils/elfload/arm_reloc.c): the packed value, what
  write_reloc_r makes of an instruction, and what rel_unpack_addend reads back.
  Values are the code's 32-bit patterns; a pattern with its top bit set is a negative int32_t.
 */
module ArmFields {

  /** The two halfwords of a Thumb-2 instruction, in the order of their addresses. */
  datatype Pair = Pair(hi: bv16, lo: bv16)

  predicate Negative(v: bv32) {
    (v >> 31) & 1 == 1
  }

  /** abs() of an int32_t, which leaves the most negative value as it is. */
  function Abs(v: bv32): bv32 {
    if Negative(v) then 0 - v else v
  }

  /** SIGN_EXTEND for the field whose highest bit is `sign`. */
  function SignExtend(x: bv32, sign: bv32): bv32 {
    if x & sign != 0 then x | (0 - sign) else x
  }

  predicate IsBlx(w: bv32) {
    (w >> 24) & 0xFE == 0xFA
  }

  /** OPND_T */
  predicate IsThumb(symval: bv32) {
    symval & 1 == 1
  }

  // ---------------------------------------------------------------- pack_result

  // Arithmetic shifts: copies of the sign bit come in at the top.

  function Asr1(v: bv32): bv32 {
    (v >> 1) | ((0 - (v >> 31)) << 31)
  }

  function Asr2(v: bv32): bv32 {
    (v >> 2) | ((0 - (v >> 31)) << 30)
  }

  function Asr16(v: bv32): bv32 {
    (v >> 16) | ((0 - (v >> 31)) << 16)
  }

  function Asr24(v: bv32): bv32 {
    (v >> 24) | ((0 - (v >> 31)) << 8)
  }

  function Asr25(v: bv32): bv32 {
    (v >> 25) | ((0 - (v >> 31)) << 7)
  }

  // ---------------------------------------------------------------- rel_overflow

  /** CALL, PC24, JUMP24 */
  predicate BranchOverflow(v: bv32) {
    Asr25(v) != 0 && Asr25(v) != 0xFFFF_FFFF
  }

  /** THM_CALL, THM_JUMP24 */
  predicate ThmBranchOverflow(v: bv32) {
    Asr24(v) != 0 && Asr24(v) != 0xFFFF_FFFF
  }

  /** ABS12, THM_PC12: a comparison of int32_t values. */
  predicate OffsetOverflow(v: bv32) {
    !Negative(Abs(v)) && Abs(v) >= 0x1000
  }

  // ---------------------------------------------------------------- write_reloc_r, ARM

  /** The instruction once a Thumb callee has turned its condition into "unconditional". */
  function Converted(w: bv32, symval: bv32): bv32 {
    if IsThumb(symval) then w | 0xF000_0000 else w
  }

  /** BL and BLX: imm24 is replaced, and in a BLX the H bit becomes the lowest packed bit. */
  function WriteBranch(w: bv32, r: bv32): bv32 {
    if IsBlx(w) then (w & 0xFE00_0000) | ((r & 1) << 24) | (r >> 1)
    else (w & 0xFF00_0000) | (r >> 1)
  }

  function WriteJump(w: bv32, r: bv32): bv32 {
    (w & 0xFF00_0000) | r
  }

  /** The magnitude a and, from the sign of r, the U bit. */
  function SetOffset(w: bv32, a: bv32, r: bv32): bv32 {
    (w & 0xFF7F_F000) | (a & 0xFFF) | ((1 ^ ((r >> 31) & 1)) << 23)
  }

  function WriteOffset(w: bv32, r: bv32): bv32 {
    SetOffset(w, Abs(r), r)
  }

  function WriteMov(w: bv32, r: bv32): bv32 {
    (w & 0xFFF0_F000) | (r & 0xFFF) | (((r >> 12) & 0xFF) << 16)
  }

  // ---------------------------------------------------------------- write_reloc_r, Thumb-2

  /** S and imm10 of a branch. */
  function ThmHigh(hi: bv16, x: bv32): bv16 {
    (hi & 0xF800) | ((((x >> 23) & 1) << 10) as bv16) | (((x >> 11) & 0x3FF) as bv16)
  }

  /** J1, J2 and imm11 of a branch: a J bit is the offset's bit, inverted unless S is set. */
  function ThmLow(lo: bv16, x: bv32): bv16 {
    (lo & 0xD000)
    | (((((x >> 22) ^ (1 ^ ((x >> 23) & 1))) & 1) << 13) as bv16)
    | (((((x >> 21) ^ (1 ^ ((x >> 23) & 1))) & 1) << 11) as bv16)
    | ((x & 0x7FF) as bv16)
  }

  function WriteThmBranch(p: Pair, x: bv32): Pair {
    Pair(ThmHigh(p.hi, x), ThmLow(p.lo, x))
  }

  /** A BL to ARM code becomes a BLX, and its offset is rounded up to a whole word. */
  function WriteThmCallToArm(p: Pair, r: bv32): Pair {
    WriteThmBranch(Pair(p.hi, p.lo & 0xEFFF), r + (r & 1))
  }

  function ThmOffsetHigh(hi: bv16, r: bv32): bv16 {
    (hi & 0xFF7F) | (((1 ^ ((r >> 31) & 1)) << 7) as bv16)
  }

  function ThmOffsetLow(lo: bv16, a: bv32): bv16 {
    (lo & 0xF000) | ((a & 0xFFF) as bv16)
  }

  function WriteThmOffset(p: Pair, r: bv32): Pair {
    Pair(ThmOffsetHigh(p.hi, r), ThmOffsetLow(p.lo, Abs(r)))
  }

  function ThmMovHigh(hi: bv16, r: bv32): bv16 {
    (hi & 0xFBF0) | ((((r >> 11) & 1) << 10) as bv16) | (((r >> 12) & 0xF) as bv16)
  }

  function ThmMovLow(lo: bv16, r: bv32): bv16 {
    (lo & 0x8F00) | ((((r >> 8) & 7) << 12) as bv16) | ((r & 0xFF) as bv16)
  }

  function WriteThmMov(p: Pair, r: bv32): Pair {
    Pair(ThmMovHigh(p.hi, r), ThmMovLow(p.lo, r))
  }

  // ---------------------------------------------------------------- write_reloc_r, Thumb

  function WriteJump11(h: bv16, r: bv32): bv16 {
    (h & 0xF800) | ((r & 0xFFFF) as bv16)
  }

  /** THM_JUMP8 and THM_PC8 */
  function WriteByte(h: bv16, r: bv32): bv16 {
    (h & 0xFF00) | ((r & 0xFFFF) as bv16)
  }

  function WriteAbs5(h: bv16, r: bv32): bv16 {
    (h & 0xF83F) | (((r << 6) & 0xFFFF) as bv16)
  }

  function WriteJump6(h: bv16, r: bv32): bv16 {
    (h & 0xFD07) | ((((r >> 5) & 1) << 9) as bv16) | (((r & 0x1F) << 3) as bv16)
  }

  // ---------------------------------------------------------------- rel_unpack_addend

  /** The offset of an ARM branch before its sign is extended. */
  function BranchBits(w: bv32): bv32 {
    if IsBlx(w) then (((w & 0xFF_FFFF) << 1) + ((w >> 24) & 1)) << 1 else (w & 0xFF_FFFF) << 2
  }

  /** CALL, PC24 and JUMP24 share one case. */
  function ReadBranch(w: bv32): bv32 {
    SignExtend(BranchBits(w), 0x0200_0000)
  }

  function ReadOffset(w: bv32): bv32 {
    if (w >> 23) & 1 == 1 then w & 0xFFF else 0 - (w & 0xFFF)
  }

  function MovBits(w: bv32): bv32 {
    (((w >> 16) & 0xF) << 12) | (w & 0xFFF)
  }

  function ReadMov(w: bv32): bv32 {
    SignExtend(MovBits(w), 0x8000)
  }

  /** S:I1:I2:imm10:imm11:0 */
  function ThmBranchBits(hi: bv16, lo: bv16): bv32 {
    ((((hi as bv32 >> 10) & 1) << 23)
     | ((1 ^ (((lo as bv32 >> 13) & 1) ^ ((hi as bv32 >> 10) & 1))) << 22)
     | ((1 ^ (((lo as bv32 >> 11) & 1) ^ ((hi as bv32 >> 10) & 1))) << 21)
     | ((hi as bv32 & 0x3FF) << 11) | (lo as bv32 & 0x7FF)) << 1
  }

  function ReadThmBranch(p: Pair): bv32 {
    SignExtend(ThmBranchBits(p.hi, p.lo), 0x0100_0000)
  }

  function ThmOffsetBits(hi: bv16, lo: bv16): bv32 {
    if (hi >> 7) & 1 == 1 then (lo as bv32) & 0xFFF else 0 - ((lo as bv32) & 0xFFF)
  }

  function ReadThmOffset(p: Pair): bv32 {
    ThmOffsetBits(p.hi, p.lo)
  }

  function ThmMovBits(hi: bv16, lo: bv16): bv32 {
    ((hi as bv32 & 0xF) << 12) | (((hi as bv32 >> 10) & 1) << 11) | (((lo as bv32 >> 12) & 7) << 8) | (lo as bv32 & 0xFF)
  }

  function ReadThmMov(p: Pair): bv32 {
    SignExtend(ThmMovBits(p.hi, p.lo), 0x8000)
  }

  function ReadJump11(h: bv16): bv32 {
    SignExtend(((h as bv32) & 0x7FF) << 1, 0x800)
  }

  function ReadJump8(h: bv16): bv32 {
    SignExtend(((h as bv32) & 0xFF) << 1, 0x100)
  }

  function ReadPc8(h: bv16): bv32 {
    (((((h as bv32) & 0xFF) << 2) + 4) & 0x3FF) - 4
  }

  function ReadAbs5(h: bv16): bv32 {
    (((h as bv32) >> 6) & 0x1F) << 2
  }

  function ReadJump6(h: bv16): bv32 {
    ((((((((h as bv32) >> 9) & 1) << 5) | (((h as bv32) >> 3) & 0x1F)) << 1) + 4) & 0x7F) - 4
  }
}
