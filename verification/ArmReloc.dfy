/**
  reloc_do, write_reloc_r and rel_unpack_addend of src/utils/elfload/arm_reloc.c on a code image in
  memory: little-endian halfwords that are changed in place.
 */
module ArmReloc {
  import opened ArmFields
  import R = ArmRoundTrip

  datatype Type =
    | Call | Pc24 | Jump24 | Abs12 | Movw | Movt
    | ThmCall | ThmJump24 | ThmPc12 | ThmMovw | ThmMovt
    | ThmJump11 | ThmJump8 | ThmJump6 | ThmAbs5 | ThmPc8

  predicate IsArm(t: Type) {
    t == Call || t == Pc24 || t == Jump24 || t == Abs12 || t == Movw || t == Movt
  }

  predicate IsPair(t: Type) {
    t == ThmCall || t == ThmJump24 || t == ThmPc12 || t == ThmMovw || t == ThmMovt
  }

  /** The ARM word made of two halfwords. */
  function Word(lo: bv16, hi: bv16): bv32 {
    (hi as bv32 << 16) | lo as bv32
  }

  // ---------------------------------------------------------------- what each step must do

  /**
    What pack_result and mask_result keep of a value: its quotient by 2, 4 or 2^16, modulo the size
    of the field.  As two's complement drops what the modulus drops, the unsigned quotient will do.
   */
  predicate Packed(t: Type, v: bv32, r: bv32) {
    match t
    case Call | Pc24 | ThmCall | ThmJump24 => r == v / 2 % 0x0200_0000
    case Jump24 => r == v / 4 % 0x0100_0000
    case Movw | ThmMovw => r == v % 0x1_0000
    case Movt | ThmMovt => r == v / 0x1_0000 % 0x1_0000
    case Abs12 | ThmPc12 => r == v
    case ThmJump11 => r == v / 2 % 0x800
    case ThmJump8 => r == v / 2 % 0x100
    case ThmJump6 => r == v / 2 % 0x40
    case ThmAbs5 => r == v / 4 % 0x20
    case ThmPc8 => r == v / 4 % 0x100
  }

  lemma Halved25(v: bv32, x: bv32)
    requires x == (v >> 1) | ((0 - (v >> 31)) << 31)
    ensures v / 2 % 0x0200_0000 == x & 0x01FF_FFFF
  {
  }

  lemma Halved11(v: bv32, x: bv32)
    requires x == (v >> 1) | ((0 - (v >> 31)) << 31)
    ensures v / 2 % 0x800 == x & 0x7FF
  {
  }

  lemma Halved8(v: bv32, x: bv32)
    requires x == (v >> 1) | ((0 - (v >> 31)) << 31)
    ensures v / 2 % 0x100 == x & 0xFF
  {
  }

  lemma Halved6(v: bv32, x: bv32)
    requires x == (v >> 1) | ((0 - (v >> 31)) << 31)
    ensures v / 2 % 0x40 == x & 0x3F
  {
  }

  lemma Quartered24(v: bv32, x: bv32)
    requires x == (v >> 2) | ((0 - (v >> 31)) << 30)
    ensures v / 4 % 0x0100_0000 == x & 0x00FF_FFFF
  {
  }

  lemma Quartered5(v: bv32, x: bv32)
    requires x == (v >> 2) | ((0 - (v >> 31)) << 30)
    ensures v / 4 % 0x20 == x & 0x1F
  {
  }

  lemma Quartered8(v: bv32, x: bv32)
    requires x == (v >> 2) | ((0 - (v >> 31)) << 30)
    ensures v / 4 % 0x100 == x & 0xFF
  {
  }

  lemma HighHalf(v: bv32, x: bv32)
    requires x == (v >> 16) | ((0 - (v >> 31)) << 16)
    ensures v / 0x1_0000 % 0x1_0000 == x & 0xFFFF
  {
  }

  lemma LowHalf(v: bv32)
    ensures v % 0x1_0000 == v & 0xFFFF
  {
  }

  /** write_reloc_r for an ARM word. */
  predicate ArmWritten(t: Type, w: bv32, x: bv32, r: bv32, symval: bv32)
    requires IsArm(t)
  {
    match t
    case Call | Pc24 => x == WriteBranch(Converted(w, symval), r)
    case Jump24 => x == WriteJump(w, r)
    case Abs12 => x == WriteOffset(w, r)
    case _ => x == WriteMov(w, r)
  }

  predicate PairWritten(t: Type, p: Pair, q: Pair, r: bv32, symval: bv32)
    requires IsPair(t)
  {
    match t
    case ThmCall => q == if IsThumb(symval) then WriteThmBranch(p, r) else WriteThmCallToArm(p, r)
    case ThmJump24 => q == WriteThmBranch(p, r)
    case ThmPc12 => q == WriteThmOffset(p, r)
    case _ => q == WriteThmMov(p, r)
  }

  predicate HalfWritten(t: Type, h: bv16, x: bv16, r: bv32)
    requires !IsArm(t) && !IsPair(t)
  {
    match t
    case ThmJump11 => x == WriteJump11(h, r)
    case ThmJump8 | ThmPc8 => x == WriteByte(h, r)
    case ThmAbs5 => x == WriteAbs5(h, r)
    case _ => x == WriteJump6(h, r)
  }

  /** The relocation of the instruction at the halfwords (a, b), which become (c, d). */
  predicate Written(t: Type, a: bv16, b: bv16, c: bv16, d: bv16, r: bv32, symval: bv32) {
    if IsArm(t) then ArmWritten(t, Word(a, b), Word(c, d), r, symval)
    else if IsPair(t) then PairWritten(t, Pair(a, b), Pair(c, d), r, symval)
    else HalfWritten(t, a, c, r) && d == b
  }

  predicate ArmRead(t: Type, w: bv32, v: bv32)
    requires IsArm(t)
  {
    match t
    case Call | Pc24 | Jump24 => v == ReadBranch(w)
    case Abs12 => v == ReadOffset(w)
    case _ => v == ReadMov(w)
  }

  predicate PairRead(t: Type, p: Pair, v: bv32)
    requires IsPair(t)
  {
    match t
    case ThmCall | ThmJump24 => v == ReadThmBranch(p)
    case ThmPc12 => v == ReadThmOffset(p)
    case _ => v == ReadThmMov(p)
  }

  predicate HalfRead(t: Type, h: bv16, v: bv32)
    requires !IsArm(t) && !IsPair(t)
  {
    match t
    case ThmJump11 => v == ReadJump11(h)
    case ThmJump8 => v == ReadJump8(h)
    case ThmPc8 => v == ReadPc8(h)
    case ThmAbs5 => v == ReadAbs5(h)
    case _ => v == ReadJump6(h)
  }

  /** The int32_t that a pattern stands for. */
  function Signed(v: bv32): int {
    if v < 0x8000_0000 then v as int else v as int - 0x1_0000_0000
  }

  /**
    The values that are reported: a branch to an ARM offset needs 26 signed bits and one to a Thumb
    offset 25; a load offset needs a magnitude of 12 bits, which the least int32_t is not asked for.
   */
  predicate OutOfRange(t: Type, x: int) {
    match t
    case Call | Pc24 | Jump24 => x < -0x0200_0000 || 0x0200_0000 <= x
    case ThmCall | ThmJump24 => x < -0x0100_0000 || 0x0100_0000 <= x
    case Abs12 | ThmPc12 => (-0x8000_0000 < x <= -0x1000) || 0x1000 <= x
    case _ => false
  }

  lemma Cut26(v: bv32)
    ensures R.Fits26(v) <==> v < 0x0200_0000 || v >= 0xFE00_0000
  {
  }

  lemma Signed26(v: bv32)
    ensures v < 0x0200_0000 || v >= 0xFE00_0000 <==> -0x0200_0000 <= Signed(v) < 0x0200_0000
  {
    assert v < 0x0200_0000 <==> v as int < 0x0200_0000;
    assert v >= 0xFE00_0000 <==> v as int >= 0xFE00_0000;
  }

  lemma Range26(v: bv32)
    ensures BranchOverflow(v) <==> OutOfRange(Call, Signed(v))
  {
    R.Overflow26(v);
    Cut26(v);
    Signed26(v);
  }

  lemma Cut25(v: bv32)
    ensures R.Fits25(v) <==> v < 0x0100_0000 || v >= 0xFF00_0000
  {
  }

  lemma Signed25(v: bv32)
    ensures v < 0x0100_0000 || v >= 0xFF00_0000 <==> -0x0100_0000 <= Signed(v) < 0x0100_0000
  {
    assert v < 0x0100_0000 <==> v as int < 0x0100_0000;
    assert v >= 0xFF00_0000 <==> v as int >= 0xFF00_0000;
  }

  lemma Range25(v: bv32)
    ensures ThmBranchOverflow(v) <==> OutOfRange(ThmCall, Signed(v))
  {
    R.Overflow25(v);
    Cut25(v);
    Signed25(v);
  }

  lemma CutSmall(v: bv32, a: bv32)
    requires a == 0 - v && (v >> 31) & 1 == 1
    ensures (a >> 31) & 1 == 0 && a >= 0x1000 <==> v != 0x8000_0000 && v <= 0xFFFF_F000
  {
  }

  lemma CutSign(v: bv32)
    ensures (v >> 31) & 1 == 1 <==> v >= 0x8000_0000
  {
  }

  lemma Cut12(v: bv32)
    ensures OffsetOverflow(v) <==> 0x1000 <= v < 0x8000_0000 || 0x8000_0000 < v <= 0xFFFF_F000
  {
    CutSign(v);
    if Negative(v) {
      CutSmall(v, Abs(v));
    }
  }

  lemma SignedUp(v: bv32)
    ensures 0x1000 <= v < 0x8000_0000 <==> 0x1000 <= Signed(v)
  {
    assert v >= 0x1000 <==> v as int >= 0x1000;
    assert v < 0x8000_0000 <==> v as int < 0x8000_0000;
  }

  lemma SignedDown(v: bv32)
    ensures 0x8000_0000 < v <= 0xFFFF_F000 <==> -0x8000_0000 < Signed(v) <= -0x1000
  {
    assert v > 0x8000_0000 <==> v as int > 0x8000_0000;
    assert v <= 0xFFFF_F000 <==> v as int <= 0xFFFF_F000;
  }

  lemma Range12(v: bv32)
    ensures OffsetOverflow(v) <==> OutOfRange(Abs12, Signed(v))
  {
    Cut12(v);
    SignedUp(v);
    SignedDown(v);
  }

  // ---------------------------------------------------------------- every type reads back

  /** A branch reads back its value, without the bits that it drops, exactly if the value fits. */
  predicate CallExact(m: bv32, v: bv32, back: bv32) {
    if IsBlx(m) then back == v & 0xFFFF_FFFE <==> !BranchOverflow(v)
    else back == v & 0xFFFF_FFFC <==> !BranchOverflow(v)
  }

  /** JUMP24 shares CALL's reader, which would add a set H bit. */
  predicate JumpExact(w: bv32, v: bv32, back: bv32) {
    back == v & 0xFFFF_FFFC <==> !BranchOverflow(v) && !(IsBlx(w) && (w >> 24) & 1 != 0)
  }

  /** The overflow test lets the most negative value pass. */
  predicate OffsetExact(v: bv32, back: bv32) {
    back == v <==> !OffsetOverflow(v) && v != 0x8000_0000
  }

  predicate ThmBranchExact(v: bv32, back: bv32) {
    back == v & 0xFFFF_FFFE <==> !ThmBranchOverflow(v)
  }

  /** A call of ARM code: it is the rounded offset that has to fit. */
  predicate ToArmExact(v: bv32, back: bv32) {
    back == R.RoundedUp(v) <==> !ThmBranchOverflow(R.RoundedUp(v))
  }

  /** The sign-extended lower half of g. */
  predicate MovExact(g: bv32, back: bv32) {
    back == SignExtend(g & 0xFFFF, 0x8000)
  }

  predicate ArmExact(t: Type, w: bv32, v: bv32, symval: bv32, back: bv32)
    requires IsArm(t)
  {
    match t
    case Call | Pc24 => CallExact(Converted(w, symval), v, back)
    case Jump24 => JumpExact(w, v, back)
    case Abs12 => OffsetExact(v, back)
    case Movw => MovExact(v, back)
    case Movt => MovExact(v >> 16, back)
  }

  predicate PairExact(t: Type, v: bv32, symval: bv32, back: bv32)
    requires IsPair(t)
  {
    match t
    case ThmCall => if IsThumb(symval) then ThmBranchExact(v, back) else ToArmExact(v, back)
    case ThmJump24 => ThmBranchExact(v, back)
    case ThmPc12 => OffsetExact(v, back)
    case ThmMovw => MovExact(v, back)
    case ThmMovt => MovExact(v >> 16, back)
  }

  predicate Jump11Exact(v: bv32, back: bv32) {
    back == v & 0xFFFF_FFFE <==> R.Fits12(v)
  }

  predicate Jump8Exact(v: bv32, back: bv32) {
    back == v & 0xFFFF_FFFE <==> R.Fits9(v)
  }

  /** The 16-bit types have no overflow test; the ranges that read back are these. */
  predicate HalfExact(t: Type, v: bv32, back: bv32)
    requires !IsArm(t) && !IsPair(t)
  {
    match t
    case ThmJump11 => Jump11Exact(v, back)
    case ThmJump8 => Jump8Exact(v, back)
    case ThmJump6 => back == v & 0xFFFF_FFFE <==> ((v & 0xFFFF_FFFE) + 4) & 0xFFFF_FF80 == 0
    case ThmAbs5 => back == v & 0xFFFF_FFFC <==> v & 0xFFFF_FF80 == 0
    case ThmPc8 => back == v & 0xFFFF_FFFC <==> ((v & 0xFFFF_FFFC) + 4) & 0xFFFF_FC00 == 0
  }

  lemma CallRoundTrip(m: bv32, v: bv32)
    ensures CallExact(m, v, ReadBranch(WriteBranch(m, R.PackedCall(v))))
  {
    if IsBlx(m) {
      R.BlxReadsBack(m, v, WriteBranch(m, R.PackedCall(v)));
    } else {
      R.BlReadsBack(m, v, WriteBranch(m, R.PackedCall(v)));
    }
  }

  lemma JumpRoundTrip(w: bv32, v: bv32)
    ensures JumpExact(w, v, ReadBranch(WriteJump(w, R.PackedJump(v))))
  {
    if IsBlx(w) {
      R.JumpInBlx(w, v, WriteJump(w, R.PackedJump(v)));
    } else {
      R.JumpReadsBack(w, v, WriteJump(w, R.PackedJump(v)));
    }
  }

  lemma OffsetRoundTrip(w: bv32, v: bv32)
    ensures OffsetExact(v, ReadOffset(WriteOffset(w, v)))
  {
    R.AbsIsMagnitude(v);
    R.OffsetReadsBack(w, v, Abs(v), WriteOffset(w, v));
    R.OffsetOverflowExact(v);
  }

  lemma ThmOffsetRoundTrip(p: Pair, v: bv32)
    ensures OffsetExact(v, ReadThmOffset(WriteThmOffset(p, v)))
  {
    R.AbsIsMagnitude(v);
    R.ThmOffsetReadsBack(p.hi, p.lo, v, Abs(v), WriteThmOffset(p, v));
    R.OffsetOverflowExact(v);
  }

  lemma Jump11RoundTrip(h: bv16, v: bv32)
    ensures Jump11Exact(v, ReadJump11(WriteJump11(h, Asr1(v) & 0x7FF)))
  {
    R.Jump11ReadsBack(h, v, WriteJump11(h, Asr1(v) & 0x7FF));
  }

  lemma Jump8RoundTrip(h: bv16, v: bv32)
    ensures Jump8Exact(v, ReadJump8(WriteByte(h, Asr1(v) & 0xFF)))
  {
    R.Jump8ReadsBack(h, v, WriteByte(h, Asr1(v) & 0xFF));
  }

  lemma MovRoundTrip(w: bv32, g: bv32)
    ensures MovExact(g, ReadMov(WriteMov(w, g & 0xFFFF)))
  {
    R.MovReadsBack(w, g, WriteMov(w, g & 0xFFFF));
  }

  lemma ThmMovRoundTrip(p: Pair, g: bv32)
    ensures MovExact(g, ReadThmMov(WriteThmMov(p, g & 0xFFFF)))
  {
    R.ThmMovReadsBack(p.hi, p.lo, g, WriteThmMov(p, g & 0xFFFF));
  }

  lemma ThmBranchRoundTrip(p: Pair, v: bv32)
    ensures ThmBranchExact(v, ReadThmBranch(WriteThmBranch(p, R.PackedCall(v))))
  {
    R.ThmBranchReadsBack(p, v, WriteThmBranch(p, R.PackedCall(v)));
  }

  lemma ToArmRoundTrip(p: Pair, v: bv32)
    ensures ToArmExact(v, ReadThmBranch(WriteThmCallToArm(p, R.PackedCall(v))))
  {
    R.ThmCallToArmReadsBack(p, v, WriteThmCallToArm(p, R.PackedCall(v)));
  }

  lemma CallCase(t: Type, w: bv32, x: bv32, v: bv32, r: bv32, symval: bv32, back: bv32)
    requires (t == Call || t == Pc24) && Packed(t, v, r) && ArmWritten(t, w, x, r, symval) && ArmRead(t, x, back)
    ensures ArmExact(t, w, v, symval, back)
  {
    Halved25(v, Asr1(v));
    CallRoundTrip(Converted(w, symval), v);
  }

  lemma JumpCase(t: Type, w: bv32, x: bv32, v: bv32, r: bv32, symval: bv32, back: bv32)
    requires t == Jump24 && Packed(t, v, r) && ArmWritten(t, w, x, r, symval) && ArmRead(t, x, back)
    ensures ArmExact(t, w, v, symval, back)
  {
    Quartered24(v, Asr2(v));
    JumpRoundTrip(w, v);
  }

  lemma OffsetCase(t: Type, w: bv32, x: bv32, v: bv32, r: bv32, symval: bv32, back: bv32)
    requires t == Abs12 && Packed(t, v, r) && ArmWritten(t, w, x, r, symval) && ArmRead(t, x, back)
    ensures ArmExact(t, w, v, symval, back)
  {
    OffsetRoundTrip(w, v);
  }

  lemma MovwCase(t: Type, w: bv32, x: bv32, v: bv32, r: bv32, symval: bv32, back: bv32)
    requires t == Movw && Packed(t, v, r) && ArmWritten(t, w, x, r, symval) && ArmRead(t, x, back)
    ensures ArmExact(t, w, v, symval, back)
  {
    LowHalf(v);
    MovRoundTrip(w, v);
  }

  lemma MovtPacked(t: Type, v: bv32, r: bv32)
    requires (t == Movt || t == ThmMovt) && Packed(t, v, r)
    ensures r == (v >> 16) & 0xFFFF
  {
    UpperHalf(v, r);
  }

  lemma UpperHalf(v: bv32, r: bv32)
    requires r == v / 0x1_0000 % 0x1_0000
    ensures r == (v >> 16) & 0xFFFF
  {
  }

  lemma MovWrittenBack(w: bv32, g: bv32, r: bv32, x: bv32)
    requires r == g & 0xFFFF && x == WriteMov(w, r)
    ensures MovExact(g, ReadMov(x))
  {
    MovRoundTrip(w, g);
  }

  lemma ThmMovWrittenBack(p: Pair, g: bv32, r: bv32, q: Pair)
    requires r == g & 0xFFFF && q == WriteThmMov(p, r)
    ensures MovExact(g, ReadThmMov(q))
  {
    ThmMovRoundTrip(p, g);
  }

  lemma MovtSteps(t: Type, w: bv32, x: bv32, r: bv32, symval: bv32, back: bv32)
    requires t == Movt && ArmWritten(t, w, x, r, symval) && ArmRead(t, x, back)
    ensures x == WriteMov(w, r) && back == ReadMov(x)
  {
  }

  lemma MovtGoal(t: Type, w: bv32, v: bv32, symval: bv32, back: bv32)
    requires t == Movt && MovExact(v >> 16, back)
    ensures ArmExact(t, w, v, symval, back)
  {
  }

  lemma MovtHalf(t: Type, w: bv32, x: bv32, g: bv32, r: bv32, symval: bv32, back: bv32)
    requires t == Movt && ArmWritten(t, w, x, r, symval) && ArmRead(t, x, back) && r == g & 0xFFFF
    ensures MovExact(g, back)
  {
    MovtSteps(t, w, x, r, symval, back);
    MovWrittenBack(w, g, r, x);
  }

  lemma MovtUpper(t: Type, w: bv32, x: bv32, v: bv32, g: bv32, r: bv32, symval: bv32, back: bv32)
    requires t == Movt && ArmWritten(t, w, x, r, symval) && ArmRead(t, x, back) && g == v >> 16 && r == g & 0xFFFF
    ensures ArmExact(t, w, v, symval, back)
  {
    MovtHalf(t, w, x, g, r, symval, back);
    MovtGoal(t, w, v, symval, back);
  }

  lemma MovtCase(t: Type, w: bv32, x: bv32, v: bv32, r: bv32, symval: bv32, back: bv32)
    requires t == Movt && Packed(t, v, r) && ArmWritten(t, w, x, r, symval) && ArmRead(t, x, back)
    ensures ArmExact(t, w, v, symval, back)
  {
    MovtPacked(t, v, r);
    MovtUpper(t, w, x, v, v >> 16, r, symval, back);
  }

  /** Any ARM instruction, any value and symbol: what the reader makes of the relocated word. */
  lemma ArmRoundTrips(t: Type, w: bv32, x: bv32, v: bv32, r: bv32, symval: bv32, back: bv32)
    requires IsArm(t) && Packed(t, v, r) && ArmWritten(t, w, x, r, symval) && ArmRead(t, x, back)
    ensures ArmExact(t, w, v, symval, back)
  {
    match t
    case Call | Pc24 => CallCase(t, w, x, v, r, symval, back);
    case Jump24 => JumpCase(t, w, x, v, r, symval, back);
    case Abs12 => OffsetCase(t, w, x, v, r, symval, back);
    case Movw => MovwCase(t, w, x, v, r, symval, back);
    case Movt => MovtCase(t, w, x, v, r, symval, back);
  }

  lemma ThumbCalleeCase(t: Type, p: Pair, q: Pair, v: bv32, r: bv32, symval: bv32, back: bv32)
    requires t == ThmCall && IsThumb(symval) && Packed(t, v, r) && PairWritten(t, p, q, r, symval) && PairRead(t, q, back)
    ensures PairExact(t, v, symval, back)
  {
    Halved25(v, Asr1(v));
    ThmBranchRoundTrip(p, v);
  }

  lemma ArmCalleeCase(t: Type, p: Pair, q: Pair, v: bv32, r: bv32, symval: bv32, back: bv32)
    requires t == ThmCall && !IsThumb(symval) && Packed(t, v, r) && PairWritten(t, p, q, r, symval) && PairRead(t, q, back)
    ensures PairExact(t, v, symval, back)
  {
    Halved25(v, Asr1(v));
    ToArmRoundTrip(p, v);
  }

  lemma ThmJumpCase(t: Type, p: Pair, q: Pair, v: bv32, r: bv32, symval: bv32, back: bv32)
    requires t == ThmJump24 && Packed(t, v, r) && PairWritten(t, p, q, r, symval) && PairRead(t, q, back)
    ensures PairExact(t, v, symval, back)
  {
    Halved25(v, Asr1(v));
    ThmBranchRoundTrip(p, v);
  }

  lemma ThmOffsetCase(t: Type, p: Pair, q: Pair, v: bv32, r: bv32, symval: bv32, back: bv32)
    requires t == ThmPc12 && Packed(t, v, r) && PairWritten(t, p, q, r, symval) && PairRead(t, q, back)
    ensures PairExact(t, v, symval, back)
  {
    ThmOffsetRoundTrip(p, v);
  }

  lemma ThmMovwCase(t: Type, p: Pair, q: Pair, v: bv32, r: bv32, symval: bv32, back: bv32)
    requires t == ThmMovw && Packed(t, v, r) && PairWritten(t, p, q, r, symval) && PairRead(t, q, back)
    ensures PairExact(t, v, symval, back)
  {
    LowHalf(v);
    ThmMovRoundTrip(p, v);
  }

  lemma ThmMovtSteps(t: Type, p: Pair, q: Pair, r: bv32, symval: bv32, back: bv32)
    requires t == ThmMovt && PairWritten(t, p, q, r, symval) && PairRead(t, q, back)
    ensures q == WriteThmMov(p, r) && back == ReadThmMov(q)
  {
  }

  lemma ThmMovtGoal(t: Type, v: bv32, symval: bv32, back: bv32)
    requires t == ThmMovt && MovExact(v >> 16, back)
    ensures PairExact(t, v, symval, back)
  {
  }

  lemma ThmMovtHalf(t: Type, p: Pair, q: Pair, g: bv32, r: bv32, symval: bv32, back: bv32)
    requires t == ThmMovt && PairWritten(t, p, q, r, symval) && PairRead(t, q, back) && r == g & 0xFFFF
    ensures MovExact(g, back)
  {
    ThmMovtSteps(t, p, q, r, symval, back);
    ThmMovWrittenBack(p, g, r, q);
  }

  lemma ThmMovtUpper(t: Type, p: Pair, q: Pair, v: bv32, g: bv32, r: bv32, symval: bv32, back: bv32)
    requires t == ThmMovt && PairWritten(t, p, q, r, symval) && PairRead(t, q, back) && g == v >> 16 && r == g & 0xFFFF
    ensures PairExact(t, v, symval, back)
  {
    ThmMovtHalf(t, p, q, g, r, symval, back);
    ThmMovtGoal(t, v, symval, back);
  }

  lemma ThmMovtCase(t: Type, p: Pair, q: Pair, v: bv32, r: bv32, symval: bv32, back: bv32)
    requires t == ThmMovt && Packed(t, v, r) && PairWritten(t, p, q, r, symval) && PairRead(t, q, back)
    ensures PairExact(t, v, symval, back)
  {
    MovtPacked(t, v, r);
    ThmMovtUpper(t, p, q, v, v >> 16, r, symval, back);
  }

  /** Any Thumb-2 instruction. */
  lemma PairRoundTrips(t: Type, p: Pair, q: Pair, v: bv32, r: bv32, symval: bv32, back: bv32)
    requires IsPair(t) && Packed(t, v, r) && PairWritten(t, p, q, r, symval) && PairRead(t, q, back)
    ensures PairExact(t, v, symval, back)
  {
    match t
    case ThmCall =>
      if IsThumb(symval) {
        ThumbCalleeCase(t, p, q, v, r, symval, back);
      } else {
        ArmCalleeCase(t, p, q, v, r, symval, back);
      }
    case ThmJump24 => ThmJumpCase(t, p, q, v, r, symval, back);
    case ThmPc12 => ThmOffsetCase(t, p, q, v, r, symval, back);
    case ThmMovw => ThmMovwCase(t, p, q, v, r, symval, back);
    case ThmMovt => ThmMovtCase(t, p, q, v, r, symval, back);
  }

  lemma Jump11Case(t: Type, h: bv16, x: bv16, v: bv32, r: bv32, back: bv32)
    requires t == ThmJump11 && Packed(t, v, r) && HalfWritten(t, h, x, r) && HalfRead(t, x, back)
    ensures HalfExact(t, v, back)
  {
    Halved11(v, Asr1(v));
    Jump11RoundTrip(h, v);
  }

  lemma Jump8Case(t: Type, h: bv16, x: bv16, v: bv32, r: bv32, back: bv32)
    requires t == ThmJump8 && Packed(t, v, r) && HalfWritten(t, h, x, r) && HalfRead(t, x, back)
    ensures HalfExact(t, v, back)
  {
    Halved8(v, Asr1(v));
    Jump8RoundTrip(h, v);
  }

  lemma Jump6Case(t: Type, h: bv16, x: bv16, v: bv32, r: bv32, back: bv32)
    requires t == ThmJump6 && Packed(t, v, r) && HalfWritten(t, h, x, r) && HalfRead(t, x, back)
    ensures HalfExact(t, v, back)
  {
    Halved6(v, Asr1(v));
    R.Jump6ReadsBack(h, v, v & 0xFFFF_FFFE, (v & 0xFFFF_FFFE) + 4, x);
  }

  lemma Abs5Case(t: Type, h: bv16, x: bv16, v: bv32, r: bv32, back: bv32)
    requires t == ThmAbs5 && Packed(t, v, r) && HalfWritten(t, h, x, r) && HalfRead(t, x, back)
    ensures HalfExact(t, v, back)
  {
    Quartered5(v, Asr2(v));
    R.Abs5ReadsBack(h, v, x);
  }

  lemma Pc8Case(t: Type, h: bv16, x: bv16, v: bv32, r: bv32, back: bv32)
    requires t == ThmPc8 && Packed(t, v, r) && HalfWritten(t, h, x, r) && HalfRead(t, x, back)
    ensures HalfExact(t, v, back)
  {
    Quartered8(v, Asr2(v));
    R.Pc8ReadsBack(h, v, v & 0xFFFF_FFFC, (v & 0xFFFF_FFFC) + 4, x);
  }

  /** Any 16-bit Thumb instruction. */
  lemma HalfRoundTrips(t: Type, h: bv16, x: bv16, v: bv32, r: bv32, back: bv32)
    requires !IsArm(t) && !IsPair(t) && Packed(t, v, r) && HalfWritten(t, h, x, r) && HalfRead(t, x, back)
    ensures HalfExact(t, v, back)
  {
    match t
    case ThmJump11 => Jump11Case(t, h, x, v, r, back);
    case ThmJump8 => Jump8Case(t, h, x, v, r, back);
    case ThmJump6 => Jump6Case(t, h, x, v, r, back);
    case ThmAbs5 => Abs5Case(t, h, x, v, r, back);
    case ThmPc8 => Pc8Case(t, h, x, v, r, back);
  }

  // ---------------------------------------------------------------- the code's steps

  lemma SignCopied(x: bv32, sign: bv32, y: bv32, a: bv32)
    requires sign in {0x0200_0000, 0x0100_0000, 0x8000, 0x800, 0x100} && y == x & sign && a == x | (0 - y)
    ensures a == SignExtend(x, sign)
  {
    OneBit(x, sign);
    if y == 0 {
      NoSign(x, y, a);
    }
  }

  lemma NoSign(x: bv32, y: bv32, a: bv32)
    requires y == 0 && a == x | (0 - y)
    ensures a == x
  {
  }

  lemma OneBit(x: bv32, sign: bv32)
    requires sign in {0x0200_0000, 0x0100_0000, 0x8000, 0x800, 0x100}
    ensures x & sign == 0 || x & sign == sign
  {
    OneOfFive(x);
  }

  lemma OneOfFive(x: bv32)
    ensures x & 0x0200_0000 == 0 || x & 0x0200_0000 == 0x0200_0000
    ensures x & 0x0100_0000 == 0 || x & 0x0100_0000 == 0x0100_0000
    ensures x & 0x8000 == 0 || x & 0x8000 == 0x8000
    ensures x & 0x800 == 0 || x & 0x800 == 0x800
    ensures x & 0x100 == 0 || x & 0x100 == 0x100
  {
  }

  lemma NoHBit(imm: bv32)
    ensures ((imm << 1) + 0) << 1 == imm << 2
  {
  }

  /** The addend read from the instruction at the halfwords (c, d). */
  predicate ReadAs(t: Type, c: bv16, d: bv16, v: bv32) {
    if IsArm(t) then ArmRead(t, Word(c, d), v)
    else if IsPair(t) then PairRead(t, Pair(c, d), v)
    else HalfRead(t, c, v)
  }

  /** What an addend is of the value x that was written into the instruction at (a, b). */
  predicate Exact(t: Type, a: bv16, b: bv16, x: bv32, symval: bv32, back: bv32) {
    if IsArm(t) then ArmExact(t, Word(a, b), x, symval, back)
    else if IsPair(t) then PairExact(t, x, symval, back)
    else HalfExact(t, x, back)
  }

  /** Any instruction of any type that was relocated with any value. */
  lemma ReadIsExact(t: Type, c: bv16, d: bv16, v: bv32)
    requires ReadAs(t, c, d, v)
    ensures forall a, b, x, r, symval ::
      Packed(t, x, r) && Written(t, a, b, c, d, r, symval) ==> Exact(t, a, b, x, symval, v)
  {
    forall a, b, x, r, symval | Packed(t, x, r) && Written(t, a, b, c, d, r, symval)
      ensures Exact(t, a, b, x, symval, v)
    {
      RoundTrips(t, a, b, c, d, x, r, symval, v);
    }
  }

  lemma RoundTrips(t: Type, a: bv16, b: bv16, c: bv16, d: bv16, x: bv32, r: bv32, symval: bv32, v: bv32)
    requires ReadAs(t, c, d, v) && Packed(t, x, r) && Written(t, a, b, c, d, r, symval)
    ensures Exact(t, a, b, x, symval, v)
  {
    if IsArm(t) {
      ArmRoundTrips(t, Word(a, b), Word(c, d), x, r, symval, v);
    } else if IsPair(t) {
      PairRoundTrips(t, Pair(a, b), Pair(c, d), x, r, symval, v);
    } else {
      HalfRoundTrips(t, a, c, x, r, v);
    }
  }

  // ---------------------------------------------------------------- what the report tells

  predicate Tested(t: Type) {
    t == Call || t == Pc24 || t == Jump24 || t == ThmCall || t == ThmJump24 || t == Abs12 || t == ThmPc12
  }

  predicate WordCarried(v: bv32, back: bv32) {
    back == v & 0xFFFF_FFFC
  }

  predicate HalfwordCarried(v: bv32, back: bv32) {
    back == v & 0xFFFF_FFFE
  }

  predicate RoundedCarried(v: bv32, back: bv32) {
    back == R.RoundedUp(v)
  }

  predicate CallCarried(m: bv32, v: bv32, back: bv32) {
    if IsBlx(m) then HalfwordCarried(v, back) else WordCarried(v, back)
  }

  predicate ArmCarried(t: Type, w: bv32, v: bv32, symval: bv32, back: bv32) {
    match t
    case Call | Pc24 => CallCarried(Converted(w, symval), v, back)
    case Jump24 => WordCarried(v, back)
    case _ => back == v
  }

  predicate PairCarried(t: Type, v: bv32, symval: bv32, back: bv32) {
    match t
    case ThmCall => if IsThumb(symval) then HalfwordCarried(v, back) else RoundedCarried(v, back)
    case ThmJump24 => HalfwordCarried(v, back)
    case _ => back == v
  }

  /** The value is read back but for the low bits that the instruction at (a, b) cannot carry. */
  predicate Carried(t: Type, a: bv16, b: bv16, v: bv32, symval: bv32, back: bv32) {
    if IsArm(t) then ArmCarried(t, Word(a, b), v, symval, back) else PairCarried(t, v, symval, back)
  }

  predicate HBitSet(w: bv32) {
    IsBlx(w) && (w >> 24) & 1 != 0
  }

  /** The largest Thumb offset, odd or even. */
  predicate Largest(v: bv32) {
    v & 0xFFFF_FFFE == 0x00FF_FFFE
  }

  /** The most negative value. */
  predicate Least(v: bv32) {
    v == 0x8000_0000
  }

  predicate ArmSlips(t: Type, w: bv32, v: bv32) {
    match t
    case Jump24 => HBitSet(w)
    case Abs12 => Least(v)
    case _ => false
  }

  predicate PairSlips(t: Type, v: bv32, symval: bv32) {
    match t
    case ThmCall => !IsThumb(symval) && Largest(v)
    case ThmPc12 => Least(v)
    case _ => false
  }

  /** The cases in which a value without a report is not read back. */
  predicate Slips(t: Type, a: bv16, b: bv16, v: bv32, symval: bv32) {
    if IsArm(t) then ArmSlips(t, Word(a, b), v) else PairSlips(t, v, symval)
  }

  lemma RoundedRange(v: bv32, u: bv32)
    requires u == (v & 0xFFFF_FFFE) + (v & 2)
    requires v & 0xFF00_0000 == 0 || v & 0xFF00_0000 == 0xFF00_0000
    ensures u & 0xFF00_0000 == 0 || u & 0xFF00_0000 == 0xFF00_0000 <==> v & 0xFFFF_FFFE != 0x00FF_FFFE
  {
  }

  lemma RoundedInRange(v: bv32, u: bv32)
    requires R.Fits25(v) && u == (v & 0xFFFF_FFFE) + (v & 2)
    ensures R.Fits25(u) <==> !Largest(v)
  {
    RoundedRange(v, u);
  }

  lemma QuietFits(v: bv32)
    requires !ThmBranchOverflow(v)
    ensures R.Fits25(v)
  {
    R.Overflow25(v);
  }

  lemma RoundedFits(v: bv32, u: bv32)
    requires R.Fits25(v) && u == (v & 0xFFFF_FFFE) + (v & 2)
    ensures !ThmBranchOverflow(u) <==> !Largest(v)
  {
    RoundedInRange(v, u);
    R.Overflow25(u);
  }

  lemma CallTells(m: bv32, v: bv32, back: bv32)
    requires !BranchOverflow(v) && CallExact(m, v, back)
    ensures CallCarried(m, v, back)
  {
  }

  lemma JumpTells(w: bv32, v: bv32, back: bv32)
    requires !BranchOverflow(v) && JumpExact(w, v, back)
    ensures WordCarried(v, back) <==> !HBitSet(w)
  {
  }

  lemma ToArmTells(v: bv32, back: bv32)
    requires R.Fits25(v) && ToArmExact(v, back)
    ensures RoundedCarried(v, back) <==> !Largest(v)
  {
    RoundedFits(v, R.RoundedUp(v));
  }

  lemma BranchQuiet(t: Type, v: bv32)
    requires (t == Call || t == Pc24 || t == Jump24) && !OutOfRange(t, Signed(v))
    ensures !BranchOverflow(v)
  {
    LikeCall(t, Signed(v));
    Range26(v);
  }

  lemma ThmQuiet(t: Type, v: bv32)
    requires (t == ThmCall || t == ThmJump24) && !OutOfRange(t, Signed(v))
    ensures !ThmBranchOverflow(v)
  {
    LikeThmCall(t, Signed(v));
    Range25(v);
  }

  lemma OffsetQuiet(t: Type, v: bv32)
    requires (t == Abs12 || t == ThmPc12) && !OutOfRange(t, Signed(v))
    ensures !OffsetOverflow(v)
  {
    LikeAbs12(t, Signed(v));
    Range12(v);
  }

  lemma CallPart(t: Type, w: bv32, m: bv32, v: bv32, symval: bv32, back: bv32)
    requires (t == Call || t == Pc24) && m == Converted(w, symval) && ArmExact(t, w, v, symval, back)
    ensures CallExact(m, v, back)
  {
  }

  lemma CallWhole(t: Type, w: bv32, m: bv32, v: bv32, symval: bv32, back: bv32)
    requires (t == Call || t == Pc24) && m == Converted(w, symval) && CallCarried(m, v, back)
    ensures ArmCarried(t, w, v, symval, back)
  {
  }

  lemma ToArmPart(v: bv32, symval: bv32, back: bv32)
    requires !IsThumb(symval) && PairExact(ThmCall, v, symval, back)
    ensures ToArmExact(v, back)
  {
  }

  lemma ToArmWhole(v: bv32, symval: bv32, back: bv32)
    requires !IsThumb(symval)
    ensures PairCarried(ThmCall, v, symval, back) == RoundedCarried(v, back)
    ensures PairSlips(ThmCall, v, symval) == Largest(v)
  {
  }

  lemma CallReport(t: Type, w: bv32, v: bv32, symval: bv32, back: bv32)
    requires (t == Call || t == Pc24) && !BranchOverflow(v) && ArmExact(t, w, v, symval, back)
    ensures ArmCarried(t, w, v, symval, back) <==> !ArmSlips(t, w, v)
  {
    var m := Converted(w, symval);
    CallPart(t, w, m, v, symval, back);
    CallTells(m, v, back);
    CallWhole(t, w, m, v, symval, back);
  }

  lemma JumpReport(t: Type, w: bv32, v: bv32, symval: bv32, back: bv32)
    requires t == Jump24 && !BranchOverflow(v) && ArmExact(t, w, v, symval, back)
    ensures ArmCarried(t, w, v, symval, back) <==> !ArmSlips(t, w, v)
  {
    JumpTells(w, v, back);
  }

  lemma Abs12Report(t: Type, w: bv32, v: bv32, symval: bv32, back: bv32)
    requires t == Abs12 && !OffsetOverflow(v) && ArmExact(t, w, v, symval, back)
    ensures ArmCarried(t, w, v, symval, back) <==> !ArmSlips(t, w, v)
  {
  }

  lemma ThmReport(t: Type, v: bv32, symval: bv32, back: bv32)
    requires (t == ThmJump24 || (t == ThmCall && IsThumb(symval))) && !ThmBranchOverflow(v) && PairExact(t, v, symval, back)
    ensures PairCarried(t, v, symval, back) <==> !PairSlips(t, v, symval)
  {
  }

  lemma ToArmReport(t: Type, v: bv32, symval: bv32, back: bv32)
    requires t == ThmCall && !IsThumb(symval) && !ThmBranchOverflow(v) && PairExact(t, v, symval, back)
    ensures PairCarried(t, v, symval, back) <==> !PairSlips(t, v, symval)
  {
    ToArmPart(v, symval, back);
    QuietFits(v);
    ToArmTells(v, back);
    ToArmWhole(v, symval, back);
  }

  lemma Pc12Report(t: Type, v: bv32, symval: bv32, back: bv32)
    requires t == ThmPc12 && !OffsetOverflow(v) && PairExact(t, v, symval, back)
    ensures PairCarried(t, v, symval, back) <==> !PairSlips(t, v, symval)
  {
  }

  lemma ArmReport(t: Type, w: bv32, v: bv32, symval: bv32, back: bv32)
    requires IsArm(t) && Tested(t) && !OutOfRange(t, Signed(v)) && ArmExact(t, w, v, symval, back)
    ensures ArmCarried(t, w, v, symval, back) <==> !ArmSlips(t, w, v)
  {
    if t == Abs12 {
      OffsetQuiet(t, v);
      Abs12Report(t, w, v, symval, back);
    } else {
      BranchReport(t, w, v, symval, back);
    }
  }

  lemma BranchReport(t: Type, w: bv32, v: bv32, symval: bv32, back: bv32)
    requires (t == Call || t == Pc24 || t == Jump24) && !OutOfRange(t, Signed(v)) && ArmExact(t, w, v, symval, back)
    ensures ArmCarried(t, w, v, symval, back) <==> !ArmSlips(t, w, v)
  {
    BranchQuiet(t, v);
    if t == Jump24 {
      JumpReport(t, w, v, symval, back);
    } else {
      CallReport(t, w, v, symval, back);
    }
  }

  lemma PairReport(t: Type, v: bv32, symval: bv32, back: bv32)
    requires IsPair(t) && Tested(t) && !OutOfRange(t, Signed(v)) && PairExact(t, v, symval, back)
    ensures PairCarried(t, v, symval, back) <==> !PairSlips(t, v, symval)
  {
    if t == ThmPc12 {
      OffsetQuiet(t, v);
      Pc12Report(t, v, symval, back);
    } else {
      ThmBranchReport(t, v, symval, back);
    }
  }

  lemma ThmBranchReport(t: Type, v: bv32, symval: bv32, back: bv32)
    requires (t == ThmCall || t == ThmJump24) && !OutOfRange(t, Signed(v)) && PairExact(t, v, symval, back)
    ensures PairCarried(t, v, symval, back) <==> !PairSlips(t, v, symval)
  {
    ThmQuiet(t, v);
    if t == ThmCall && !IsThumb(symval) {
      ToArmReport(t, v, symval, back);
    } else {
      ThmReport(t, v, symval, back);
    }
  }

  /** Without a report, and but for the cases that slip, the addend read is what the field can carry. */
  lemma ReportTells(t: Type, a: bv16, b: bv16, v: bv32, symval: bv32, back: bv32)
    requires Tested(t) && !OutOfRange(t, Signed(v)) && Exact(t, a, b, v, symval, back)
    ensures Carried(t, a, b, v, symval, back) <==> !Slips(t, a, b, v, symval)
  {
    if IsArm(t) {
      ArmReport(t, Word(a, b), v, symval, back);
    } else {
      PairReport(t, v, symval, back);
    }
  }

  /** What is read from (c, d) is the value that went into the instruction at (a, b), unless it slips. */
  ghost predicate Kept(t: Type, a: bv16, b: bv16, c: bv16, d: bv16, v: bv32, symval: bv32) {
    forall back :: ReadAs(t, c, d, back) ==> (Carried(t, a, b, v, symval, back) <==> !Slips(t, a, b, v, symval))
  }

  /** So for whatever is read after an unreported write. */
  lemma Unreported(t: Type, a: bv16, b: bv16, c: bv16, d: bv16, v: bv32, r: bv32, symval: bv32)
    requires Packed(t, v, r) && Written(t, a, b, c, d, r, symval)
    ensures Tested(t) && !OutOfRange(t, Signed(v)) ==> Kept(t, a, b, c, d, v, symval)
  {
    if Tested(t) && !OutOfRange(t, Signed(v)) {
      forall back | ReadAs(t, c, d, back) ensures Carried(t, a, b, v, symval, back) <==> !Slips(t, a, b, v, symval) {
        RoundTrips(t, a, b, c, d, v, r, symval, back);
        ReportTells(t, a, b, v, symval, back);
      }
    }
  }

  lemma WordParts(w: bv32, lo: bv16, hi: bv16)
    requires lo == (w & 0xFFFF) as bv16 && hi == ((w >> 16) & 0xFFFF) as bv16
    ensures (hi as bv32 << 16) | lo as bv32 == w
  {
  }

  lemma TestAfterClearing(w: bv32, x: bv32)
    requires x == w & 0xFF00_0000
    ensures IsBlx(x) == IsBlx(w)
  {
    R.SameTop(w, x);
  }

  lemma ClearedBlx(w: bv32, x: bv32)
    requires x == w & 0xFF00_0000
    ensures x & 0xFEFF_FFFF == w & 0xFE00_0000
  {
  }

  /** pack_result and mask_result: the quotient of the value, modulo the field. */
  method PackResult(t: Type, v: bv32) returns (r: bv32)
    ensures Packed(t, v, r)
  {
    match t
    case Call | Pc24 | ThmCall | ThmJump24 =>
      Halved25(v, Asr1(v));
      return Asr1(v) & 0x01FF_FFFF;
    case Jump24 =>
      Quartered24(v, Asr2(v));
      return Asr2(v) & 0x00FF_FFFF;
    case Movw | ThmMovw =>
      LowHalf(v);
      return v & 0xFFFF;
    case Movt | ThmMovt =>
      HighHalf(v, Asr16(v));
      return Asr16(v) & 0xFFFF;
    case Abs12 | ThmPc12 =>
      return v;
    case ThmJump11 =>
      Halved11(v, Asr1(v));
      return Asr1(v) & 0x7FF;
    case ThmJump8 =>
      Halved8(v, Asr1(v));
      return Asr1(v) & 0xFF;
    case ThmJump6 =>
      Halved6(v, Asr1(v));
      return Asr1(v) & 0x3F;
    case ThmAbs5 =>
      Quartered5(v, Asr2(v));
      return Asr2(v) & 0x1F;
    case ThmPc8 =>
      Quartered8(v, Asr2(v));
      return Asr2(v) & 0xFF;
  }

  /** The BL/BLX case of write_reloc_r. */
  method PatchBranch(word: bv32, r: bv32, symval: bv32) returns (w: bv32)
    ensures w == WriteBranch(Converted(word, symval), r)
  {
    w := word;
    if IsThumb(symval) {
      w := w | 0xF000_0000;
    }
    ghost var m := w;
    w := w & 0xFF00_0000;
    TestAfterClearing(m, w);
    if IsBlx(w) {
      ClearedBlx(m, w);
      w := w & 0xFEFF_FFFF;
      w := w | ((r & 1) << 24);
    }
    w := w | (r >> 1);
  }

  method PatchOffset(word: bv32, r: bv32) returns (w: bv32)
    ensures w == WriteOffset(word, r)
  {
    var a := Abs(r);
    w := word & 0xFF7F_F000;
    w := w | (a & 0xFFF);
    w := w | ((1 ^ ((r >> 31) & 1)) << 23);
    assert w == SetOffset(word, a, r);
  }

  method PatchMov(word: bv32, r: bv32) returns (w: bv32)
    ensures w == WriteMov(word, r)
  {
    w := word & 0xFFF0_F000;
    w := w | (r & 0xFFF);
    w := w | (((r >> 12) & 0xFF) << 16);
  }

  // The tests of rel_overflow.

  method BranchTest(t: Type, v: bv32) returns (overflow: bool)
    requires t == Call || t == Pc24 || t == Jump24
    ensures overflow <==> OutOfRange(t, Signed(v))
  {
    overflow := BranchOverflow(v);
    Range26(v);
    LikeCall(t, Signed(v));
  }

  lemma LikeCall(t: Type, x: int)
    requires t == Call || t == Pc24 || t == Jump24
    ensures OutOfRange(t, x) <==> OutOfRange(Call, x)
  {
  }

  method ThmBranchTest(t: Type, v: bv32) returns (overflow: bool)
    requires t == ThmCall || t == ThmJump24
    ensures overflow <==> OutOfRange(t, Signed(v))
  {
    overflow := ThmBranchOverflow(v);
    Range25(v);
    LikeThmCall(t, Signed(v));
  }

  lemma LikeThmCall(t: Type, x: int)
    requires t == ThmCall || t == ThmJump24
    ensures OutOfRange(t, x) <==> OutOfRange(ThmCall, x)
  {
  }

  method OffsetTest(t: Type, v: bv32) returns (overflow: bool)
    requires t == Abs12 || t == ThmPc12
    ensures overflow <==> OutOfRange(t, Signed(v))
  {
    overflow := OffsetOverflow(v);
    Range12(v);
    LikeAbs12(t, Signed(v));
  }

  lemma LikeAbs12(t: Type, x: int)
    requires t == Abs12 || t == ThmPc12
    ensures OutOfRange(t, x) <==> OutOfRange(Abs12, x)
  {
  }

  lemma Untested(t: Type, x: int)
    requires !(t == Call || t == Pc24 || t == Jump24 || t == ThmCall || t == ThmJump24 || t == Abs12 || t == ThmPc12)
    ensures !OutOfRange(t, x)
  {
  }

  /** rel_overflow */
  method RelOverflow(t: Type, v: bv32) returns (overflow: bool)
    ensures overflow <==> OutOfRange(t, Signed(v))
  {
    match t
    case Call | Pc24 | Jump24 => overflow := BranchTest(t, v);
    case ThmCall | ThmJump24 => overflow := ThmBranchTest(t, v);
    case Abs12 | ThmPc12 => overflow := OffsetTest(t, v);
    case _ =>
      overflow := false;
      Untested(t, Signed(v));
  }

  // The steps of rel_unpack_addend.

  /** SIGN_EXTEND as the macro does it, for the signs that are used. */
  method ExtendSign(x: bv32, sign: bv32) returns (a: bv32)
    requires sign in {0x0200_0000, 0x0100_0000, 0x8000, 0x800, 0x100}
    ensures a == SignExtend(x, sign)
  {
    a := x | (0 - (x & sign));
    SignCopied(x, sign, x & sign, a);
  }

  method UnpackBranch(w: bv32) returns (a: bv32)
    ensures a == ReadBranch(w)
  {
    var h: bv32 := 0;
    if IsBlx(w) {
      h := (w >> 24) & 1;
    }
    var imm24 := w & 0xFF_FFFF;
    a := ((imm24 << 1) + h) << 1;
    if !IsBlx(w) {
      NoHBit(imm24);
    }
    assert a == BranchBits(w);
    a := ExtendSign(a, 0x0200_0000);
  }

  method UnpackOffset(w: bv32) returns (a: bv32)
    ensures a == ReadOffset(w)
  {
    var u := (w >> 23) & 1;
    var imm12 := w & 0xFFF;
    a := if u == 1 then imm12 else 0 - imm12;
  }

  method UnpackMov(w: bv32) returns (a: bv32)
    ensures a == ReadMov(w)
  {
    var i := (w >> 16) & 0xF;
    var j := w & 0xFFF;
    a := ExtendSign((i << 12) | j, 0x8000);
  }

  method UnpackThmFields(hi: bv16, lo: bv16) returns (a: bv32)
    ensures a == ThmBranchBits(hi, lo)
  {
    var s := (hi as bv32 >> 10) & 1;
    var imm10 := hi as bv32 & 0x3FF;
    var i1 := 1 ^ (((lo as bv32 >> 13) & 1) ^ s);
    var i2 := 1 ^ (((lo as bv32 >> 11) & 1) ^ s);
    var imm11 := lo as bv32 & 0x7FF;
    a := ((s << 23) | (i1 << 22) | (i2 << 21) | (imm10 << 11) | imm11) << 1;
  }

  method UnpackThmBranch(p: Pair) returns (a: bv32)
    ensures a == ReadThmBranch(p)
  {
    a := UnpackThmFields(p.hi, p.lo);
    a := ExtendSign(a, 0x0100_0000);
  }

  method UnpackThmOffset(hi: bv16, lo: bv16) returns (a: bv32)
    ensures a == ThmOffsetBits(hi, lo)
  {
    var u := (hi >> 7) & 1;
    var imm12 := lo as bv32 & 0xFFF;
    a := if u == 1 then imm12 else 0 - imm12;
  }

  method UnpackThmMov(p: Pair) returns (a: bv32)
    ensures a == ReadThmMov(p)
  {
    var i := p.hi as bv32 & 0xF;
    var j := (p.hi as bv32 >> 10) & 1;
    var k := (p.lo as bv32 >> 12) & 7;
    var l := p.lo as bv32 & 0xFF;
    a := ExtendSign((i << 12) | (j << 11) | (k << 8) | l, 0x8000);
  }

  method UnpackArm(t: Type, w: bv32) returns (a: bv32)
    requires IsArm(t)
    ensures ArmRead(t, w, a)
  {
    match t
    case Call | Pc24 | Jump24 => a := UnpackBranch(w); return;
    case Abs12 => a := UnpackOffset(w); return;
    case Movw | Movt => a := UnpackMov(w); return;
  }

  method UnpackPair(t: Type, p: Pair) returns (a: bv32)
    requires IsPair(t)
    ensures PairRead(t, p, a)
  {
    match t
    case ThmCall | ThmJump24 => a := UnpackThmBranch(p); return;
    case ThmPc12 => a := UnpackThmOffset(p.hi, p.lo); return;
    case ThmMovw | ThmMovt => a := UnpackThmMov(p); return;
  }

  method UnpackHalf(t: Type, half: bv16) returns (a: bv32)
    requires !IsArm(t) && !IsPair(t)
    ensures HalfRead(t, half, a)
  {
    var h := half as bv32;
    match t
    case ThmJump11 =>
      a := h & 0x7FF;
      a := ExtendSign(a << 1, 0x800);
      return;
    case ThmJump8 =>
      a := h & 0xFF;
      a := ExtendSign(a << 1, 0x100);
      return;
    case ThmPc8 =>
      a := h & 0xFF;
      a := a << 2;
      return ((a + 4) & 0x3FF) - 4;
    case ThmAbs5 =>
      a := (h >> 6) & 0x1F;
      return a << 2;
    case ThmJump6 =>
      a := UnpackJump6(half);
  }

  method UnpackJump6(half: bv16) returns (a: bv32)
    ensures a == ReadJump6(half)
  {
    var h := half as bv32;
    var i, j := (h >> 9) & 1, (h >> 3) & 0x1F;
    a := ((i << 5) | j) << 1;
    a := ((a + 4) & 0x7F) - 4;
  }

  class Image {
    var code: array<bv16>

    method Load(at: nat) returns (w: bv32)
      requires at + 1 < code.Length
      ensures w == Word(code[at], code[at + 1])
    {
      w := Word(code[at], code[at + 1]);
    }

    method Store(at: nat, w: bv32)
      requires at + 1 < code.Length
      modifies code
      ensures Word(code[at], code[at + 1]) == w
      ensures forall k :: 0 <= k < code.Length && k != at && k != at + 1 ==> code[k] == old(code[k])
    {
      var lo, hi := (w & 0xFFFF) as bv16, ((w >> 16) & 0xFFFF) as bv16;
      code[at], code[at + 1] := lo, hi;
      WordParts(w, lo, hi);
    }

    /** write_reloc_r for the ARM types. */
    method WriteArm(t: Type, at: nat, r: bv32, symval: bv32)
      requires IsArm(t) && at + 1 < code.Length
      modifies code
      ensures ArmWritten(t, old(Word(code[at], code[at + 1])), Word(code[at], code[at + 1]), r, symval)
      ensures forall k :: 0 <= k < code.Length && k != at && k != at + 1 ==> code[k] == old(code[k])
    {
      var w := Load(at);
      match t {
        case Call | Pc24 => w := PatchBranch(w, r, symval);
        case Jump24 => w := WriteJump(w, r);
        case Abs12 => w := PatchOffset(w, r);
        case Movw | Movt => w := PatchMov(w, r);
      }
      Store(at, w);
    }

    /** The BL/BLX/B.W case, on the two halfwords. */
    method PatchThmBranch(t: Type, at: nat, packed: bv32, symval: bv32)
      requires (t == ThmCall || t == ThmJump24) && at + 1 < code.Length
      modifies code
      ensures PairWritten(t, old(Pair(code[at], code[at + 1])), Pair(code[at], code[at + 1]), packed, symval)
      ensures forall k :: 0 <= k < code.Length && k != at && k != at + 1 ==> code[k] == old(code[k])
    {
      var r := packed;
      if !IsThumb(symval) && t == ThmCall {
        r := r + (r & 1);
        code[at + 1] := code[at + 1] & 0xEFFF;
      }
      PatchThmHalves(at, r);
    }

    method PatchThmHalves(at: nat, r: bv32)
      requires at + 1 < code.Length
      modifies code
      ensures code[at] == ThmHigh(old(code[at]), r) && code[at + 1] == ThmLow(old(code[at + 1]), r)
      ensures forall k :: 0 <= k < code.Length && k != at && k != at + 1 ==> code[k] == old(code[k])
    {
      var s := (r >> 23) & 1;
      var j1 := ((r >> 22) ^ (1 ^ s)) & 1;
      var j2 := ((r >> 21) ^ (1 ^ s)) & 1;
      code[at] := code[at] & 0xF800;
      code[at] := code[at] | (s << 10) as bv16;
      code[at] := code[at] | ((r >> 11) & 0x3FF) as bv16;
      code[at + 1] := code[at + 1] & 0xD000;
      code[at + 1] := code[at + 1] | (j1 << 13) as bv16;
      code[at + 1] := code[at + 1] | (j2 << 11) as bv16;
      code[at + 1] := code[at + 1] | (r & 0x7FF) as bv16;
    }

    method PatchThmOffset(at: nat, r: bv32, a: bv32)
      requires at + 1 < code.Length
      modifies code
      ensures code[at] == ThmOffsetHigh(old(code[at]), r) && code[at + 1] == ThmOffsetLow(old(code[at + 1]), a)
      ensures forall k :: 0 <= k < code.Length && k != at && k != at + 1 ==> code[k] == old(code[k])
    {
      code[at] := code[at] & 0xFF7F;
      code[at] := code[at] | ((1 ^ ((r >> 31) & 1)) << 7) as bv16;
      code[at + 1] := code[at + 1] & 0xF000;
      code[at + 1] := code[at + 1] | (a & 0xFFF) as bv16;
    }

    method PatchThmMov(at: nat, r: bv32)
      requires at + 1 < code.Length
      modifies code
      ensures code[at] == ThmMovHigh(old(code[at]), r) && code[at + 1] == ThmMovLow(old(code[at + 1]), r)
      ensures forall k :: 0 <= k < code.Length && k != at && k != at + 1 ==> code[k] == old(code[k])
    {
      code[at] := code[at] & 0xFBF0;
      code[at] := code[at] | (((r >> 11) & 1) << 10) as bv16;
      code[at] := code[at] | ((r >> 12) & 0xF) as bv16;
      code[at + 1] := code[at + 1] & 0x8F00;
      code[at + 1] := code[at + 1] | (((r >> 8) & 7) << 12) as bv16;
      code[at + 1] := code[at + 1] | (r & 0xFF) as bv16;
    }

    /** write_reloc_r for the 16-bit types. */
    method WriteHalf(t: Type, at: nat, r: bv32)
      requires !IsArm(t) && !IsPair(t) && at < code.Length
      modifies code
      ensures HalfWritten(t, old(code[at]), code[at], r)
      ensures forall k :: 0 <= k < code.Length && k != at ==> code[k] == old(code[k])
    {
      match t
      case ThmJump11 =>
        code[at] := code[at] & 0xF800;
        code[at] := code[at] | (r & 0xFFFF) as bv16;
      case ThmJump8 | ThmPc8 =>
        code[at] := code[at] & 0xFF00;
        code[at] := code[at] | (r & 0xFFFF) as bv16;
      case ThmAbs5 =>
        code[at] := code[at] & 0xF83F;
        code[at] := code[at] | ((r << 6) & 0xFFFF) as bv16;
      case ThmJump6 =>
        code[at] := code[at] & 0xFD07;
        code[at] := code[at] | (((r >> 5) & 1) << 9) as bv16;
        code[at] := code[at] | ((r & 0x1F) << 3) as bv16;
    }

    /** write_reloc_r */
    method WriteReloc(t: Type, at: nat, r: bv32, symval: bv32)
      requires at + 1 < code.Length
      modifies code
      ensures Written(t, old(code[at]), old(code[at + 1]), code[at], code[at + 1], r, symval)
      ensures forall k :: 0 <= k < code.Length && k != at && k != at + 1 ==> code[k] == old(code[k])
    {
      if IsArm(t) {
        WriteArm(t, at, r, symval);
      } else if IsPair(t) {
        match t {
          case ThmCall | ThmJump24 => PatchThmBranch(t, at, r, symval);
          case ThmPc12 => PatchThmOffset(at, r, Abs(r));
          case ThmMovw | ThmMovt => PatchThmMov(at, r);
        }
      } else {
        WriteHalf(t, at, r);
      }
    }

    /** reloc_do once the value is known: the overflow report, packing, masking and the write. */
    method RelocDo(t: Type, at: nat, v: bv32, symval: bv32) returns (overflow: bool)
      requires at + 1 < code.Length
      modifies code
      ensures overflow <==> OutOfRange(t, Signed(v))
      ensures Tested(t) && !overflow ==> Kept(t, old(code[at]), old(code[at + 1]), code[at], code[at + 1], v, symval)
      ensures exists r :: Packed(t, v, r) && Written(t, old(code[at]), old(code[at + 1]), code[at], code[at + 1], r, symval)
      ensures forall k :: 0 <= k < code.Length && k != at && k != at + 1 ==> code[k] == old(code[k])
    {
      ghost var a, b := code[at], code[at + 1];
      overflow := RelOverflow(t, v);
      var r := PackResult(t, v);
      WriteReloc(t, at, r, symval);
      Unreported(t, a, b, code[at], code[at + 1], v, r, symval);
    }

    /**
      rel_unpack_addend.  Of a relocated instruction, whatever it was before, it gives the value
      that was written exactly where that fits.
     */
    method UnpackAddend(t: Type, at: nat) returns (v: bv32)
      requires at + 1 < code.Length
      ensures ReadAs(t, code[at], code[at + 1], v)
      ensures forall a, b, x, r, symval ::
        Packed(t, x, r) && Written(t, a, b, code[at], code[at + 1], r, symval) ==> Exact(t, a, b, x, symval, v)
    {
      if IsArm(t) {
        v := UnpackArm(t, Word(code[at], code[at + 1]));
      } else if IsPair(t) {
        v := UnpackPair(t, Pair(code[at], code[at + 1]));
      } else {
        v := UnpackHalf(t, code[at]);
      }
      ReadIsExact(t, code[at], code[at + 1], v);
    }
  }
}
