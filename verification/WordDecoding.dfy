/** How the words the emitter assembles decode. */
module WordDecoding {
  import opened Bits
  import opened Arm
  import opened Relocation

  lemma OrFields(h: nat, lo: nat, p: nat)
    requires IsPow2(p) && lo < p && h * p + lo < 0x1_0000_0000
    ensures WOr(h * p, lo) == h * p + lo
  {
    hide And;
    OrDisjoint(h, lo, p);
  }

  lemma Residue26(d: int)
    ensures d % 0x1_0000_0000 % 0x400_0000 == d % 0x400_0000
  {
  }

  lemma Residue19(d: int)
    ensures d % 0x1_0000_0000 % 0x8_0000 == d % 0x8_0000
  {
  }

  lemma Residue18(d: int)
    ensures d % 0x1_0000_0000 % 0x4_0000 == d % 0x4_0000
  {
  }

  lemma DeltaFields(d: int)
    ensures WAnd(AsU32(d), 0x03FF_FFFF) == d % 0x400_0000
    ensures WAnd(AsU32(d), 0x7_FFFF) == d % 0x8_0000
    ensures WAnd(AsU32(d), 0x3_FFFF) == d % 0x4_0000
  {
    hide And, IsPow2;
    PowersOfTwo();
    Residue26(d);
    Residue19(d);
    Residue18(d);
    var x: nat := d % 0x1_0000_0000;
    AndLow(x / 0x400_0000, x % 0x400_0000, 0x400_0000);
    AndLow(x / 0x8_0000, x % 0x8_0000, 0x8_0000);
    AndLow(x / 0x4_0000, x % 0x4_0000, 0x4_0000);
  }

  lemma BranchFields(top6: nat, f: nat)
    requires f < 0x400_0000
    ensures (top6 * 0x400_0000 + f) / 0x400_0000 == top6 && (top6 * 0x400_0000 + f) % 0x400_0000 == f
  {
  }

  lemma DecodeBranch(w: Word)
    ensures w / 0x400_0000 == 0x05 ==> Decode(w) == B(Signed(w % 0x400_0000, 0x200_0000) * 4)
    ensures w / 0x400_0000 == 0x25 ==> Decode(w) == Bl(Signed(w % 0x400_0000, 0x200_0000) * 4)
  {
    hide Signed;
  }

  /** A field read back as two's complement is the number it was cut from. */
  lemma SignedResidue(d: int, half: int)
    requires half == 0x200_0000 || half == 0x4_0000
    requires -half <= d < half
    ensures 0 <= d % (2 * half) < 2 * half && Signed(d % (2 * half), half) == d
  {
    if d < 0 {
      assert (d + 2 * half) % (2 * half) == d + 2 * half;
    }
  }

  lemma BranchWord(d: int)
    requires -0x200_0000 <= d < 0x200_0000
    ensures Decode(BEnc(0x05, d)) == B(4 * d)
    ensures Decode(BEnc(0x25, d)) == Bl(4 * d)
  {
    hide And, WOr, WAnd, IsPow2, Decode, Signed;
    PowersOfTwo();
    DeltaFields(d);
    SignedResidue(d, 0x200_0000);
    var f := d % 0x400_0000;
    BranchFields(0x05, f);
    BranchFields(0x25, f);
    OrFields(0x05, f, 0x400_0000);
    OrFields(0x25, f, 0x400_0000);
    DecodeBranch(0x05 * 0x400_0000 + f);
    DecodeBranch(0x25 * 0x400_0000 + f);
  }

  /** A word written as its top byte, a 19-bit field and five low bits. */
  lemma UpperFields(top8: nat, f: nat, low: nat)
    requires top8 < 256 && f < 0x8_0000 && low < 32
    ensures var w := top8 * 0x100_0000 + f * 32 + low;
      && w < 0x1_0000_0000 && w / 0x400_0000 == top8 / 4 && w / 0x100_0000 == top8
      && w / 32 == top8 * 0x8_0000 + f && w % 32 == low && w % 16 == low % 16
      && w / 0x80_0000 == top8 * 2 + f / 0x4_0000
  {
  }

  lemma MiddleFields(top8: nat, f: nat, low: nat)
    requires top8 < 256 && f < 0x8_0000 && low < 32
    ensures var w := top8 * 0x100_0000 + f * 32 + low;
      && w / 0x8_0000 % 32 == f / 0x4000 && w / 0x20_0000 % 4 == f / 0x1_0000 % 4
  {
    var w := top8 * 0x100_0000 + f * 32 + low;
    assert w / 0x8_0000 == top8 * 32 + f / 0x4000;
    assert w / 0x20_0000 == top8 * 8 + f / 0x1_0000;
  }

  lemma WordFields(top8: nat, f: nat, low: nat)
    requires top8 < 256 && f < 0x8_0000 && low < 32
    ensures var w := top8 * 0x100_0000 + f * 32 + low;
      && w < 0x1_0000_0000 && w / 0x400_0000 == top8 / 4 && w / 0x100_0000 == top8
      && w / 32 % 0x8_0000 == f && w % 32 == low && w % 16 == low % 16
      && w / 0x8_0000 % 32 == f / 0x4000 && w / 32 % 0x4000 == f % 0x4000
      && w / 0x80_0000 == top8 * 2 + f / 0x4_0000 && w / 0x20_0000 % 4 == f / 0x1_0000 % 4
      && w / 32 % 0x1_0000 == f % 0x1_0000
  {
    UpperFields(top8, f, low);
    MiddleFields(top8, f, low);
    LowerFields(top8, f);
  }

  lemma LowerFields(top8: nat, f: nat)
    requires f < 0x8_0000
    ensures var v := top8 * 0x8_0000 + f;
      v % 0x8_0000 == f && v % 0x4000 == f % 0x4000 && v % 0x1_0000 == f % 0x1_0000
  {
    LowerField19(top8, f);
    LowerField14(top8 * 32, f);
    LowerField16(top8 * 8, f);
  }

  lemma LowerField19(h: nat, f: nat)
    requires f < 0x8_0000
    ensures (h * 0x8_0000 + f) % 0x8_0000 == f
  {
  }

  lemma LowerField14(h: nat, f: nat)
    ensures (h * 0x4000 + f) % 0x4000 == f % 0x4000
  {
  }

  lemma LowerField16(h: nat, f: nat)
    ensures (h * 0x1_0000 + f) % 0x1_0000 == f % 0x1_0000
  {
  }

  lemma DecodeCond(f: nat, cond: nat)
    requires f < 0x8_0000 && cond < 16
    ensures Decode(0x5400_0000 + f * 32 + cond) == BCond(cond, Signed(f, 0x4_0000) * 4)
  {
    WordFields(0x54, f, cond);
  }

  lemma DecodeCompare(top8: nat, f: nat, rt: nat)
    requires top8 < 256 && (top8 % 128 == 0x34 || top8 % 128 == 0x35) && f < 0x8_0000 && rt < 32
    ensures top8 * 0x100_0000 + f * 32 + rt < 0x1_0000_0000
    ensures Decode(top8 * 0x100_0000 + f * 32 + rt) == Cbz(top8 >= 128, top8 % 2 == 1, rt, Signed(f, 0x4_0000) * 4)
  {
    hide Decode, Signed;
    WordFields(top8, f, rt);
    DecodeCompareFields(top8 * 0x100_0000 + f * 32 + rt, top8);
  }

  lemma DecodeCompareFields(w: Word, top8: nat)
    requires top8 < 256 && (top8 % 128 == 0x34 || top8 % 128 == 0x35)
    requires w / 0x400_0000 == top8 / 4 && w / 0x100_0000 == top8
    ensures Decode(w) == Cbz(top8 >= 128, top8 % 2 == 1, w % 32, Signed(w / 32 % 0x8_0000, 0x4_0000) * 4)
  {
    hide Signed;
  }

  lemma DecodeTest(top8: nat, b40: nat, imm14: nat, rt: nat)
    requires top8 < 256 && (top8 % 128 == 0x36 || top8 % 128 == 0x37) && b40 < 32 && imm14 < 0x4000 && rt < 32
    ensures top8 * 0x100_0000 + (b40 * 0x4000 + imm14) * 32 + rt < 0x1_0000_0000
    ensures Decode(top8 * 0x100_0000 + (b40 * 0x4000 + imm14) * 32 + rt)
            == Tbz(top8 / 128 * 32 + b40, top8 % 2 == 1, rt, Signed(imm14, 0x2000) * 4)
  {
    hide Decode, Signed;
    var f := b40 * 0x4000 + imm14;
    TestSubfields(b40, imm14);
    WordFields(top8, f, rt);
    DecodeTestFields(top8 * 0x100_0000 + f * 32 + rt, top8);
  }

  lemma TestSubfields(b40: nat, imm14: nat)
    requires b40 < 32 && imm14 < 0x4000
    ensures var f := b40 * 0x4000 + imm14; f < 0x8_0000 && f / 0x4000 == b40 && f % 0x4000 == imm14
  {
  }

  lemma DecodeTestFields(w: Word, top8: nat)
    requires top8 < 256 && (top8 % 128 == 0x36 || top8 % 128 == 0x37)
    requires w / 0x400_0000 == top8 / 4 && w / 0x100_0000 == top8
    ensures Decode(w) == Tbz(top8 / 128 * 32 + w / 0x8_0000 % 32, top8 % 2 == 1, w % 32, Signed(w / 32 % 0x4000, 0x2000) * 4)
  {
    hide Signed;
  }

  lemma DecodeMove(hw: nat, imm: nat, rd: nat)
    requires hw < 4 && imm < 0x1_0000 && rd < 32
    ensures Decode(0xD200_0000 + (0x4_0000 + hw * 0x1_0000 + imm) * 32 + rd) == Movz(rd, hw, imm)
    ensures Decode(0xF200_0000 + (0x4_0000 + hw * 0x1_0000 + imm) * 32 + rd) == Movk(rd, hw, imm)
  {
    hide Decode;
    DecodeHalfword(0xD2, hw, imm, rd);
    DecodeHalfword(0xF2, hw, imm, rd);
  }

  lemma DecodeHalfword(top8: nat, hw: nat, imm: nat, rd: nat)
    requires (top8 == 0xD2 || top8 == 0xF2) && hw < 4 && imm < 0x1_0000 && rd < 32
    ensures top8 * 0x100_0000 + (0x4_0000 + hw * 0x1_0000 + imm) * 32 + rd < 0x1_0000_0000
    ensures Decode(top8 * 0x100_0000 + (0x4_0000 + hw * 0x1_0000 + imm) * 32 + rd)
            == if top8 == 0xD2 then Movz(rd, hw, imm) else Movk(rd, hw, imm)
  {
    hide Decode;
    var f := 0x4_0000 + hw * 0x1_0000 + imm;
    MoveSubfields(hw, imm);
    WordFields(top8, f, rd);
    DecodeMoveFields(top8 * 0x100_0000 + f * 32 + rd, top8);
  }

  lemma MoveSubfields(hw: nat, imm: nat)
    requires hw < 4 && imm < 0x1_0000
    ensures var f := 0x4_0000 + hw * 0x1_0000 + imm;
      && f < 0x8_0000 && f / 0x4_0000 == 1 && f / 0x1_0000 % 4 == hw && f % 0x1_0000 == imm
  {
    assert (0x4_0000 + hw * 0x1_0000 + imm) / 0x1_0000 == 4 + hw;
  }

  lemma DecodeMoveFields(w: Word, top8: nat)
    requires w / 0x400_0000 == top8 / 4 && w / 0x100_0000 == top8 && w / 0x80_0000 == top8 * 2 + 1
    ensures top8 == 0xD2 ==> Decode(w) == Movz(w % 32, w / 0x20_0000 % 4, w / 32 % 0x1_0000)
    ensures top8 == 0xF2 ==> Decode(w) == Movk(w % 32, w / 0x20_0000 % 4, w / 32 % 0x1_0000)
  {
  }

  /** The operands a compare or test word carries. */
  lemma CompareFields(op: Word)
    requires Decode(op).Cbz?
    ensures var top8 := op / 0x100_0000;
      && (top8 % 128 == 0x34 || top8 % 128 == 0x35)
      && Decode(op) == Cbz(top8 >= 128, top8 % 2 == 1, op % 32, Signed(op / 32 % 0x8_0000, 0x4_0000) * 4)
  {
  }

  lemma TestFields(op: Word)
    requires Decode(op).Tbz?
    ensures var top8 := op / 0x100_0000;
      && (top8 % 128 == 0x36 || top8 % 128 == 0x37)
      && Decode(op) == Tbz(top8 / 128 * 32 + op / 0x8_0000 % 32, top8 % 2 == 1, op % 32,
                           Signed(op / 32 % 0x4000, 0x2000) * 4)
  {
  }

  function CondWord(imm19: Word, cond: Word): Word
  {
    WOr(WOr(0x5400_0000, Shl(imm19, 32)), cond)
  }

  lemma CondWordDecodes(d: int, cond: Word)
    requires -0x4_0000 <= d < 0x4_0000 && cond < 16
    ensures Decode(CondWord(d % 0x8_0000, cond)) == BCond(cond, 4 * d)
  {
    hide And, Or, Decode, IsPow2;
    PowersOfTwo();
    SignedResidue(d, 0x4_0000);
    var f := d % 0x8_0000;
    assert Shl(f, 32) == f * 32;
    OrFields(0x54, f * 32, 0x100_0000);
    OrFields(0x54 * 0x8_0000 + f, cond, 32);
    DecodeCond(f, cond);
  }

  lemma FlipCond(cond: Word)
    requires cond < 16
    ensures WXor(cond, 1) == (if cond % 2 == 0 then cond + 1 else cond - 1) < 16
  {
    hide And, IsPow2;
    PowersOfTwo();
    AndLow(cond / 2, cond % 2, 2);
  }

  function CompareWord(head: Word, imm19: Word, rt: Word): Word
  {
    WOr(WOr(head, Shl(imm19, 32)), rt)
  }

  lemma CompareHeadInside(op: Word)
    ensures WAnd(op, 0xFF00_0000) == op / 0x100_0000 * 0x100_0000
  {
    hide And, IsPow2;
    PowersOfTwo();
    AndField(0, op / 0x100_0000, op % 0x100_0000, 0x100_0000, 0x100);
  }

  lemma CompareWordInside(op: Word, d: int)
    requires -0x4_0000 <= d < 0x4_0000 && Decode(op).Cbz?
    ensures var i := Decode(op);
      Decode(CompareWord(WAnd(op, 0xFF00_0000), d % 0x8_0000, op % 32)) == Cbz(i.wide, i.nonzero, i.rt, 4 * d)
  {
    hide And, Decode, WOr, IsPow2;
    PowersOfTwo();
    SignedResidue(d, 0x4_0000);
    CompareFields(op);
    CompareHeadInside(op);
    var f, top8 := d % 0x8_0000, op / 0x100_0000;
    assert Shl(f, 32) == f * 32;
    OrFields(top8, f * 32, 0x100_0000);
    OrFields(top8 * 0x8_0000 + f, op % 32, 32);
    DecodeCompare(top8, f, op % 32);
  }

  function Toggle(op: Word): int { if op / 0x100_0000 % 2 == 0 then op + 0x100_0000 else op - 0x100_0000 }

  lemma ToggleBit24(op: Word)
    ensures WXor(op, 0x0100_0000) == Toggle(op)
  {
    hide And, IsPow2;
    PowersOfTwo();
    AndField(op / 0x200_0000, op / 0x100_0000 % 2, op % 0x100_0000, 0x100_0000, 2);
  }

  /** Writing the skip distance 5 and `rt` again over a head whose low five bits are already `rt`. */
  lemma SkipWord(h: nat, rt: nat)
    requires rt < 32 && h * 0x800 * 32 + rt < 0x1_0000_0000
    ensures WOr(WOr(h * 0x800 * 32 + rt, Shl(5, 32)), rt) == (h * 0x800 + 5) * 32 + rt
  {
    hide And, Or, IsPow2;
    PowersOfTwo();
    OrSplit(h * 0x800, rt, 5, 0, 32);
    OrDisjoint(h, 5, 0x800);
    OrZero(rt);
    OrSplit(h * 0x800 + 5, rt, 0, rt, 32);
    OrZero(h * 0x800 + 5);
    AndSelf(rt);
  }

  lemma ToggleFields(op: Word)
    ensures 0 <= Toggle(op) < 0x1_0000_0000
    ensures Toggle(op) / 0x100_0000 == op / 0x100_0000 / 2 * 2 + (1 - op / 0x100_0000 % 2)
    ensures Toggle(op) % 0x100_0000 == op % 0x100_0000
  {
  }

  lemma CompareHeadOutside(op: Word)
    ensures WAnd(WXor(op, 0x0100_0000), 0xFF00_001F) == Toggle(op) / 0x100_0000 * 0x100_0000 + op % 32
  {
    hide And, IsPow2;
    PowersOfTwo();
    ToggleBit24(op);
    ToggleFields(op);
    var top8, low := Toggle(op) / 0x100_0000, op % 0x100_0000;
    AndSplit(top8, low, 0xFF, 0x1F, 0x100_0000);
    AndOnes(top8, 0x100);
    AndLow(low / 32, low % 32, 32);
  }

  lemma CompareWordOutside(op: Word)
    requires Decode(op).Cbz?
    ensures var i := Decode(op);
      Decode(CompareWord(WAnd(WXor(op, 0x0100_0000), 0xFF00_001F), 5, op % 32)) == Cbz(i.wide, !i.nonzero, i.rt, 20)
  {
    hide And, Or, WAnd, WOr, WXor, Shl, Toggle, Decode;
    CompareFields(op);
    CompareHeadOutside(op);
    ToggleFields(op);
    ToggledTop(op / 0x100_0000, Toggle(op) / 0x100_0000);
    var top8 := Toggle(op) / 0x100_0000;
    SkipWord(top8 * 0x100, op % 32);
    DecodeCompare(top8, 5, op % 32);
  }

  /** Bit 24 turns the test around and changes nothing else. */
  lemma ToggledTop(top8: nat, toggled: nat)
    requires top8 < 256 && toggled == top8 / 2 * 2 + (1 - top8 % 2)
    ensures toggled < 256 && toggled % 2 == 1 - top8 % 2 && toggled / 128 == top8 / 128 && (toggled >= 128) == (top8 >= 128)
    ensures toggled % 128 / 2 == top8 % 128 / 2
  {
  }

  function TestWord(head: Word, imm14: Word, rt: Word): Word
  {
    WOr(WOr(head, Shl(imm14, 32)), rt)
  }

  lemma TestHeadOutside(op: Word)
    ensures WAnd(WXor(op, 0x0100_0000), 0xFFFF_001F) == Toggle(op) / 0x1_0000 * 0x1_0000 + op % 32
  {
    hide And, WAnd, WXor, Toggle;
    ToggleBit24(op);
    ToggleFields(op);
    LowFive(op, Toggle(op));
    HeadMask(Toggle(op));
  }

  lemma HeadMask(w: Word)
    ensures WAnd(w, 0xFFFF_001F) == w / 0x1_0000 * 0x1_0000 + w % 0x1_0000 % 32
  {
    hide And, IsPow2;
    PowersOfTwo();
    var hi, low := w / 0x1_0000, w % 0x1_0000;
    AndSplit(hi, low, 0xFFFF, 0x1F, 0x1_0000);
    AndOnes(hi, 0x1_0000);
    AndLow(low / 32, low % 32, 32);
  }

  lemma LowFive(a: nat, b: nat)
    requires a % 0x100_0000 == b % 0x100_0000
    ensures b % 0x1_0000 % 32 == a % 32
  {
    LowFiveOf(a);
    LowFiveOf(b);
  }

  lemma LowFiveOf(a: nat)
    ensures a % 0x100_0000 % 32 == a % 32 && a % 0x1_0000 % 32 == a % 32
  {
  }

  lemma HeadFields(t: nat, low: nat)
    requires low < 0x100_0000
    ensures (t * 0x100_0000 + low) / 0x1_0000 == t * 256 + low / 0x8_0000 * 8 + low / 0x1_0000 % 8
    ensures (t * 0x100_0000 + low) / 0x8_0000 % 32 == low / 0x8_0000
    ensures (t * 0x100_0000 + low) / 0x1_0000 % 8 == low / 0x1_0000 % 8
  {
    assert (t * 0x100_0000 + low) / 0x1_0000 == t * 256 + low / 0x1_0000;
    assert (t * 0x100_0000 + low) / 0x8_0000 == t * 32 + low / 0x8_0000;
    assert low / 0x1_0000 == low / 0x8_0000 * 8 + low / 0x1_0000 % 8;
  }

  lemma SplitTestHead(op: Word)
    ensures Toggle(op) / 0x1_0000 == Toggle(op) / 0x100_0000 * 256 + op / 0x8_0000 % 32 * 8 + op / 0x1_0000 % 8
  {
    hide Toggle;
    ToggleFields(op);
    HeadFields(Toggle(op) / 0x100_0000, Toggle(op) % 0x100_0000);
    HeadFields(op / 0x100_0000, op % 0x100_0000);
  }

  /** The distance a far test skips: five words, under the three top bits of the old displacement. */
  function KeptSkip(op: Word): int { Signed(op / 0x1_0000 % 8 * 0x800 + 5, 0x2000) * 4 }

  /** The far form keeps bits 18..16 of the old displacement: it skips five words exactly when they are zero. */
  lemma TestWordOutside(op: Word)
    requires Decode(op).Tbz?
    ensures var i := Decode(op);
      Decode(TestWord(WAnd(WXor(op, 0x0100_0000), 0xFFFF_001F), 5, op % 32)) == Tbz(i.bit, !i.isSet, i.rt, KeptSkip(op))
    ensures KeptSkip(op) == 20 <==> op / 0x1_0000 % 8 == 0
  {
    hide And, Or, WAnd, WOr, WXor, Shl, Toggle, Decode, Signed;
    TestFields(op);
    TestHeadOutside(op);
    ToggleFields(op);
    ToggledTop(op / 0x100_0000, Toggle(op) / 0x100_0000);
    var hi, top := Toggle(op) / 0x1_0000, Toggle(op) / 0x100_0000;
    var b40, old3, rt := op / 0x8_0000 % 32, op / 0x1_0000 % 8, op % 32;
    SplitTestHead(op);
    SkipWord(hi, rt);
    SkipDistance(hi, top, b40, old3, rt);
    DecodeTest(top, b40, old3 * 0x800 + 5, rt);
  }

  lemma SkipDistance(hi: nat, top: nat, b40: nat, old3: nat, rt: nat)
    requires hi == top * 256 + b40 * 8 + old3 && old3 < 8
    ensures (hi * 0x800 + 5) * 32 + rt == top * 0x100_0000 + (b40 * 0x4000 + (old3 * 0x800 + 5)) * 32 + rt
    ensures old3 * 0x800 + 5 < 0x4000 && (Signed(old3 * 0x800 + 5, 0x2000) * 4 == 20 <==> old3 == 0)
  {
  }

  /** The near form's word, field by field: an 18-bit immediate is or-ed over imm14's kept top bits and b40. */
  lemma TestKept(op: Word)
    ensures WAnd(op, 0xFFFF_8000) == op / 0x8000 * 0x8000
  {
    hide And, IsPow2;
    PowersOfTwo();
    AndField(0, op / 0x8000, op % 0x8000, 0x8000, 0x2_0000);
  }

  lemma TestHeadInside(op: Word, x: nat)
    requires x < 0x4_0000
    ensures WOr(WAnd(op, 0xFFFF_8000), Shl(x, 32)) == Or(op / 0x8000, x / 0x400) * 0x8000 + x % 0x400 * 32
  {
    hide And, Or, IsPow2;
    PowersOfTwo();
    var top, head, tail := op / 0x8000, x / 0x400, x % 0x400 * 32;
    TestKept(op);
    OrSplit(top, 0, head, tail, 0x8000);
    OrZero(tail);
    assert Shl(x, 32) == head * 0x8000 + tail;
  }

  lemma TestUpperInside(top: nat, head: nat)
    requires top < 0x2_0000 && head < 0x100
    ensures Or(top, head) == top / 512 * 512 + Or(top / 16 % 32, head / 16) * 16 + Or(top % 16, head % 16) < 0x2_0000
    ensures Or(top / 16 % 32, head / 16) < 32 && Or(top % 16, head % 16) < 16
  {
    hide And, Or, IsPow2;
    PowersOfTwo();
    var up := top / 16;
    OrSplit(up, top % 16, head / 16, head % 16, 16);
    OrSplit(up / 32, up % 32, 0, head / 16, 32);
    OrZero(up / 32);
    OrBound(up % 32, head / 16, 32);
    OrBound(top % 16, head % 16, 16);
    OrBound(top, head, 0x2_0000);
    assert up / 32 == top / 512;
  }

  /** The bit `b40 | imm[17..14]`, with the old b5. */
  function SpilledBit(op: Word, x: nat): nat { op / 0x8000_0000 * 32 + Or(op / 0x8_0000 % 32, x / 0x4000) }

  /** The distance `(old[13..10] | imm[13..10]) : imm[9..0]`. */
  function SpilledOffset(op: Word, x: nat): int
  {
    Signed(Or(op / 0x8000 % 16, x / 0x400 % 16) * 0x400 + x % 0x400, 0x2000) * 4
  }

  /** The near form tests the spilled bit and jumps by the spilled distance. */
  lemma TestWordInside(op: Word, x: nat)
    requires x < 0x4_0000 && Decode(op).Tbz?
    ensures var i := Decode(op);
      Decode(TestWord(WAnd(op, 0xFFFF_8000), x, op % 32)) == Tbz(SpilledBit(op, x), i.isSet, i.rt, SpilledOffset(op, x))
  {
    hide And, Or, WAnd, WOr, Shl, Decode, IsPow2, Signed;
    PowersOfTwo();
    TestFields(op);
    TestHeadInside(op, x);
    var top, head := op / 0x8000, x / 0x400;
    TestUpperInside(top, head);
    OrBound(top, head, 0x2_0000);
    var g := Or(top, head);
    var top8, b40, low := op / 0x100_0000, Or(op / 0x8_0000 % 32, x / 0x4000), Or(top % 16, head % 16);
    UpperParts(op, x);
    OrFields(g * 0x400 + x % 0x400, op % 32, 32);
    TestSum(g, top8, b40, low, x % 0x400);
    DecodeTest(top8, b40, low * 0x400 + x % 0x400, op % 32);
  }

  lemma TestSum(g: nat, top8: nat, b40: nat, low: nat, tail: nat)
    requires g == top8 * 512 + b40 * 16 + low && low < 16 && tail < 0x400
    ensures (g * 0x400 + tail) * 32 == top8 * 0x100_0000 + (b40 * 0x4000 + (low * 0x400 + tail)) * 32
    ensures low * 0x400 + tail < 0x4000
  {
  }

  lemma UpperParts(op: Word, x: nat)
    ensures op / 0x8000 / 512 == op / 0x100_0000 && op / 0x8000 / 16 == op / 0x8_0000 && x / 0x400 / 16 == x / 0x4000
    ensures op / 0x100_0000 / 128 == op / 0x8000_0000
  {
  }

  function FarInstrs(rd: nat, value: nat): (instrs: seq<Instr>)
    ensures |instrs| == 3
  {
    [Movz(rd, 0, value % 0x1_0000), Movk(rd, 1, value / 0x1_0000 % 0x1_0000), Movk(rd, 2, value / 0x1_0000_0000)]
  }

  lemma MoveWord(head: nat, imm: nat, rd: nat)
    requires head * 0x20_0000 + 0x20_0000 <= 0x1_0000_0000 && imm < 0x1_0000 && rd < 32
    ensures WOr(WOr(head * 0x20_0000, Shl(imm, 32)), rd) == head * 0x20_0000 + imm * 32 + rd
  {
    hide And, WOr, IsPow2;
    PowersOfTwo();
    assert Shl(imm, 32) == imm * 32;
    OrFields(head, imm * 32, 0x20_0000);
    OrFields(head * 0x1_0000 + imm, rd, 32);
  }

  lemma MoveHeads()
    ensures WOr(0xF280_0000, 0x0020_0000) == 0xF2A0_0000
    ensures WOr(0xF280_0000, 0x0040_0000) == 0xF2C0_0000
  {
    hide And, WOr, IsPow2;
    PowersOfTwo();
    OrFields(0x3CA, 0x20_0000, 0x40_0000);
    OrFields(0x1E5, 0x40_0000, 0x80_0000);
  }

  lemma MovImm48Words(rd: Word, lo: nat, mid: nat, hi: nat)
    requires rd < 32 && lo < 0x1_0000 && mid < 0x1_0000 && hi < 0x1_0000
    ensures Decode(WOr(WOr(0xD280_0000, Shl(lo, 32)), rd)) == Movz(rd, 0, lo)
    ensures Decode(WOr(WOr(WOr(0xF280_0000, 0x0020_0000), Shl(mid, 32)), rd)) == Movk(rd, 1, mid)
    ensures Decode(WOr(WOr(WOr(0xF280_0000, 0x0040_0000), Shl(hi, 32)), rd)) == Movk(rd, 2, hi)
  {
    hide And, WOr, Decode, Shl;
    MoveHeads();
    MoveWord(0xD280_0000 / 0x20_0000, lo, rd);
    MoveWord(0xF2A0_0000 / 0x20_0000, mid, rd);
    MoveWord(0xF2C0_0000 / 0x20_0000, hi, rd);
    DecodeMove(0, lo, rd);
    DecodeMove(1, mid, rd);
    DecodeMove(2, hi, rd);
  }

  /** The three moves materialize the value exactly when it fits 48 bits. */
  lemma MovImm48Decodes(rd: Word, value: nat)
    requires rd < 32
    ensures DecodeAll(MovImm48(rd, value)) == FarInstrs(rd, value) <==> value < 0x1_0000_0000_0000
  {
    hide And, WOr, Decode, Shl;
    var lo, mid, hi := value % 0x1_0000, value / 0x1_0000 % 0x1_0000, value / 0x1_0000_0000 % 0x1_0000;
    MovImm48Words(rd, lo, mid, hi);
    var instrs := [Movz(rd, 0, lo), Movk(rd, 1, mid), Movk(rd, 2, hi)];
    assert DecodeAll(MovImm48(rd, value)) == instrs;
    assert instrs[..2] == FarInstrs(rd, value)[..2] && instrs[2].imm == hi;
    assert FarInstrs(rd, value)[2].imm == value / 0x1_0000_0000;
    assert (value / 0x1_0000_0000 == hi) == (value < 0x1_0000_0000_0000);
    if value < 0x1_0000_0000_0000 {
      assert instrs == FarInstrs(rd, value);
    }
  }

  lemma BrDecodes()
    ensures Decode(BR_X16) == Br(16)
    ensures Decode(LDR_X16_LITERAL_8) == LdrX(16, 8)
  {
  }
}
