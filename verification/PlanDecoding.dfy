/** What the mask tests of the planner accept, in terms of the architecture's own decoding. */
module PlanDecoding {
  import opened Bits
  import opened Arm
  import opened Relocation

  lemma LowMask(x: Word, h: nat, l: nat, p: nat)
    requires IsPow2(p) && l < p && x == h * p + l
    ensures And(x, p - 1) == l
  {
    AndLow(h, l, p);
  }

  lemma BranchTest(op: Word)
    ensures (WAnd(op, 0x7C00_0000) == 0x1400_0000 || WAnd(op, 0xFC00_0000) == 0x9400_0000)
            == (op / 0x400_0000 == 5 || op / 0x400_0000 == 0x25)
  {
    hide And;
    PowersOfTwo();
    AndField(op / 0x8000_0000, op / 0x400_0000 % 32, op % 0x400_0000, 0x400_0000, 32);
    AndField(0, op / 0x400_0000, op % 0x400_0000, 0x400_0000, 64);
  }

  lemma LowFields(op: Word)
    ensures WAnd(op, 0xF) == op % 16
    ensures WAnd(op, 0x1F) == op % 32
  {
    hide And;
    PowersOfTwo();
    LowMask(op, op / 16, op % 16, 16);
    LowMask(op, op / 32, op % 32, 32);
  }

  lemma PairMask(top8: Word)
    requires top8 < 256
    ensures WAnd(top8, 0xFE) == top8 / 2 * 2
  {
    hide And;
    PowersOfTwo();
    AndField(0, top8 / 2, top8 % 2, 2, 128);
  }

  lemma CompareMask(top8: Word)
    requires top8 < 256
    ensures WAnd(top8, 0x7E) == top8 / 2 % 64 * 2
  {
    hide And;
    PowersOfTwo();
    AndField(top8 / 128, top8 / 2 % 64, top8 % 2, 2, 64);
  }

  lemma AdrMask(top8: Word)
    requires top8 < 256
    ensures WAnd(top8, 0x9F) == top8 / 128 * 128 + top8 % 32
    ensures WAnd(top8, 0x1F) == top8 % 32
  {
    hide And;
    PowersOfTwo();
    var hi := top8 / 32;
    LowMask(top8, hi, top8 % 32, 32);
    AndSplit(hi, top8 % 32, 4, 31, 32);
    AndField(0, hi / 4, hi % 4, 4, 2);
    AndOnes(top8 % 32, 32);
    assert hi / 4 == top8 / 128;
  }

  /** Sign extension reads a field as two's complement, whatever is above it. */
  lemma Imm26Meaning(op: Word)
    ensures Imm26(op) == Signed(op % 0x400_0000, 0x200_0000) * 4
  {
    hide And;
    PowersOfTwo();
    var v := op % 0x400_0000;
    LowMask(op, op / 0x400_0000, v, 0x400_0000);
    assert Shl(v, 0x40) == v * 0x40;
  }

  lemma Imm19Meaning(op: Word)
    ensures Imm19(op) == Signed(op / 32 % 0x8_0000, 0x4_0000) * 4
  {
    hide And;
    PowersOfTwo();
    var v := op / 32 % 0x8_0000;
    LowMask(op / 32, op / 32 / 0x8_0000, v, 0x8_0000);
    assert Shl(v, 0x2000) == v * 0x2000;
  }

  /** The planner takes 18 bits for imm14; the shift discards the four above it. */
  lemma Imm14Meaning(op: Word)
    ensures Imm14(op) == Signed(op / 32 % 0x4000, 0x2000) * 4
  {
    hide And, Signed;
    PowersOfTwo();
    var mid := op / 32;
    var v := mid % 0x4_0000;
    LowMask(mid, mid / 0x4_0000, v, 0x4_0000);
    Residue14(mid);
    ShiftedField(v);
    SextField(v, v % 0x4000);
  }

  lemma Residue14(mid: nat)
    ensures mid % 0x4_0000 % 0x4000 == mid % 0x4000
  {
  }

  lemma ShiftedField(v: nat)
    requires v < 0x4_0000
    ensures Shl(v, 0x4_0000) == v % 0x4000 * 0x4_0000
  {
    var q, r := v / 0x4000, v % 0x4000;
    assert v * 0x4_0000 == q * 0x1_0000_0000 + r * 0x4_0000;
  }

  lemma SextField(v: Word, r: nat)
    requires r < 0x4000 && Shl(v, 0x4_0000) == r * 0x4_0000
    ensures Sext(v, 0x4_0000) == Signed(r, 0x2000)
  {
    hide Shl;
    assert (r - 0x4000) * 0x4_0000 / 0x4_0000 == r - 0x4000;
  }

  lemma TopMasks(top8: Word)
    requires top8 < 256
    ensures WAnd(top8, 0xFE) == 0x54 <==> top8 == 0x54 || top8 == 0x55
    ensures (WAnd(top8, 0x9F) == 0x10 || WAnd(top8, 0x9F) == 0x90) == (top8 % 32 == 0x10)
    ensures WAnd(top8, 0x1F) == 0x18 <==> top8 % 32 == 0x18
    ensures WAnd(top8, 0x7E) == 0x34 <==> top8 % 128 == 0x34 || top8 % 128 == 0x35
    ensures WAnd(top8, 0x7E) == 0x36 <==> top8 % 128 == 0x36 || top8 % 128 == 0x37
  {
    hide And;
    PairMask(top8);
    CompareMask(top8);
    AdrMask(top8);
    assert top8 % 128 == top8 / 2 % 64 * 2 + top8 % 2;
  }

  /** What the tests on the top byte select. */
  lemma TopTests(op: Word, top8: Word, pc: nat)
    requires top8 < 256
    ensures PlanByTop(op, top8, pc) ==
            if top8 == 0x54 || top8 == 0x55 then Ok(PBCond(WAnd(op, 0xF), false, TargetOf(pc, Imm19(op))))
            else if top8 % 32 == 0x10 then Err(AdrInPrologue)
            else if top8 % 32 == 0x18 then Err(LiteralInPrologue)
            else if top8 % 128 == 0x34 || top8 % 128 == 0x35 then Ok(PCbz(op, WAnd(op, 0x1F), TargetOf(pc, Imm19(op))))
            else if top8 % 128 == 0x36 || top8 % 128 == 0x37 then Ok(PTbz(op, WAnd(op, 0x1F), TargetOf(pc, Imm14(op))))
            else Ok(Verbatim(op))
  {
    hide And;
    TopMasks(top8);
  }

  ghost predicate Unallocated55(op: Word) { op / 0x100_0000 == 0x55 }

  /** The planner, restated over `Decode`: which branch, with which operands and target. */
  ghost function PlanByDecoding(op: Word, pc: nat): Result<Plan>
  {
    var top8 := op / 0x100_0000;
    match Decode(op)
    case B(off) => Ok(PB(TargetOf(pc, off)))
    case Bl(off) => Ok(PBl(TargetOf(pc, off)))
    case BCond(cond, off) => Ok(PBCond(cond, false, TargetOf(pc, off)))
    case Cbz(_, _, rt, off) => Ok(PCbz(op, rt, TargetOf(pc, off)))
    case Tbz(_, _, rt, off) => Ok(PTbz(op, rt, TargetOf(pc, off)))
    case _ =>
      if Unallocated55(op) then
        Ok(PBCond(op % 16, false, TargetOf(pc, Signed(op / 32 % 0x8_0000, 0x4_0000) * 4)))
      else if top8 % 32 == 0x10 then Err(AdrInPrologue)
      else if top8 % 32 == 0x18 then Err(LiteralInPrologue)
      else Ok(Verbatim(op))
  }

  /** `PlanOp` with every mask replaced by the field it selects. */
  ghost function PlanTable(op: Word, pc: nat): Result<Plan>
  {
    var top8 := op / 0x100_0000;
    if top8 / 4 == 0x25 then Ok(PBl(TargetOf(pc, Imm26(op))))
    else if top8 / 4 == 5 then Ok(PB(TargetOf(pc, Imm26(op))))
    else if top8 == 0x54 || top8 == 0x55 then Ok(PBCond(op % 16, false, TargetOf(pc, Imm19(op))))
    else if top8 % 32 == 0x10 then Err(AdrInPrologue)
    else if top8 % 32 == 0x18 then Err(LiteralInPrologue)
    else if top8 % 128 == 0x34 || top8 % 128 == 0x35 then Ok(PCbz(op, op % 32, TargetOf(pc, Imm19(op))))
    else if top8 % 128 == 0x36 || top8 % 128 == 0x37 then Ok(PTbz(op, op % 32, TargetOf(pc, Imm14(op))))
    else Ok(Verbatim(op))
  }

  lemma TopIsTable(op: Word, pc: nat)
    requires op / 0x100_0000 / 4 != 5 && op / 0x100_0000 / 4 != 0x25
    ensures PlanByTop(op, op / 0x100_0000, pc) == PlanTable(op, pc)
  {
    hide And;
    TopTests(op, op / 0x100_0000, pc);
    LowFields(op);
  }

  lemma BranchIsTable(op: Word, pc: nat)
    requires op / 0x100_0000 / 4 == 5 || op / 0x100_0000 / 4 == 0x25
    ensures PlanOp(op, pc) == PlanTable(op, pc)
  {
    hide And;
    assert op / 0x400_0000 == op / 0x100_0000 / 4 && op != PACIBSP;
    BranchTest(op);
  }

  lemma PlanIsTable(op: Word, pc: nat)
    ensures PlanOp(op, pc) == PlanTable(op, pc)
  {
    hide And;
    assert op / 0x400_0000 == op / 0x100_0000 / 4;
    if op / 0x400_0000 == 5 || op / 0x400_0000 == 0x25 {
      BranchIsTable(op, pc);
    } else if op == PACIBSP {
      assert op / 0x100_0000 == 0xD5;
    } else {
      BranchTest(op);
      TopIsTable(op, pc);
    }
  }

  lemma TableIsDecoding(op: Word, pc: nat)
    ensures PlanTable(op, pc) == PlanByDecoding(op, pc)
  {
    hide And;
    var top8 := op / 0x100_0000;
    assert op / 0x400_0000 == top8 / 4;
    if top8 / 4 == 5 || top8 / 4 == 0x25 {
      Imm26Meaning(op);
    } else if top8 % 128 == 0x36 || top8 % 128 == 0x37 {
      Imm14Meaning(op);
    } else {
      Imm19Meaning(op);
    }
  }

  /** The planner classifies every word exactly as the architecture decodes it, except that it takes the
      unallocated 0x55 words for conditional branches and refuses everything whose bits 28..24 are 11000. */
  lemma PlanAgreesWithDecoding(op: Word, pc: nat)
    ensures PlanOp(op, pc) == PlanByDecoding(op, pc)
  {
    hide And;
    PlanIsTable(op, pc);
    TableIsDecoding(op, pc);
  }
}
