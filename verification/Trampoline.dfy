/** The trampoline's layout, and exactly when each displaced instruction survives re-encoding. */
module Trampoline {
  import opened Bits
  import opened Arm
  import opened Relocation
  import opened PlanDecoding
  import opened WordDecoding

  const LIMIT48 := 0x1_0000_0000_0000

  /** The displaced words at `entry`, and the page their trampoline goes to. */
  datatype Displaced = Displaced(entry: nat, ops: seq<Word>, base: nat) {
    function Win(): Window { Window(entry, entry + 4 * |ops|) }

    predicate Accepted() { PlanAll(ops, entry).Ok? }

    /** Both code ranges lie in the address space. The entry patch displaces one or four words. */
    predicate Placed()
    {
      Accepted() && |ops| <= 1024 && entry + 4 * |ops| < USIZE && base + 4 * Pos(|ops|) + 16 <= USIZE
    }

    function Plans(): (plans: seq<Plan>)
      requires Accepted()
      ensures |plans| == |ops|
    {
      PlanAll(ops, entry).value
    }

    /** Word offset of displaced instruction `k`; `Pos(|ops|)` is where the jump back starts. */
    function Pos(k: nat): nat
      requires Accepted() && k <= |ops|
    {
      Total(Plans()[..k], Win())
    }

    function Home(k: nat): nat
      requires Accepted() && k <= |ops|
    {
      base + 4 * Pos(k)
    }

    /** Where a call displaced just before instruction `k` is told to return to. */
    function Resume(k: nat): nat
      requires Accepted() && k <= |ops|
    {
      if k < |ops| then Home(k) else entry + 4 * k
    }

    function Emitted(i: nat): (words: seq<Word>)
      requires Accepted() && i < |ops|
      ensures |words| == PlanSize(Plans()[i], Win())
    {
      ValidTargets(this);
      EmitOp(Plans()[i], i, Pos(i), Layout(Plans(), Win()), Win(), base)
    }

    function Words(): seq<Word>
      requires Accepted() && entry + 4 * |ops| < USIZE
    {
      ValidTargets(this);
      TrampolineWords(Plans(), Win(), base)
    }

    function Delta(i: nat, target: int): int
      requires Accepted() && i < |ops| && Win().Contains(target)
    {
      Pos(TargetIndex(target, Win())) - Pos(i)
    }

    function Target(i: nat, off: int): int { TargetOf(entry + 4 * i, off) }

    /** The instructions that mean at the trampoline what instruction `i` means at the entry;
        empty when nothing the emitter can write does. */
    ghost function Intended(i: nat): seq<Instr>
      requires Accepted() && i < |ops|
    {
      match Decode(ops[i])
      case B(off) =>
        var t := Target(i, off);
        if Win().Contains(t) then [B(4 * Delta(i, t))] else Far(t)
      case Bl(off) =>
        var t := Target(i, off);
        if Win().Contains(t) then [Bl(4 * Delta(i, t))]
        else FarInstrs(16, t) + (FarInstrs(30, Resume(i + 1)) + [Br(16)])
      case BCond(cond, off) =>
        var t := Target(i, off);
        if Win().Contains(t) then [BCond(cond, 4 * Delta(i, t))]
        else if cond < 14 then [BCond(Opposite(cond), 20)] + Far(t)
        else Far(t)
      case Cbz(wide, nonzero, rt, off) =>
        var t := Target(i, off);
        if Win().Contains(t) then [Cbz(wide, nonzero, rt, 4 * Delta(i, t))]
        else [Cbz(wide, !nonzero, rt, 20)] + Far(t)
      case Tbz(bit, isSet, rt, off) =>
        var t := Target(i, off);
        if Win().Contains(t) then [Tbz(bit, isSet, rt, 4 * Delta(i, t))]
        else [Tbz(bit, !isSet, rt, 20)] + Far(t)
      case LdrX(_, _) => []
      case PcRelative(_) => []
      case other => [other]
    }

    /** What a caller must check of instruction `i` before displacing it. */
    predicate Relocatable(i: nat)
      requires Accepted() && i < |ops|
    {
      match Decode(ops[i])
      case B(off) => Reachable(Target(i, off))
      case Bl(off) => Win().Contains(Target(i, off)) || (Target(i, off) < LIMIT48 && Resume(i + 1) < LIMIT48)
      case BCond(cond, off) => Win().Contains(Target(i, off)) || (cond < 14 && Target(i, off) < LIMIT48)
      case Cbz(_, _, _, off) => Reachable(Target(i, off))
      case Tbz(_, _, _, off) =>
        var t := Target(i, off);
        if Win().Contains(t) then off >= 0 || (ops[i] / 0x8_0000 % 16 == 15 && Delta(i, t) >= -1024)
        else ops[i] / 0x1_0000 % 8 == 0 && t < LIMIT48
      case LdrX(_, _) => false
      case PcRelative(_) => false
      case _ => ops[i] / 0x100_0000 != 0x55
    }

    predicate Reachable(t: int) { Win().Contains(t) || t < LIMIT48 }
  }

  function Opposite(cond: nat): nat { if cond % 2 == 0 then cond + 1 else cond - 1 }

  function Far(target: int): (instrs: seq<Instr>)
    requires target >= 0
    ensures |instrs| == 4
  {
    FarInstrs(16, target) + [Br(16)]
  }

  lemma ValidTargets(d: Displaced)
    requires d.Accepted()
    ensures forall p :: p in PlanAll(d.ops, d.entry).value ==> ValidPlan(p)
  {
    hide PlanOp, ValidPlan;
    var plans := PlanAll(d.ops, d.entry).value;
    forall p | p in plans ensures ValidPlan(p) {
      var i :| 0 <= i < |plans| && plans[i] == p;
      assert PlanOp(d.ops[i], d.entry + i * 4) == Ok(p);
      PlannedTarget(d.ops[i], d.entry + i * 4);
    }
  }

  lemma PlannedTarget(op: Word, pc: nat)
    ensures PlanOp(op, pc).Ok? ==> ValidPlan(PlanOp(op, pc).value)
  {
    hide And, Imm26, Imm19, Imm14, WAnd;
  }

  // Layout

  lemma {:induction false} LayoutAt(plans: seq<Plan>, window: Window, k: nat)
    requires k < |plans|
    ensures Layout(plans, window)[k] == Total(plans[..k], window)
    decreases |plans|
  {
    var n := |plans| - 1;
    if k < n {
      LayoutAt(plans[..n], window, k);
      assert plans[..n][..k] == plans[..k];
    }
  }

  lemma {:induction false} PosGrows(d: Displaced, j: nat, k: nat)
    requires d.Accepted() && j <= k <= |d.ops|
    ensures d.Pos(j) + (k - j) <= d.Pos(k) <= d.Pos(j) + 7 * (k - j)
    decreases k - j
  {
    if j < k {
      PosGrows(d, j, k - 1);
      PosNext(d, k - 1);
    }
  }

  lemma PosNext(d: Displaced, k: nat)
    requires d.Accepted() && k < |d.ops|
    ensures d.Pos(k + 1) == d.Pos(k) + PlanSize(d.Plans()[k], d.Win())
  {
    assert d.Plans()[..k + 1][..k] == d.Plans()[..k];
  }

  lemma DeltaBounds(d: Displaced, i: nat, t: int)
    requires d.Placed() && i < |d.ops| && d.Win().Contains(t)
    ensures var j := TargetIndex(t, d.Win());
      && (j >= i ==> 0 <= d.Delta(i, t) <= 7168) && (j < i ==> -7168 <= d.Delta(i, t) < 0)
  {
    var j := TargetIndex(t, d.Win());
    if j >= i {
      PosGrows(d, i, j);
    } else {
      PosGrows(d, j, i);
    }
  }

  /** A branch into the window has not wrapped around the address space. */
  lemma OffsetInside(d: Displaced, i: nat, off: int)
    requires d.Placed() && i < |d.ops| && -0x1000_0000 <= off < 0x1000_0000 && off % 4 == 0
    requires d.Win().Contains(d.Target(i, off))
    ensures d.Target(i, off) == d.entry + 4 * i + off
    ensures TargetIndex(d.Target(i, off), d.Win()) == i + off / 4
  {
    var sum := d.entry + 4 * i + off;
    assert sum < 0 ==> d.Target(i, off) == sum + USIZE;
    assert sum >= USIZE ==> d.Target(i, off) == sum - USIZE;
  }

  lemma {:induction false} EmitFirstLength(plans: seq<Plan>, count: nat, window: Window, base: nat)
    requires count <= |plans| && window.end == window.start + 4 * |plans|
    requires forall p :: p in plans ==> ValidPlan(p)
    ensures |EmitFirst(plans, count, window, base)| == Total(plans[..count], window)
  {
    hide EmitOp;
    if count > 0 {
      EmitFirstLength(plans, count - 1, window, base);
      assert plans[..count][..count - 1] == plans[..count - 1];
    }
  }

  // Exactness, family by family

  lemma SameParts<T>(a: seq<T>, b: seq<T>, c: seq<T>, e: seq<T>)
    requires |a| == |c|
    ensures a + b == c + e <==> a == c && b == e
  {
    if a + b == c + e {
      assert a == (a + b)[..|a|] && c == (c + e)[..|c|];
      assert b == (a + b)[|a|..] && e == (c + e)[|c|..];
    }
  }

  lemma DecodeAppend(a: seq<Word>, b: seq<Word>)
    ensures DecodeAll(a + b) == DecodeAll(a) + DecodeAll(b)
  {
    hide Decode;
  }

  lemma FarExact(t: nat)
    ensures DecodeAll(FarJump(t)) == Far(t) <==> t < LIMIT48
  {
    hide Decode, WOr, FarInstrs;
    MovImm48Decodes(16, t);
    BrDecodes();
    DecodeAppend(MovImm48(16, t), [BR_X16]);
    assert DecodeAll([BR_X16]) == [Br(16)];
    SameParts(DecodeAll(MovImm48(16, t)), [Br(16)], FarInstrs(16, t), [Br(16)]);
  }

  lemma SkipExact(w: Word, skip: Instr, t: nat)
    ensures DecodeAll([w] + FarJump(t)) == [skip] + Far(t) <==> Decode(w) == skip && t < LIMIT48
  {
    hide Decode, WOr, FarInstrs;
    DecodeAppend([w], FarJump(t));
    FarExact(t);
    assert DecodeAll([w]) == [Decode(w)];
    SameParts([Decode(w)], DecodeAll(FarJump(t)), [skip], Far(t));
  }

  lemma CallExact(t: nat, ret: nat)
    ensures DecodeAll(MovImm48(16, t) + MovImm48(30, ret) + [BR_X16])
            == FarInstrs(16, t) + (FarInstrs(30, ret) + [Br(16)])
            <==> t < LIMIT48 && ret < LIMIT48
  {
    hide Decode, WOr, FarInstrs;
    var m, r := MovImm48(16, t), MovImm48(30, ret);
    MovImm48Decodes(16, t);
    MovImm48Decodes(30, ret);
    BrDecodes();
    assert m + r + [BR_X16] == m + (r + [BR_X16]);
    DecodeAppend(m, r + [BR_X16]);
    DecodeAppend(r, [BR_X16]);
    assert DecodeAll([BR_X16]) == [Br(16)];
    SameParts(DecodeAll(r), [Br(16)], FarInstrs(30, ret), [Br(16)]);
    SameParts(DecodeAll(m), DecodeAll(r) + [Br(16)], FarInstrs(16, t), FarInstrs(30, ret) + [Br(16)]);
  }

  lemma PlanOf(d: Displaced, i: nat)
    requires d.Accepted() && i < |d.ops|
    ensures PlanByDecoding(d.ops[i], d.entry + 4 * i) == Ok(d.Plans()[i])
  {
    hide Decode, PlanOp, PlanByDecoding;
    PlanAgreesWithDecoding(d.ops[i], d.entry + i * 4);
  }

  /** The word displacement `emit_op` uses for a target inside the window. */
  lemma DeltaOf(d: Displaced, i: nat, t: int)
    requires d.Placed() && i < |d.ops| && d.Win().Contains(t)
    ensures Layout(d.Plans(), d.Win())[TargetIndex(t, d.Win())] - d.Pos(i) == d.Delta(i, t)
    ensures -7168 <= d.Delta(i, t) <= 7168
  {
    DeltaBounds(d, i, t);
    LayoutAt(d.Plans(), d.Win(), TargetIndex(t, d.Win()));
  }

  lemma ResumeOf(d: Displaced, i: nat)
    requires d.Accepted() && i < |d.ops|
    ensures var offsets := Layout(d.Plans(), d.Win());
      d.Resume(i + 1) == if i + 1 < |offsets| then d.base + offsets[i + 1] * 4 else d.Win().end
  {
    if i + 1 < |d.ops| {
      LayoutAt(d.Plans(), d.Win(), i + 1);
    }
  }

  lemma SingleExact(w: Word, instr: Instr)
    ensures DecodeAll([w]) == [instr] <==> Decode(w) == instr
  {
    hide Decode;
    assert DecodeAll([w]) == [Decode(w)];
  }

  /** What `emit_op` appends, with the layout's table replaced by `Pos` and `Resume`. */
  lemma EmittedWords(d: Displaced, i: nat)
    requires d.Placed() && i < |d.ops| && ValidPlan(d.Plans()[i])
    ensures d.Emitted(i) ==
      match d.Plans()[i]
      case Verbatim(op) => [op]
      case PB(t) => if d.Win().Contains(t) then [BEnc(0x05, d.Delta(i, t))] else FarJump(t)
      case PBl(t) =>
        if d.Win().Contains(t) then [BEnc(0x25, d.Delta(i, t))]
        else MovImm48(16, t) + MovImm48(30, d.Resume(i + 1)) + [BR_X16]
      case PBCond(cond, inverted, t) =>
        if d.Win().Contains(t) then
          [CondWord(WAnd(AsU32(d.Delta(i, t)), 0x7_FFFF), if inverted then WXor(cond, 1) else cond)]
        else [CondWord(5, if inverted then cond else WXor(cond, 1))] + FarJump(t)
      case PCbz(op, rt, t) =>
        if d.Win().Contains(t) then
          [CompareWord(WAnd(op, 0xFF00_0000), WAnd(AsU32(d.Delta(i, t)), 0x7_FFFF), rt)]
        else [CompareWord(WAnd(WXor(op, 0x0100_0000), 0xFF00_001F), 5, rt)] + FarJump(t)
      case PTbz(op, rt, t) =>
        if d.Win().Contains(t) then
          [TestWord(WAnd(op, 0xFFFF_8000), WAnd(AsU32(d.Delta(i, t)), 0x3_FFFF), rt)]
        else [TestWord(WAnd(WXor(op, 0x0100_0000), 0xFFFF_001F), 5, rt)] + FarJump(t)
  {
    hide And, Or, WAnd, WOr, WXor, Shl, BEnc, FarJump, MovImm48, Layout, Total, AsU32, TargetIndex;
    hide Displaced.Delta, Displaced.Resume, Displaced.Pos;
    ResumeOf(d, i);
    if !d.Plans()[i].Verbatim? && d.Win().Contains(d.Plans()[i].target) {
      DeltaOf(d, i, d.Plans()[i].target);
    }
  }

  lemma PlanOfBranch(d: Displaced, i: nat)
    requires d.Accepted() && i < |d.ops| && BranchInstr(Decode(d.ops[i]))
    ensures var op, instr, plan := d.ops[i], Decode(d.ops[i]), d.Plans()[i];
      var t := d.Target(i, instr.off);
      && 0 <= t < USIZE
      && (instr.B? ==> plan == PB(t))
      && (instr.Bl? ==> plan == PBl(t))
      && (instr.BCond? ==> plan.PBCond? && plan.cond == instr.cond && !plan.inverted && plan.target == t)
      && (instr.Cbz? ==> plan.PCbz? && plan.op == op && plan.rt == instr.rt && plan.target == t)
      && (instr.Tbz? ==> plan.PTbz? && plan.op == op && plan.rt == instr.rt && plan.target == t)
  {
    PlanOf(d, i);
    hide Decode;
  }

  lemma ExactBranch(d: Displaced, i: nat)
    requires d.Placed() && i < |d.ops| && Decode(d.ops[i]).B?
    ensures DecodeAll(d.Emitted(i)) == d.Intended(i) <==> d.Relocatable(i)
  {
    hide Decode, DecodeAll, BEnc, FarJump, Far, Displaced.Emitted, PlanByDecoding;
    PlanOfBranch(d, i);
    EmittedWords(d, i);
    var t := d.Target(i, Decode(d.ops[i]).off);
    FarExact(t);
    if d.Win().Contains(t) {
      var delta := d.Delta(i, t);
      DeltaOf(d, i, t);
      BranchWord(delta);
      SingleExact(BEnc(0x05, delta), B(4 * delta));
    }
  }

  lemma ExactCall(d: Displaced, i: nat)
    requires d.Placed() && i < |d.ops| && Decode(d.ops[i]).Bl?
    ensures DecodeAll(d.Emitted(i)) == d.Intended(i) <==> d.Relocatable(i)
  {
    hide Decode, DecodeAll, BEnc, MovImm48, FarInstrs, Displaced.Emitted;
    PlanOfBranch(d, i);
    EmittedWords(d, i);
    var t := d.Target(i, Decode(d.ops[i]).off);
    CallExact(t, d.Resume(i + 1));
    if d.Win().Contains(t) {
      var delta := d.Delta(i, t);
      DeltaOf(d, i, t);
      BranchWord(delta);
      SingleExact(BEnc(0x25, delta), Bl(4 * delta));
    }
  }

  lemma CondBelow16(op: Word)
    ensures Decode(op).BCond? ==> Decode(op).cond < 16
  {
  }

  lemma ExactConditional(d: Displaced, i: nat)
    requires d.Placed() && i < |d.ops| && Decode(d.ops[i]).BCond?
    ensures DecodeAll(d.Emitted(i)) == d.Intended(i) <==> d.Relocatable(i)
  {
    hide Decode, DecodeAll, And, WAnd, WXor, CondWord, AsU32, FarJump, Far, Displaced.Emitted;
    PlanOfBranch(d, i);
    EmittedWords(d, i);
    CondBelow16(d.ops[i]);
    var cond, t := Decode(d.ops[i]).cond, d.Target(i, Decode(d.ops[i]).off);
    if d.Win().Contains(t) {
      var delta := d.Delta(i, t);
      DeltaOf(d, i, t);
      DeltaFields(delta);
      CondWordDecodes(delta, cond);
      SingleExact(CondWord(delta % 0x8_0000, cond), BCond(cond, 4 * delta));
    } else {
      FlipCond(cond);
      CondWordDecodes(5, Opposite(cond));
      SkipExact(CondWord(5, Opposite(cond)), BCond(Opposite(cond), 20), t);
    }
  }

  lemma ExactCompare(d: Displaced, i: nat)
    requires d.Placed() && i < |d.ops| && Decode(d.ops[i]).Cbz?
    ensures DecodeAll(d.Emitted(i)) == d.Intended(i) <==> d.Relocatable(i)
  {
    hide Decode, DecodeAll, WAnd, WXor, CompareWord, AsU32, FarJump, Far, Displaced.Emitted;
    PlanOfBranch(d, i);
    EmittedWords(d, i);
    var op, instr := d.ops[i], Decode(d.ops[i]);
    CompareFields(op);
    var t := d.Target(i, instr.off);
    if d.Win().Contains(t) {
      var delta := d.Delta(i, t);
      DeltaOf(d, i, t);
      DeltaFields(delta);
      CompareWordInside(op, delta);
      SingleExact(CompareWord(WAnd(op, 0xFF00_0000), delta % 0x8_0000, op % 32),
                  Cbz(instr.wide, instr.nonzero, instr.rt, 4 * delta));
    } else {
      CompareWordOutside(op);
      SkipExact(CompareWord(WAnd(WXor(op, 0x0100_0000), 0xFF00_001F), 5, op % 32),
                Cbz(instr.wide, !instr.nonzero, instr.rt, 20), t);
    }
  }

  lemma ExactTest(d: Displaced, i: nat)
    requires d.Placed() && i < |d.ops| && Decode(d.ops[i]).Tbz?
    ensures DecodeAll(d.Emitted(i)) == d.Intended(i) <==> d.Relocatable(i)
  {
    hide Decode, DecodeAll, WAnd, WXor, TestWord, AsU32, FarJump, Far, Displaced.Emitted;
    PlanOfBranch(d, i);
    EmittedWords(d, i);
    var op, instr := d.ops[i], Decode(d.ops[i]);
    TestFields(op);
    var t := d.Target(i, instr.off);
    if d.Win().Contains(t) {
      var delta := d.Delta(i, t);
      DeltaOf(d, i, t);
      DeltaFields(delta);
      TestInside(d, i);
      SingleExact(TestWord(WAnd(op, 0xFFFF_8000), delta % 0x4_0000, op % 32),
                  Tbz(instr.bit, instr.isSet, instr.rt, 4 * delta));
    } else {
      TestWordOutside(op);
      SkipExact(TestWord(WAnd(WXor(op, 0x0100_0000), 0xFFFF_001F), 5, op % 32),
                Tbz(instr.bit, !instr.isSet, instr.rt, 20), t);
    }
  }

  /** A test branch inside the window keeps its bit and reaches its target when it goes forward,
      or when it goes back to a bit whose number already has the spilled ones. */
  lemma TestInside(d: Displaced, i: nat)
    requires d.Placed() && i < |d.ops| && Decode(d.ops[i]).Tbz?
    requires d.Win().Contains(d.Target(i, Decode(d.ops[i]).off))
    ensures var op, instr := d.ops[i], Decode(d.ops[i]);
      var delta := d.Delta(i, d.Target(i, instr.off));
      (Decode(TestWord(WAnd(op, 0xFFFF_8000), delta % 0x4_0000, op % 32))
         == Tbz(instr.bit, instr.isSet, instr.rt, 4 * delta))
      == d.Relocatable(i)
  {
    hide Decode, And, Or, WAnd, WOr, TestWord, Displaced.Relocatable, Displaced.Pos, PlanAll, TargetOf;
    var op, instr := d.ops[i], Decode(d.ops[i]);
    var t := d.Target(i, instr.off);
    TestFields(op);
    OffsetInside(d, i, instr.off);
    DeltaBounds(d, i, t);
    RelocatableTest(d, i);
    var delta := d.Delta(i, t);
    TestWordInside(op, delta % 0x4_0000);
    ShortTest(op, instr.off / 4);
    SpilledFields(op / 0x8_0000 % 32, op / 0x8000 % 16, instr.off / 4, delta);
    TestNumbers(op);
  }

  lemma TestNumbers(op: Word)
    ensures op / 0x8000_0000 == op / 0x100_0000 / 128 && op / 0x8_0000 % 16 == op / 0x8_0000 % 32 % 16
  {
  }

  lemma RelocatableTest(d: Displaced, i: nat)
    requires d.Placed() && i < |d.ops| && Decode(d.ops[i]).Tbz?
    requires d.Win().Contains(d.Target(i, Decode(d.ops[i]).off))
    ensures var op, off := d.ops[i], Decode(d.ops[i]).off;
      d.Relocatable(i) == (off >= 0 || (op / 0x8_0000 % 16 == 15 && d.Delta(i, d.Target(i, off)) >= -1024))
  {
    hide Decode;
  }

  lemma ShortTest(op: Word, was: int)
    requires -1024 <= was < 1024 && Signed(op / 32 % 0x4000, 0x2000) == was
    ensures op / 0x8000 % 16 == if was >= 0 then 0 else 15
  {
    var f := op / 32 % 0x4000;
    assert op / 0x8000 % 16 == f / 0x400;
  }

  /** The two fields the 18-bit immediate is or-ed over, for a short displacement `was` now `delta` words. */
  lemma SpilledFields(b40: nat, was4: nat, was: int, delta: int)
    requires b40 < 32 && was4 < 16 && -1024 <= was < 1024 && -7168 <= delta <= 7168
    requires was >= 0 ==> was4 == 0 && delta >= 0
    requires was < 0 ==> was4 == 15 && delta < 0
    ensures var x := delta % 0x4_0000;
      (Or(b40, x / 0x4000) == b40 && Signed(Or(was4, x / 0x400 % 16) * 0x400 + x % 0x400, 0x2000) == delta)
      == (was >= 0 || (b40 % 16 == 15 && delta >= -1024))
  {
    hide And, Or, IsPow2, Signed;
    if was >= 0 {
      KeptForward(b40, delta);
    } else {
      SpiltBackward(b40, delta);
    }
  }

  lemma KeptForward(b40: nat, delta: int)
    requires b40 < 32 && 0 <= delta <= 7168
    ensures var x := delta % 0x4_0000;
      Or(b40, x / 0x4000) == b40 && Signed(Or(0, x / 0x400 % 16) * 0x400 + x % 0x400, 0x2000) == delta
  {
    hide And, Or, IsPow2;
    OrZero(b40);
    OrZero(delta / 0x400);
    assert delta % 0x4_0000 == delta && delta / 0x4000 == 0 && delta / 0x400 % 16 == delta / 0x400;
  }

  lemma SpiltBackward(b40: nat, delta: int)
    requires b40 < 32 && -7168 <= delta < 0
    ensures var x := delta % 0x4_0000;
      (Or(b40, x / 0x4000) == b40 && Signed(Or(15, x / 0x400 % 16) * 0x400 + x % 0x400, 0x2000) == delta)
      == (b40 % 16 == 15 && delta >= -1024)
  {
    hide And, Or, IsPow2;
    var x := delta + 0x4_0000;
    BackwardParts(delta);
    OrFifteen(b40);
    OrFifteen(x / 0x400 % 16);
  }

  lemma BackwardParts(delta: int)
    requires -7168 <= delta < 0
    ensures var x := delta + 0x4_0000;
      delta % 0x4_0000 == x && x / 0x4000 == 15 && (x % 0x400 - 0x400 == delta <==> delta >= -1024)
  {
  }

  lemma OrFifteen(v: nat)
    requires v < 32
    ensures Or(v, 15) == Or(15, v) == v / 16 * 16 + 15
  {
    hide And, IsPow2;
    PowersOfTwo();
    AndSplit(v / 16, v % 16, 0, 15, 16);
    AndSplit(0, 15, v / 16, v % 16, 16);
    AndZero(v / 16);
    AndOnes(v % 16, 16);
    FifteenAnd(v % 16);
  }

  lemma FifteenAnd(v: nat)
    requires v < 16
    ensures And(15, v) == v
  {
    hide And;
    AndStep(15, v);
    AndStep(7, v / 2);
    AndStep(3, v / 4);
    AndStep(1, v / 8);
    AndZero(v / 16);
  }

  lemma ExactOther(d: Displaced, i: nat)
    requires d.Placed() && i < |d.ops| && !BranchInstr(Decode(d.ops[i]))
    ensures DecodeAll(d.Emitted(i)) == d.Intended(i) <==> d.Relocatable(i)
  {
    var op, plan := d.ops[i], d.Plans()[i];
    PlanOfOther(d, i);
    hide Decode, DecodeAll, And, WAnd, WXor, CondWord, AsU32, FarJump, Displaced.Emitted;
    EmittedWords(d, i);
    if plan.Verbatim? {
      SingleExact(op, Decode(op));
    } else if d.Win().Contains(plan.target) {
      var delta := d.Delta(i, plan.target);
      DeltaOf(d, i, plan.target);
      DeltaFields(delta);
      CondWordDecodes(delta, plan.cond);
      SingleExact(CondWord(delta % 0x8_0000, plan.cond), Plain(op));
    }
  }

  lemma PlanOfOther(d: Displaced, i: nat)
    requires d.Accepted() && i < |d.ops| && !BranchInstr(Decode(d.ops[i]))
    ensures var op, plan := d.ops[i], d.Plans()[i];
      && ValidPlan(plan)
      && (if Unallocated55(op) then plan.PBCond? && plan.cond < 16 && !plan.inverted && Decode(op) == Plain(op)
          else plan == Verbatim(op))
  {
    PlanOf(d, i);
    if Unallocated55(d.ops[i]) {
      Decode55(d.ops[i]);
    }
    hide Decode;
  }

  lemma Decode55(op: Word)
    requires op / 0x100_0000 == 0x55
    ensures Decode(op) == Plain(op)
  {
    UpperFields(0x55, op / 32 % 0x8_0000, op % 32);
  }

  predicate BranchInstr(i: Instr) { i.B? || i.Bl? || i.BCond? || i.Cbz? || i.Tbz? }

  /** Every accepted instruction is re-encoded as what it meant exactly when it is relocatable. */
  lemma RelocationExact(d: Displaced, i: nat)
    requires d.Placed() && i < |d.ops|
    ensures DecodeAll(d.Emitted(i)) == d.Intended(i) <==> d.Relocatable(i)
  {
    match Decode(d.ops[i])
    case B(_) => ExactBranch(d, i);
    case Bl(_) => ExactCall(d, i);
    case BCond(_, _) => ExactConditional(d, i);
    case Cbz(_, _, _, _) => ExactCompare(d, i);
    case Tbz(_, _, _, _) => ExactTest(d, i);
    case _ => ExactOther(d, i);
  }

  /** The plan of a branch moved to a new place: same family and operands, new target. */
  function Replanned(plan: Plan, word: Word, target: int): Plan
  {
    match plan
    case Verbatim(_) => Verbatim(word)
    case PB(_) => PB(target)
    case PBl(_) => PBl(target)
    case PBCond(cond, inverted, _) => PBCond(cond, inverted, target)
    case PCbz(_, rt, _) => PCbz(word, rt, target)
    case PTbz(_, rt, _) => PTbz(word, rt, target)
  }

  /** Planning a relocated in-window branch again, at its new address, gives the same family, condition or
      register, and the relocated target. */
  lemma ReplanInside(d: Displaced, i: nat)
    requires d.Placed() && i < |d.ops| && d.Relocatable(i) && BranchInstr(Decode(d.ops[i]))
    requires d.Win().Contains(d.Target(i, Decode(d.ops[i]).off))
    ensures |d.Emitted(i)| == 1
    ensures var word, j := d.Emitted(i)[0], TargetIndex(d.Target(i, Decode(d.ops[i]).off), d.Win());
      PlanOp(word, d.Home(i)) == Ok(Replanned(d.Plans()[i], word, d.Home(j)))
  {
    hide Decode, PlanOp, PlanAll, Displaced.Emitted, Displaced.Pos, Displaced.Relocatable, EmitOp;
    var t := d.Target(i, Decode(d.ops[i]).off);
    var j := TargetIndex(t, d.Win());
    RelocationExact(d, i);
    PlanOfBranch(d, i);
    var word := d.Emitted(i)[0];
    assert Decode(word) == DecodeAll(d.Emitted(i))[0] == d.Intended(i)[0];
    PlanAgreesWithDecoding(word, d.Home(i));
    PosGrows(d, i, |d.ops|);
    PosGrows(d, j, |d.ops|);
    MovedTarget(d.base, d.Pos(i), d.Pos(j), d.Pos(|d.ops|));
  }

  lemma MovedTarget(base: nat, p: nat, q: nat, n: nat)
    requires p <= n && q <= n && base + 4 * n < USIZE
    ensures TargetOf(base + 4 * p, 4 * (q - p)) == base + 4 * q
  {
  }
}
