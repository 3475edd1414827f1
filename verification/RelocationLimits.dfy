/** What the relocated code does where an instruction is accepted but not relocatable. */
module RelocationLimits {
  import opened Bits
  import opened Arm
  import opened Relocation
  import opened PlanDecoding
  import opened WordDecoding
  import opened Trampoline
  import opened Simulation

  // Targets and return addresses above 48 bits

  function Low48(x: int): nat { x % LIMIT48 }

  lemma LowHalfwords(q: nat, low: nat)
    requires low < LIMIT48
    ensures var t := q * LIMIT48 + low;
      && t % 0x1_0000 == low % 0x1_0000 && t / 0x1_0000 % 0x1_0000 == low / 0x1_0000 % 0x1_0000
      && t / 0x1_0000_0000 % 0x1_0000 == low / 0x1_0000_0000 % 0x1_0000
  {
    var t := q * LIMIT48 + low;
    assert t / 0x1_0000 == q * 0x1_0000_0000 + low / 0x1_0000;
    assert t / 0x1_0000_0000 == q * 0x1_0000 + low / 0x1_0000_0000;
  }

  lemma MovesTruncate(rd: Word, t: nat)
    ensures MovImm48(rd, t) == MovImm48(rd, Low48(t)) && (rd == 16 ==> FarJump(t) == FarJump(Low48(t)))
  {
    hide WOr, Shl;
    LowHalfwords(t / LIMIT48, Low48(t));
  }

  /** A far jump sitting `skip` words into the code of instruction `i` goes to the target's low 48 bits. */
  lemma JumpEmitted(env: Env, d: Displaced, i: nat, skip: nat, core: Core, t: nat)
    requires d.Placed() && i < |d.ops|
    requires |d.Emitted(i)| == skip + 4 && d.Emitted(i)[skip..] == FarJump(t)
    ensures d.Pos(i) + skip + 4 < |d.Words()|
    ensures Run(env, Tramp(d), At(d.Pos(i) + skip, core), 4) == Left(Low48(t), core.With(SCRATCH, Low48(t)))
  {
    hide Decode, Displaced.Words, Displaced.Pos, Displaced.Emitted, PlanAll, FarInstrs, MovImm48, Run, Far, FarJump;
    CodeLength(d);
    CodeAt(d, i);
    MovesTruncate(16, t);
    FarExact(Low48(t));
    var img, p := Tramp(d), d.Pos(i) + skip;
    forall j | 0 <= j < 4 ensures Decode(img.words[p + j]) == Far(Low48(t))[j] {
      assert d.Words()[d.Pos(i)..d.Pos(i + 1)][skip + j] == d.Emitted(i)[skip..][j];
      assert DecodeAll(FarJump(Low48(t)))[j] == Decode(FarJump(t)[j]);
    }
    FarRun(env, img, p, core, Low48(t));
  }

  /** Three moves carry 48 bits: a far jump above them goes to the target's low 48 bits. */
  lemma HighTargetLost(env: Env, d: Displaced, i: nat, core: Core)
    requires d.Placed() && i < |d.ops| && Decode(d.ops[i]).B?
    requires var t := d.Target(i, Decode(d.ops[i]).off); !d.Win().Contains(t) && t >= LIMIT48
    ensures d.Pos(i) < |d.Words()|
    ensures var t := d.Target(i, Decode(d.ops[i]).off);
      && Step(env, Entry(d), i, core) == Left(t, core)
      && Run(env, Tramp(d), At(d.Pos(i), core), 4) == Left(t % LIMIT48, core.With(SCRATCH, t % LIMIT48))
      && t % LIMIT48 != t
  {
    hide Decode, Displaced.Words, Displaced.Pos, PlanAll, FarInstrs, MovImm48, Run;
    PlanOfBranch(d, i);
    EmittedWords(d, i);
    BranchOffsets(d.ops[i]);
    EntryTarget(d, i, Decode(d.ops[i]).off);
    JumpEmitted(env, d, i, 0, core, d.Target(i, Decode(d.ops[i]).off));
  }

  /** A far call goes to the low 48 bits of its target, and returns to the low 48 bits of its return address. */
  lemma HighCallLost(env: Env, d: Displaced, i: nat, core: Core)
    requires d.Placed() && i < |d.ops| && Decode(d.ops[i]).Bl?
    requires !d.Win().Contains(d.Target(i, Decode(d.ops[i]).off))
    ensures d.Pos(i) < |d.Words()|
    ensures var t, ret := d.Target(i, Decode(d.ops[i]).off), d.Resume(i + 1);
      && Step(env, Entry(d), i, core) == Left(t, core.With(LINK, d.entry + 4 * (i + 1)))
      && Run(env, Tramp(d), At(d.Pos(i), core), 7)
         == Left(Low48(t), core.With(SCRATCH, Low48(t)).With(LINK, Low48(ret)))
      && (t >= LIMIT48 ==> Low48(t) != t) && (ret >= LIMIT48 ==> Low48(ret) != ret)
  {
    hide Decode, Displaced.Words, Displaced.Pos, Displaced.Emitted, PlanAll, FarInstrs, MovImm48, Run, Displaced.Resume, Step, Goto;
    PlanOfBranch(d, i);
    CallWords(d, i);
    BranchOffsets(d.ops[i]);
    var t, ret, p, img := d.Target(i, Decode(d.ops[i]).off), d.Resume(i + 1), d.Pos(i), Tramp(d);
    MovesTruncate(16, t);
    MovesTruncate(30, ret);
    CallExact(Low48(t), Low48(ret));
    CallEmitted(d, i, Low48(t), Low48(ret));
    CallSequence(env, img, p, core, Low48(t), Low48(ret));
    CallStep(env, d, i, core);
    LeavesFor(d, i, Decode(d.ops[i]).off, core.With(LINK, d.entry + 4 * (i + 1)));
  }

  lemma CallWords(d: Displaced, i: nat)
    requires d.Placed() && i < |d.ops| && Decode(d.ops[i]).Bl?
    requires !d.Win().Contains(d.Target(i, Decode(d.ops[i]).off))
    ensures d.Target(i, Decode(d.ops[i]).off) >= 0
    ensures d.Emitted(i) == MovImm48(16, d.Target(i, Decode(d.ops[i]).off)) + MovImm48(30, d.Resume(i + 1)) + [BR_X16]
  {
    hide Decode, Displaced.Pos, Displaced.Emitted, PlanAll, MovImm48, Displaced.Resume;
    PlanOfBranch(d, i);
    EmittedWords(d, i);
  }

  lemma CallStep(env: Env, d: Displaced, i: nat, core: Core)
    requires d.Placed() && i < |d.ops| && Decode(d.ops[i]).Bl?
    ensures Step(env, Entry(d), i, core)
            == Goto(Entry(d), (Entry(d).Pc(i) + Decode(d.ops[i]).off) % ADDRESS_SPACE, core.With(LINK, d.entry + 4 * (i + 1)))
  {
    hide Decode, Displaced.Words, Displaced.Pos, PlanAll, Goto;
  }

  lemma CallEmitted(d: Displaced, i: nat, t: nat, ret: nat)
    requires d.Placed() && i < |d.ops|
    requires DecodeAll(d.Emitted(i)) == FarInstrs(16, t) + (FarInstrs(30, ret) + [Br(16)])
    ensures d.Pos(i) + 7 < |d.Words()| && Decode(d.Words()[d.Pos(i) + 6]) == Br(16)
    ensures forall j :: 0 <= j < 3 ==> Decode(d.Words()[d.Pos(i) + j]) == FarInstrs(16, t)[j]
    ensures forall j :: 0 <= j < 3 ==> Decode(d.Words()[d.Pos(i) + 3 + j]) == FarInstrs(30, ret)[j]
  {
    hide Decode, Displaced.Words, Displaced.Pos, Displaced.Emitted, PlanAll, FarInstrs;
    CodeAt(d, i);
    CodeLength(d);
    var all, p, words := FarInstrs(16, t) + (FarInstrs(30, ret) + [Br(16)]), d.Pos(i), d.Words();
    forall j | 0 <= j < 7 ensures Decode(words[p + j]) == all[j] {
      assert words[p..d.Pos(i + 1)][j] == d.Emitted(i)[j];
    }
    forall j | 0 <= j < 3
      ensures Decode(words[p + j]) == FarInstrs(16, t)[j] && Decode(words[p + 3 + j]) == FarInstrs(30, ret)[j]
    {
      assert Decode(words[p + j]) == all[j] && Decode(words[p + (3 + j)]) == all[3 + j];
    }
    assert Decode(words[p + 6]) == all[6];
  }

  /** The test and the distance a far conditional branch skips its jump by. */
  ghost function Skipping(d: Displaced, i: nat): Instr
    requires i < |d.ops| && IsConditional(Decode(d.ops[i]))
  {
    match Decode(d.ops[i])
    case BCond(cond, _) => BCond(Opposite(cond), 20)
    case Cbz(wide, nonzero, rt, _) => Cbz(wide, !nonzero, rt, 20)
    case Tbz(bit, isSet, rt, _) => Tbz(bit, !isSet, rt, KeptSkip(d.ops[i]))
  }

  lemma FarConditional(d: Displaced, i: nat)
    requires d.Placed() && i < |d.ops| && IsConditional(Decode(d.ops[i]))
    requires !d.Win().Contains(d.Target(i, Decode(d.ops[i]).off))
    ensures |d.Emitted(i)| == 5 && Decode(d.Emitted(i)[0]) == Skipping(d, i)
    ensures d.Target(i, Decode(d.ops[i]).off) >= 0
    ensures d.Emitted(i)[1..] == FarJump(d.Target(i, Decode(d.ops[i]).off))
  {
    hide Decode, WAnd, WOr, WXor, CondWord, CompareWord, TestWord, FarJump, Displaced.Emitted, Displaced.Pos, PlanAll, KeptSkip;
    PlanOfBranch(d, i);
    EmittedWords(d, i);
    match Decode(d.ops[i])
    case BCond(cond, _) =>
      CondBelow16(d.ops[i]);
      FlipCond(cond);
      CondWordDecodes(5, Opposite(cond));
    case Cbz(_, _, _, _) =>
      CompareFields(d.ops[i]);
      CompareWordOutside(d.ops[i]);
    case Tbz(_, _, _, _) =>
      TestFields(d.ops[i]);
      TestWordOutside(d.ops[i]);
  }

  lemma FirstWordAt(d: Displaced, i: nat)
    requires d.Placed() && i < |d.ops|
    ensures d.Pos(i) < |d.Words()| && d.Pos(i + 1) == d.Pos(i) + |d.Emitted(i)| < |d.Words()|
    ensures |d.Emitted(i)| > 0 ==> d.Words()[d.Pos(i)] == d.Emitted(i)[0]
  {
    hide Displaced.Words, Displaced.Pos, Displaced.Emitted, PlanAll;
    CodeAt(d, i);
    CodeLength(d);
    if |d.Emitted(i)| > 0 {
      assert d.Words()[d.Pos(i)..d.Pos(i + 1)][0] == d.Emitted(i)[0];
    }
  }

  /** The same of the far conditional branches that are otherwise sound, when they are taken. */
  lemma HighConditionalLost(env: Env, d: Displaced, i: nat, core: Core)
    requires d.Placed() && i < |d.ops| && IsConditional(Decode(d.ops[i])) && BranchTaken(Decode(d.ops[i]), core)
    requires !d.Win().Contains(d.Target(i, Decode(d.ops[i]).off))
    requires Decode(d.ops[i]).BCond? ==> Decode(d.ops[i]).cond < 14
    ensures d.Pos(i) < |d.Words()|
    ensures var t := d.Target(i, Decode(d.ops[i]).off);
      && Step(env, Entry(d), i, core) == Left(t, core)
      && Run(env, Tramp(d), At(d.Pos(i), core), 5) == Left(Low48(t), core.With(SCRATCH, Low48(t)))
      && (t >= LIMIT48 ==> Low48(t) != t)
  {
    hide Decode, Displaced.Words, Displaced.Pos, Displaced.Emitted, PlanAll, FarJump, Run, KeptSkip;
    var instr, p, img := Decode(d.ops[i]), d.Pos(i), Tramp(d);
    BranchOffsets(d.ops[i]);
    EntryTarget(d, i, instr.off);
    FarConditional(d, i);
    FirstWordAt(d, i);
    InverseNegates(instr, core);
    assert BranchTaken(Skipping(d, i), core) == BranchTaken(Inverse(instr), core);
    assert Step(env, img, p, core) == At(p + 1, core);
    JumpEmitted(env, d, i, 1, core, d.Target(i, instr.off));
    RunSucc(env, img, p, core, 4);
  }

  // Conditions and distances

  /** Conditions 1110 and 1111 both mean always, so inverting one does not negate it:
      the original always branches, and the relocated form always skips its far jump. */
  lemma AlwaysConditionSkips(env: Env, d: Displaced, i: nat, core: Core)
    requires d.Placed() && i < |d.ops| && Decode(d.ops[i]).BCond? && Decode(d.ops[i]).cond >= 14
    requires !d.Win().Contains(d.Target(i, Decode(d.ops[i]).off))
    ensures d.Pos(i) < |d.Words()| && d.Pos(i + 1) < |d.Words()|
    ensures Step(env, Entry(d), i, core) == Left(d.Target(i, Decode(d.ops[i]).off), core)
    ensures Step(env, Tramp(d), d.Pos(i), core) == At(d.Pos(i + 1), core)
  {
    hide Decode, Displaced.Words, Displaced.Pos, Displaced.Emitted, PlanAll, FarJump, Holds, Goto;
    BranchOffsets(d.ops[i]);
    CondBelow16(d.ops[i]);
    var cond := Decode(d.ops[i]).cond;
    AlwaysHolds(cond, core);
    FarConditional(d, i);
    FirstWordAt(d, i);
    AlwaysStep(env, Entry(d), i, core);
    AlwaysStep(env, Tramp(d), d.Pos(i), core);
    LeavesFor(d, i, Decode(d.ops[i]).off, core);
    StaysFor(d, i, core);
  }

  lemma AlwaysHolds(cond: nat, core: Core)
    requires 14 <= cond < 16
    ensures Holds(cond, core) && Holds(Opposite(cond), core)
  {
  }

  lemma AlwaysStep(env: Env, img: Image, k: nat, core: Core)
    requires k < |img.words| && Decode(img.words[k]).BCond? && Holds(Decode(img.words[k]).cond, core)
    ensures Step(env, img, k, core) == Goto(img, (img.Pc(k) + Decode(img.words[k]).off) % ADDRESS_SPACE, core)
  {
    hide Decode, Holds, Goto;
  }

  lemma LeavesFor(d: Displaced, i: nat, off: int, core: Core)
    requires d.Placed() && i < |d.ops| && off % 4 == 0 && !d.Win().Contains(d.Target(i, off))
    ensures Goto(Entry(d), (Entry(d).Pc(i) + off) % ADDRESS_SPACE, core) == Left(d.Target(i, off), core)
  {
    hide Displaced.Words, Displaced.Pos, PlanAll, Displaced.Target;
    EntryTarget(d, i, off);
  }

  lemma StaysFor(d: Displaced, i: nat, core: Core)
    requires d.Placed() && i < |d.ops| && d.Pos(i + 1) == d.Pos(i) + 5
    ensures Goto(Tramp(d), (Tramp(d).Pc(d.Pos(i)) + 20) % ADDRESS_SPACE, core) == At(d.Pos(i + 1), core)
  {
    hide Displaced.Words, Displaced.Pos, PlanAll;
    SkipFive(d, i);
  }

  /** A far test that keeps bits of its old displacement skips by some other distance than over its jump: where
      the original falls through to the next instruction, the relocated form does not get there. */
  lemma KeptBitsMislead(env: Env, d: Displaced, i: nat, core: Core)
    requires d.Placed() && i < |d.ops| && Decode(d.ops[i]).Tbz? && !BranchTaken(Decode(d.ops[i]), core)
    requires !d.Win().Contains(d.Target(i, Decode(d.ops[i]).off)) && d.ops[i] / 0x1_0000 % 8 != 0
    ensures d.Pos(i) < |d.Words()| && d.Pos(i + 1) < |d.Words()|
    ensures Step(env, Entry(d), i, core) == Next(Entry(d), i, core)
    ensures var pc := (d.Home(i) + KeptSkip(d.ops[i])) % ADDRESS_SPACE;
      Step(env, Tramp(d), d.Pos(i), core) == Goto(Tramp(d), pc, core) && pc != d.Home(i + 1)
    ensures Step(env, Tramp(d), d.Pos(i), core) != At(d.Pos(i + 1), core)
  {
    hide Decode, Displaced.Words, Displaced.Pos, Displaced.Emitted, PlanAll, FarJump, KeptSkip, Run;
    var op, p, img := d.ops[i], d.Pos(i), Tramp(d);
    BranchOffsets(op);
    FarConditional(d, i);
    FirstWordAt(d, i);
    KeptDistance(op);
    CodeLength(d);
    ElsewhereOf(d.base, p, p + 5, KeptSkip(op), |d.Words()|);
    assert BranchTaken(Skipping(d, i), core);
  }

  lemma KeptDistance(op: Word)
    requires op / 0x1_0000 % 8 != 0
    ensures KeptSkip(op) != 20 && KeptSkip(op) % 4 == 0 && -0x8000 <= KeptSkip(op) < 0x8000
  {
  }

  lemma ElsewhereOf(base: nat, p: nat, q: nat, skip: int, n: nat)
    requires p < n && q < n && base + 4 * n <= ADDRESS_SPACE && -0x8000 <= skip < 0x8000 && skip != 4 * (q - p)
    requires q - p == 5
    ensures (base + 4 * p) % ADDRESS_SPACE == base + 4 * p
    ensures (base + 4 * p + skip) % ADDRESS_SPACE != base + 4 * q
  {
    var sum := base + 4 * p + skip;
    assert sum < 0 ==> sum % ADDRESS_SPACE == sum + ADDRESS_SPACE;
    assert sum >= ADDRESS_SPACE ==> sum % ADDRESS_SPACE == sum - ADDRESS_SPACE;
  }

  /** A test branch back into the window has its displacement spill over its bit number, and what is left of
      it reaches back less than 1024 words. */
  lemma BackwardTestReadsAnotherBit(d: Displaced, i: nat)
    requires d.Placed() && i < |d.ops| && Decode(d.ops[i]).Tbz? && Decode(d.ops[i]).off < 0
    requires d.Win().Contains(d.Target(i, Decode(d.ops[i]).off))
    ensures |d.Emitted(i)| == 1
    ensures var was, now := Decode(d.ops[i]), Decode(d.Emitted(i)[0]);
      && now.Tbz? && now.isSet == was.isSet && now.rt == was.rt
      && now.bit == was.bit / 16 * 16 + 15
      && now.off == 4 * (d.Delta(i, d.Target(i, was.off)) % 0x400 - 0x400)
  {
    hide Decode, And, Or, WAnd, WOr, WXor, TestWord, AsU32, BEnc, FarJump, MovImm48, CondWord, CompareWord, Signed;
    hide Displaced.Relocatable, Displaced.Pos, Displaced.Emitted, Displaced.Delta, PlanAll, TargetOf;
    PlanOfBranch(d, i);
    EmittedWords(d, i);
    var op, instr := d.ops[i], Decode(d.ops[i]);
    var t := d.Target(i, instr.off);
    TestFields(op);
    TestReach(op);
    OffsetInside(d, i, instr.off);
    DeltaBounds(d, i, t);
    var delta := d.Delta(i, t);
    DeltaFields(delta);
    TestWordInside(op, delta % 0x4_0000);
    SpiltFields(op, delta);
    TestNumbers(op);
  }

  /** On register 31 the wrong bit does not matter: `Relocatable` is about the words, and here stricter than runs. */
  lemma ZeroRegisterRunsAlike(d: Displaced, i: nat, core: Core)
    requires d.Placed() && i < |d.ops| && Decode(d.ops[i]).Tbz? && Decode(d.ops[i]).off < 0 && Decode(d.ops[i]).rt == 31
    requires d.Win().Contains(d.Target(i, Decode(d.ops[i]).off)) && d.Delta(i, d.Target(i, Decode(d.ops[i]).off)) >= -1024
    ensures |d.Emitted(i)| == 1
    ensures var was, now := Decode(d.ops[i]), Decode(d.Emitted(i)[0]);
      && now.Tbz? && BranchTaken(now, core) == BranchTaken(was, core) && now.off == 4 * d.Delta(i, d.Target(i, was.off))
  {
    hide Decode, Displaced.Pos, Displaced.Emitted, Displaced.Delta, Displaced.Target, PlanAll, Pow2;
    var t := d.Target(i, Decode(d.ops[i]).off);
    BackwardTestReadsAnotherBit(d, i);
    TestReach(d.ops[i]);
    OffsetInside(d, i, Decode(d.ops[i]).off);
    DeltaBounds(d, i, t);
    assert d.Delta(i, t) % 0x400 - 0x400 == d.Delta(i, t);
  }

  lemma TestReach(op: Word)
    requires Decode(op).Tbz?
    ensures var off := Decode(op).off;
      off % 4 == 0 && -0x8000 <= off < 0x8000 && (off < 0 && off >= -0x1000 ==> op / 0x8000 % 16 == 15)
  {
    hide Decode, Signed;
    TestFields(op);
    SignedReach(op / 32 % 0x4000);
    var was := Signed(op / 32 % 0x4000, 0x2000);
    if -1024 <= was < 1024 {
      ShortTest(op, was);
    }
  }

  lemma SignedReach(field: nat)
    requires field < 0x4000
    ensures -0x2000 <= Signed(field, 0x2000) < 0x2000
  {
  }

  lemma SpiltFields(op: Word, delta: int)
    requires -7168 <= delta < 0 && op / 0x8000 % 16 == 15
    ensures SpilledBit(op, delta % 0x4_0000) == op / 0x8000_0000 * 32 + op / 0x8_0000 % 32 / 16 * 16 + 15
    ensures SpilledOffset(op, delta % 0x4_0000) == 4 * (delta % 0x400 - 0x400)
  {
    hide Or;
    BackwardParts(delta);
    var x := delta + 0x4_0000;
    assert x % 0x400 == delta % 0x400;
    OrFifteen(op / 0x8_0000 % 32);
    OrFifteen(x / 0x400 % 16);
  }

  // Words that are not branches

  /** A vector literal load is copied as it is, and reads at its own new address. */
  lemma VectorLiteralMoves(env: Env, d: Displaced, i: nat, core: Core)
    requires d.Placed() && i < |d.ops| && Decode(d.ops[i]).PcRelative?
    ensures d.Pos(i) < |d.Words()|
    ensures Step(env, Entry(d), i, core) == Apply(Entry(d), i, env.atPc(d.ops[i], d.entry + 4 * i, core))
    ensures Step(env, Tramp(d), d.Pos(i), core) == Apply(Tramp(d), d.Pos(i), env.atPc(d.ops[i], d.Home(i), core))
  {
    hide Decode, Displaced.Words, Displaced.Pos, Displaced.Emitted, PlanAll, PlanByDecoding, CondWord, CompareWord, TestWord;
    LiteralItself(d.ops[i], d.entry + 4 * i);
    PlanOf(d, i);
    EmittedWords(d, i);
    FirstWordAt(d, i);
    AddressesOf(d, i);
  }

  lemma LiteralItself(op: Word, pc: nat)
    requires Decode(op).PcRelative?
    ensures Decode(op).word == op && (PlanByDecoding(op, pc).Ok? ==> PlanByDecoding(op, pc) == Ok(Verbatim(op)))
  {
  }

  lemma AddressesOf(d: Displaced, i: nat)
    requires d.Placed() && i < |d.ops| && d.Pos(i) < |d.Words()|
    ensures Entry(d).Pc(i) == d.entry + 4 * i && Tramp(d).Pc(d.Pos(i)) == d.Home(i)
  {
    hide Displaced.Words, Displaced.Pos, PlanAll;
    CodeLength(d);
  }

  /** A word with top byte 0x55 is no branch, and its relocation is: whatever the word does, the relocated form
      looks at the flags and changes nothing. */
  lemma UnallocatedBecomesBranch(env: Env, d: Displaced, i: nat, core: Core)
    requires d.Placed() && i < |d.ops| && d.ops[i] / 0x100_0000 == 0x55
    ensures d.Pos(i) < |d.Words()|
    ensures Step(env, Entry(d), i, core) == Apply(Entry(d), i, env.plain(d.ops[i], core))
    ensures Decode(d.Words()[d.Pos(i)]).BCond? && Step(env, Tramp(d), d.Pos(i), core).core == core
  {
    hide Decode, Displaced.Words, Displaced.Pos, Displaced.Emitted, PlanAll, CondWord, FarJump, WXor, WAnd;
    var op := d.ops[i];
    Unallocated(op);
    PlanOf(d, i);
    EmittedWords(d, i);
    FirstWordAt(d, i);
    FlipCond(op % 16);
    CondWordDecodes(5, WXor(op % 16, 1));
    var t := d.Plans()[i].target;
    if d.Win().Contains(t) {
      DeltaOf(d, i, t);
      DeltaFields(d.Delta(i, t));
      CondWordDecodes(d.Delta(i, t), op % 16);
    }
  }

  lemma Unallocated(op: Word)
    requires op / 0x100_0000 == 0x55
    ensures Decode(op) == Plain(op) && Unallocated55(op)
  {
  }
}
