/** For every clause of `Relocatable` a window the planner accepts that fails it, and what its code then does. */
module RelocationWitnesses {
  import opened Bits
  import opened Arm
  import opened Relocation
  import opened PlanDecoding
  import opened WordDecoding
  import opened Trampoline
  import opened Simulation
  import opened RelocationLimits

  const NOP: Word := 0xD503_201F

  /** A window is placed when the decoder finds nothing the planner refuses and the longest forms would fit. */
  lemma WindowPlaced(d: Displaced)
    requires 0 < |d.ops| <= 1024 && d.entry + 4 * |d.ops| < USIZE && d.base + 28 * |d.ops| + 16 <= USIZE
    requires forall k :: 0 <= k < |d.ops| ==> PlanByDecoding(d.ops[k], d.entry + k * 4).Ok?
    ensures d.Placed() && d.Pos(0) == 0
  {
    hide Decode, PlanOp, PlanAll, PlanByDecoding, Displaced.Pos;
    forall k | 0 <= k < |d.ops| ensures PlanOp(d.ops[k], d.entry + k * 4).Ok? {
      PlanAgreesWithDecoding(d.ops[k], d.entry + k * 4);
    }
    AllPlanned(d);
    StartsAtZero(d);
    PosGrows(d, 0, |d.ops|);
  }

  lemma AllPlanned(d: Displaced)
    requires forall k :: 0 <= k < |d.ops| ==> PlanOp(d.ops[k], d.entry + k * 4).Ok?
    ensures d.Accepted()
  {
    hide PlanOp;
  }

  lemma BranchIsPlanned(op: Word, pc: nat)
    ensures BranchInstr(Decode(op)) ==> PlanByDecoding(op, pc).Ok?
  {
    hide Decode;
  }

  /** The two codes have left for different addresses. */
  ghost predicate PartWays(env: Env, d: Displaced, i: nat, core: Core, n: nat, m: nat)
    requires d.Placed() && i < |d.ops| && d.Pos(i) < |d.Words()|
  {
    var o, t := Run(env, Entry(d), At(i, core), n), Run(env, Tramp(d), At(d.Pos(i), core), m);
    o.Left? && t.Left? && o.pc != t.pc
  }

  /** Flags clear, and one register value throughout. */
  function Uniform(x: int): Core { Core(seq(31, _ => x), false, false, false, false, map[]) }

  // Targets above 48 bits

  const BNE_FAR: Word := 0x5400_2001
  const CBZ_FAR: Word := 0xB400_2000
  const TBZ_FAR: Word := 0x3608_2000
  const BL_FAR: Word := 0x9400_0100
  const B_FAR: Word := 0x1400_0100

  lemma FarWordsDecode()
    ensures Decode(BNE_FAR) == BCond(1, 1024) && Decode(CBZ_FAR) == Cbz(true, false, 0, 1024)
    ensures Decode(TBZ_FAR) == Tbz(1, false, 0, 1024) && Decode(BL_FAR) == Bl(1024) && Decode(B_FAR) == B(1024)
  {
  }

  function HighWindow(): Displaced { Displaced(LIMIT48, [BNE_FAR, CBZ_FAR, TBZ_FAR, BL_FAR, B_FAR], 0x2_0000_0000) }

  lemma HighWindowPlaced()
    ensures HighWindow().Placed()
    ensures forall i :: 0 <= i < 5 ==>
      && BranchInstr(Decode(HighWindow().ops[i])) && Decode(HighWindow().ops[i]).off == 1024
      && (Decode(HighWindow().ops[i]).BCond? ==> Decode(HighWindow().ops[i]).cond == 1)
      && Taken(Decode(HighWindow().ops[i]), Uniform(0))
  {
    hide Decode, Displaced.Placed, PlanByDecoding, BranchTaken, Uniform;
    var d := HighWindow();
    FarWordsDecode();
    TestedZero();
    forall k | 0 <= k < |d.ops| ensures PlanByDecoding(d.ops[k], d.entry + k * 4).Ok? {
      BranchIsPlanned(d.ops[k], d.entry + k * 4);
    }
    WindowPlaced(d);
  }

  lemma HighTargetFails(d: Displaced, i: nat)
    requires d.Placed() && i < |d.ops| && BranchInstr(Decode(d.ops[i]))
    requires !d.Win().Contains(d.Target(i, Decode(d.ops[i]).off)) && d.Target(i, Decode(d.ops[i]).off) >= LIMIT48
    ensures !d.Relocatable(i)
  {
    hide Decode, PlanAll, Displaced.Pos, Displaced.Target, Displaced.Win;
  }

  ghost predicate Taken(i: Instr, core: Core) { IsConditional(i) ==> BranchTaken(i, core) }

  /** Any far branch above 2^48, taken, ends 2^48 or more below its target. */
  lemma HighBranchPartsWays(env: Env, d: Displaced, i: nat, core: Core)
    requires d.Placed() && i < |d.ops| && BranchInstr(Decode(d.ops[i])) && Taken(Decode(d.ops[i]), core)
    requires Decode(d.ops[i]).BCond? ==> Decode(d.ops[i]).cond < 14
    requires !d.Win().Contains(d.Target(i, Decode(d.ops[i]).off)) && d.Target(i, Decode(d.ops[i]).off) >= LIMIT48
    ensures d.Pos(i) < |d.Words()| && exists m: nat :: PartWays(env, d, i, core, 1, m)
  {
    hide Decode, PlanAll, Displaced.Pos, Displaced.Words, Displaced.Target, Displaced.Win, Run, Step;
    RunOne(env, Entry(d), i, core);
    match Decode(d.ops[i])
    case Bl(_) =>
      HighCallLost(env, d, i, core);
      assert PartWays(env, d, i, core, 1, 7);
    case B(_) =>
      HighTargetLost(env, d, i, core);
      assert PartWays(env, d, i, core, 1, 4);
    case _ =>
      HighConditionalLost(env, d, i, core);
      assert PartWays(env, d, i, core, 1, 5);
  }

  /** Each of the five branches, taken, ends 2^48 below its target. */
  lemma HighWindowPartsWays(env: Env, i: nat)
    requires i < 5
    ensures HighWindow().Placed() && !HighWindow().Relocatable(i) && HighWindow().Pos(i) < |HighWindow().Words()|
    ensures exists m: nat :: PartWays(env, HighWindow(), i, Uniform(0), 1, m)
  {
    hide Decode, PlanAll, Displaced.Pos, Displaced.Words, Displaced.Relocatable, Displaced.Target, PartWays, Uniform, HighWindow;
    var d := HighWindow();
    HighWindowPlaced();
    HighWindowTargets(i);
    HighTargetFails(d, i);
    HighBranchPartsWays(env, d, i, Uniform(0));
  }

  lemma HighWindowTargets(i: nat)
    requires i < 5
    ensures |HighWindow().ops| == 5 && HighWindow().Target(i, 1024) >= LIMIT48
    ensures !HighWindow().Win().Contains(HighWindow().Target(i, 1024))
  {
    assert HighWindow().Target(i, 1024) == LIMIT48 + 4 * i + 1024;
  }

  lemma TestedZero()
    ensures BranchTaken(BCond(1, 1024), Uniform(0)) && BranchTaken(Cbz(true, false, 0, 1024), Uniform(0))
    ensures BranchTaken(Tbz(1, false, 0, 1024), Uniform(0)) && BranchTaken(Tbz(15, false, 0, -588), Uniform(0))
  {
    hide Pow2;
  }

  // A return address above 48 bits

  function HighReturn(): Displaced { Displaced(0x1_0000_0000, [BL_FAR, NOP], LIMIT48) }

  /** A far call whose successor is above 2^48 arrives with a link register that names no instruction. */
  lemma HighReturnLost(env: Env, d: Displaced, core: Core)
    requires d.Placed() && |d.ops| > 1 && Decode(d.ops[0]).Bl? && d.base >= LIMIT48
    requires !d.Win().Contains(d.Target(0, Decode(d.ops[0]).off))
    ensures !d.Relocatable(0) && d.Pos(0) < |d.Words()|
    ensures Run(env, Tramp(d), At(d.Pos(0), core), 7).core.Reg(LINK) < LIMIT48 <= d.Home(1)
  {
    hide Decode, PlanAll, Displaced.Pos, Displaced.Words, Displaced.Target, Displaced.Win, Run, Step;
    HighCallLost(env, d, 0, core);
    assert d.Resume(1) == d.Home(1) >= LIMIT48;
  }

  lemma HighReturnIsPlaced()
    ensures HighReturn().Placed() && Decode(HighReturn().ops[0]) == Bl(1024)
    ensures |HighReturn().ops| == 2 && HighReturn().base == LIMIT48
    ensures !HighReturn().Win().Contains(HighReturn().Target(0, 1024))
  {
    hide Decode, Displaced.Placed, PlanByDecoding;
    var d := HighReturn();
    FarWordsDecode();
    NopDecodes();
    BranchIsPlanned(BL_FAR, d.entry);
    WindowPlaced(d);
  }

  lemma HighReturnIsLost(env: Env, core: Core)
    ensures HighReturn().Placed() && !HighReturn().Relocatable(0) && HighReturn().Pos(0) < |HighReturn().Words()|
    ensures Run(env, Tramp(HighReturn()), At(HighReturn().Pos(0), core), 7).core.Reg(LINK) < LIMIT48 <= HighReturn().Home(1)
  {
    hide Decode, PlanAll, Displaced.Pos, Displaced.Words, Displaced.Relocatable, Run, HighReturn;
    HighReturnIsPlaced();
    HighReturnLost(env, HighReturn(), core);
  }

  lemma NopDecodes()
    ensures Decode(NOP) == Plain(NOP)
    ensures forall pc: nat :: PlanByDecoding(NOP, pc) == Ok(Verbatim(NOP))
  {
  }

  // A condition that means always

  const BAL_FORWARD: Word := 0x5400_010E

  function AlwaysWindow(): Displaced { Displaced(0x1_0000_0000, [BAL_FORWARD], 0x2_0000_0000) }

  lemma AlwaysDecodes()
    ensures Decode(BAL_FORWARD) == BCond(14, 32)
  {
  }

  /** A window of one such branch goes to its target; its trampoline goes on behind the window. */
  lemma AlwaysPartsWays(env: Env, d: Displaced, core: Core)
    requires d.Placed() && |d.ops| == 1 && Decode(d.ops[0]).BCond? && Decode(d.ops[0]).cond >= 14
    requires var t := d.Target(0, Decode(d.ops[0]).off); !d.Win().Contains(t) && t != d.entry + 4
    ensures !d.Relocatable(0) && d.Pos(0) < |d.Words()| && PartWays(env, d, 0, core, 1, 3)
  {
    hide Decode, PlanAll, Displaced.Pos, Displaced.Words, Displaced.Target, Displaced.Win, Run, Step;
    AlwaysConditionSkips(env, d, 0, core);
    RunOne(env, Entry(d), 0, core);
    TailRun(env, d, core);
    RunSucc(env, Tramp(d), d.Pos(0), core, 2);
  }

  lemma AlwaysWindowPartsWays(env: Env, core: Core)
    ensures AlwaysWindow().Placed() && !AlwaysWindow().Relocatable(0) && AlwaysWindow().Pos(0) < |AlwaysWindow().Words()|
    ensures PartWays(env, AlwaysWindow(), 0, core, 1, 3)
  {
    hide Decode, PlanAll, Displaced.Pos, Displaced.Words, Displaced.Relocatable, PlanByDecoding, PartWays;
    AlwaysDecodes();
    BranchIsPlanned(BAL_FORWARD, AlwaysWindow().entry);
    WindowPlaced(AlwaysWindow());
    AlwaysPartsWays(env, AlwaysWindow(), core);
  }

  // A far test over a kept displacement

  const TBZ_FORWARD_2048: Word := 0x3609_0000

  function KeptWindow(): Displaced { Displaced(0x1_0000_0000, [TBZ_FORWARD_2048], 0x2_0000_0000) }

  lemma KeptDecodes()
    ensures Decode(TBZ_FORWARD_2048) == Tbz(1, false, 0, 0x2000) && TBZ_FORWARD_2048 / 0x1_0000 % 8 == 1
    ensures KeptSkip(TBZ_FORWARD_2048) == 0x2014
  {
  }

  /** Not taken, a window of one such test ends; its trampoline jumps ahead, out of its own code. */
  lemma KeptPartsWays(env: Env, d: Displaced, core: Core)
    requires d.Placed() && |d.ops| == 1 && Decode(d.ops[0]).Tbz? && !BranchTaken(Decode(d.ops[0]), core)
    requires !d.Win().Contains(d.Target(0, Decode(d.ops[0]).off)) && 36 <= KeptSkip(d.ops[0]) && KeptSkip(d.ops[0]) != 20
    requires d.base + KeptSkip(d.ops[0]) < ADDRESS_SPACE && d.entry + 4 < d.base
    ensures !d.Relocatable(0) && d.Pos(0) < |d.Words()| && PartWays(env, d, 0, core, 1, 1)
  {
    hide Decode, PlanAll, Displaced.Pos, Displaced.Words, Displaced.Emitted, Displaced.Target, Displaced.Win, Run, Step, KeptSkip, Goto, FarJump;
    KeptSkipIs(d.ops[0]);
    FarConditional(d, 0);
    FirstWordAt(d, 0);
    KeptBitsMislead(env, d, 0, core);
    RunOne(env, Entry(d), 0, core);
    RunOne(env, Tramp(d), d.Pos(0), core);
    StartsAtZero(d);
    BeyondCode(d, KeptSkip(d.ops[0]), core);
  }

  lemma BeyondCode(d: Displaced, skip: int, core: Core)
    requires d.Placed() && |d.ops| == 1 && d.Pos(0) == 0 && d.Pos(1) == 5 && 36 <= skip && d.base + skip < ADDRESS_SPACE
    ensures Goto(Tramp(d), (d.Home(0) + skip) % ADDRESS_SPACE, core) == Left(d.base + skip, core)
    ensures Next(Entry(d), 0, core) == Left(d.entry + 4, core)
  {
    hide PlanAll, Displaced.Pos, Displaced.Words;
    CodeLength(d);
  }

  lemma KeptSkipIs(op: Word)
    ensures KeptSkip(op) == 20 <==> op / 0x1_0000 % 8 == 0
  {
  }

  lemma KeptWindowPartsWays(env: Env)
    ensures KeptWindow().Placed() && !KeptWindow().Relocatable(0) && KeptWindow().Pos(0) < |KeptWindow().Words()|
    ensures PartWays(env, KeptWindow(), 0, Uniform(2), 1, 1)
  {
    hide Decode, PlanAll, Displaced.Pos, Displaced.Words, Displaced.Relocatable, PlanByDecoding, PartWays, KeptSkip, Uniform;
    KeptDecodes();
    BranchIsPlanned(TBZ_FORWARD_2048, KeptWindow().entry);
    WindowPlaced(KeptWindow());
    TestedTwo();
    KeptPartsWays(env, KeptWindow(), Uniform(2));
  }

  lemma TestedTwo()
    ensures !BranchTaken(Tbz(1, false, 0, 0x2000), Uniform(2))
  {
    assert Pow2(1) == 2;
  }

  // A test branch back into the window

  const TBZ_BACK_1: Word := 0x360F_FFE0

  function BackWindow(): Displaced { Displaced(0x1_0000_0000, [NOP, TBZ_BACK_1], 0x2_0000_0000) }

  lemma BackDecodes()
    ensures Decode(TBZ_BACK_1) == Tbz(1, false, 0, -4) && TBZ_BACK_1 / 0x8_0000 % 16 == 1
  {
  }

  /** A test branch to the instruction before it: where the bit it tested and the bit its relocation tests
      differ, one code leaves and the other goes round. */
  lemma BackGoesRound(env: Env, d: Displaced, core: Core)
    requires d.Placed() && |d.ops| == 2 && Decode(d.ops[1]).Tbz? && Decode(d.ops[1]).off == -4
    requires d.Target(1, -4) == d.entry && !BranchTaken(Decode(d.ops[1]), core)
    requires PlanByDecoding(d.ops[0], d.entry) == Ok(Verbatim(d.ops[0]))
    requires var was := Decode(d.ops[1]); BranchTaken(was.(bit := was.bit / 16 * 16 + 15), core)
    ensures d.Pos(1) < |d.Words()|
    ensures Step(env, Entry(d), 1, core) == Left(d.entry + 8, core)
    ensures Step(env, Tramp(d), d.Pos(1), core) == At(d.Pos(0), core)
  {
    hide Decode, PlanAll, Displaced.Pos, Displaced.Words, Displaced.Emitted, Displaced.Target, PlanByDecoding, Displaced.Win, BranchTaken;
    VerbatimIsOneWord(d);
    StartOf(d);
    BackwardTestReadsAnotherBit(d, 1);
    FirstWordAt(d, 1);
    BackSteps(env, d, core);
  }

  lemma StartOf(d: Displaced)
    requires d.Placed() && |d.ops| > 1 && d.Pos(1) == d.Pos(0) + 1
    ensures d.Win().Contains(d.entry) && d.Delta(1, d.entry) == -1
  {
    hide PlanAll, Displaced.Pos;
    assert TargetIndex(d.entry, d.Win()) == 0;
  }

  lemma BackSteps(env: Env, d: Displaced, core: Core)
    requires d.Placed() && |d.ops| == 2 && d.Pos(1) == d.Pos(0) + 1 && d.Pos(1) < |d.Words()|
    requires var was, now := Decode(d.ops[1]), Decode(d.Words()[d.Pos(1)]);
      && was.Tbz? && now.Tbz? && !BranchTaken(was, core) && BranchTaken(now, core) && now.off == -4
    ensures Step(env, Entry(d), 1, core) == Left(d.entry + 8, core)
    ensures Step(env, Tramp(d), d.Pos(1), core) == At(d.Pos(0), core)
  {
    hide Decode, PlanAll, Displaced.Pos, Displaced.Words, BranchTaken;
    HomeInside(d, 1, 0);
  }

  lemma VerbatimIsOneWord(d: Displaced)
    requires d.Placed() && |d.ops| > 0 && PlanByDecoding(d.ops[0], d.entry) == Ok(Verbatim(d.ops[0]))
    ensures d.Pos(1) == d.Pos(0) + 1
  {
    hide Decode, PlanAll, Displaced.Pos, PlanByDecoding;
    PlanOf(d, 0);
    PosNext(d, 0);
  }

  lemma BackWindowFacts()
    ensures |BackWindow().ops| == 2 && BackWindow().ops[0] == NOP && BackWindow().ops[1] == TBZ_BACK_1
    ensures BackWindow().Target(1, -4) == BackWindow().entry
    ensures BackWindow().Win().Contains(BackWindow().entry)
  {
  }

  lemma BackWindowPlaced()
    ensures BackWindow().Placed()
  {
    hide Decode, Displaced.Placed, PlanByDecoding, BackWindow, Displaced.Target, Displaced.Win;
    BackWindowFacts();
    BackDecodes();
    NopDecodes();
    var d := BackWindow();
    BranchIsPlanned(TBZ_BACK_1, d.entry + 4);
    assert d.entry == 0x1_0000_0000 && d.base == 0x2_0000_0000 by {
      BackWindowRoom();
    }
    WindowPlaced(d);
  }

  lemma BackWindowRoom()
    ensures BackWindow().entry == 0x1_0000_0000 && BackWindow().base == 0x2_0000_0000
  {
  }

  lemma BackFails(d: Displaced, i: nat)
    requires d.Placed() && i < |d.ops| && Decode(d.ops[i]).Tbz? && Decode(d.ops[i]).off < 0
    requires d.Win().Contains(d.Target(i, Decode(d.ops[i]).off))
    requires d.ops[i] / 0x8_0000 % 16 == 15 ==> d.Delta(i, d.Target(i, Decode(d.ops[i]).off)) < -1024
    ensures !d.Relocatable(i)
  {
    hide Decode, PlanAll, Displaced.Pos, Displaced.Target, Displaced.Win;
  }

  /** With bit 1 set and bit 15 clear the window ends, and its trampoline goes round again. */
  lemma BackWindowGoesRound(env: Env)
    ensures BackWindow().Placed() && !BackWindow().Relocatable(1) && BackWindow().Pos(1) < |BackWindow().Words()|
    ensures var d, core := BackWindow(), Uniform(2);
      && Step(env, Entry(d), 1, core) == Left(d.entry + 8, core)
      && Step(env, Tramp(d), d.Pos(1), core) == At(d.Pos(0), core)
  {
    hide Decode, PlanAll, Displaced.Pos, Displaced.Words, Displaced.Relocatable, Displaced.Target, Step, Uniform, BackWindow, PlanByDecoding, BranchTaken, Displaced.Win;
    NopDecodes();
    BackDecodes();
    BackWindowFacts();
    BackWindowPlaced();
    TestedBits();
    BackFails(BackWindow(), 1);
    BackGoesRound(env, BackWindow(), Uniform(2));
  }

  lemma TestedBits()
    ensures forall off: int :: !BranchTaken(Tbz(1, false, 0, off), Uniform(2)) && BranchTaken(Tbz(15, false, 0, off), Uniform(2))
  {
    assert Pow2(1) == 2;
    assert Pow2(15) > 2 by {
      assert Pow2(4) == 16 && Pow2(8) == 0x100 && Pow2(12) == 0x1000;
    }
  }

  // A test branch too far back

  const TBZ_15_BACK_147: Word := 0x367F_EDA0
  const BL_64K: Word := 0x9401_0000

  /** 147 far calls, which become 1029 words, and a test branch back over all of them. */
  function LongWindow(): Displaced
  {
    Displaced(0x1_0000_0000, seq(147, _ => BL_64K) + [TBZ_15_BACK_147], 0x2_0000_0000)
  }

  lemma LongDecodes()
    ensures Decode(TBZ_15_BACK_147) == Tbz(15, false, 0, -588) && TBZ_15_BACK_147 / 0x8_0000 % 16 == 15
    ensures Decode(BL_64K) == Bl(0x4_0000)
  {
  }

  lemma {:induction false} CallsAreSeven(d: Displaced, k: nat)
    requires d.Placed() && k <= |d.ops|
    requires forall i :: 0 <= i < k ==> Decode(d.ops[i]) == Bl(0x4_0000) && !d.Win().Contains(d.Target(i, 0x4_0000))
    ensures d.Pos(k) == 7 * k
    decreases k
  {
    hide Decode, PlanAll, Displaced.Pos, Displaced.Target;
    if k == 0 {
      StartsAtZero(d);
    } else {
      CallsAreSeven(d, k - 1);
      PlanOfBranch(d, k - 1);
      PosNext(d, k - 1);
    }
  }

  /** Taken, a window of 147 such calls and the test starts over; its trampoline lands five words back, inside
      the last call's code. */
  lemma LongFallsShort(env: Env, d: Displaced, core: Core)
    requires d.Placed() && |d.ops| == 148 && d.Target(147, -588) == d.entry
    requires Decode(d.ops[147]) == Tbz(15, false, 0, -588) && BranchTaken(Decode(d.ops[147]), core)
    requires forall i :: 0 <= i < 147 ==> Decode(d.ops[i]) == Bl(0x4_0000) && !d.Win().Contains(d.Target(i, 0x4_0000))
    ensures !d.Relocatable(147) && d.Pos(147) == 1029 < |d.Words()| && d.Pos(0) == 0
    ensures Step(env, Entry(d), 147, core) == At(0, core)
    ensures Step(env, Tramp(d), d.Pos(147), core) == At(1024, core)
  {
    hide Decode, PlanAll, Displaced.Pos, Displaced.Words, Displaced.Emitted, Displaced.Target, Displaced.Relocatable;
    CallsAreSeven(d, 147);
    StartsAtZero(d);
    assert TargetIndex(d.entry, d.Win()) == 0;
    assert d.Delta(147, d.entry) == -1029;
    BackFails(d, 147);
    BackwardTestReadsAnotherBit(d, 147);
    FirstWordAt(d, 147);
    CodeLength(d);
    LongSteps(env, d, core);
  }

  lemma LongSteps(env: Env, d: Displaced, core: Core)
    requires d.Placed() && |d.ops| == 148 && d.Target(147, -588) == d.entry
    requires Decode(d.ops[147]) == Tbz(15, false, 0, -588) && BranchTaken(Decode(d.ops[147]), core)
    requires d.Pos(147) == 1029 < |d.Words()| && Decode(d.Words()[1029]) == Tbz(15, false, 0, -20)
    ensures Step(env, Entry(d), 147, core) == At(0, core)
    ensures Step(env, Tramp(d), 1029, core) == At(1024, core)
  {
    hide Decode, PlanAll, Displaced.Pos, Displaced.Words, Displaced.Target, Pow2;
    EntryTarget(d, 147, -588);
    CodeLength(d);
    PosGrows(d, 147, 148);
    WordAddress(d.base, 1029, 1024, |d.Words()| - 4);
  }

  lemma LongWindowFacts()
    ensures |LongWindow().ops| == 148 && LongWindow().ops[147] == TBZ_15_BACK_147
    ensures LongWindow().entry == 0x1_0000_0000 && LongWindow().base == 0x2_0000_0000
    ensures forall i :: 0 <= i < 147 ==> LongWindow().ops[i] == BL_64K
  {
  }

  lemma FarFromEntry(d: Displaced, i: nat)
    requires d.entry == 0x1_0000_0000 && |d.ops| == 148 && i < 147
    ensures !d.Win().Contains(d.Target(i, 0x4_0000)) && d.Target(147, -588) == d.entry
  {
  }

  lemma LongWindowPlaced()
    ensures LongWindow().Placed()
  {
    hide Decode, Displaced.Placed, PlanByDecoding, LongWindow;
    var d := LongWindow();
    LongWindowFacts();
    LongDecodes();
    forall k | 0 <= k < |d.ops| ensures PlanByDecoding(d.ops[k], d.entry + k * 4).Ok? {
      BranchIsPlanned(d.ops[k], d.entry + k * 4);
    }
    WindowPlaced(d);
  }

  lemma LongWindowFallsShort(env: Env)
    ensures LongWindow().Placed() && !LongWindow().Relocatable(147) && LongWindow().Pos(147) == 1029 < |LongWindow().Words()|
    ensures Step(env, Entry(LongWindow()), 147, Uniform(0)) == At(0, Uniform(0))
    ensures Step(env, Tramp(LongWindow()), 1029, Uniform(0)) == At(1024, Uniform(0))
  {
    hide Decode, PlanAll, Displaced.Pos, Displaced.Words, Displaced.Relocatable, Displaced.Target, Step, Uniform, BranchTaken, LongWindow;
    LongDecodes();
    LongWindowFacts();
    LongWindowPlaced();
    forall i | 0 <= i < 147 ensures !LongWindow().Win().Contains(LongWindow().Target(i, 0x4_0000))
    {
      FarFromEntry(LongWindow(), i);
    }
    assert LongWindow().Target(147, -588) == LongWindow().entry by {
      FarFromEntry(LongWindow(), 0);
    }
    TestedZero();
    LongFallsShort(env, LongWindow(), Uniform(0));
  }

  // Words that are not branches

  const LDR_D0_FORWARD_2: Word := 0x5C00_0040
  const UNALLOCATED_55: Word := 0x5500_0041

  function LiteralWindow(): Displaced { Displaced(0x1_0000_0000, [LDR_D0_FORWARD_2], 0x2_0000_0000) }
  function UnallocatedWindow(): Displaced { Displaced(0x1_0000_0000, [UNALLOCATED_55], 0x2_0000_0000) }

  lemma OthersDecode(pc: nat)
    ensures Decode(LDR_D0_FORWARD_2) == PcRelative(LDR_D0_FORWARD_2) && PlanByDecoding(LDR_D0_FORWARD_2, pc).Ok?
    ensures UNALLOCATED_55 / 0x100_0000 == 0x55 && PlanByDecoding(UNALLOCATED_55, pc).Ok?
  {
  }

  /** The load reads 2^32 bytes away from where it used to. */
  lemma LiteralWindowReadsElsewhere(env: Env, core: Core)
    ensures LiteralWindow().Placed() && !LiteralWindow().Relocatable(0) && LiteralWindow().Pos(0) < |LiteralWindow().Words()|
    ensures var d, w := LiteralWindow(), LDR_D0_FORWARD_2;
      && Step(env, Entry(d), 0, core) == Apply(Entry(d), 0, env.atPc(w, 0x1_0000_0000, core))
      && Step(env, Tramp(d), d.Pos(0), core) == Apply(Tramp(d), d.Pos(0), env.atPc(w, 0x2_0000_0000, core))
  {
    hide Decode, PlanAll, Displaced.Pos, Displaced.Words, PlanByDecoding, Step, Apply, Displaced.Relocatable;
    var d := LiteralWindow();
    OthersDecode(d.entry);
    WindowPlaced(d);
    LiteralFails(d);
    VectorLiteralMoves(env, d, 0, core);
  }

  lemma LiteralFails(d: Displaced)
    requires d.Accepted() && |d.ops| > 0 && Decode(d.ops[0]).PcRelative?
    ensures !d.Relocatable(0)
  {
    hide Decode, PlanAll;
  }

  /** What the word did is not done. */
  lemma UnallocatedWindowDoesNothing(env: Env, core: Core)
    ensures UnallocatedWindow().Placed() && !UnallocatedWindow().Relocatable(0)
    ensures UnallocatedWindow().Pos(0) < |UnallocatedWindow().Words()|
    ensures var d := UnallocatedWindow();
      && Step(env, Entry(d), 0, core) == Apply(Entry(d), 0, env.plain(UNALLOCATED_55, core))
      && Step(env, Tramp(d), d.Pos(0), core).core == core
  {
    hide Decode, PlanAll, Displaced.Pos, Displaced.Words, PlanByDecoding, Step, Apply;
    var d := UnallocatedWindow();
    OthersDecode(d.entry);
    WindowPlaced(d);
    UnallocatedBecomesBranch(env, d, 0, core);
    UnallocatedFails(d);
  }

  lemma UnallocatedFails(d: Displaced)
    requires d.Accepted() && |d.ops| > 0 && d.ops[0] / 0x100_0000 == 0x55
    ensures !d.Relocatable(0)
  {
    hide Decode, PlanAll;
    Unallocated(d.ops[0]);
  }
}
