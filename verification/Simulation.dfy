/** Running the trampoline means the same as running the displaced window. */
module Simulation {
  import opened Bits
  import opened Arm
  import opened Relocation
  import opened PlanDecoding
  import opened WordDecoding
  import opened Trampoline

  function Entry(d: Displaced): Image { Image(d.entry, d.ops) }

  function Tramp(d: Displaced): Image
    requires d.Placed()
  {
    Image(d.base, d.Words())
  }

  ghost predicate Sound(d: Displaced)
  {
    d.Placed() && forall i :: 0 <= i < |d.ops| ==> d.Relocatable(i)
  }

  /** Two addresses of one displaced instruction: where it was, and where it is now. The last one is the end
      of the window, and the jump back to it. */
  ghost predicate Mapped(d: Displaced, o: int, t: int)
    requires d.Placed()
  {
    exists k :: 0 <= k <= |d.ops| && o == d.entry + 4 * k && t == d.Home(k)
  }

  /** Link addresses agree, or name the same displaced instruction at its two homes. */
  ghost predicate LinkSim(d: Displaced, o: int, t: int)
    requires d.Placed()
  {
    t == o || Mapped(d, o, t)
  }

  ghost predicate HasInnerCall(d: Displaced)
  {
    exists i: nat :: i < |d.ops| && InnerCall(d, i)
  }

  /** A call from the window into itself. */
  ghost predicate InnerCall(d: Displaced, i: nat)
    requires i < |d.ops|
  {
    Decode(d.ops[i]).Bl? && d.Win().Contains(d.Target(i, Decode(d.ops[i]).off))
  }

  /** Inside the window: equal states, but that a call from the window into itself leaves two names for the
      instruction after it in the two link registers. */
  ghost predicate MidSim(d: Displaced, o: Core, t: Core)
    requires d.Placed()
  {
    o == t || (HasInnerCall(d) && t == o.With(LINK, t.Reg(LINK)) && Mapped(d, o.Reg(LINK), t.Reg(LINK)))
  }

  /** Equal except for the scratch register, with the link register up to the address map. */
  ghost predicate CoreSim(d: Displaced, o: Core, t: Core)
    requires d.Placed()
  {
    && o.n == t.n && o.z == t.z && o.c == t.c && o.v == t.v && o.store == t.store
    && (forall r | 0 <= r < 31 && r != SCRATCH && r != LINK :: o.regs[r] == t.regs[r])
    && LinkSim(d, o.regs[LINK], t.regs[LINK])
  }

  /** Both runs have left, for the same place, or through their link registers for two names of one. */
  ghost predicate EndSim(d: Displaced, o: Config, t: Config)
    requires d.Placed()
  {
    match o
    case At(_, _) => false
    case Left(pc, core) =>
      && t.Left? && CoreSim(d, core, t.core)
      && (t.pc == pc || (pc == core.Reg(LINK) && t.pc == t.core.Reg(LINK) && Mapped(d, pc, t.pc) && MidSim(d, core, t.core)))
  }

  /** The trampoline has caught up with the original. */
  ghost predicate Matches(d: Displaced, o: Config, t: Config)
    requires d.Placed()
  {
    if o.At? then o.k < |d.ops| && t.At? && t.k == d.Pos(o.k) && MidSim(d, o.core, t.core) else EndSim(d, o, t)
  }

  ghost predicate WritesLink(env: Env, op: Word, core: Core)
  {
    Decode(op).Bl? || (Decode(op).Plain? && env.plain(Decode(op).word, core).Call?)
  }

  /** What a step from equal states leads to: the same place, and but for a call the same link. */
  ghost predicate Follows(env: Env, d: Displaced, k: nat, core: Core, t: Config)
    requires d.Placed() && k < |d.ops|
  {
    var o := Step(env, Entry(d), k, core);
    && Matches(d, o, t) && (o.Left? ==> t.pc == o.pc)
    && if WritesLink(env, d.ops[k], core) then NamesNext(d, k, o.core.Reg(LINK), t.core.Reg(LINK))
       else t.core.Reg(LINK) == o.core.Reg(LINK) && (Returns(env, d.ops[k]) ==> t == o)
  }

  /** A jump to a register, where the link register can be the one. */
  ghost predicate Returns(env: Env, op: Word)
  {
    (Decode(op).Plain? && ReturnsByLink(env, Decode(op).word)) || Decode(op).Br?
  }

  /** What a call at `k` hands over: the address after it, under its old and its new name; after the last
      instruction the new name may be the old one. */
  predicate NamesNext(d: Displaced, k: nat, o: int, t: int)
    requires d.Placed() && k < |d.ops|
  {
    o == d.entry + 4 * (k + 1) && (t == d.Home(k + 1) || (k + 1 == |d.ops| && t == o))
  }

  // The code that is there

  lemma {:induction false} EmitFirstAt(plans: seq<Plan>, count: nat, window: Window, base: nat, i: nat, j: nat)
    requires i < count <= |plans| && window.end == window.start + 4 * |plans|
    requires forall p :: p in plans ==> ValidPlan(p)
    requires j < PlanSize(plans[i], window)
    ensures var offsets := Layout(plans, window);
      var words := EmitFirst(plans, count, window, base);
      && offsets[i] + j < |words|
      && words[offsets[i] + j] == EmitOp(plans[i], i, offsets[i], offsets, window, base)[j]
  {
    hide EmitOp;
    EmitFirstLength(plans, count - 1, window, base);
    LayoutAt(plans, window, i);
    LayoutAt(plans, window, count - 1);
    if i < count - 1 {
      EmitFirstAt(plans, count - 1, window, base, i, j);
    }
  }

  lemma WordAt(d: Displaced, i: nat, j: nat)
    requires d.Placed() && i < |d.ops| && j < |d.Emitted(i)|
    ensures d.Pos(i) + j < |d.Words()| && d.Words()[d.Pos(i) + j] == d.Emitted(i)[j]
  {
    hide EmitOp, Layout, Total, EmitFirst;
    ValidTargets(d);
    LayoutAt(d.Plans(), d.Win(), i);
    EmitFirstAt(d.Plans(), |d.ops|, d.Win(), d.base, i, j);
  }

  /** The emitter fills the layout exactly, so no padding is ever needed before an instruction. */
  lemma CodeAt(d: Displaced, i: nat)
    requires d.Placed() && i < |d.ops|
    ensures |d.Words()| == d.Pos(|d.ops|) + 4
    ensures d.Pos(i + 1) == d.Pos(i) + |d.Emitted(i)| <= d.Pos(|d.ops|)
    ensures d.Words()[d.Pos(i)..d.Pos(i + 1)] == d.Emitted(i)
  {
    hide Displaced.Words, Displaced.Emitted, Displaced.Pos;
    CodeLength(d);
    PosNext(d, i);
    PosGrows(d, i + 1, |d.ops|);
    forall j | 0 <= j < |d.Emitted(i)| ensures d.Words()[d.Pos(i) + j] == d.Emitted(i)[j] {
      WordAt(d, i, j);
    }
  }

  lemma CodeLength(d: Displaced)
    requires d.Placed()
    ensures |d.Words()| == d.Pos(|d.ops|) + 4
    ensures d.Words()[d.Pos(|d.ops|)..] == AbsoluteJump(d.entry + 4 * |d.ops|)
  {
    hide EmitOp;
    ValidTargets(d);
    EmitFirstLength(d.Plans(), |d.ops|, d.Win(), d.base);
    assert d.Plans()[..|d.ops|] == d.Plans();
  }

  /** Instruction `i` is present at its home, as the instructions it should mean. */
  lemma InstrsAt(d: Displaced, i: nat)
    requires Sound(d) && i < |d.ops|
    ensures d.Pos(i + 1) == d.Pos(i) + |d.Intended(i)| < |d.Words()|
    ensures forall j :: 0 <= j < |d.Intended(i)| ==> Decode(d.Words()[d.Pos(i) + j]) == d.Intended(i)[j]
  {
    hide Decode, EmitOp;
    CodeAt(d, i);
    RelocationExact(d, i);
    var emitted := d.Emitted(i);
    forall j | 0 <= j < |emitted| ensures d.Words()[d.Pos(i) + j] == emitted[j] {
      assert d.Words()[d.Pos(i)..d.Pos(i + 1)][j] == emitted[j];
    }
  }

  // Pieces of trampoline code

  lemma MovzStep(env: Env, img: Image, p: nat, core: Core, rd: nat, imm: nat)
    requires p + 1 < |img.words| && Decode(img.words[p]) == Movz(rd, 0, imm)
    ensures Step(env, img, p, core) == At(p + 1, core.With(rd, imm))
  {
    hide Decode;
    HalfwordScales();
  }

  lemma MovkStep(env: Env, img: Image, p: nat, core: Core, rd: nat, hw: nat, imm: nat)
    requires p + 1 < |img.words| && Decode(img.words[p]) == Movk(rd, hw, imm)
    ensures Step(env, img, p, core) == At(p + 1, core.With(rd, Insert16(core.Reg(rd), hw, imm)))
  {
    hide Decode, Insert16;
  }

  lemma MoveRun(env: Env, img: Image, p: nat, core: Core, rd: nat, value: nat)
    requires rd < 31 && value < LIMIT48 && p + 3 < |img.words|
    requires forall j :: 0 <= j < 3 ==> Decode(img.words[p + j]) == FarInstrs(rd, value)[j]
    ensures Run(env, img, At(p, core), 3) == At(p + 3, core.With(rd, value))
  {
    hide Decode, Step, Insert16;
    var lo, mid, hi := value % 0x1_0000, value / 0x1_0000 % 0x1_0000, value / 0x1_0000_0000;
    var c1, c2, c3 := core.With(rd, lo), core.With(rd, lo + mid * 0x1_0000), core.With(rd, value);
    assert Decode(img.words[p + 0]) == FarInstrs(rd, value)[0] == Movz(rd, 0, lo);
    assert Decode(img.words[p + 1]) == FarInstrs(rd, value)[1] == Movk(rd, 1, mid);
    assert Decode(img.words[p + 2]) == FarInstrs(rd, value)[2] == Movk(rd, 2, hi);
    InsertHalfwords(lo, mid, hi);
    MovzStep(env, img, p, core, rd, lo);
    MovkStep(env, img, p + 1, c1, rd, 1, mid);
    MovkStep(env, img, p + 2, c2, rd, 2, hi);
    assert c1.regs[rd := lo + mid * 0x1_0000] == c2.regs;
    assert c2.regs[rd := value] == c3.regs;
    RunOne(env, img, p + 2, c2);
    RunSucc(env, img, p + 1, c1, 1);
    RunSucc(env, img, p, core, 2);
  }

  lemma InsertHalfwords(lo: nat, mid: nat, hi: nat)
    requires lo < 0x1_0000 && mid < 0x1_0000
    ensures lo * Pow2(16 * 0) == lo
    ensures Insert16(lo, 1, mid) == lo + mid * 0x1_0000
    ensures Insert16(lo + mid * 0x1_0000, 2, hi) == lo + mid * 0x1_0000 + hi * 0x1_0000_0000
  {
    HalfwordScales();
    Insert(lo, 1, mid, 0x1_0000);
    Insert(lo + mid * 0x1_0000, 2, hi, 0x1_0000_0000);
  }

  lemma Insert(value: nat, hw: nat, imm: nat, p: nat)
    requires p == Pow2(16 * hw) && (p == 0x1_0000 || p == 0x1_0000_0000) && value < p
    ensures Insert16(value, hw, imm) == value + imm * p
  {
    assert value / p == 0;
  }

  lemma HalfwordScales()
    ensures Pow2(16 * 0) == 1 && Pow2(16 * 1) == 0x1_0000 && Pow2(16 * 2) == 0x1_0000_0000
  {
    assert Pow2(8) == 0x100 && Pow2(12) == 0x1000 && Pow2(16) == 0x1_0000;
    assert Pow2(20) == 0x10_0000 && Pow2(24) == 0x100_0000 && Pow2(28) == 0x1000_0000 && Pow2(32) == 0x1_0000_0000;
  }

  lemma RunOne(env: Env, img: Image, k: nat, core: Core)
    requires k < |img.words|
    ensures Run(env, img, At(k, core), 1) == Step(env, img, k, core)
  {
    hide Step;
    assert Run(env, img, Step(env, img, k, core), 0) == Step(env, img, k, core);
  }

  lemma RunSucc(env: Env, img: Image, k: nat, core: Core, n: nat)
    requires k < |img.words|
    ensures Run(env, img, At(k, core), n + 1) == Run(env, img, Step(env, img, k, core), n)
  {
    hide Step;
  }

  lemma FarRun(env: Env, img: Image, p: nat, core: Core, target: nat)
    requires target < LIMIT48 && p + 3 < |img.words|
    requires forall j :: 0 <= j < 4 ==> Decode(img.words[p + j]) == Far(target)[j]
    ensures Run(env, img, At(p, core), 4) == Left(target, core.With(SCRATCH, target))
  {
    hide Decode;
    forall j | 0 <= j < 3 ensures Decode(img.words[p + j]) == FarInstrs(16, target)[j] {
      assert Far(target)[j] == FarInstrs(16, target)[j];
    }
    MoveRun(env, img, p, core, 16, target);
    assert Decode(img.words[p + 3]) == Far(target)[3] == Br(16);
    RunOne(env, img, p + 3, core.With(16, target));
    RunAdd(env, img, At(p, core), 3, 1);
  }

  lemma TailWords(d: Displaced)
    requires d.Placed()
    ensures var words, p := d.Words(), d.Pos(|d.ops|);
      && |words| == p + 4
      && Decode(words[p]) == LdrX(16, 8) && Decode(words[p + 1]) == Br(16)
      && Pair(words[p + 2], words[p + 3]) == d.entry + 4 * |d.ops|
  {
    hide Decode, EmitFirst;
    CodeLength(d);
    BrDecodes();
    var words, p := d.Words(), d.Pos(|d.ops|);
    var tail := words[p..];
    assert words[p] == tail[0] && words[p + 1] == tail[1] && words[p + 2] == tail[2] && words[p + 3] == tail[3];
  }

  lemma TailRun(env: Env, d: Displaced, core: Core)
    requires d.Placed()
    ensures d.Pos(|d.ops|) < |d.Words()|
    ensures var end := d.entry + 4 * |d.ops|;
      Run(env, Tramp(d), At(d.Pos(|d.ops|), core), 2) == Left(end, core.With(SCRATCH, end))
  {
    hide Decode, Pair, Displaced.Words, Displaced.Pos;
    TailWords(d);
    var img, p, end := Tramp(d), d.Pos(|d.ops|), d.entry + 4 * |d.ops|;
    var c := core.With(SCRATCH, end);
    assert Step(env, img, p, core) == At(p + 1, c);
    assert Step(env, img, p + 1, c) == Left(end, c);
    RunOne(env, img, p + 1, c);
    RunSucc(env, img, p, core, 1);
  }

  // One original step

  /** Both machines fall through to instruction `k + 1`, after `m0` trampoline steps. */
  lemma FallThrough(env: Env, d: Displaced, k: nat, core: Core, p: nat, start: Core, m0: nat) returns (m: nat)
    requires d.Placed() && k < |d.ops| && p < |d.Words()|
    requires d.Pos(k + 1) < |d.Words()| && 0 < m0
    requires Run(env, Tramp(d), At(p, start), m0) == At(d.Pos(k + 1), core)
    ensures m0 <= m <= m0 + 2
    ensures var o, t := Next(Entry(d), k, core), Run(env, Tramp(d), At(p, start), m);
      Matches(d, o, t) && (o.Left? ==> t.pc == o.pc) && t.core.Reg(LINK) == o.core.Reg(LINK)
  {
    hide Displaced.Words, Displaced.Pos, Step;
    m := m0;
    if k + 1 == |d.ops| {
      TailRun(env, d, core);
      RunAdd(env, Tramp(d), At(p, start), m0, 2);
      m := m0 + 2;
    }
  }

  /** Both machines leave for an address outside the window. */
  lemma BranchAway(d: Displaced, o: Core, t: Core, pc: int)
    requires d.Placed() && t == o.With(SCRATCH, pc)
    ensures CoreSim(d, o, t) && EndSim(d, Left(pc, o), Left(pc, t))
  {
    hide Displaced.Words, Displaced.Pos;
  }

  lemma HomeInside(d: Displaced, i: nat, j: nat)
    requires d.Placed() && i < |d.ops| && j < |d.ops|
    ensures d.Pos(j) < |d.Words()| && |d.Words()| == d.Pos(|d.ops|) + 4
    ensures (Tramp(d).Pc(d.Pos(i)) + 4 * (d.Pos(j) - d.Pos(i))) % ADDRESS_SPACE == d.Home(j)
    ensures Tramp(d).Inside(d.Home(j)) && (d.Home(j) - d.base) / 4 == d.Pos(j)
  {
    hide Displaced.Words, Displaced.Pos, PlanAll;
    CodeLength(d);
    PosGrows(d, i, |d.ops|);
    PosGrows(d, j, |d.ops|);
    WordAddress(d.base, d.Pos(i), d.Pos(j), d.Pos(|d.ops|));
  }

  lemma WordAddress(base: nat, p: nat, q: nat, n: nat)
    requires p <= n && q <= n && base + 4 * n < ADDRESS_SPACE
    ensures ((base + 4 * p) % ADDRESS_SPACE + 4 * (q - p)) % ADDRESS_SPACE == base + 4 * q
    ensures (base + 4 * q - base) % 4 == 0 && (base + 4 * q - base) / 4 == q
  {
  }

  /** A direct branch of the original stays inside exactly when the planner says so. */
  lemma EntryTarget(d: Displaced, i: nat, off: int)
    requires d.Placed() && i < |d.ops| && off % 4 == 0
    ensures (Entry(d).Pc(i) + off) % ADDRESS_SPACE == d.Target(i, off)
    ensures Entry(d).Inside(d.Target(i, off)) <==> d.Win().Contains(d.Target(i, off))
    ensures d.Target(i, off) >= 0
  {
    hide Displaced.Words, Displaced.Pos, PlanAll;
    var w := i + off / 4;
    assert Entry(d).Pc(i) == d.entry + 4 * i;
    assert d.entry + 4 * i + off == d.entry + 4 * w;
    Wrapped(d.entry, w);
  }

  lemma Wrapped(entry: nat, w: int)
    ensures (entry + 4 * w) % USIZE >= 0 && ((entry + 4 * w) % USIZE - entry) % 4 == 0
  {
    var sum := entry + 4 * w;
    var q := sum / USIZE;
    assert sum % USIZE - entry == 4 * (w - q * (USIZE / 4));
  }

  /** Where instruction `k` of the original goes when its direct branch is taken, and its trampoline twin. */
  lemma TakenInside(d: Displaced, k: nat, off: int, core: Core)
    requires d.Placed() && k < |d.ops| && off % 4 == 0 && d.Win().Contains(d.Target(k, off))
    ensures var t := d.Target(k, off);
      var j := TargetIndex(t, d.Win());
      && j < |d.ops|
      && Goto(Entry(d), (Entry(d).Pc(k) + off) % ADDRESS_SPACE, core) == At(j, core)
      && Goto(Tramp(d), (Tramp(d).Pc(d.Pos(k)) + 4 * d.Delta(k, t)) % ADDRESS_SPACE, core) == At(d.Pos(j), core)
  {
    hide Displaced.Words, Displaced.Pos;
    EntryTarget(d, k, off);
    HomeInside(d, k, TargetIndex(d.Target(k, off), d.Win()));
  }

  lemma SimBranch(env: Env, d: Displaced, k: nat, core: Core) returns (m: nat)
    requires Sound(d) && k < |d.ops| && Decode(d.ops[k]).B?
    ensures 1 <= m <= 7 && d.Pos(k) < |d.Words()|
    ensures Follows(env, d, k, core, Run(env, Tramp(d), At(d.Pos(k), core), m))
  {
    hide Decode, Displaced.Words, Displaced.Pos, Displaced.Delta, PlanAll, Far;
    BranchOffsets(d.ops[k]);
    var off := Decode(d.ops[k]).off;
    var t := d.Target(k, off);
    InstrsAt(d, k);
    assert d.Relocatable(k);
    EntryTarget(d, k, off);
    if d.Win().Contains(t) {
      TakenInside(d, k, off, core);
      assert d.Intended(k)[0] == B(4 * d.Delta(k, t));
      assert Decode(d.Words()[d.Pos(k) + 0]) == B(4 * d.Delta(k, t));
      RunOne(env, Tramp(d), d.Pos(k), core);
      m := 1;
    } else {
      assert d.Intended(k) == Far(t);
      CodeLength(d);
      FarRun(env, Tramp(d), d.Pos(k), core, t);
      BranchAway(d, core, core.With(SCRATCH, t), t);
      m := 4;
    }
  }

  lemma BranchOffsets(op: Word)
    ensures BranchInstr(Decode(op)) ==> Decode(op).off % 4 == 0
  {
    hide Signed;
    TimesFour(Signed(op % 0x400_0000, 0x200_0000));
    TimesFour(Signed(op / 32 % 0x8_0000, 0x4_0000));
    TimesFour(Signed(op / 32 % 0x4000, 0x2000));
  }

  lemma TimesFour(x: int)
    ensures x * 4 % 4 == 0
  {
  }

  /** A call from the window into itself leaves the two names of its successor. */
  lemma CallInside(env: Env, d: Displaced, k: nat, core: Core)
    requires Sound(d) && k < |d.ops| && Decode(d.ops[k]).Bl?
    requires d.Win().Contains(d.Target(k, Decode(d.ops[k]).off))
    ensures d.Pos(k) < |d.Words()|
    ensures var j := TargetIndex(d.Target(k, Decode(d.ops[k]).off), d.Win());
      && j < |d.ops|
      && Step(env, Entry(d), k, core) == At(j, core.With(LINK, d.entry + 4 * (k + 1)))
      && Step(env, Tramp(d), d.Pos(k), core) == At(d.Pos(j), core.With(LINK, d.Home(k + 1)))
  {
    hide Decode, Displaced.Words, Displaced.Pos, Displaced.Delta, Displaced.Relocatable, PlanAll, Displaced.Intended, FarInstrs, TargetIndex, Goto, Image.Inside, Displaced.Target;
    BranchOffsets(d.ops[k]);
    var off := Decode(d.ops[k]).off;
    TakenInside(d, k, off, core.With(LINK, d.entry + 4 * (k + 1)));
    TakenInside(d, k, off, core.With(LINK, d.Home(k + 1)));
    CallWord(d, k);
  }

  lemma CallWord(d: Displaced, k: nat)
    requires Sound(d) && k < |d.ops| && Decode(d.ops[k]).Bl?
    requires d.Win().Contains(d.Target(k, Decode(d.ops[k]).off))
    ensures d.Pos(k) < |d.Words()|
    ensures Decode(d.Words()[d.Pos(k)]) == Bl(4 * d.Delta(k, d.Target(k, Decode(d.ops[k]).off)))
    ensures Tramp(d).Pc(d.Pos(k) + 1) == d.Home(k + 1) && Entry(d).Pc(k + 1) == d.entry + 4 * (k + 1)
  {
    hide Decode, Displaced.Words, Displaced.Pos, Displaced.Delta, Displaced.Relocatable, PlanAll, FarInstrs, TargetIndex, Displaced.Target;
    var t, p := d.Target(k, Decode(d.ops[k]).off), d.Pos(k);
    InstrsAt(d, k);
    assert d.Intended(k) == [Bl(4 * d.Delta(k, t))];
    assert d.Intended(k)[0] == Bl(4 * d.Delta(k, t));
    assert Decode(d.Words()[p + 0]) == Bl(4 * d.Delta(k, t));
    CodeLength(d);
    PosGrows(d, k + 1, |d.ops|);
  }

  lemma TwoNames(d: Displaced, k: nat, core: Core)
    requires d.Placed() && k < |d.ops| && InnerCall(d, k)
    ensures MidSim(d, core.With(LINK, d.entry + 4 * (k + 1)), core.With(LINK, d.Home(k + 1)))
  {
    hide Decode, Displaced.Words, Displaced.Home, Displaced.Pos, PlanAll;
    var o, t := core.With(LINK, d.entry + 4 * (k + 1)), core.With(LINK, d.Home(k + 1));
    WithTwice(core, LINK, d.entry + 4 * (k + 1), d.Home(k + 1));
    assert Mapped(d, o.Reg(LINK), t.Reg(LINK));
  }

  lemma CallOutside(env: Env, d: Displaced, k: nat, core: Core)
    requires Sound(d) && k < |d.ops| && Decode(d.ops[k]).Bl?
    requires !d.Win().Contains(d.Target(k, Decode(d.ops[k]).off))
    ensures d.Pos(k) < |d.Words()|
    ensures var t := d.Target(k, Decode(d.ops[k]).off);
      Run(env, Tramp(d), At(d.Pos(k), core), 7) == Left(t, core.With(SCRATCH, t).With(LINK, d.Resume(k + 1)))
  {
    hide Decode, Displaced.Words, Displaced.Pos, PlanAll, FarInstrs, Step, Run;
    var t, p, img := d.Target(k, Decode(d.ops[k]).off), d.Pos(k), Tramp(d);
    assert d.Relocatable(k);
    InstrsAt(d, k);
    CodeLength(d);
    var ret := d.Resume(k + 1);
    var moves, links := FarInstrs(16, t), FarInstrs(30, ret);
    var all := moves + (links + [Br(16)]);
    assert d.Intended(k) == all;
    forall j | 0 <= j < 3 ensures Decode(img.words[p + j]) == moves[j] && Decode(img.words[p + 3 + j]) == links[j] {
      assert all[j] == moves[j] && all[3 + j] == links[j];
      assert Decode(d.Words()[p + (3 + j)]) == all[3 + j];
    }
    assert Decode(d.Words()[p + 6]) == all[6] == Br(16);
    CallSequence(env, img, p, core, t, ret);
  }

  lemma CallSequence(env: Env, img: Image, p: nat, core: Core, t: nat, ret: nat)
    requires t < LIMIT48 && ret < LIMIT48 && p + 7 < |img.words|
    requires forall j :: 0 <= j < 3 ==> Decode(img.words[p + j]) == FarInstrs(16, t)[j]
    requires forall j :: 0 <= j < 3 ==> Decode(img.words[p + 3 + j]) == FarInstrs(30, ret)[j]
    requires Decode(img.words[p + 6]) == Br(16)
    ensures Run(env, img, At(p, core), 7) == Left(t, core.With(SCRATCH, t).With(LINK, ret))
  {
    hide Decode, FarInstrs, Run;
    var c16 := core.With(16, t);
    var c30 := c16.With(30, ret);
    MoveRun(env, img, p, core, 16, t);
    MoveRun(env, img, p + 3, c16, 30, ret);
    RunAdd(env, img, At(p, core), 3, 3);
    RunOne(env, img, p + 6, c30);
    RunAdd(env, img, At(p, core), 6, 1);
    assert c30.Reg(16) == t;
  }

  lemma SimCall(env: Env, d: Displaced, k: nat, core: Core) returns (m: nat)
    requires Sound(d) && k < |d.ops| && Decode(d.ops[k]).Bl?
    ensures 1 <= m <= 7 && d.Pos(k) < |d.Words()|
    ensures Follows(env, d, k, core, Run(env, Tramp(d), At(d.Pos(k), core), m))
  {
    hide Decode, Displaced.Words, Displaced.Pos, PlanAll, CoreSim, MidSim;
    BranchOffsets(d.ops[k]);
    var t := d.Target(k, Decode(d.ops[k]).off);
    EntryTarget(d, k, Decode(d.ops[k]).off);
    if d.Win().Contains(t) {
      CallInside(env, d, k, core);
      TwoNames(d, k, core);
      RunOne(env, Tramp(d), d.Pos(k), core);
      m := 1;
    } else {
      CallOutside(env, d, k, core);
      CallLinks(d, k, core, d.Resume(k + 1));
      m := 7;
    }
  }

  /** Writing a return address and its home to the two link registers keeps the states related. */
  lemma CallLinks(d: Displaced, k: nat, core: Core, ret: int)
    requires d.Placed() && k < |d.ops|
    requires ret == d.Home(k + 1) || ret == d.Resume(k + 1)
    ensures Entry(d).Pc(k + 1) == d.entry + 4 * (k + 1)
    ensures forall x :: CoreSim(d, core.With(LINK, d.entry + 4 * (k + 1)), core.With(SCRATCH, x).With(LINK, ret))
    ensures CoreSim(d, core.With(LINK, d.entry + 4 * (k + 1)), core.With(LINK, ret))
  {
    hide Displaced.Words, Displaced.Pos, PlanAll;
    assert LinkSim(d, d.entry + 4 * (k + 1), ret);
  }

  ghost predicate IsConditional(i: Instr) { i.BCond? || i.Cbz? || i.Tbz? }

  /** The far form's first instruction is taken exactly when the displaced one is not. */
  ghost function Inverse(i: Instr): Instr
    requires IsConditional(i)
  {
    match i
    case BCond(cond, _) => BCond(Opposite(cond), 20)
    case Cbz(wide, nonzero, rt, _) => Cbz(wide, !nonzero, rt, 20)
    case Tbz(bit, isSet, rt, _) => Tbz(bit, !isSet, rt, 20)
  }

  lemma InverseNegates(i: Instr, core: Core)
    requires IsConditional(i) && (i.BCond? ==> i.cond < 14)
    ensures BranchTaken(Inverse(i), core) == !BranchTaken(i, core)
  {
    if i.BCond? {
      assert Opposite(i.cond) / 2 == i.cond / 2;
    }
  }

  ghost function Moved(i: Instr, off: int): Instr
    requires IsConditional(i)
  {
    match i
    case BCond(cond, _) => BCond(cond, off)
    case Cbz(wide, nonzero, rt, _) => Cbz(wide, nonzero, rt, off)
    case Tbz(bit, isSet, rt, _) => Tbz(bit, isSet, rt, off)
  }

  lemma ConditionalIntended(d: Displaced, k: nat)
    requires Sound(d) && k < |d.ops| && IsConditional(Decode(d.ops[k]))
    ensures var i := Decode(d.ops[k]);
      var t := d.Target(k, i.off);
      && t >= 0 && i.off % 4 == 0
      && (d.Win().Contains(t) ==> d.Intended(k) == [Moved(i, 4 * d.Delta(k, t))])
      && (!d.Win().Contains(t) ==> d.Intended(k) == [Inverse(i)] + Far(t) && t < LIMIT48 && (i.BCond? ==> i.cond < 14))
  {
    hide Decode, Displaced.Words, Displaced.Pos, Displaced.Delta, PlanAll, Far;
    BranchOffsets(d.ops[k]);
    assert d.Relocatable(k);
    EntryTarget(d, k, Decode(d.ops[k]).off);
  }

  lemma ConditionalInside(env: Env, d: Displaced, k: nat, core: Core) returns (m: nat)
    requires Sound(d) && k < |d.ops| && IsConditional(Decode(d.ops[k]))
    requires d.Win().Contains(d.Target(k, Decode(d.ops[k]).off))
    ensures 1 <= m <= 7 && d.Pos(k) < |d.Words()|
    ensures Follows(env, d, k, core, Run(env, Tramp(d), At(d.Pos(k), core), m))
  {
    hide Decode, Displaced.Words, Displaced.Pos, Displaced.Delta, PlanAll, EndSim, Displaced.Intended;
    var i := Decode(d.ops[k]);
    var t, p, img := d.Target(k, i.off), d.Pos(k), Tramp(d);
    ConditionalIntended(d, k);
    InstrsAt(d, k);
    CodeLength(d);
    EntryTarget(d, k, i.off);
    assert Decode(img.words[p + 0]) == d.Intended(k)[0] == Moved(i, 4 * d.Delta(k, t));
    RunOne(env, img, p, core);
    assert BranchTaken(Moved(i, 4 * d.Delta(k, t)), core) == BranchTaken(i, core);
    if BranchTaken(i, core) {
      TakenInside(d, k, i.off, core);
      m := 1;
    } else {
      assert Step(env, img, p, core) == At(p + 1, core);
      m := FallThrough(env, d, k, core, p, core, 1);
    }
  }

  lemma ConditionalOutside(env: Env, d: Displaced, k: nat, core: Core) returns (m: nat)
    requires Sound(d) && k < |d.ops| && IsConditional(Decode(d.ops[k]))
    requires !d.Win().Contains(d.Target(k, Decode(d.ops[k]).off))
    ensures 1 <= m <= 7 && d.Pos(k) < |d.Words()|
    ensures Follows(env, d, k, core, Run(env, Tramp(d), At(d.Pos(k), core), m))
  {
    hide Decode, Displaced.Words, Displaced.Pos, PlanAll, Far, EndSim, Displaced.Intended, TargetOf;
    var i := Decode(d.ops[k]);
    var t, p, img := d.Target(k, i.off), d.Pos(k), Tramp(d);
    ConditionalIntended(d, k);
    InstrsAt(d, k);
    CodeLength(d);
    EntryTarget(d, k, i.off);
    InverseNegates(i, core);
    var all := [Inverse(i)] + Far(t);
    assert Decode(img.words[p + 0]) == all[0] == Inverse(i);
    RunOne(env, img, p, core);
    if BranchTaken(i, core) {
      assert Step(env, img, p, core) == At(p + 1, core);
      forall j | 0 <= j < 4 ensures Decode(img.words[p + 1 + j]) == Far(t)[j] {
        assert Decode(d.Words()[p + (1 + j)]) == all[1 + j];
      }
      FarRun(env, img, p + 1, core, t);
      RunSucc(env, img, p, core, 4);
      BranchAway(d, core, core.With(SCRATCH, t), t);
      m := 5;
    } else {
      SkipFive(d, k);
      assert Step(env, img, p, core) == At(p + 5, core);
      m := FallThrough(env, d, k, core, p, core, 1);
    }
  }

  lemma SkipFive(d: Displaced, k: nat)
    requires d.Placed() && k < |d.ops| && d.Pos(k + 1) == d.Pos(k) + 5
    ensures var img := Tramp(d);
      && (img.Pc(d.Pos(k)) + 20) % ADDRESS_SPACE == d.base + 4 * (d.Pos(k) + 5)
      && img.Inside(d.base + 4 * (d.Pos(k) + 5))
  {
    hide Displaced.Words, Displaced.Pos;
    CodeLength(d);
    PosGrows(d, k + 1, |d.ops|);
  }

  lemma SimConditional(env: Env, d: Displaced, k: nat, core: Core) returns (m: nat)
    requires Sound(d) && k < |d.ops| && IsConditional(Decode(d.ops[k]))
    ensures 1 <= m <= 7 && d.Pos(k) < |d.Words()|
    ensures Follows(env, d, k, core, Run(env, Tramp(d), At(d.Pos(k), core), m))
  {
    hide Decode, Displaced.Words, Displaced.Pos, PlanAll, Step, Run, Matches;
    if d.Win().Contains(d.Target(k, Decode(d.ops[k]).off)) {
      m := ConditionalInside(env, d, k, core);
    } else {
      m := ConditionalOutside(env, d, k, core);
    }
  }

  lemma SimPlain(env: Env, d: Displaced, k: nat, core: Core) returns (m: nat)
    requires Sound(d) && k < |d.ops| && !BranchInstr(Decode(d.ops[k]))
    ensures 1 <= m <= 7 && d.Pos(k) < |d.Words()|
    ensures Follows(env, d, k, core, Run(env, Tramp(d), At(d.Pos(k), core), m))
  {
    hide Decode, Displaced.Words, Displaced.Pos, PlanAll, EndSim, CoreSim, Insert16, Pow2;
    var p, img, i := d.Pos(k), Tramp(d), Decode(d.ops[k]);
    assert d.Relocatable(k);
    InstrsAt(d, k);
    CodeLength(d);
    PosGrows(d, k + 1, |d.ops|);
    assert Decode(img.words[p + 0]) == d.Intended(k)[0] == i;
    RunOne(env, img, p, core);
    m := 1;
    if i.Movz? || i.Movk? || (i.Plain? && env.plain(i.word, core).Fall?) {
      var after := if i.Movz? then core.With(i.rd, i.imm * Pow2(16 * i.hw))
                   else if i.Movk? then core.With(i.rd, Insert16(core.Reg(i.rd), i.hw, i.imm))
                   else env.plain(i.word, core).core;
      assert Step(env, Entry(d), k, core) == Next(Entry(d), k, after);
      assert Step(env, img, p, core) == At(p + 1, after);
      m := FallThrough(env, d, k, after, p, core, 1);
    } else if i.Br? {
      SameEnd(d, core.Reg(i.rn), core);
    } else {
      var effect := env.plain(i.word, core);
      SameEnd(d, effect.target, effect.core);
      CallLinks(d, k, effect.core, d.Home(k + 1));
      assert img.Pc(p + 1) == d.Home(k + 1);
      LinkedEnd(d, effect.target, effect.core.With(LINK, d.entry + 4 * (k + 1)), effect.core.With(LINK, d.Home(k + 1)));
    }
  }

  lemma SameEnd(d: Displaced, pc: int, core: Core)
    requires d.Placed()
    ensures EndSim(d, Left(pc, core), Left(pc, core))
  {
  }

  lemma LinkedEnd(d: Displaced, pc: int, o: Core, t: Core)
    requires d.Placed() && CoreSim(d, o, t)
    ensures EndSim(d, Left(pc, o), Left(pc, t))
  {
  }

  /** One step of the displaced code is one to seven steps of its trampoline, from equal registers. */
  lemma StepFromEqual(env: Env, d: Displaced, k: nat, core: Core) returns (m: nat)
    requires Sound(d) && k < |d.ops|
    ensures 1 <= m <= 7 && d.Pos(k) < |d.Words()|
    ensures Follows(env, d, k, core, Run(env, Tramp(d), At(d.Pos(k), core), m))
  {
    hide Decode, Displaced.Words, Displaced.Pos, PlanAll, Step, Run, Matches;
    match Decode(d.ops[k])
    case B(_) => m := SimBranch(env, d, k, core);
    case Bl(_) => m := SimCall(env, d, k, core);
    case BCond(_, _) => m := SimConditional(env, d, k, core);
    case Cbz(_, _, _, _) => m := SimConditional(env, d, k, core);
    case Tbz(_, _, _, _) => m := SimConditional(env, d, k, core);
    case _ => m := SimPlain(env, d, k, core);
  }

  // One original step, from states that name the link differently

  /** The effect with the link register replaced. */
  function Relinked(effect: Effect, x: int): Effect
  {
    match effect
    case Fall(core) => Fall(core.With(LINK, x))
    case Jump(core, target) => Jump(core.With(LINK, x), target)
    case Call(core, target) => Call(core.With(LINK, x), target)
  }

  /** The word neither reads the link register nor, but for a call, writes it. */
  ghost predicate KeepsLink(env: Env, w: Word)
  {
    forall core: Core, x: int :: env.plain(w, core.With(LINK, x)) == Relinked(env.plain(w, core), x)
  }

  /** The word jumps to the link register and does nothing else. */
  ghost predicate ReturnsByLink(env: Env, w: Word)
  {
    forall core: Core :: env.plain(w, core) == Jump(core, core.Reg(LINK))
  }

  ghost predicate LinkSafeAt(env: Env, op: Word)
  {
    match Decode(op)
    case Plain(w) => KeepsLink(env, w) || ReturnsByLink(env, w)
    case Cbz(_, _, rt, _) => rt != LINK
    case Tbz(_, _, rt, _) => rt != LINK
    case Movk(rd, _, _) => rd != LINK
    case _ => true
  }

  /** In a window that calls into itself no word may look at the link register, only return through it. */
  ghost predicate LinkSafe(env: Env, d: Displaced)
  {
    HasInnerCall(d) ==> forall i :: 0 <= i < |d.ops| ==> LinkSafeAt(env, d.ops[i])
  }

  /** The same step from two link values `a` and `h`: the same outcome, with the link set alike, kept, or jumped to. */
  ghost predicate Twins(o: Config, t: Config, a: int, h: int, sets: bool, byLink: bool)
  {
    && (o.core == t.core || (!sets && o.core.Reg(LINK) == a && t.core == o.core.With(LINK, h)))
    && (sets ==> o.core == t.core)
    && match o
       case At(k, _) => t.At? && t.k == k
       case Left(pc, core) =>
         t.Left? && (t.pc == pc || (byLink && pc == a && t.pc == h && core.Reg(LINK) == a && t.core.Reg(LINK) == h))
  }

  lemma WithTwice(core: Core, r: nat, x: int, y: int)
    ensures core.With(r, x).With(r, y) == core.With(r, y)
    ensures forall q: nat, v: int :: q != r ==> core.With(r, x).With(q, v) == core.With(q, v).With(r, x)
    ensures forall q: nat :: q != r ==> core.With(r, x).Reg(q) == core.Reg(q)
    ensures core.With(r, core.Reg(r)) == core
  {
    assert r < 31 ==> core.regs[r := x][r := y] == core.regs[r := y] && core.regs[r := core.regs[r]] == core.regs;
    forall q: nat, v: int | q != r ensures core.With(r, x).With(q, v) == core.With(q, v).With(r, x) {
      assert r < 31 && q < 31 ==> core.regs[r := x][q := v] == core.regs[q := v][r := x];
    }
  }

  lemma TwinBranches(env: Env, img: Image, k: nat, core: Core, h: int)
    requires k < |img.words| && BranchInstr(Decode(img.words[k])) && LinkSafeAt(env, img.words[k])
    ensures Twins(Step(env, img, k, core), Step(env, img, k, core.With(LINK, h)), core.Reg(LINK), h, Decode(img.words[k]).Bl?, false)
  {
    hide Decode, Holds;
    WithTwice(core, LINK, h, img.Pc(k + 1));
    var t := core.With(LINK, h);
    FlagsOnly(core, t);
  }

  lemma FlagsOnly(o: Core, t: Core)
    requires o.n == t.n && o.z == t.z && o.c == t.c && o.v == t.v
    ensures forall cond: nat :: Holds(cond, o) == Holds(cond, t)
  {
  }

  lemma TwinPlain(env: Env, img: Image, k: nat, core: Core, h: int)
    requires k < |img.words| && Decode(img.words[k]).Plain? && LinkSafeAt(env, img.words[k])
    ensures Twins(Step(env, img, k, core), Step(env, img, k, core.With(LINK, h)), core.Reg(LINK), h,
                  WritesLink(env, img.words[k], core), Returns(env, img.words[k]))
  {
    hide Decode;
    var w := Decode(img.words[k]).word;
    var t := core.With(LINK, h);
    if ReturnsByLink(env, w) {
      assert env.plain(w, core) == Jump(core, core.Reg(LINK)) && env.plain(w, t) == Jump(t, t.Reg(LINK));
    } else {
      var effect := env.plain(w, core);
      assert env.plain(w, t) == Relinked(effect, h);
      WithTwice(core, LINK, h, h);
      assert env.plain(w, core.With(LINK, core.Reg(LINK))) == Relinked(effect, core.Reg(LINK));
      WithTwice(effect.core, LINK, h, img.Pc(k + 1));
    }
  }

  lemma TwinOther(env: Env, img: Image, k: nat, core: Core, h: int)
    requires k < |img.words| && LinkSafeAt(env, img.words[k])
    requires var i := Decode(img.words[k]); i.Movz? || i.Movk? || i.Br?
    ensures Twins(Step(env, img, k, core), Step(env, img, k, core.With(LINK, h)), core.Reg(LINK), h, false, Returns(env, img.words[k]))
  {
    hide Decode, Insert16, Pow2;
    var i := Decode(img.words[k]);
    if i.Movz? {
      WithTwice(core, LINK, h, i.imm * Pow2(16 * i.hw));
    } else {
      WithTwice(core, LINK, h, 0);
    }
  }

  /** The displaced code does not tell the two names apart. */
  lemma StepTwins(env: Env, d: Displaced, k: nat, core: Core, h: int)
    requires Sound(d) && LinkSafe(env, d) && HasInnerCall(d) && k < |d.ops|
    ensures Twins(Step(env, Entry(d), k, core), Step(env, Entry(d), k, core.With(LINK, h)), core.Reg(LINK), h,
                  WritesLink(env, d.ops[k], core), Returns(env, d.ops[k]))
  {
    hide Decode, Displaced.Words, Displaced.Pos, PlanAll, Step, LinkSafeAt, HasInnerCall, Twins;
    assert d.Relocatable(k) && LinkSafeAt(env, d.ops[k]);
    match Decode(d.ops[k])
    case Plain(_) => TwinPlain(env, Entry(d), k, core, h);
    case Movz(_, _, _) => TwinOther(env, Entry(d), k, core, h);
    case Movk(_, _, _) => TwinOther(env, Entry(d), k, core, h);
    case Br(_) => TwinOther(env, Entry(d), k, core, h);
    case LdrX(_, _) =>
    case PcRelative(_) =>
    case _ => TwinBranches(env, Entry(d), k, core, h);
  }

  lemma TwinsFollow(d: Displaced, o: Config, twin: Config, t: Config, a: int, h: int, sets: bool, byLink: bool)
    requires d.Placed() && HasInnerCall(d) && Mapped(d, a, h) && Twins(o, twin, a, h, sets, byLink)
    requires Matches(d, twin, t) && (twin.Left? ==> t.pc == twin.pc)
    requires !sets ==> t.core.Reg(LINK) == twin.core.Reg(LINK) && (byLink ==> t == twin)
    ensures Matches(d, o, t) && (sets ==> o.core == twin.core)
  {
    hide Displaced.Words, Displaced.Pos, PlanAll, HasInnerCall, Mapped;
    if o.core != twin.core {
      WithTwice(o.core, LINK, h, h);
      WithTwice(twin.core, LINK, t.core.Reg(LINK), h);
    }
  }

  /** One step of the displaced code is one to seven steps of its trampoline, and a call hands over the two
      names of the instruction after it. */
  lemma StepSimulates(env: Env, d: Displaced, k: nat, o: Core, t: Core) returns (m: nat)
    requires Sound(d) && LinkSafe(env, d) && k < |d.ops| && MidSim(d, o, t)
    ensures 1 <= m <= 7 && d.Pos(k) < |d.Words()|
    ensures var x, y := Step(env, Entry(d), k, o), Run(env, Tramp(d), At(d.Pos(k), t), m);
      Matches(d, x, y) && (WritesLink(env, d.ops[k], o) ==> NamesNext(d, k, x.core.Reg(LINK), y.core.Reg(LINK)))
  {
    hide Decode, Displaced.Words, Displaced.Pos, PlanAll, Step, Run, Matches, HasInnerCall, LinkSafe, Mapped, Twins, WritesLink, NamesNext, Returns;
    m := StepFromEqual(env, d, k, t);
    if o != t {
      StepTwins(env, d, k, o, t.Reg(LINK));
      SameWriter(env, d, k, o, t.Reg(LINK));
      TwinsFollow(d, Step(env, Entry(d), k, o), Step(env, Entry(d), k, t), Run(env, Tramp(d), At(d.Pos(k), t), m),
                  o.Reg(LINK), t.Reg(LINK), WritesLink(env, d.ops[k], o), Returns(env, d.ops[k]));
    }
  }

  lemma SameWriter(env: Env, d: Displaced, k: nat, core: Core, h: int)
    requires LinkSafe(env, d) && HasInnerCall(d) && k < |d.ops|
    ensures WritesLink(env, d.ops[k], core.With(LINK, h)) == WritesLink(env, d.ops[k], core)
  {
    hide Decode, HasInnerCall;
    assert LinkSafeAt(env, d.ops[k]);
    if Decode(d.ops[k]).Plain? {
      var w := Decode(d.ops[k]).word;
      assert KeepsLink(env, w) ==> env.plain(w, core.With(LINK, h)) == Relinked(env.plain(w, core), h);
      assert ReturnsByLink(env, w) ==>
        env.plain(w, core.With(LINK, h)) == Jump(core.With(LINK, h), h) && env.plain(w, core) == Jump(core, core.Reg(LINK));
    }
  }

  // Whole runs

  /** After any number of original steps the trampoline has caught up, in at least as many of its own. */
  lemma {:induction false} RunSimulates(env: Env, d: Displaced, k: nat, o: Core, t: Core, n: nat) returns (m: nat)
    requires Sound(d) && LinkSafe(env, d) && k < |d.ops| && MidSim(d, o, t)
    ensures d.Pos(k) < |d.Words()|
    ensures var end := Run(env, Entry(d), At(k, o), n);
      Matches(d, end, Run(env, Tramp(d), At(d.Pos(k), t), m)) && m <= 7 * n && (end.At? ==> n <= m)
    decreases n
  {
    hide Displaced.Words, Displaced.Pos, PlanAll, Step, EndSim, MidSim, LinkSafe;
    InstrsAt(d, k);
    m := 0;
    if n > 0 {
      var m1 := StepSimulates(env, d, k, o, t);
      var next := Step(env, Entry(d), k, o);
      var caught := Run(env, Tramp(d), At(d.Pos(k), t), m1);
      m := m1;
      if next.At? {
        var m2 := RunSimulates(env, d, next.k, next.core, caught.core, n - 1);
        RunAdd(env, Tramp(d), At(d.Pos(k), t), m1, m2);
        m := m1 + m2;
      }
    }
  }

  lemma TrampolineStops(env: Env, d: Displaced, k: nat, o: Core, t: Core, m: nat)
    requires Sound(d) && LinkSafe(env, d) && k < |d.ops| && MidSim(d, o, t) && d.Pos(k) < |d.Words()|
    requires !Run(env, Tramp(d), At(d.Pos(k), t), m).At?
    ensures EndSim(d, Run(env, Entry(d), At(k, o), m), Run(env, Tramp(d), At(d.Pos(k), t), m))
  {
    hide Displaced.Words, Displaced.Pos, PlanAll, Step, CoreSim, MidSim, LinkSafe, Run;
    var n := RunSimulates(env, d, k, o, t, m);
    var start := At(d.Pos(k), t);
    if m <= n {
      StoppedStays(env, Tramp(d), start, m, n);
    } else {
      StoppedStays(env, Tramp(d), start, n, m);
    }
  }

  /** If the window has been left after `n` steps, the trampoline leaves it for the same place. */
  ghost predicate LeavingIsFollowed(env: Env, d: Displaced, k: nat, o: Core, t: Core, n: nat)
    requires d.Placed() && k < |d.ops| && d.Pos(k) < |d.Words()|
  {
    !Run(env, Entry(d), At(k, o), n).At? ==>
      exists m: nat :: EndSim(d, Run(env, Entry(d), At(k, o), n), Run(env, Tramp(d), At(d.Pos(k), t), m))
  }

  /** If the trampoline has left after `m` steps, the window had been left for the same place by then. */
  ghost predicate LeavingIsJustified(env: Env, d: Displaced, k: nat, o: Core, t: Core, m: nat)
    requires d.Placed() && k < |d.ops| && d.Pos(k) < |d.Words()|
  {
    !Run(env, Tramp(d), At(d.Pos(k), t), m).At? ==>
      EndSim(d, Run(env, Entry(d), At(k, o), m), Run(env, Tramp(d), At(d.Pos(k), t), m))
  }

  /** The displaced code leaves after some number of steps exactly when its trampoline does, and then both
      are at the same address with the same flags, memory and registers, up to x16 and the link map; a jump
      through the link register is to the same address up to that map. */
  lemma TrampolineMeansWindow(env: Env, d: Displaced, k: nat, o: Core, t: Core)
    requires Sound(d) && LinkSafe(env, d) && k < |d.ops| && MidSim(d, o, t)
    ensures d.Pos(k) < |d.Words()|
    ensures forall n: nat :: LeavingIsFollowed(env, d, k, o, t, n)
    ensures forall m: nat :: LeavingIsJustified(env, d, k, o, t, m)
  {
    hide Displaced.Words, Displaced.Pos, PlanAll, Step, EndSim, MidSim, LinkSafe, Run;
    InstrsAt(d, k);
    forall n: nat ensures LeavingIsFollowed(env, d, k, o, t, n) {
      var m := RunSimulates(env, d, k, o, t, n);
    }
    forall m: nat ensures LeavingIsJustified(env, d, k, o, t, m) {
      if !Run(env, Tramp(d), At(d.Pos(k), t), m).At? {
        TrampolineStops(env, d, k, o, t, m);
      }
    }
  }

  // Returns

  /** A state with either name of instruction `k` in its link register returns to that instruction; past the
      last one, to the end of the window, by way of the jump back. */
  lemma NamesResume(env: Env, d: Displaced, k: nat, later: Core)
    requires d.Placed() && k <= |d.ops|
    ensures k < |d.ops| ==>
      && d.Pos(k) < |d.Words()|
      && Goto(Entry(d), d.entry + 4 * k, later) == At(k, later)
      && Goto(Tramp(d), d.Home(k), later) == At(d.Pos(k), later)
    ensures k == |d.ops| ==>
      && d.Pos(k) < |d.Words()|
      && Goto(Tramp(d), d.Home(k), later) == At(d.Pos(k), later)
      && Run(env, Tramp(d), At(d.Pos(k), later), 2) == Left(d.entry + 4 * k, later.With(SCRATCH, d.entry + 4 * k))
  {
    hide Displaced.Words, Displaced.Pos, PlanAll, Run;
    CodeLength(d);
    if k < |d.ops| {
      HomeInside(d, k, k);
    } else {
      TailRun(env, d, later);
    }
  }

  /** A jump through link registers with two names stays inside: both codes go on from the same instruction in
      states `TrampolineMeansWindow` applies to, or leave past the end of the window. */
  lemma ReturnGoesOn(env: Env, d: Displaced, o: Config, t: Config)
    requires d.Placed() && o.Left? && EndSim(d, o, t) && t.pc != o.pc
    ensures var x, y := Goto(Entry(d), o.pc, o.core), Goto(Tramp(d), t.pc, t.core);
      && (x.At? ==> Matches(d, x, y))
      && (x.Left? ==> o.pc == d.entry + 4 * |d.ops| && EndSim(d, o, Run(env, Tramp(d), y, 2)))
  {
    hide Displaced.Words, Displaced.Pos, PlanAll, Run, HasInnerCall, CoreSim;
    var k: nat :| k <= |d.ops| && o.pc == d.entry + 4 * k && t.pc == d.Home(k);
    NamesResume(env, d, k, t.core);
    if k == |d.ops| {
      BranchAwayLinked(d, o.core, t.core, o.pc);
    }
  }

  lemma BranchAwayLinked(d: Displaced, o: Core, t: Core, pc: int)
    requires d.Placed() && CoreSim(d, o, t)
    ensures EndSim(d, Left(pc, o), Left(pc, t.With(SCRATCH, pc)))
  {
    hide Displaced.Words, Displaced.Pos, PlanAll, LinkSim;
  }

  /** Whatever a call from the window reaches, into it or out of it, by a displaced branch or by a word left
      as it was: returning to the link register resumes both codes at the same instruction, and after the
      last one takes both to the end of the window. */
  lemma CallReturns(env: Env, d: Displaced, k: nat, o: Core, t: Core, later: Core) returns (m: nat)
    requires Sound(d) && LinkSafe(env, d) && k < |d.ops| && MidSim(d, o, t) && WritesLink(env, d.ops[k], o)
    ensures 1 <= m <= 7 && d.Pos(k) < |d.Words()|
    ensures var x, y := Step(env, Entry(d), k, o), Run(env, Tramp(d), At(d.Pos(k), t), m);
      && Matches(d, x, y)
      && Resumes(env, d, k + 1, x.core.Reg(LINK), y.core.Reg(LINK), later)
  {
    hide Decode, Displaced.Words, Displaced.Pos, PlanAll, Step, Run, Matches, HasInnerCall, LinkSafe, Mapped, WritesLink;
    m := StepSimulates(env, d, k, o, t);
    NamesResume(env, d, k + 1, later);
  }

  /** Jumping to `o` in the displaced code and to `t` in its trampoline executes instruction `k` next; at the
      end of the window both are that address, or `t` is the jump back to it. */
  ghost predicate Resumes(env: Env, d: Displaced, k: nat, o: int, t: int, later: Core)
    requires d.Placed() && k <= |d.ops|
  {
    if k < |d.ops| then Goto(Entry(d), o, later) == At(k, later) && Goto(Tramp(d), t, later) == At(d.Pos(k), later)
    else o == d.entry + 4 * k && (t == o || Run(env, Tramp(d), Goto(Tramp(d), t, later), 2) == Left(o, later.With(SCRATCH, o)))
  }

  /** A far call hands its callee the relocated successor, so a return to x30 resumes both codes at the
      same instruction, and past the last one both return to the end of the window. */
  lemma FarCallReturns(env: Env, d: Displaced, k: nat, core: Core, later: Core)
    requires Sound(d) && k < |d.ops| && Decode(d.ops[k]).Bl?
    requires !d.Win().Contains(d.Target(k, Decode(d.ops[k]).off))
    ensures d.Pos(k) < |d.Words()|
    ensures var o, t := Step(env, Entry(d), k, core), Run(env, Tramp(d), At(d.Pos(k), core), 7);
      && o.Left? && t.Left? && o.pc == t.pc == d.Target(k, Decode(d.ops[k]).off)
      && (k + 1 < |d.ops| ==>
            && Goto(Entry(d), o.core.Reg(LINK), later) == At(k + 1, later)
            && d.Pos(k + 1) < |d.Words()|
            && Goto(Tramp(d), t.core.Reg(LINK), later) == At(d.Pos(k + 1), later))
      && (k + 1 == |d.ops| ==> o.core.Reg(LINK) == t.core.Reg(LINK) == d.entry + 4 * |d.ops|)
  {
    hide Decode, Displaced.Words, Displaced.Pos, PlanAll, Run;
    BranchOffsets(d.ops[k]);
    EntryTarget(d, k, Decode(d.ops[k]).off);
    CallOutside(env, d, k, core);
    CallLinks(d, k, core, d.Resume(k + 1));
    if k + 1 < |d.ops| {
      HomeInside(d, k + 1, k + 1);
    }
  }

  lemma StoppedStays(env: Env, img: Image, cfg: Config, m: nat, n: nat)
    requires Fits(img, cfg) && m <= n && !Run(env, img, cfg, m).At?
    ensures Run(env, img, cfg, n) == Run(env, img, cfg, m)
  {
    RunAdd(env, img, cfg, m, n - m);
  }

  // Why `LinkSafe` is asked for

  const BL_NEXT: Word := 0x9400_0001
  const STR_X30: Word := 0xF900_03FE

  /** A call of the next instruction, which stores the link register. */
  function StoredLink(): Displaced { Displaced(0x1_0000_0000, [BL_NEXT, STR_X30], 0x2_0000_0000) }

  function StoreLink(core: Core): Core { core.(store := core.store[0 := core.Reg(LINK)]) }

  function StoringLink(): Env
  {
    Env((w: Word, core: Core) => Fall(StoreLink(core)), (w: Word, pc: int, core: Core) => Fall(core))
  }

  lemma StoredLinkDecodes()
    ensures Decode(BL_NEXT) == Bl(4) && Decode(STR_X30) == Plain(STR_X30) && STR_X30 / 0x100_0000 == 0xF9
  {
  }

  lemma StoredLinkIsSound()
    ensures Sound(StoredLink()) && InnerCall(StoredLink(), 0)
    ensures StoredLink().Pos(0) == 0 && StoredLink().Pos(1) == 1 && StoredLink().Pos(2) == 2
  {
    hide Decode, PlanOp, PlanAll, Displaced.Pos;
    var d := StoredLink();
    StoredLinkDecodes();
    forall k | 0 <= k < |d.ops| ensures PlanOp(d.ops[k], d.entry + k * 4).Ok? {
      PlanAgreesWithDecoding(d.ops[k], d.entry + k * 4);
    }
    assert d.Accepted();
    PosGrows(d, 0, 2);
    StartsAtZero(d);
    PlanOfBranch(d, 0);
    PosNext(d, 0);
    PlanAgreesWithDecoding(d.ops[1], d.entry + 4);
    PosNext(d, 1);
  }

  /** What word 1 stores is the return address, and each code stores its own name of it. */
  ghost predicate StoresDiffer(env: Env, d: Displaced, core: Core)
    requires d.Placed() && |d.ops| > 0
  {
    var o := Run(env, Entry(d), At(0, core), 2);
    && d.Pos(0) < |d.Words()|
    && var t := Run(env, Tramp(d), At(d.Pos(0), core), 4);
    && o.Left? && t.Left? && o.pc == t.pc == d.entry + 4 * |d.ops|
    && o.core.store == core.store[0 := d.entry + 4] && t.core.store == core.store[0 := d.Home(1)]
  }

  lemma StoringRuns(env: Env, d: Displaced, w: Word, core: Core)
    requires Sound(d) && |d.ops| == 2 && InnerCall(d, 0)
    requires Decode(d.ops[0]) == Bl(4) && Decode(d.ops[1]) == Plain(w)
    requires TargetIndex(d.Target(0, 4), d.Win()) == 1
    requires forall c: Core :: env.plain(w, c) == Fall(StoreLink(c))
    ensures StoresDiffer(env, d, core)
  {
    hide Decode, PlanAll, Displaced.Pos, Displaced.Words, Run, Step, Displaced.Relocatable, Displaced.Intended, Goto, TargetIndex, Displaced.Target;
    CodeLength(d);
    var o, t := core.With(LINK, d.entry + 4), core.With(LINK, d.Home(1));
    assert d.Win().Contains(d.Target(0, 4));
    CallInside(env, d, 0, core);
    InstrsAt(d, 0);
    var p := d.Pos(1);
    StoringSteps(env, d, w, o, t);
    RunOne(env, Entry(d), 1, o);
    RunSucc(env, Entry(d), 0, core, 1);
    TailRun(env, d, StoreLink(t));
    RunSucc(env, Tramp(d), p, t, 2);
    RunSucc(env, Tramp(d), d.Pos(0), core, 3);
  }

  lemma StoringSteps(env: Env, d: Displaced, w: Word, o: Core, t: Core)
    requires Sound(d) && |d.ops| == 2 && Decode(d.ops[1]) == Plain(w)
    requires forall c: Core :: env.plain(w, c) == Fall(StoreLink(c))
    ensures d.Pos(2) == d.Pos(1) + 1 && d.Pos(1) + 1 < |d.Words()|
    ensures Step(env, Entry(d), 1, o) == Left(d.entry + 8, StoreLink(o))
    ensures Step(env, Tramp(d), d.Pos(1), t) == At(d.Pos(2), StoreLink(t))
  {
    hide Decode, PlanAll, Displaced.Pos, Displaced.Words, Displaced.Relocatable, Displaced.Intended, StoreLink;
    InstrsAt(d, 1);
    CodeLength(d);
    PlainIntended(d, 1);
    var p := d.Pos(1);
    assert d.Intended(1)[0] == Plain(w);
    assert Decode(d.Words()[p + 0]) == Plain(w);
    assert Entry(d).Pc(2) == d.entry + 8;
  }

  lemma PlainIntended(d: Displaced, i: nat)
    requires Sound(d) && i < |d.ops| && Decode(d.ops[i]).Plain?
    ensures d.Intended(i) == [Decode(d.ops[i])]
  {
    hide Decode, PlanAll;
    assert d.Relocatable(i);
  }

  lemma StoringTells(env: Env, w: Word, core: Core)
    requires forall c: Core :: env.plain(w, c) == Fall(StoreLink(c))
    ensures !KeepsLink(env, w) && !ReturnsByLink(env, w)
  {
    var x := core.Reg(LINK) + 1;
    assert env.plain(w, core.With(LINK, x)).core.store[0] == x;
    assert Relinked(env.plain(w, core), x).core.store[0] == core.Reg(LINK);
    assert env.plain(w, core).Fall?;
  }

  lemma StoringIsUnsafe(env: Env, d: Displaced, w: Word, core: Core)
    requires |d.ops| == 2 && InnerCall(d, 0) && Decode(d.ops[1]) == Plain(w)
    requires forall c: Core :: env.plain(w, c) == Fall(StoreLink(c))
    ensures !LinkSafe(env, d)
  {
    hide Decode, PlanAll, PlanOp, TargetOf, KeepsLink, ReturnsByLink;
    StoringTells(env, w, core);
    assert !LinkSafeAt(env, d.ops[1]);
  }

  /** Without `LinkSafe` the two codes can end in different memories. */
  lemma StoredLinkDiffers(core: Core)
    ensures Sound(StoredLink()) && !LinkSafe(StoringLink(), StoredLink()) && StoresDiffer(StoringLink(), StoredLink(), core)
  {
    hide Decode, PlanAll, Displaced.Pos, Sound, LinkSafe, StoresDiffer;
    var d, env := StoredLink(), StoringLink();
    StoredLinkDecodes();
    StoredLinkIsSound();
    StoringIsUnsafe(env, d, STR_X30, core);
    StoringRuns(env, d, STR_X30, core);
  }

  // A window with a branch of every conditional family and a far call

  const BNE_FORWARD_2: Word := 0x5400_0041
  const CBZ_X0_FORWARD_3: Word := 0xB400_0060
  const TBZ_W0_1_FORWARD_2: Word := 0x3608_0040
  const BL_FORWARD_256: Word := 0x9400_0100

  function MixedWindow(): Displaced
  {
    Displaced(0x1_0000_0000, [BNE_FORWARD_2, CBZ_X0_FORWARD_3, TBZ_W0_1_FORWARD_2, BL_FORWARD_256], 0x2_0000_0000)
  }

  lemma MixedWindowDecodes()
    ensures Decode(BNE_FORWARD_2) == BCond(1, 8) && Decode(CBZ_X0_FORWARD_3) == Cbz(true, false, 0, 12)
    ensures Decode(TBZ_W0_1_FORWARD_2) == Tbz(1, false, 0, 8) && Decode(BL_FORWARD_256) == Bl(1024)
  {
  }

  /** One in-window branch, two far conditionals and a far call can be displaced together. */
  lemma MixedWindowIsSound()
    ensures Sound(MixedWindow()) && |MixedWindow().ops| == 4
  {
    hide Decode, PlanOp, PlanAll, Displaced.Pos;
    var d := MixedWindow();
    MixedWindowDecodes();
    forall k | 0 <= k < |d.ops| ensures PlanOp(d.ops[k], d.entry + k * 4).Ok? {
      PlanAgreesWithDecoding(d.ops[k], d.entry + k * 4);
    }
    assert d.Accepted();
    PosGrows(d, 0, 4);
    assert d.Pos(0) == 0 by {
      StartsAtZero(d);
    }
    forall k | 0 <= k < |d.ops| ensures d.Relocatable(k) {
    }
  }

  lemma StartsAtZero(d: Displaced)
    requires d.Accepted()
    ensures d.Pos(0) == 0
  {
  }
}
