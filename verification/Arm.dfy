/**
 A small A64 machine: the encodings of section C4.1 of the Arm Architecture
 Reference Manual for A-profile (DDI 0487) that a relocated function entry
 uses, and a step relation over a code image loaded at some base address.

 Every word outside those encodings is an uninterpreted step. A step whose
 meaning does not depend on its own address goes through `Env.plain`; the
 pc-relative ones (ADR, ADRP, literal loads) go through `Env.atPc`.
 */
module Arm {
  import opened Bits

  const ADDRESS_SPACE := 0x1_0000_0000_0000_0000
  const SCRATCH := 16
  const LINK := 30

  datatype Instr =
    | B(off: int)
    | Bl(off: int)
    | BCond(cond: nat, off: int)
    | Cbz(wide: bool, nonzero: bool, rt: nat, off: int)
    | Tbz(bit: nat, isSet: bool, rt: nat, off: int)
    | LdrX(rt: nat, off: int)
    | PcRelative(word: Word)
    | Movz(rd: nat, hw: nat, imm: nat)
    | Movk(rd: nat, hw: nat, imm: nat)
    | Br(rn: nat)
    | Plain(word: Word)

  function Decode(w: Word): Instr
  {
    var top6, top8 := w / 0x400_0000, w / 0x100_0000;
    if top6 == 0x05 then B(Signed(w % 0x400_0000, 0x200_0000) * 4)
    else if top6 == 0x25 then Bl(Signed(w % 0x400_0000, 0x200_0000) * 4)
    else if top8 == 0x54 then BCond(w % 16, Signed(w / 32 % 0x8_0000, 0x4_0000) * 4)
    else if top8 % 128 == 0x34 || top8 % 128 == 0x35 then
      Cbz(top8 >= 128, top8 % 2 == 1, w % 32, Signed(w / 32 % 0x8_0000, 0x4_0000) * 4)
    else if top8 % 128 == 0x36 || top8 % 128 == 0x37 then
      Tbz(top8 / 128 * 32 + w / 0x8_0000 % 32, top8 % 2 == 1, w % 32, Signed(w / 32 % 0x4000, 0x2000) * 4)
    else if top8 == 0x58 then LdrX(w % 32, Signed(w / 32 % 0x8_0000, 0x4_0000) * 4)
    else if top8 % 32 == 0x10 || (top8 / 8 % 8 == 3 && top8 % 4 == 0) then PcRelative(w)
    else if w / 0x80_0000 == 0x1A5 then Movz(w % 32, w / 0x20_0000 % 4, w / 32 % 0x1_0000)
    else if w / 0x80_0000 == 0x1E5 then Movk(w % 32, w / 0x20_0000 % 4, w / 32 % 0x1_0000)
    else if w / 1024 == 0x35_87C0 && w % 32 == 0 then Br(w / 32 % 32)
    else Plain(w)
  }

  function DecodeAll(words: seq<Word>): (instrs: seq<Instr>)
    ensures |instrs| == |words|
    ensures forall i :: 0 <= i < |words| ==> instrs[i] == Decode(words[i])
  {
    seq(|words|, i requires 0 <= i < |words| => Decode(words[i]))
  }

  type Registers = r: seq<int> | |r| == 31 witness seq(31, _ => 0)

  /** General registers x0..x30 and NZCV; `store` is memory and everything else. */
  datatype Core = Core(regs: Registers, n: bool, z: bool, c: bool, v: bool, store: map<int, int>) {
    /** Register 31 reads as zero and ignores writes. */
    function Reg(r: nat): int { if r < 31 then regs[r] else 0 }
    function With(r: nat, value: int): Core { if r < 31 then this.(regs := regs[r := value]) else this }
  }

  datatype Effect =
    | Fall(core: Core)
    | Jump(core: Core, target: int)
    | Call(core: Core, target: int)

  datatype Env = Env(plain: (Word, Core) -> Effect, atPc: (Word, int, Core) -> Effect)

  /** Section C1.2.4: cond<3:1> selects the test, cond<0> negates it except for 1111. */
  predicate Holds(cond: nat, core: Core)
  {
    var test := match cond / 2 % 8
      case 0 => core.z
      case 1 => core.c
      case 2 => core.n
      case 3 => core.v
      case 4 => core.c && !core.z
      case 5 => core.n == core.v
      case 6 => core.n == core.v && !core.z
      case _ => true;
    if cond % 2 == 1 && cond != 15 then !test else test
  }

  predicate BranchTaken(i: Instr, core: Core)
    requires i.BCond? || i.Cbz? || i.Tbz?
  {
    match i
    case BCond(cond, _) => Holds(cond, core)
    case Cbz(wide, nonzero, rt, _) =>
      var value := if wide then core.Reg(rt) else core.Reg(rt) % 0x1_0000_0000;
      (value != 0) == nonzero
    case Tbz(bit, isSet, rt, _) => (core.Reg(rt) / Pow2(bit) % 2 == 1) == isSet
  }

  datatype Image = Image(base: int, words: seq<Word>) {
    function Pc(k: int): int { (base + 4 * k) % ADDRESS_SPACE }
    predicate Inside(pc: int) { base <= pc < base + 4 * |words| && (pc - base) % 4 == 0 }
  }

  /** Executing word `k`, or gone to `pc`. */
  datatype Config =
    | At(k: nat, core: Core)
    | Left(pc: int, core: Core)

  ghost predicate Fits(img: Image, cfg: Config)
  {
    cfg.At? ==> cfg.k < |img.words|
  }

  function Goto(img: Image, pc: int, core: Core): (cfg: Config)
    ensures Fits(img, cfg)
  {
    if img.Inside(pc) then At((pc - img.base) / 4, core) else Left(pc, core)
  }

  function Next(img: Image, k: nat, core: Core): (cfg: Config)
    ensures Fits(img, cfg)
  {
    if k + 1 < |img.words| then At(k + 1, core) else Left(img.Pc(k + 1), core)
  }

  function Apply(img: Image, k: nat, effect: Effect): (cfg: Config)
    ensures Fits(img, cfg)
  {
    match effect
    case Fall(core) => Next(img, k, core)
    case Jump(core, target) => Left(target, core)
    case Call(core, target) => Left(target, core.With(LINK, img.Pc(k + 1)))
  }

  function Insert16(value: int, hw: nat, imm: nat): int
  {
    var p := Pow2(16 * hw);
    value - value / p % 0x1_0000 * p + imm * p
  }

  /** The doubleword stored as a low and a high word. */
  function Pair(lo: int, hi: int): int { lo + 0x1_0000_0000 * hi }

  function Step(env: Env, img: Image, k: nat, core: Core): (cfg: Config)
    requires k < |img.words|
    ensures Fits(img, cfg)
  {
    match Decode(img.words[k])
    case B(off) => Goto(img, (img.Pc(k) + off) % ADDRESS_SPACE, core)
    case Bl(off) => Goto(img, (img.Pc(k) + off) % ADDRESS_SPACE, core.With(LINK, img.Pc(k + 1)))
    case BCond(_, off) => Conditional(img, k, core, off)
    case Cbz(_, _, _, off) => Conditional(img, k, core, off)
    case Tbz(_, _, _, off) => Conditional(img, k, core, off)
    case LdrX(rt, off) =>
      var j := k + off / 4;
      if 0 <= j && j + 1 < |img.words| then
        Next(img, k, core.With(rt, Pair(img.words[j], img.words[j + 1])))
      else Apply(img, k, env.atPc(img.words[k], img.Pc(k), core))
    case PcRelative(w) => Apply(img, k, env.atPc(w, img.Pc(k), core))
    case Movz(rd, hw, imm) => Next(img, k, core.With(rd, imm * Pow2(16 * hw)))
    case Movk(rd, hw, imm) => Next(img, k, core.With(rd, Insert16(core.Reg(rd), hw, imm)))
    case Br(rn) => Left(core.Reg(rn), core)
    case Plain(w) => Apply(img, k, env.plain(w, core))
  }

  function Conditional(img: Image, k: nat, core: Core, off: int): (cfg: Config)
    requires k < |img.words|
    requires var i := Decode(img.words[k]); i.BCond? || i.Cbz? || i.Tbz?
    ensures Fits(img, cfg)
  {
    if BranchTaken(Decode(img.words[k]), core) then Goto(img, (img.Pc(k) + off) % ADDRESS_SPACE, core)
    else Next(img, k, core)
  }

  /** `n` steps; a configuration that is no longer executing stays as it is. */
  function Run(env: Env, img: Image, cfg: Config, n: nat): (end: Config)
    requires Fits(img, cfg)
    ensures Fits(img, end)
    decreases n
  {
    if n == 0 || !cfg.At? then cfg else Run(env, img, Step(env, img, cfg.k, cfg.core), n - 1)
  }

  lemma {:induction false} RunAdd(env: Env, img: Image, cfg: Config, m: nat, n: nat)
    requires Fits(img, cfg)
    ensures Run(env, img, cfg, m + n) == Run(env, img, Run(env, img, cfg, m), n)
    decreases m
  {
    if m > 0 && cfg.At? {
      RunAdd(env, img, Step(env, img, cfg.k, cfg.core), m - 1, n);
    }
  }
}
