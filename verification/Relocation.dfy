/**
 The entry-patch relocation engine: decoding the displaced instructions into
 plans, sizing them, and re-encoding them for the trampoline.
 */
module Relocation {
  import opened Bits

  const LDR_X16_LITERAL_8: Word := 0x5800_0050
  const BR_X16: Word := 0xD61F_0200
  const PACIBSP: Word := 0xD503_237F
  const BRANCH_IMM26_WORDS := 0x200_0000
  const NOP: Word := 0xD503_201F
  const USIZE := 0x1_0000_0000_0000_0000

  datatype Error = AdrInPrologue | LiteralInPrologue | PageSizeUnavailable | MapFailed | ProtectFailed
  datatype Result<+T> = Ok(value: T) | Err(error: Error)

  datatype Window = Window(start: nat, end: nat) {
    predicate Contains(t: int) { start <= t < end }
  }

  datatype Plan =
    | Verbatim(op: Word)
    | PB(target: int)
    | PBl(target: int)
    | PBCond(cond: Word, inverted: bool, target: int)
    | PCbz(op: Word, rt: Word, target: int)
    | PTbz(op: Word, rt: Word, target: int)

  /** `((value << k) >> k) as i64` on an `i32`, given `scale == 2^k`; the right shift is arithmetic. */
  function Sext(value: Word, scale: nat): int
    requires scale > 0
  {
    Signed(Shl(value, scale), 0x8000_0000) / scale
  }

  function TargetOf(pc: nat, imm: int): int { (pc + imm) % USIZE }

  function Imm26(op: Word): int { Sext(WAnd(op, 0x03FF_FFFF), 0x40) * 4 }
  function Imm19(op: Word): int { Sext(WAnd(op / 32, 0x7_FFFF), 0x2000) * 4 }
  function Imm14(op: Word): int { Sext(WAnd(op / 32, 0x3_FFFF), 0x4_0000) * 4 }

  function PlanOp(op: Word, pc: nat): Result<Plan>
  {
    if op == PACIBSP then Ok(Verbatim(op))
    else if WAnd(op, 0x7C00_0000) == 0x1400_0000 || WAnd(op, 0xFC00_0000) == 0x9400_0000 then
      if op / 0x400_0000 == 0x25 then Ok(PBl(TargetOf(pc, Imm26(op)))) else Ok(PB(TargetOf(pc, Imm26(op))))
    else PlanByTop(op, op / 0x100_0000, pc)
  }

  function PlanByTop(op: Word, top8: Word, pc: nat): Result<Plan>
  {
    if WAnd(top8, 0xFE) == 0x54 then Ok(PBCond(WAnd(op, 0xF), false, TargetOf(pc, Imm19(op))))
    else if WAnd(top8, 0x9F) == 0x10 || WAnd(top8, 0x9F) == 0x90 then Err(AdrInPrologue)
    else if WAnd(top8, 0x1F) == 0x18 then Err(LiteralInPrologue)
    else if WAnd(top8, 0x7E) == 0x34 then Ok(PCbz(op, WAnd(op, 0x1F), TargetOf(pc, Imm19(op))))
    else if WAnd(top8, 0x7E) == 0x36 then Ok(PTbz(op, WAnd(op, 0x1F), TargetOf(pc, Imm14(op))))
    else if WAnd(op, 0xFFFF_FC1F) == 0xD65F_0000 then Ok(Verbatim(op))
    else Ok(Verbatim(op))
  }

  function PlanSize(plan: Plan, window: Window): (size: nat)
    ensures 1 <= size <= 7
  {
    match plan
    case Verbatim(_) => 1
    case PB(t) => if window.Contains(t) then 1 else 4
    case PBl(t) => if window.Contains(t) then 1 else 7
    case PBCond(_, _, t) => if window.Contains(t) then 1 else 5
    case PCbz(_, _, t) => if window.Contains(t) then 1 else 5
    case PTbz(_, _, t) => if window.Contains(t) then 1 else 5
  }

  function BEnc(top6: Word, imm26Words: int): Word
  {
    WOr(Shl(top6, 0x400_0000), WAnd(AsU32(imm26Words), 0x03FF_FFFF))
  }

  /** MOVZ/MOVK of the low 48 bits of `value` into `rd`. */
  function MovImm48(rd: Word, value: nat): (words: seq<Word>)
    ensures |words| == 3
  {
    var lo, mid, hi := value % 0x1_0000, value / 0x1_0000 % 0x1_0000, value / 0x1_0000_0000 % 0x1_0000;
    [WOr(WOr(0xD280_0000, Shl(lo, 32)), rd),
     WOr(WOr(WOr(0xF280_0000, 0x0020_0000), Shl(mid, 32)), rd),
     WOr(WOr(WOr(0xF280_0000, 0x0040_0000), Shl(hi, 32)), rd)]
  }

  function FarJump(target: nat): (words: seq<Word>)
    ensures |words| == 4
  {
    MovImm48(16, target) + [BR_X16]
  }

  function TargetIndex(target: int, window: Window): nat
    requires window.Contains(target)
  {
    (target - window.start) / 4
  }

  predicate ValidPlan(plan: Plan)
  {
    !plan.Verbatim? ==> 0 <= plan.target < USIZE
  }

  /** The words `emit_op` appends for the displaced instruction `index` at word `pos`. */
  function EmitOp(plan: Plan, index: nat, pos: nat, opsPos: seq<nat>, window: Window, trampBase: nat): (words: seq<Word>)
    requires ValidPlan(plan) && window.end == window.start + 4 * |opsPos|
    ensures |words| == PlanSize(plan, window)
  {
    match plan
    case Verbatim(op) => [op]
    case PB(t) =>
      if window.Contains(t) then [BEnc(0x05, opsPos[TargetIndex(t, window)] - pos)] else FarJump(t)
    case PBl(t) =>
      if window.Contains(t) then [BEnc(0x25, opsPos[TargetIndex(t, window)] - pos)]
      else
        var ret := if index + 1 < |opsPos| then trampBase + opsPos[index + 1] * 4 else window.end;
        MovImm48(16, t) + MovImm48(30, ret) + [BR_X16]
    case PBCond(cond, inverted, t) =>
      if window.Contains(t) then
        var imm19 := WAnd(AsU32(opsPos[TargetIndex(t, window)] - pos), 0x7_FFFF);
        [WOr(WOr(0x5400_0000, Shl(imm19, 32)), if inverted then WXor(cond, 1) else cond)]
      else
        [WOr(WOr(0x5400_0000, Shl(5, 32)), if inverted then cond else WXor(cond, 1))] + FarJump(t)
    case PCbz(op, rt, t) =>
      if window.Contains(t) then
        var imm19 := WAnd(AsU32(opsPos[TargetIndex(t, window)] - pos), 0x7_FFFF);
        [WOr(WOr(WAnd(op, 0xFF00_0000), Shl(imm19, 32)), rt)]
      else
        [WOr(WOr(WAnd(WXor(op, 0x0100_0000), 0xFF00_001F), Shl(5, 32)), rt)] + FarJump(t)
    case PTbz(op, rt, t) =>
      if window.Contains(t) then
        var imm14 := WAnd(AsU32(opsPos[TargetIndex(t, window)] - pos), 0x3_FFFF);
        [WOr(WOr(WAnd(op, 0xFFFF_8000), Shl(imm14, 32)), rt)]
      else
        [WOr(WOr(WAnd(WXor(op, 0x0100_0000), 0xFFFF_001F), Shl(5, 32)), rt)] + FarJump(t)
  }

  /** Two words of a little-endian 64-bit literal. */
  function Quad(value: nat): seq<Word>
    requires value < USIZE
  {
    [value % 0x1_0000_0000, value / 0x1_0000_0000]
  }

  function AbsoluteJump(target: nat): seq<Word>
    requires target < USIZE
  {
    [LDR_X16_LITERAL_8, BR_X16] + Quad(target)
  }

  /** Word offset of each plan, and the total, by running sum. */
  function Layout(plans: seq<Plan>, window: Window): (offsets: seq<nat>)
    ensures |offsets| == |plans|
    decreases |plans|
  {
    if plans == [] then []
    else Layout(plans[..|plans| - 1], window) + [Total(plans[..|plans| - 1], window)]
  }

  function Total(plans: seq<Plan>, window: Window): nat
    decreases |plans|
  {
    if plans == [] then 0
    else Total(plans[..|plans| - 1], window) + PlanSize(plans[|plans| - 1], window)
  }

  function PlanAll(ops: seq<Word>, entry: nat): (r: Result<seq<Plan>>)
    ensures r.Ok? ==> |r.value| == |ops|
    ensures r.Ok? ==> forall i :: 0 <= i < |ops| ==> PlanOp(ops[i], entry + i * 4) == Ok(r.value[i])
    ensures r.Err? ==> exists i :: 0 <= i < |ops| && PlanOp(ops[i], entry + i * 4) == Err(r.error)
    decreases |ops|
  {
    if ops == [] then Ok([])
    else
      var n := |ops| - 1;
      match PlanAll(ops[..n], entry)
      case Err(e) => Err(e)
      case Ok(plans) =>
        match PlanOp(ops[n], entry + n * 4)
        case Err(e) => Err(e)
        case Ok(plan) => Ok(plans + [plan])
  }

  /** The first `count` relocated instructions, in order. */
  function EmitFirst(plans: seq<Plan>, count: nat, window: Window, trampBase: nat): (words: seq<Word>)
    requires count <= |plans| && window.end == window.start + 4 * |plans|
    requires forall p :: p in plans ==> ValidPlan(p)
  {
    if count == 0 then []
    else
      var offsets := Layout(plans, window);
      EmitFirst(plans, count - 1, window, trampBase)
        + EmitOp(plans[count - 1], count - 1, offsets[count - 1], offsets, window, trampBase)
  }

  /** The whole trampoline: relocated instructions, then the jump back. */
  function TrampolineWords(plans: seq<Plan>, window: Window, trampBase: nat): seq<Word>
    requires window.end == window.start + 4 * |plans| < USIZE
    requires forall p :: p in plans ==> ValidPlan(p)
  {
    EmitFirst(plans, |plans|, window, trampBase) + AbsoluteJump(window.end)
  }

  function EntryPatch(entry: nat, replacement: nat): seq<Word>
    requires replacement < USIZE
  {
    var offset := replacement - entry;
    var imm26 := offset / 4;
    if offset % 4 == 0 && -BRANCH_IMM26_WORDS <= imm26 < BRANCH_IMM26_WORDS then
      [WOr(0x1400_0000, WAnd(AsU32(imm26), 0x03FF_FFFF))]
    else AbsoluteJump(replacement)
  }
}
