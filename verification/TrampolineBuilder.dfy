/** The emitter as it runs: a growing code buffer, and the two-pass trampoline builder over it. */
module TrampolineBuilder {
  import opened Bits
  import opened Relocation
  import opened Trampoline

  class CodeBuffer {
    var words: seq<Word>

    constructor ()
      ensures words == []
    {
      words := [];
    }

    method Push(w: Word)
      modifies this
      ensures words == old(words) + [w]
    {
      words := words + [w];
    }

    method Extend(ws: seq<Word>)
      modifies this
      ensures words == old(words) + ws
    {
      words := words + ws;
    }
  }

  method FarJumpSeq(buf: CodeBuffer, target: nat)
    modifies buf
    ensures buf.words == old(buf.words) + FarJump(target)
  {
    buf.Extend(MovImm48(16, target));
    buf.Push(BR_X16);
  }

  method Emit(buf: CodeBuffer, plan: Plan, index: nat, pos: nat, opsPos: seq<nat>, window: Window, trampBase: nat)
    requires ValidPlan(plan) && window.end == window.start + 4 * |opsPos|
    modifies buf
    ensures buf.words == old(buf.words) + EmitOp(plan, index, pos, opsPos, window, trampBase)
  {
    hide And, Or, WAnd, WOr, WXor, Shl, BEnc, FarJump, MovImm48, AsU32;
    match plan
    case Verbatim(op) => buf.Push(op);
    case PB(t) =>
      if window.Contains(t) {
        buf.Push(BEnc(0x05, opsPos[TargetIndex(t, window)] - pos));
      } else {
        FarJumpSeq(buf, t);
      }
    case PBl(t) =>
      if window.Contains(t) {
        buf.Push(BEnc(0x25, opsPos[TargetIndex(t, window)] - pos));
      } else {
        var next := index + 1;
        var ret := if next < |opsPos| then trampBase + opsPos[next] * 4 else window.end;
        buf.Extend(MovImm48(16, t));
        buf.Extend(MovImm48(30, ret));
        buf.Push(BR_X16);
      }
    case PBCond(cond, inverted, t) =>
      if window.Contains(t) {
        var imm19 := WAnd(AsU32(opsPos[TargetIndex(t, window)] - pos), 0x7_FFFF);
        buf.Push(WOr(WOr(0x5400_0000, Shl(imm19, 32)), if inverted then WXor(cond, 1) else cond));
      } else {
        var inv := if inverted then cond else WXor(cond, 1);
        buf.Push(WOr(WOr(0x5400_0000, Shl(5, 32)), inv));
        FarJumpSeq(buf, t);
      }
    case PCbz(op, rt, t) =>
      if window.Contains(t) {
        var imm19 := WAnd(AsU32(opsPos[TargetIndex(t, window)] - pos), 0x7_FFFF);
        buf.Push(WOr(WOr(WAnd(op, 0xFF00_0000), Shl(imm19, 32)), rt));
      } else {
        buf.Push(WOr(WOr(WAnd(WXor(op, 0x0100_0000), 0xFF00_001F), Shl(5, 32)), rt));
        FarJumpSeq(buf, t);
      }
    case PTbz(op, rt, t) =>
      if window.Contains(t) {
        var imm14 := WAnd(AsU32(opsPos[TargetIndex(t, window)] - pos), 0x3_FFFF);
        buf.Push(WOr(WOr(WAnd(op, 0xFFFF_8000), Shl(imm14, 32)), rt));
      } else {
        buf.Push(WOr(WOr(WAnd(WXor(op, 0x0100_0000), 0xFFFF_001F), Shl(5, 32)), rt));
        FarJumpSeq(buf, t);
      }
  }

  /** First pass, decoding: stops at the first instruction that cannot be relocated. */
  method PlanPass(entry: nat, ops: seq<Word>) returns (r: Result<seq<Plan>>)
    ensures r == PlanAll(ops, entry)
  {
    hide PlanOp;
    var plans: seq<Plan> := [];
    for i := 0 to |ops|
      invariant PlanAll(ops[..i], entry) == Ok(plans)
    {
      assert ops[..i + 1][..i] == ops[..i];
      match PlanOp(ops[i], entry + i * 4) {
        case Err(e) =>
          PlanFails(ops, entry, i);
          return Err(e);
        case Ok(plan) =>
          plans := plans + [plan];
      }
    }
    assert ops[..|ops|] == ops;
    return Ok(plans);
  }

  /** First pass, layout: a running sum of sizes. */
  method LayoutPass(plans: seq<Plan>, window: Window) returns (opsPos: seq<nat>, acc: nat)
    ensures opsPos == Layout(plans, window) && acc == Total(plans, window)
  {
    opsPos, acc := [], 0;
    for i := 0 to |plans|
      invariant opsPos == Layout(plans[..i], window) && acc == Total(plans[..i], window)
    {
      assert plans[..i + 1][..i] == plans[..i];
      opsPos := opsPos + [acc];
      acc := acc + PlanSize(plans[i], window);
    }
    assert plans[..|plans|] == plans;
  }

  /** Second pass: each instruction lands exactly where the layout put it, so no padding is ever needed. */
  method EmitPass(plans: seq<Plan>, opsPos: seq<nat>, window: Window, base: nat) returns (buf: CodeBuffer)
    requires window.end == window.start + 4 * |plans| && opsPos == Layout(plans, window)
    requires forall p :: p in plans ==> ValidPlan(p)
    ensures fresh(buf) && buf.words == EmitFirst(plans, |plans|, window, base)
  {
    hide EmitOp, Layout, PlanSize;
    buf := new CodeBuffer();
    for i := 0 to |plans|
      invariant buf.words == EmitFirst(plans, i, window, base)
    {
      var pos := opsPos[i];
      ghost var pads: nat := 0;
      while |buf.words| < pos
        invariant buf.words == EmitFirst(plans, i, window, base) + seq(pads, _ => NOP)
        invariant pads > 0 ==> |buf.words| <= pos
      {
        buf.Push(NOP);
        pads := pads + 1;
      }
      EmittedSoFar(plans, i, window, base);
      Emit(buf, plans[i], i, pos, opsPos, window, base);
    }
  }

  /** What the operating system answers while the trampoline page is set up. */
  datatype PageEnv = PageEnv(pageSizeKnown: bool, mapped: bool, base: nat, protectOk: bool)

  method Build(entry: nat, ops: seq<Word>, env: PageEnv) returns (r: Result<(nat, seq<Word>)>)
    requires entry + 4 * |ops| < USIZE
    ensures PlanAll(ops, entry).Err? ==> r == Err(PlanAll(ops, entry).error)
    ensures PlanAll(ops, entry).Ok? && !env.pageSizeKnown ==> r == Err(PageSizeUnavailable)
    ensures PlanAll(ops, entry).Ok? && env.pageSizeKnown && !env.mapped ==> r == Err(MapFailed)
    ensures PlanAll(ops, entry).Ok? && env.pageSizeKnown && env.mapped ==>
      r == if env.protectOk then Ok((env.base, Displaced(entry, ops, env.base).Words())) else Err(ProtectFailed)
  {
    hide EmitOp, Layout, PlanAll, EmitFirst, AbsoluteJump;
    var window := Window(entry, entry + 4 * |ops|);
    var planned := PlanPass(entry, ops);
    if planned.Err? {
      return Err(planned.error);
    }
    var plans := planned.value;
    var opsPos, acc := LayoutPass(plans, window);
    if !env.pageSizeKnown {
      return Err(PageSizeUnavailable);
    }
    if !env.mapped {
      return Err(MapFailed);
    }
    ValidTargets(Displaced(entry, ops, env.base));
    var buf := EmitPass(plans, opsPos, window, env.base);
    buf.Extend(AbsoluteJump(window.end));
    if !env.protectOk {
      return Err(ProtectFailed);
    }
    return Ok((env.base, buf.words));
  }

  lemma {:induction false} PlanFails(ops: seq<Word>, entry: nat, i: nat)
    requires i < |ops| && PlanAll(ops[..i], entry).Ok? && PlanOp(ops[i], entry + i * 4).Err?
    ensures PlanAll(ops, entry) == Err(PlanOp(ops[i], entry + i * 4).error)
    decreases |ops|
  {
    hide PlanOp;
    var n := |ops| - 1;
    if i < n {
      assert ops[..n][..i] == ops[..i];
      PlanFails(ops[..n], entry, i);
    }
  }

  lemma EmittedSoFar(plans: seq<Plan>, i: nat, window: Window, base: nat)
    requires i < |plans| && window.end == window.start + 4 * |plans|
    requires forall p :: p in plans ==> ValidPlan(p)
    ensures |EmitFirst(plans, i, window, base)| == Layout(plans, window)[i]
  {
    EmitFirstLength(plans, i, window, base);
    LayoutAt(plans, window, i);
  }

  /** Four displaced instructions and the jump back take at most 128 bytes. */
  lemma FourFitAPage(d: Displaced)
    requires d.Accepted() && |d.ops| <= 4 && d.entry + 4 * |d.ops| < USIZE
    ensures 4 * |d.Words()| <= 128
  {
    ValidTargets(d);
    EmitFirstLength(d.Plans(), |d.ops|, d.Win(), d.base);
    assert d.Plans()[..|d.ops|] == d.Plans();
    PosGrows(d, 0, |d.ops|);
  }
}
