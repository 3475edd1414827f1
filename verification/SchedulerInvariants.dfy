/** What every run of the scheduler keeps. */
module SchedulerInvariants {
  import opened Multisets
  import opened Options
  import opened Gate
  import opened OriginalCall
  import opened Scheduler

  // Where the Apps are

  function OptionId(app: Option<App>): Option<nat> { if app.Some? then Some(app.value.id) else None }

  function SlotId(slot: AppSlot): Option<nat> { if slot.Running? || slot.Exited? then Some(slot.app.id) else None }

  function Ids(id: Option<nat>): multiset<nat> { if id.Some? then multiset{id.value} else multiset{} }

  function StackIds(stack: seq<Frame>): multiset<nat>
  {
    if stack == [] then multiset{} else StackIds(stack[..|stack| - 1]) + Ids(OptionId(stack[|stack| - 1].app))
  }

  function LeakedIds(leaked: seq<App>): multiset<nat>
  {
    if leaked == [] then multiset{} else LeakedIds(leaked[..|leaked| - 1]) + multiset{leaked[|leaked| - 1].id}
  }

  function ThreadIds(t: Thread): multiset<nat> { Ids(SlotId(t.slot)) + StackIds(t.stack) + LeakedIds(t.leaked) }

  function AllThreadIds(threads: seq<Thread>): multiset<nat>
  {
    if threads == [] then multiset{} else AllThreadIds(threads[..|threads| - 1]) + ThreadIds(threads[|threads| - 1])
  }

  /** Every App in the system, wherever it is. */
  function Everywhere(s: State): multiset<nat> { Ids(OptionId(s.shared.handoff)) + AllThreadIds(s.threads) }

  // The invariant

  predicate AppOk(a: App)
  {
    a.startups <= 1 && (a.started ==> a.startups == 1) && (a.updates > 0 ==> a.started)
  }

  /** At rest no driver pass is under way, so a startup begun is a startup completed. */
  predicate AppRests(a: App) { AppOk(a) && (a.startups == 1 ==> a.started) }

  predicate Holds(f: Frame) { f.app.Some? && AppRests(f.app.value) }

  predicate HoldsIfAny(f: Frame) { f.app.Some? ==> AppRests(f.app.value) }

  predicate ThenOk(f: Frame, next: Then)
  {
    match next
    case FailedClaim => f.phase == BeforeOriginal && f.app.None? && !f.committed
    case Mismatch => f.phase == BeforeOriginal && f.app.None? && !f.committed
    case Claiming => f.phase == BeforeOriginal && f.app.None? && !f.committed && !f.bornFailed
    case Unwound => !f.committed
    case Dropping => f.phase != BeforeOriginal && f.app.Some? && !f.committed
  }

  predicate PcOk(g: Shared, f: Frame)
  {
    match f.pc
    case Start => f.phase == BeforeOriginal && f.app.None? && !f.committed
    case FailClaim => f.phase == BeforeOriginal && f.app.None? && !f.committed
    case FailCommit => f.phase == BeforeOriginal && HoldsIfAny(f) && !f.committed
    case Identity => f.phase == BeforeOriginal && f.app.None? && !f.committed && !f.bornFailed
    case MismatchTls => f.phase == BeforeOriginal && f.app.None? && !f.committed
    case Claim => f.phase == BeforeOriginal && f.app.None? && !f.committed && !f.bornFailed
    case Claimed => f.phase == BeforeOriginal && HoldsIfAny(f) && !f.committed && !f.bornFailed
    case Driver(startup) =>
      && f.phase == BeforeOriginal && f.app.Some? && !f.committed && !f.bornFailed
      && f.app.value.startups == 1 && startup == !f.app.value.started
    case OpenGate => f.phase == BeforeOriginal && Holds(f) && !f.committed && !f.bornFailed && g.startupsReturned > 0
    case ToOriginal(k) =>
      f.phase == BeforeOriginal && !f.committed && (k == Commit ==> Holds(f)) && (k == Passthrough ==> f.app.None?)
    case InOriginal(k) =>
      f.phase == CallingOriginal && !f.committed && (k == Commit ==> Holds(f)) && (k == Passthrough ==> f.app.None?)
    case ReadExit => f.phase == AfterOriginal && Holds(f) && !f.committed
    case CommitTls(_) => f.phase == AfterOriginal && Holds(f) && !f.committed
    case PubControl(next) => ThenOk(f, next)
    case PubFlag(next) => ThenOk(f, next) && g.gate.control == FailedClosed
    case PubFailed(next) => ThenOk(f, next) && g.gate == GateState(FailedClosed, false)
    case Recover => !f.committed
    case Drop => f.phase != BeforeOriginal && (f.committed ==> f.app.None?)
    case Leak => f.phase != BeforeOriginal && f.app.Some? && !f.committed
  }

  predicate FrameOk(g: Shared, f: Frame)
  {
    && f.entered == (if f.phase == BeforeOriginal then 0 else 1)
    && (f.bornFailed ==> g.failed)
    && (f.app.Some? ==> AppOk(f.app.value))
    && PcOk(g, f)
  }

  function Holders(stack: seq<Frame>): nat
  {
    if stack == [] then 0 else Holders(stack[..|stack| - 1]) + (if stack[|stack| - 1].app.Some? then 1 else 0)
  }

  /** A thread is Busy exactly when one of its frames holds an App or it has leaked one, never both or two. */
  predicate BusyExactly(t: Thread) { Holders(t.stack) + |t.leaked| == (if t.slot == Busy then 1 else 0) }

  ghost predicate ThreadOk(g: Shared, t: Thread)
  {
    && BusyExactly(t) && !t.broken
    && (t.slot.Running? || t.slot.Exited? ==> AppRests(t.slot.app))
    && (forall f | f in t.stack :: FrameOk(g, f))
    && (forall a | a in t.leaked :: AppOk(a))
    && (forall n | n in t.done :: n == 1)
  }

  predicate SharedOk(g: Shared)
  {
    && (g.failed ==> g.gate == GateState(FailedClosed, false))
    && (g.gate.control == Closed ==> !g.gate.flag)
    && (g.gate.control == Open || g.gate.flag ==> g.startupsReturned > 0)
    && (g.handoff.Some? ==> AppRests(g.handoff.value))
  }

  ghost predicate Inv(s: State)
  {
    && SharedOk(s.shared)
    && (forall i | 0 <= i < |s.threads| :: ThreadOk(s.shared, s.threads[i]))
    && Everywhere(s) == s.shared.published
  }

  // Steps

  /** What no step takes back: failure, the closed gate, and startups that returned. */
  predicate Later(g: Shared, g1: Shared)
  {
    && (g.failed ==> g1.failed)
    && (g.gate.control == FailedClosed ==> g1.gate.control == FailedClosed)
    && (g.gate == GateState(FailedClosed, false) ==> g1.gate == g.gate)
    && g.startupsReturned <= g1.startupsReturned
  }

  lemma ThreadStaysOk(g: Shared, g1: Shared, t: Thread)
    requires ThreadOk(g, t) && Later(g, g1)
    ensures ThreadOk(g1, t)
  {
    hide Holders, AppOk, AppRests;
    forall f | f in t.stack ensures FrameOk(g1, f) {
      assert FrameOk(g, f);
    }
  }

  function Weight(app: Option<App>): nat { if app.Some? then 1 else 0 }

  /** What a step of a frame must leave behind, given that its thread is Busy if it holds an App. */
  predicate StepOk(g: Shared, f: Frame, o: Outcome)
  {
    && SharedOk(o.shared) && Later(g, o.shared) && o.shared.published == g.published && !o.broken
    && (o.slot.Running? || o.slot.Exited? ==> AppRests(o.slot.app))
    && (o.frame.Some? ==> FrameOk(o.shared, o.frame.value))
    && (o.frame.None? ==> f.entered == 1)
    && |o.leaked| <= 1 && (o.leaked != [] ==> AppOk(o.leaked[0]))
  }

  predicate Enabled(g: Shared, slot: AppSlot, f: Frame)
  {
    && SharedOk(g) && FrameOk(g, f)
    && (f.app.Some? ==> slot == Busy)
    && (slot.Running? || slot.Exited? ==> AppRests(slot.app))
  }

  function AppAfter(o: Outcome): Option<App> { if o.frame.Some? then o.frame.value.app else None }

  /** An App stays where it is, or moves from the handoff or the slot to the frame, or from there on. */
  predicate Moves(g: Shared, slot: AppSlot, f: Frame, o: Outcome)
  {
    var h, s, a := OptionId(g.handoff), SlotId(slot), OptionId(f.app);
    var h1, s1, a1 := OptionId(o.shared.handoff), SlotId(o.slot), OptionId(AppAfter(o));
    || (h1 == h && s1 == s && a1 == a && o.leaked == [])
    || (h1 == a && s1 == s && a1 == h && o.leaked == [])
    || (h1 == h && s1 == a && a1 == s && o.leaked == [])
    || (h1 == h && s1 == s && a1 == None && |o.leaked| == 1 && a == Some(o.leaked[0].id))
  }

  predicate Balanced(slot: AppSlot, f: Frame, o: Outcome)
  {
    (if o.slot == Busy then 1 else 0) - Weight(AppAfter(o)) - |o.leaked| == (if slot == Busy then 1 else 0) - Weight(f.app)
  }

  lemma MovesKeepSum(g: Shared, slot: AppSlot, f: Frame, o: Outcome)
    requires Moves(g, slot, f, o)
    ensures Ids(OptionId(o.shared.handoff)) + Ids(SlotId(o.slot)) + Ids(OptionId(AppAfter(o))) + LeakedIds(o.leaked)
            == Ids(OptionId(g.handoff)) + Ids(SlotId(slot)) + Ids(OptionId(f.app))
  {
    LeakedIdsSmall();
    hide OptionId, SlotId, LeakedIds;
    assert |o.leaked| == 1 ==> o.leaked == [o.leaked[0]];
  }

  lemma LeakedIdsSmall()
    ensures LeakedIds([]) == multiset{} && forall a: App :: LeakedIds([a]) == multiset{a.id}
  {
    assert forall a: App :: [a][..0] == [];
  }

  lemma PublicationKeeps(g: Shared, slot: AppSlot, f: Frame)
    requires Enabled(g, slot, f) && (f.pc.PubControl? || f.pc.PubFlag? || f.pc.PubFailed?)
    ensures StepOk(g, f, PublicationStep(g, slot, f))
  {
  }

  lemma PublicationMoves(g: Shared, slot: AppSlot, f: Frame)
    requires Enabled(g, slot, f) && (f.pc.PubControl? || f.pc.PubFlag? || f.pc.PubFailed?)
    ensures var o := PublicationStep(g, slot, f); Moves(g, slot, f, o) && Balanced(slot, f, o)
  {
    hide AppOk, AppRests, SharedOk;
  }

  lemma DispositionKeeps(g: Shared, slot: AppSlot, f: Frame, c: Choice)
    requires Enabled(g, slot, f) && (f.pc.Start? || f.pc.FailClaim? || f.pc.FailCommit? || f.pc.Identity? || f.pc.MismatchTls? || f.pc.Claim?)
    ensures StepOk(g, f, DispositionStep(g, slot, f, c))
  {
  }

  lemma DispositionMoves(g: Shared, slot: AppSlot, f: Frame, c: Choice)
    requires Enabled(g, slot, f) && (f.pc.Start? || f.pc.FailClaim? || f.pc.FailCommit? || f.pc.Identity? || f.pc.MismatchTls? || f.pc.Claim?)
    ensures var o := DispositionStep(g, slot, f, c); Moves(g, slot, f, o) && Balanced(slot, f, o)
  {
    hide AppOk, AppRests, SharedOk;
  }

  lemma DriverKeeps(g: Shared, slot: AppSlot, f: Frame, c: Choice)
    requires Enabled(g, slot, f) && (f.pc.Claimed? || f.pc.Driver? || f.pc.OpenGate?)
    ensures StepOk(g, f, DriverStep(g, slot, f, c))
  {
    hide StepOk, DriverStep, Enabled;
    match f.pc
    case Claimed => ClaimedKeeps(g, slot, f, c);
    case Driver(_) => PassKeeps(g, slot, f, c);
    case OpenGate => OpenKeeps(g, slot, f, c);
  }

  lemma ClaimedKeeps(g: Shared, slot: AppSlot, f: Frame, c: Choice)
    requires Enabled(g, slot, f) && f.pc.Claimed?
    ensures StepOk(g, f, DriverStep(g, slot, f, c))
  {
  }

  lemma PassKeeps(g: Shared, slot: AppSlot, f: Frame, c: Choice)
    requires Enabled(g, slot, f) && f.pc.Driver?
    ensures StepOk(g, f, DriverStep(g, slot, f, c))
  {
  }

  lemma OpenKeeps(g: Shared, slot: AppSlot, f: Frame, c: Choice)
    requires Enabled(g, slot, f) && f.pc.OpenGate?
    ensures StepOk(g, f, DriverStep(g, slot, f, c))
  {
  }

  lemma DriverMoves(g: Shared, slot: AppSlot, f: Frame, c: Choice)
    requires Enabled(g, slot, f) && (f.pc.Claimed? || f.pc.Driver? || f.pc.OpenGate?)
    ensures var o := DriverStep(g, slot, f, c); Moves(g, slot, f, o) && Balanced(slot, f, o)
  {
    hide AppOk, AppRests, SharedOk;
  }

  lemma OriginalKeeps(g: Shared, slot: AppSlot, f: Frame, c: Choice)
    requires Enabled(g, slot, f) && (f.pc.ToOriginal? || f.pc.InOriginal? || f.pc.ReadExit? || f.pc.CommitTls? || f.pc.Recover? || f.pc.Drop? || f.pc.Leak?)
    ensures StepOk(g, f, OriginalStep(g, slot, f, c))
  {
    hide StepOk, OriginalStep, Enabled;
    if f.pc.ToOriginal? || f.pc.InOriginal? || f.pc.Recover? {
      CallKeeps(g, slot, f, c);
    } else if f.pc.ReadExit? || f.pc.CommitTls? {
      ExitKeeps(g, slot, f, c);
    } else {
      LastKeeps(g, slot, f, c);
    }
  }

  lemma CallKeeps(g: Shared, slot: AppSlot, f: Frame, c: Choice)
    requires Enabled(g, slot, f) && (f.pc.ToOriginal? || f.pc.InOriginal? || f.pc.Recover?)
    ensures StepOk(g, f, OriginalStep(g, slot, f, c))
  {
    hide AppOk, AppRests, SharedOk;
  }

  lemma ExitKeeps(g: Shared, slot: AppSlot, f: Frame, c: Choice)
    requires Enabled(g, slot, f) && (f.pc.ReadExit? || f.pc.CommitTls?)
    ensures StepOk(g, f, OriginalStep(g, slot, f, c))
  {
    hide AppOk, AppRests, SharedOk;
  }

  lemma LastKeeps(g: Shared, slot: AppSlot, f: Frame, c: Choice)
    requires Enabled(g, slot, f) && (f.pc.Drop? || f.pc.Leak?)
    ensures StepOk(g, f, OriginalStep(g, slot, f, c))
  {
    hide AppOk, AppRests, SharedOk;
  }

  lemma OriginalMoves(g: Shared, slot: AppSlot, f: Frame, c: Choice)
    requires Enabled(g, slot, f) && (f.pc.ToOriginal? || f.pc.InOriginal? || f.pc.ReadExit? || f.pc.CommitTls? || f.pc.Recover? || f.pc.Drop? || f.pc.Leak?)
    ensures var o := OriginalStep(g, slot, f, c); Moves(g, slot, f, o) && Balanced(slot, f, o)
  {
    hide AppOk, AppRests, SharedOk;
  }

  lemma FrameStepKeeps(g: Shared, slot: AppSlot, f: Frame, c: Choice)
    requires Enabled(g, slot, f)
    ensures var o := FrameStep(g, slot, f, c); StepOk(g, f, o) && Moves(g, slot, f, o) && Balanced(slot, f, o)
  {
    hide StepOk, Moves, Balanced, Enabled, PublicationStep, DispositionStep, DriverStep, OriginalStep;
    match f.pc
    case PubControl(_) => PublicationKeeps(g, slot, f); PublicationMoves(g, slot, f);
    case PubFlag(_) => PublicationKeeps(g, slot, f); PublicationMoves(g, slot, f);
    case PubFailed(_) => PublicationKeeps(g, slot, f); PublicationMoves(g, slot, f);
    case Start => DispositionKeeps(g, slot, f, c); DispositionMoves(g, slot, f, c);
    case FailClaim => DispositionKeeps(g, slot, f, c); DispositionMoves(g, slot, f, c);
    case FailCommit => DispositionKeeps(g, slot, f, c); DispositionMoves(g, slot, f, c);
    case Identity => DispositionKeeps(g, slot, f, c); DispositionMoves(g, slot, f, c);
    case MismatchTls => DispositionKeeps(g, slot, f, c); DispositionMoves(g, slot, f, c);
    case Claim => DispositionKeeps(g, slot, f, c); DispositionMoves(g, slot, f, c);
    case Claimed => DriverKeeps(g, slot, f, c); DriverMoves(g, slot, f, c);
    case Driver(_) => DriverKeeps(g, slot, f, c); DriverMoves(g, slot, f, c);
    case OpenGate => DriverKeeps(g, slot, f, c); DriverMoves(g, slot, f, c);
    case _ => OriginalKeeps(g, slot, f, c); OriginalMoves(g, slot, f, c);
  }

  lemma {:induction false} LeakedIdsAppend(a: seq<App>, b: seq<App>)
    requires |b| <= 1
    ensures LeakedIds(a + b) == LeakedIds(a) + LeakedIds(b)
  {
    if b != [] {
      assert (a + b)[..|a + b| - 1] == a;
      assert b[..0] == [];
    } else {
      assert a + b == a;
    }
  }

  /** The stack with its top frame stepped or popped. */
  lemma StackStep(below: seq<Frame>, top: Frame, frame: Option<Frame>)
    ensures var stack, stack1 := below + [top], if frame.Some? then below + [frame.value] else below;
      var app1 := if frame.Some? then frame.value.app else None;
      && Holders(stack) == Holders(below) + Weight(top.app) && Holders(stack1) == Holders(below) + Weight(app1)
      && StackIds(stack) == StackIds(below) + Ids(OptionId(top.app)) && StackIds(stack1) == StackIds(below) + Ids(OptionId(app1))
  {
    assert (below + [top])[..|below|] == below;
    if frame.Some? {
      assert (below + [frame.value])[..|below|] == below;
    }
  }

  lemma Regroup(h: multiset<nat>, s: multiset<nat>, below: multiset<nat>, a: multiset<nat>, rest: multiset<nat>, l: multiset<nat>)
    ensures h + (s + (below + a) + (rest + l)) == (h + s + a + l) + (below + rest)
  {
  }

  lemma AdvanceKeeps(g: Shared, t: Thread, c: Choice)
    requires SharedOk(g) && ThreadOk(g, t) && t.stack != []
    ensures var o := FrameStep(g, t.slot, t.stack[|t.stack| - 1], c);
      && SharedOk(o.shared) && Later(g, o.shared) && ThreadOk(o.shared, Advanced(t, o))
      && o.shared.published == g.published
      && Ids(OptionId(o.shared.handoff)) + ThreadIds(Advanced(t, o)) == Ids(OptionId(g.handoff)) + ThreadIds(t)
  {
    hide FrameStep, SharedOk, Later, AppOk, AppRests, FrameOk, OptionId, SlotId, Ids, StackIds, LeakedIds, Holders;
    var below, top := t.stack[..|t.stack| - 1], t.stack[|t.stack| - 1];
    assert t.stack == below + [top];
    var o := FrameStep(g, t.slot, top, c);
    StackStep(below, top, o.frame);
    FrameStepKeeps(g, t.slot, top, c);
    MovesKeepSum(g, t.slot, top, o);
    LeakedIdsAppend(t.leaked, o.leaked);
    ThreadStaysOk(g, o.shared, t);
    AdvancedOk(t, o, below, top);
    Regroup(Ids(OptionId(g.handoff)), Ids(SlotId(t.slot)), StackIds(below), Ids(OptionId(top.app)), LeakedIds(t.leaked),
            multiset{});
    Regroup(Ids(OptionId(o.shared.handoff)), Ids(SlotId(o.slot)), StackIds(below), Ids(OptionId(AppAfter(o))),
            LeakedIds(t.leaked), LeakedIds(o.leaked));
  }

  lemma AdvancedOk(t: Thread, o: Outcome, below: seq<Frame>, top: Frame)
    requires t.stack == below + [top] && ThreadOk(o.shared, t)
    requires o.frame.Some? ==> FrameOk(o.shared, o.frame.value)
    requires o.frame.None? ==> top.entered == 1
    requires |o.leaked| <= 1 && (o.leaked != [] ==> AppOk(o.leaked[0])) && !o.broken
    requires o.slot.Running? || o.slot.Exited? ==> AppRests(o.slot.app)
    requires BusyExactly(Advanced(t, o))
    ensures ThreadOk(o.shared, Advanced(t, o))
  {
    hide AppOk, AppRests, FrameOk, BusyExactly;
    var t1 := Advanced(t, o);
    assert t.stack[..|t.stack| - 1] == below && t.stack[|t.stack| - 1] == top;
    forall f | f in t1.stack ensures FrameOk(o.shared, f) {
      assert f in below ==> f in t.stack;
    }
  }

  lemma {:induction false} ReplacedThread(threads: seq<Thread>, i: nat, t: Thread)
    requires i < |threads|
    ensures AllThreadIds(threads[i := t]) + ThreadIds(threads[i]) == AllThreadIds(threads) + ThreadIds(t)
  {
    hide ThreadIds;
    var n := |threads| - 1;
    if i < n {
      ReplacedThread(threads[..n], i, t);
      assert threads[i := t][..n] == threads[..n][i := t];
      SumSwap(AllThreadIds(threads[..n][i := t]), AllThreadIds(threads[..n]), ThreadIds(threads[n]),
              ThreadIds(threads[i]), ThreadIds(t));
    } else {
      assert threads[i := t][..n] == threads[..n];
    }
  }

  lemma NewFrameOk(g: Shared)
    ensures FrameOk(g, Frame(Start, None, BeforeOriginal, false, 0, g.failed))
  {
  }

  lemma EnterKeeps(g: Shared, t: Thread)
    requires ThreadOk(g, t)
    ensures ThreadOk(g, Entered(g, t)) && ThreadIds(Entered(g, t)) == ThreadIds(t)
  {
    hide FrameOk, AppOk, AppRests, LeakedIds, SlotId;
    NewFrameOk(g);
    var t1 := Entered(g, t);
    assert t1.stack[..|t.stack|] == t.stack;
    assert StackIds(t1.stack) == StackIds(t.stack) + multiset{} == StackIds(t.stack);
    assert Holders(t1.stack) == Holders(t.stack);
  }

  lemma PublishKeeps(s: State, a: Action)
    requires Inv(s) && (a.Publish? || a == Poison)
    ensures Inv(Step(s, a)) && Later(s.shared, Step(s, a).shared)
  {
    hide FrameStep, ThreadOk, AllThreadIds, ThreadIds, Entered, Advanced;
    var s1 := Step(s, a);
    forall i | 0 <= i < |s.threads| ensures ThreadOk(s1.shared, s.threads[i]) {
      ThreadStaysOk(s.shared, s1.shared, s.threads[i]);
    }
  }

  lemma EnterStep(s: State, i: nat)
    requires Inv(s)
    ensures Inv(Step(s, Enter(i))) && Later(s.shared, Step(s, Enter(i)).shared)
  {
    hide FrameStep, ThreadOk, AllThreadIds, ThreadIds, Entered, Advanced, SharedOk;
    var s1 := Step(s, Enter(i));
    if i < |s.threads| && CanEnter(s.threads[i]) {
      EnterKeeps(s.shared, s.threads[i]);
      ReplacedThread(s.threads, i, Entered(s.shared, s.threads[i]));
      Cancel(AllThreadIds(s1.threads), AllThreadIds(s.threads), ThreadIds(s.threads[i]));
    }
  }

  lemma StepKeeps(s: State, a: Action)
    requires Inv(s)
    ensures Inv(Step(s, a)) && Later(s.shared, Step(s, a).shared)
  {
    hide Inv, Later, Step;
    match a
    case Publish(_) => PublishKeeps(s, a);
    case Poison => PublishKeeps(s, a);
    case Enter(i) => EnterStep(s, i);
    case Advance(i, c) =>
      if i < |s.threads| && s.threads[i].stack != [] {
        AdvanceStep(s, i, c);
      } else {
        NothingAdvances(s, i, c);
      }
  }

  lemma NothingAdvances(s: State, i: nat, c: Choice)
    requires i >= |s.threads| || s.threads[i].stack == []
    ensures Step(s, Advance(i, c)) == s && Later(s.shared, s.shared)
  {
  }

  lemma Transfer(h: multiset<nat>, h1: multiset<nat>, t: multiset<nat>, t1: multiset<nat>, all: multiset<nat>, all1: multiset<nat>)
    requires h1 + t1 == h + t && all1 + t == all + t1
    ensures h1 + all1 == h + all
  {
    forall e ensures (h1 + all1)[e] == (h + all)[e] {
      assert (h1 + t1)[e] == (h + t)[e] && (all1 + t)[e] == (all + t1)[e];
    }
  }

  lemma AdvanceStep(s: State, i: nat, c: Choice)
    requires Inv(s) && i < |s.threads| && s.threads[i].stack != []
    ensures Inv(Step(s, Advance(i, c))) && Later(s.shared, Step(s, Advance(i, c)).shared)
  {
    hide FrameStep, ThreadOk, AllThreadIds, ThreadIds, Advanced, SharedOk, OptionId, Ids;
    var t := s.threads[i];
    var o := FrameStep(s.shared, t.slot, t.stack[|t.stack| - 1], c);
    AdvanceKeeps(s.shared, t, c);
    ReplacedThread(s.threads, i, Advanced(t, o));
    Transfer(Ids(OptionId(s.shared.handoff)), Ids(OptionId(o.shared.handoff)), ThreadIds(t), ThreadIds(Advanced(t, o)),
             AllThreadIds(s.threads), AllThreadIds(s.threads[i := Advanced(t, o)]));
    forall j | 0 <= j < |s.threads| && j != i ensures ThreadOk(o.shared, s.threads[j]) {
      ThreadStaysOk(s.shared, o.shared, s.threads[j]);
    }
  }

  lemma {:induction false} IdleThreads(threads: seq<Thread>)
    requires forall i | 0 <= i < |threads| :: threads[i] == Idle()
    ensures AllThreadIds(threads) == multiset{}
  {
    if threads != [] {
      IdleThreads(threads[..|threads| - 1]);
    }
  }

  // Runs

  lemma InitOk(threads: nat)
    ensures Inv(Init(threads))
  {
    IdleThreads(Init(threads).threads);
  }

  lemma {:induction false} RunKeeps(threads: nat, actions: seq<Action>)
    ensures Inv(Run(Init(threads), actions))
    decreases |actions|
  {
    hide Step, Inv;
    if actions == [] {
      InitOk(threads);
    } else {
      RunKeeps(threads, actions[..|actions| - 1]);
      StepKeeps(Run(Init(threads), actions[..|actions| - 1]), actions[|actions| - 1]);
    }
  }

  /** In every run the Apps in the handoff, the thread slots, the live frames and the leaked set are, all
      together and each once, the Apps whose publication was accepted. */
  lemma AppsConserved(threads: nat, actions: seq<Action>)
    ensures var s := Run(Init(threads), actions);
      Ids(OptionId(s.shared.handoff)) + AllThreadIds(s.threads) == s.shared.published
  {
    RunKeeps(threads, actions);
  }

  /** A thread is Busy exactly when one of its frames holds or it has leaked an App, and committing
      never finds the slot in another state. */
  lemma CommitFindsBusy(threads: nat, actions: seq<Action>, i: nat)
    requires i < |Run(Init(threads), actions).threads|
    ensures var t := Run(Init(threads), actions).threads[i];
      && (t.slot == Busy <==> (exists f :: f in t.stack && f.app.Some?) || t.leaked != [])
      && BusyExactly(t) && !t.broken
  {
    hide Run;
    RunKeeps(threads, actions);
    var s := Run(Init(threads), actions);
    assert ThreadOk(s.shared, s.threads[i]);
    HoldersCount(s.threads[i].stack);
  }

  lemma {:induction false} HoldersCount(stack: seq<Frame>)
    ensures Holders(stack) > 0 <==> exists f :: f in stack && f.app.Some?
  {
    if stack != [] {
      var rest, top := stack[..|stack| - 1], stack[|stack| - 1];
      HoldersCount(rest);
      assert stack == rest + [top];
      if Holders(rest) > 0 {
        var f :| f in rest && f.app.Some?;
        assert f in stack;
      }
      if top.app.Some? {
        assert top in stack;
      }
    }
  }

  /** No frame enters the original twice, and every frame that is gone entered it exactly once. */
  lemma OriginalExactlyOnce(threads: nat, actions: seq<Action>, i: nat)
    requires i < |Run(Init(threads), actions).threads|
    ensures var t := Run(Init(threads), actions).threads[i];
      && (forall f | f in t.stack :: f.entered == if f.phase == BeforeOriginal then 0 else 1)
      && (forall n | n in t.done :: n == 1)
  {
    hide Run;
    RunKeeps(threads, actions);
    var s := Run(Init(threads), actions);
    assert ThreadOk(s.shared, s.threads[i]);
    forall f | f in s.threads[i].stack ensures f.entered == if f.phase == BeforeOriginal then 0 else 1 {
      assert FrameOk(s.shared, f);
    }
  }

  /** An upper bound on the steps a frame has left. */
  function Rank(pc: Pc): nat
  {
    match pc
    case Start => 28
    case FailClaim => 27
    case Identity => 27
    case PubControl(next) => 4 + RankAfter(next)
    case PubFlag(next) => 3 + RankAfter(next)
    case PubFailed(next) => 2 + RankAfter(next)
    case FailCommit => 22
    case MismatchTls => 22
    case Claim => 26
    case Claimed => 21
    case Driver(_) => 20
    case OpenGate => 19
    case ToOriginal(k) => if k == Compensate then 7 else 18
    case InOriginal(k) => if k == Compensate then 6 else 17
    case ReadExit => 16
    case CommitTls(_) => 15
    case Recover => 8
    case Drop => 5
    case Leak => 0
  }

  function RankAfter(next: Then): nat
  {
    match next
    case FailedClaim => 22
    case Mismatch => 22
    case Claiming => 21
    case Unwound => 8
    case Dropping => 0
  }

  lemma PublicationEnds(g: Shared, slot: AppSlot, f: Frame)
    requires f.pc.PubControl? || f.pc.PubFlag? || f.pc.PubFailed?
    ensures Rank(PublicationStep(g, slot, f).frame.value.pc) < Rank(f.pc)
  {
  }

  lemma DispositionEnds(g: Shared, slot: AppSlot, f: Frame, c: Choice)
    requires f.pc.Start? || f.pc.FailClaim? || f.pc.FailCommit? || f.pc.Identity? || f.pc.MismatchTls? || f.pc.Claim?
    ensures var o := DispositionStep(g, slot, f, c); o.frame.Some? && Rank(o.frame.value.pc) < Rank(f.pc)
  {
    hide ClaimApp, CommittedSlot;
  }

  lemma DriverEnds(g: Shared, slot: AppSlot, f: Frame, c: Choice)
    requires f.pc.Claimed? || f.pc.Driver? || f.pc.OpenGate?
    ensures var o := DriverStep(g, slot, f, c); o.frame.Some? && Rank(o.frame.value.pc) < Rank(f.pc)
  {
    hide RankAfter, Rank;
    DriverGoes(g, slot, f, c);
    RanksOfDriver();
  }

  lemma DriverGoes(g: Shared, slot: AppSlot, f: Frame, c: Choice)
    requires f.pc.Claimed? || f.pc.Driver? || f.pc.OpenGate?
    ensures var o := DriverStep(g, slot, f, c);
      && o.frame.Some?
      && var pc := o.frame.value.pc;
         match f.pc
         case Claimed => pc == ToOriginal(Passthrough) || pc.Driver?
         case Driver(_) => pc == PubControl(Unwound) || pc == OpenGate || pc == ToOriginal(Commit)
         case OpenGate => pc == ToOriginal(Commit)
  {
  }

  lemma RanksOfDriver()
    ensures Rank(Claimed) == 21 && Rank(OpenGate) == 19 && Rank(PubControl(Unwound)) == 12
    ensures Rank(ToOriginal(Passthrough)) == Rank(ToOriginal(Commit)) == 18
    ensures forall b: bool :: Rank(Driver(b)) == 20
  {
  }

  lemma OriginalEnds(g: Shared, slot: AppSlot, f: Frame, c: Choice)
    requires f.pc.ToOriginal? || f.pc.InOriginal? || f.pc.ReadExit? || f.pc.CommitTls? || f.pc.Recover? || f.pc.Drop? || f.pc.Leak?
    ensures var o := OriginalStep(g, slot, f, c); o.frame.Some? ==> Rank(o.frame.value.pc) < Rank(f.pc)
  {
    hide OriginalStep, Rank;
    if f.pc.ToOriginal? || f.pc.InOriginal? {
      CallEnds(g, slot, f, c);
    } else if f.pc.CommitTls? {
      ExitEnds(g, slot, f, c);
    } else {
      LastEnds(g, slot, f, c);
    }
  }

  lemma CallEnds(g: Shared, slot: AppSlot, f: Frame, c: Choice)
    requires f.pc.ToOriginal? || f.pc.InOriginal?
    ensures var o := OriginalStep(g, slot, f, c); o.frame.Some? ==> Rank(o.frame.value.pc) < Rank(f.pc)
  {
    hide CommitStep;
  }

  lemma ExitEnds(g: Shared, slot: AppSlot, f: Frame, c: Choice)
    requires f.pc.CommitTls?
    ensures var o := OriginalStep(g, slot, f, c); o.frame.Some? ==> Rank(o.frame.value.pc) < Rank(f.pc)
  {
    hide CommitStep;
    CommitEnds(g, slot, f.(committed := true), f.pc.exit, Drop);
  }

  lemma LastEnds(g: Shared, slot: AppSlot, f: Frame, c: Choice)
    requires f.pc.ReadExit? || f.pc.Recover? || f.pc.Drop? || f.pc.Leak?
    ensures var o := OriginalStep(g, slot, f, c); o.frame.Some? ==> Rank(o.frame.value.pc) < Rank(f.pc)
  {
    hide CommitStep;
  }

  lemma CommitEnds(g: Shared, slot: AppSlot, f: Frame, exit: bool, pc: Pc)
    ensures var o := CommitStep(g, slot, f, exit, pc); o.frame.Some? && o.frame.value.pc == pc
  {
  }

  /** Between callbacks a frame only moves towards its end: it is gone after at most 29 steps of its own. */
  lemma FrameEnds(g: Shared, slot: AppSlot, f: Frame, c: Choice)
    ensures var o := FrameStep(g, slot, f, c); o.frame.Some? ==> Rank(o.frame.value.pc) < Rank(f.pc) <= 28
  {
    hide PublicationStep, DispositionStep, DriverStep, OriginalStep;
    if f.pc.PubControl? || f.pc.PubFlag? || f.pc.PubFailed? {
      PublicationEnds(g, slot, f);
    } else if f.pc.Start? || f.pc.FailClaim? || f.pc.FailCommit? || f.pc.Identity? || f.pc.MismatchTls? || f.pc.Claim? {
      DispositionEnds(g, slot, f, c);
    } else if f.pc.Claimed? || f.pc.Driver? || f.pc.OpenGate? {
      DriverEnds(g, slot, f, c);
    } else {
      OriginalEnds(g, slot, f, c);
    }
  }

  function AdvanceAll(s: State, i: nat, choices: seq<Choice>): State
    decreases |choices|
  {
    if choices == [] then s else AdvanceAll(Step(s, Advance(i, choices[0])), i, choices[1..])
  }

  /** Left to itself, a frame returns within its rank whatever happens in it: it is popped, having entered
      the original exactly once. */
  lemma {:induction false} FrameFinishes(s: State, i: nat, choices: seq<Choice>) returns (m: nat)
    requires Inv(s) && i < |s.threads| && s.threads[i].stack != []
    requires |choices| > Rank(s.threads[i].stack[|s.threads[i].stack| - 1].pc)
    ensures var stack := s.threads[i].stack;
      && m <= Rank(stack[|stack| - 1].pc) + 1
      && var after := AdvanceAll(s, i, choices[..m]);
      && |after.threads| == |s.threads|
      && after.threads[i].stack == stack[..|stack| - 1] && after.threads[i].done == s.threads[i].done + [1]
    decreases Rank(s.threads[i].stack[|s.threads[i].stack| - 1].pc)
  {
    hide FrameStep, Rank, Inv;
    var t := s.threads[i];
    var top := t.stack[|t.stack| - 1];
    var s1 := Step(s, Advance(i, choices[0]));
    FrameEnds(s.shared, t.slot, top, choices[0]);
    StepKeeps(s, Advance(i, choices[0]));
    if FrameStep(s.shared, t.slot, top, choices[0]).frame.Some? {
      var rest := FrameFinishes(s1, i, choices[1..]);
      m := rest + 1;
      assert choices[..m][1..] == choices[1..][..rest];
    } else {
      m := 1;
      PoppedOnce(s, i, choices[0]);
      assert choices[..1][1..] == [];
    }
  }

  lemma PoppedOnce(s: State, i: nat, c: Choice)
    requires Inv(s) && i < |s.threads| && s.threads[i].stack != []
    requires var t := s.threads[i]; FrameStep(s.shared, t.slot, t.stack[|t.stack| - 1], c).frame.None?
    ensures Step(s, Advance(i, c)).threads[i].done == s.threads[i].done + [1]
  {
    hide FrameStep, SharedOk, FrameOk, AppOk, AppRests, Everywhere, BusyExactly, Later;
    StepKeeps(s, Advance(i, c));
    var t1 := Step(s, Advance(i, c)).threads[i];
    assert ThreadOk(Step(s, Advance(i, c)).shared, t1);
    assert t1.done[|t1.done| - 1] in t1.done;
  }

  lemma LaterOrders(a: Shared, b: Shared, c: Shared)
    ensures Later(a, a) && (Later(a, b) && Later(b, c) ==> Later(a, c))
  {
  }

  lemma {:induction false} RunLater(threads: nat, before: seq<Action>, after: seq<Action>)
    ensures Later(Run(Init(threads), before).shared, Run(Init(threads), before + after).shared)
    decreases |after|
  {
    hide Step, Inv, Later;
    if after == [] {
      assert before + after == before;
      var g := Run(Init(threads), before).shared;
      LaterOrders(g, g, g);
    } else {
      var n := |after| - 1;
      RunLater(threads, before, after[..n]);
      assert (before + after)[..|before + after| - 1] == before + after[..n];
      assert (before + after)[|before + after| - 1] == after[n];
      RunKeeps(threads, before + after[..n]);
      StepKeeps(Run(Init(threads), before + after[..n]), after[n]);
      LaterOrders(Run(Init(threads), before).shared, Run(Init(threads), before + after[..n]).shared,
                      Run(Init(threads), before + after).shared);
    }
  }

  /** Once failure is published it stays, the gate reads closed for ever, and no frame entered after it
      is ever in a driver. */
  lemma FailureIsAbsorbing(threads: nat, before: seq<Action>, after: seq<Action>, i: nat)
    requires Run(Init(threads), before).shared.failed
    requires i < |Run(Init(threads), before + after).threads|
    ensures var s := Run(Init(threads), before + after);
      && s.shared.failed && !s.shared.gate.flag && s.shared.gate.Opened() == s.shared.gate
      && forall f | f in s.threads[i].stack && f.bornFailed :: !f.pc.Driver?
  {
    hide Run;
    RunLater(threads, before, after);
    RunKeeps(threads, before + after);
    var s := Run(Init(threads), before + after);
    assert ThreadOk(s.shared, s.threads[i]);
    forall f | f in s.threads[i].stack && f.bornFailed ensures !f.pc.Driver? {
      assert FrameOk(s.shared, f);
    }
  }

  /** Every App in use has begun Startup at most once, and Update only after that Startup completed;
      the gate has been open only after a Startup returned. */
  lemma StartupOnceThenUpdates(threads: nat, actions: seq<Action>, i: nat)
    requires i < |Run(Init(threads), actions).threads|
    ensures var s := Run(Init(threads), actions);
      var t := s.threads[i];
      && (s.shared.handoff.Some? ==> AppOk(s.shared.handoff.value))
      && (t.slot.Running? || t.slot.Exited? ==> AppOk(t.slot.app))
      && (forall f | f in t.stack && f.app.Some? :: AppOk(f.app.value))
      && (forall a | a in t.leaked :: AppOk(a))
      && (s.shared.gate.control == Open || s.shared.gate.flag ==> s.shared.startupsReturned > 0)
  {
    hide Run, AppOk;
    RunKeeps(threads, actions);
    var s := Run(Init(threads), actions);
    assert ThreadOk(s.shared, s.threads[i]);
    forall f | f in s.threads[i].stack && f.app.Some? ensures AppOk(f.app.value) {
      assert FrameOk(s.shared, f);
    }
  }
}
