/** The scheduler as a step machine: any number of threads, each with a stack of callback frames. */
module Scheduler {
  import opened Options
  import opened Gate
  import opened OriginalCall

  /** `startups` and `updates` count the driver passes begun on this App. */
  datatype App = App(id: nat, started: bool, startups: nat, updates: nat)

  datatype AppSlot = AwaitingHandoff | Running(app: App) | Busy | Exited(app: App) | Unavailable

  /** What follows the call of the original: nothing, the commit, or the end of the recovery. */
  datatype After = Passthrough | Commit | Compensate

  /** What follows a publication of global failure. */
  datatype Then = FailedClaim | Mismatch | Claiming | Unwound | Dropping

  datatype Pc =
    | Start | FailClaim | FailCommit | Identity | MismatchTls | Claim | Claimed | Driver(startup: bool) | OpenGate
    | ToOriginal(k: After) | InOriginal(k: After) | ReadExit | CommitTls(exit: bool)
    | PubControl(next: Then) | PubFlag(next: Then) | PubFailed(next: Then)
    | Recover | Drop | Leak

  /** `entered` counts entries to the original; `bornFailed` is what `failed` was when the frame was entered. */
  datatype Frame = Frame(pc: Pc, app: Option<App>, phase: OriginalPhase, committed: bool, entered: nat, bornFailed: bool)

  /** What all threads share. */
  datatype Shared = Shared(
    handoff: Option<App>, poisoned: bool, gate: GateState, failed: bool, startupsReturned: nat, published: multiset<nat>)

  /** `broken` records the branch of `commit_tls` taken when the slot is not Busy. */
  datatype Thread = Thread(slot: AppSlot, stack: seq<Frame>, leaked: seq<App>, done: seq<nat>, broken: bool)

  datatype State = State(shared: Shared, threads: seq<Thread>)

  /** What the outside decides in one step: unwinding, the identity predicate, a contended handoff lock,
      and whether an unwinding startup had already recorded its completion. */
  datatype Choice = Choice(unwinds: bool, onMainThread: bool, lockBusy: bool, completed: bool)

  datatype Action = Publish(id: nat) | Poison | Enter(thread: nat) | Advance(thread: nat, choice: Choice)

  datatype Take = Ready(app: App) | Pending | Poisoned

  function TryTake(handoff: Option<App>, poisoned: bool, lockBusy: bool): Take
  {
    if lockBusy then Pending
    else if poisoned then Poisoned
    else if handoff.Some? then Ready(handoff.value)
    else Pending
  }

  predicate PublishAccepted(handoff: Option<App>, poisoned: bool) { !poisoned && handoff.None? }

  function Publishing(g: Shared, id: nat): Shared
  {
    if PublishAccepted(g.handoff, g.poisoned) then
      g.(handoff := Some(App(id, false, 0, 0)), published := g.published + multiset{id})
    else g
  }

  /** The shared state, the slot and the App after `claim_app`, and whether the handoff was found poisoned. */
  function ClaimApp(g: Shared, slot: AppSlot, lockBusy: bool): (Shared, AppSlot, Option<App>, bool)
  {
    match slot
    case AwaitingHandoff =>
      (match TryTake(g.handoff, g.poisoned, lockBusy)
       case Ready(app) => (g.(handoff := None), Busy, Some(app), false)
       case Pending => (g, slot, None, false)
       case Poisoned => (g, Unavailable, None, true))
    case Running(app) => (g, Busy, Some(app), false)
    case _ => (g, slot, None, false)
  }

  /** The slot after `commit_tls`, the App it leaked, and whether the slot was not Busy. */
  function CommittedSlot(slot: AppSlot, app: App, exit: bool): (AppSlot, seq<App>, bool)
  {
    if slot != Busy then (Unavailable, [app], true)
    else (if exit then Exited(app) else Running(app), [], false)
  }

  function Resume(next: Then): Pc
  {
    match next
    case FailedClaim => FailCommit
    case Mismatch => MismatchTls
    case Claiming => Claimed
    case Unwound => Recover
    case Dropping => Leak
  }

  /** The effect of one step of a thread's top frame; `frame` is None when it is popped. */
  datatype Outcome = Outcome(shared: Shared, slot: AppSlot, frame: Option<Frame>, leaked: seq<App>, broken: bool)

  function Goes(g: Shared, slot: AppSlot, f: Frame): Outcome { Outcome(g, slot, Some(f), [], false) }

  function FrameStep(g: Shared, slot: AppSlot, f: Frame, c: Choice): Outcome
  {
    match f.pc
    case PubControl(_) => PublicationStep(g, slot, f)
    case PubFlag(_) => PublicationStep(g, slot, f)
    case PubFailed(_) => PublicationStep(g, slot, f)
    case Start => DispositionStep(g, slot, f, c)
    case FailClaim => DispositionStep(g, slot, f, c)
    case FailCommit => DispositionStep(g, slot, f, c)
    case Identity => DispositionStep(g, slot, f, c)
    case MismatchTls => DispositionStep(g, slot, f, c)
    case Claim => DispositionStep(g, slot, f, c)
    case Claimed => DriverStep(g, slot, f, c)
    case Driver(_) => DriverStep(g, slot, f, c)
    case OpenGate => DriverStep(g, slot, f, c)
    case _ => OriginalStep(g, slot, f, c)
  }

  /** Global failure is three stores: the gate's control word, its flag, then `failed`. */
  function PublicationStep(g: Shared, slot: AppSlot, f: Frame): Outcome
    requires f.pc.PubControl? || f.pc.PubFlag? || f.pc.PubFailed?
  {
    match f.pc
    case PubControl(next) => Goes(g.(gate := g.gate.ControlClosed()), slot, f.(pc := PubFlag(next)))
    case PubFlag(next) => Goes(g.(gate := g.gate.FlagCleared()), slot, f.(pc := PubFailed(next)))
    case PubFailed(next) => Goes(g.(failed := true), slot, f.(pc := Resume(next)))
  }

  /** The failure check, the identity check and the claim. */
  function DispositionStep(g: Shared, slot: AppSlot, f: Frame, c: Choice): Outcome
    requires f.pc.Start? || f.pc.FailClaim? || f.pc.FailCommit? || f.pc.Identity? || f.pc.MismatchTls? || f.pc.Claim?
  {
    match f.pc
    case Start => Goes(g, slot, f.(pc := if g.failed then FailClaim else Identity))
    case FailClaim => ClaimStep(g, slot, f, c, FailedClaim)
    case FailCommit => CommitStep(g, slot, f, true, ToOriginal(Passthrough))
    case Identity =>
      Goes(g, slot, f.(pc := if c.unwinds then PubControl(Unwound)
                             else if c.onMainThread then Claim else PubControl(Mismatch)))
    case MismatchTls =>
      Goes(g, if slot == AwaitingHandoff then Unavailable else slot, f.(pc := ToOriginal(Passthrough)))
    case Claim => ClaimStep(g, slot, f, c, Claiming)
  }

  function ClaimStep(g: Shared, slot: AppSlot, f: Frame, c: Choice, next: Then): Outcome
  {
    var (g1, slot1, app, poisoned) := ClaimApp(g, slot, c.lockBusy);
    Goes(g1, slot1, f.(app := app, pc := if poisoned then PubControl(next) else Resume(next)))
  }

  /** Moves the frame's App, if it has one, back into the thread's slot. */
  function CommitStep(g: Shared, slot: AppSlot, f: Frame, exit: bool, pc: Pc): Outcome
  {
    if f.app.None? then Goes(g, slot, f.(pc := pc))
    else
      var (slot1, leaked, broken) := CommittedSlot(slot, f.app.value, exit);
      Outcome(g, slot1, Some(f.(app := None, pc := pc)), leaked, broken)
  }

  /** The driver pass: Startup on the App's first frame, Update afterwards. */
  function DriverStep(g: Shared, slot: AppSlot, f: Frame, c: Choice): Outcome
    requires f.pc.Claimed? || f.pc.Driver? || f.pc.OpenGate?
  {
    match f.pc
    case Claimed =>
      if f.app.None? then Goes(g, slot, f.(pc := ToOriginal(Passthrough)))
      else
        var app := f.app.value;
        if app.started then Goes(g, slot, f.(pc := Driver(false), app := Some(app.(updates := app.updates + 1))))
        else Goes(g, slot, f.(pc := Driver(true), app := Some(app.(startups := app.startups + 1))))
    case Driver(startup) =>
      var completes := f.app.Some? && startup && (!c.unwinds || c.completed);
      var f1 := if completes then f.(app := Some(f.app.value.(started := true))) else f;
      if c.unwinds then Goes(g, slot, f1.(pc := PubControl(Unwound)))
      else if startup then Goes(g.(startupsReturned := g.startupsReturned + 1), slot, f1.(pc := OpenGate))
      else Goes(g, slot, f1.(pc := ToOriginal(Commit)))
    case OpenGate => Goes(g.(gate := g.gate.Opened()), slot, f.(pc := ToOriginal(Commit)))
  }

  /** The original, the commit after it, the recovery from an unwind, and the frame's end. */
  function OriginalStep(g: Shared, slot: AppSlot, f: Frame, c: Choice): Outcome
    requires f.pc.ToOriginal? || f.pc.InOriginal? || f.pc.ReadExit? || f.pc.CommitTls? || f.pc.Recover? || f.pc.Drop? || f.pc.Leak?
  {
    match f.pc
    case ToOriginal(k) =>
      Goes(g, slot, f.(pc := InOriginal(k), phase := CallingOriginal, entered := f.entered + 1))
    case InOriginal(k) =>
      if c.unwinds then Goes(g, slot, f.(pc := if k == Compensate then Drop else PubControl(Unwound)))
      else Goes(g, slot, f.(phase := AfterOriginal, pc := if k == Commit then ReadExit else Drop))
    case ReadExit => Goes(g, slot, f.(pc := CommitTls(g.failed)))
    case CommitTls(exit) => CommitStep(g, slot, f.(committed := true), exit, Drop)
    case Recover => Goes(g, slot, f.(pc := if f.phase == BeforeOriginal then ToOriginal(Compensate) else Drop))
    case Drop =>
      if !f.committed && f.app.Some? then Goes(g, slot, f.(pc := PubControl(Dropping)))
      else Outcome(g, slot, None, [], false)
    case Leak => Outcome(g, slot, None, if f.app.Some? then [f.app.value] else [], false)
  }

  /** The game can call back only from outside, from a driver, or from inside the original. */
  predicate CanEnter(t: Thread)
  {
    t.stack == [] || t.stack[|t.stack| - 1].pc.Driver? || t.stack[|t.stack| - 1].pc.InOriginal?
  }

  function Entered(g: Shared, t: Thread): Thread
  {
    t.(stack := t.stack + [Frame(Start, None, BeforeOriginal, false, 0, g.failed)])
  }

  function Advanced(t: Thread, o: Outcome): Thread
    requires t.stack != []
  {
    var below, top := t.stack[..|t.stack| - 1], t.stack[|t.stack| - 1];
    var t1 := t.(slot := o.slot, leaked := t.leaked + o.leaked, broken := t.broken || o.broken);
    if o.frame.Some? then t1.(stack := below + [o.frame.value])
    else t1.(stack := below, done := t.done + [top.entered])
  }

  /** One atomic step; an action that is not enabled changes nothing. */
  function Step(s: State, a: Action): State
  {
    match a
    case Publish(id) => s.(shared := Publishing(s.shared, id))
    case Poison => s.(shared := s.shared.(poisoned := true))
    case Enter(i) =>
      if i < |s.threads| && CanEnter(s.threads[i]) then
        s.(threads := s.threads[i := Entered(s.shared, s.threads[i])])
      else s
    case Advance(i, c) =>
      if i < |s.threads| && s.threads[i].stack != [] then
        var t := s.threads[i];
        var o := FrameStep(s.shared, t.slot, t.stack[|t.stack| - 1], c);
        State(o.shared, s.threads[i := Advanced(t, o)])
      else s
  }

  function Run(s: State, actions: seq<Action>): State
    decreases |actions|
  {
    if actions == [] then s else Step(Run(s, actions[..|actions| - 1]), actions[|actions| - 1])
  }

  function Idle(): Thread { Thread(AwaitingHandoff, [], [], [], false) }

  function Init(threads: nat): State
  {
    State(Shared(None, false, GateState(Closed, false), false, 0, multiset{}), seq(threads, _ => Idle()))
  }
}
