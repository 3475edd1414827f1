/** The scheduler's objects, and one callback frame as it runs, against the step machine. */
module SchedulerFrame {
  import opened Options
  import opened Gate
  import opened OriginalCall
  import opened Scheduler
  import opened SchedulerInvariants

  /** The mutex-guarded slot an App is handed over in. */
  class Handoff {
    var app: Option<App>
    var poisoned: bool

    constructor ()
      ensures app == None && !poisoned
    {
      app, poisoned := None, false;
    }

    method PublishApp(published: App) returns (accepted: bool)
      modifies this`app
      ensures accepted <==> old(app) == None && !poisoned
      ensures app == if accepted then Some(published) else old(app)
    {
      if poisoned || app.Some? {
        return false;
      }
      app := Some(published);
      return true;
    }

    method TryTakeApp(lockBusy: bool) returns (take: Take)
      modifies this`app
      ensures take == TryTake(old(app), poisoned, lockBusy)
      ensures take == Poisoned <==> !lockBusy && poisoned
      ensures take.Ready? <==> !lockBusy && !poisoned && old(app).Some?
      ensures take.Ready? ==> Some(take.app) == old(app)
      ensures app == if take.Ready? then None else old(app)
    {
      if lockBusy {
        return Pending;
      }
      if poisoned {
        return Poisoned;
      }
      if app.None? {
        return Pending;
      }
      var taken := app.value;
      app := None;
      return Ready(taken);
    }
  }

  class Context {
    const handoff: Handoff
    const gate: RuntimeGate
    var failed: bool
    ghost var startupsReturned: nat
    ghost var published: multiset<nat>

    ghost function View(): Shared
      reads this, handoff, gate
    {
      Shared(handoff.app, handoff.poisoned, gate.View(), failed, startupsReturned, published)
    }

    constructor ()
      ensures fresh(handoff) && fresh(gate)
      ensures View() == Init(0).shared
    {
      handoff := new Handoff();
      gate := new RuntimeGate();
      failed, startupsReturned, published := false, 0, multiset{};
    }

    /** The gate is closed before `failed` can be seen. */
    method PublishGlobalFailure()
      modifies this`failed, gate
      ensures failed && gate.View() == GateState(FailedClosed, false)
    {
      gate.Close();
      failed := true;
    }
  }

  /** A thread's `APP_SLOT`, with the Apps its frames have leaked. */
  class ThreadSlot {
    var slot: AppSlot
    ghost var leaked: seq<App>
    ghost var broken: bool

    constructor ()
      ensures slot == AwaitingHandoff && leaked == [] && !broken
    {
      slot, leaked, broken := AwaitingHandoff, [], false;
    }

    method ClaimFrom(context: Context, lockBusy: bool) returns (app: Option<App>, poisoned: bool)
      modifies this`slot, context`failed, context.handoff`app, context.gate
      ensures var (shared, slot1, app1, poisoned1) := ClaimApp(old(context.View()), old(slot), lockBusy);
        && slot == slot1 && app == app1 && poisoned == poisoned1
        && context.View() == if poisoned then shared.(failed := true, gate := GateState(FailedClosed, false)) else shared
      ensures old(slot) == AwaitingHandoff ==>
        && (poisoned <==> !lockBusy && context.handoff.poisoned)
        && app == (if lockBusy || context.handoff.poisoned then None else old(context.handoff.app))
        && slot == (if poisoned then Unavailable else if app.Some? then Busy else AwaitingHandoff)
      ensures old(slot) != AwaitingHandoff ==>
        && !poisoned && app == (if old(slot).Running? then Some(old(slot).app) else None)
        && slot == (if old(slot).Running? then Busy else old(slot))
    {
      app, poisoned := None, false;
      match slot
      case AwaitingHandoff =>
        var take := context.handoff.TryTakeApp(lockBusy);
        match take {
          case Ready(taken) =>
            app := Some(taken);
            slot := Busy;
          case Pending =>
          case Poisoned =>
            slot := Unavailable;
            poisoned := true;
            context.PublishGlobalFailure();
        }
      case Running(held) =>
        slot := Busy;
        app := Some(held);
      case Busy =>
      case Exited(_) =>
      case Unavailable =>
    }

    method CommitApp(app: App, exit: bool)
      modifies this
      ensures var (slot1, leaked1, broken1) := CommittedSlot(old(slot), app, exit);
        slot == slot1 && leaked == old(leaked) + leaked1 && broken == (old(broken) || broken1)
      ensures old(slot) == Busy ==>
        slot == (if exit then Exited(app) else Running(app)) && leaked == old(leaked) && broken == old(broken)
      ensures old(slot) != Busy ==> slot == Unavailable && leaked == old(leaked) + [app] && broken
    {
      if slot != Busy {
        leaked, broken := leaked + [app], true;
        slot := Unavailable;
        return;
      }
      slot := if exit then Exited(app) else Running(app);
    }
  }

  /** What happens inside a frame while nothing else runs: which calls unwind, and what the outside answers. */
  datatype Script = Script(
    identityUnwinds: bool, onMainThread: bool, lockBusy: bool,
    driverUnwinds: bool, driverCompleted: bool, originalUnwinds: bool, compensationUnwinds: bool)

  function ChoiceAt(script: Script, pc: Pc): Choice
  {
    Choice(match pc
           case Identity => script.identityUnwinds
           case Driver(_) => script.driverUnwinds
           case InOriginal(k) => if k == Compensate then script.compensationUnwinds else script.originalUnwinds
           case _ => false,
           script.onMainThread, script.lockBusy, script.driverCompleted)
  }

  /** A frame in the middle of its run, and what is left when it is gone. */
  datatype Now = Now(shared: Shared, slot: AppSlot, leaked: seq<App>, broken: bool, frame: Frame)

  datatype End = End(shared: Shared, slot: AppSlot, leaked: seq<App>, broken: bool, entered: nat)

  /** The step machine run on this frame alone until it is popped. */
  function Solo(now: Now, script: Script): End
    decreases Rank(now.frame.pc)
  {
    var o := FrameStep(now.shared, now.slot, now.frame, ChoiceAt(script, now.frame.pc));
    var leaked, broken := now.leaked + o.leaked, now.broken || o.broken;
    FrameEnds(now.shared, now.slot, now.frame, ChoiceAt(script, now.frame.pc));
    if o.frame.None? then End(o.shared, o.slot, leaked, broken, now.frame.entered)
    else Solo(Now(o.shared, o.slot, leaked, broken, o.frame.value), script)
  }

  function Onward(now: Now, script: Script): Now
  {
    var o := FrameStep(now.shared, now.slot, now.frame, ChoiceAt(script, now.frame.pc));
    if o.frame.None? then now
    else Now(o.shared, o.slot, now.leaked + o.leaked, now.broken || o.broken, o.frame.value)
  }

  lemma SoloAfter(now: Now, script: Script)
    ensures Solo(now, script) == Solo(Onward(now, script), script)
  {
    hide FrameStep;
  }

  lemma OnwardPublishes(now: Now, script: Script)
    requires now.frame.pc.PubControl? || now.frame.pc.PubFlag? || now.frame.pc.PubFailed?
    ensures var o := PublicationStep(now.shared, now.slot, now.frame);
      Onward(now, script) == now.(shared := o.shared, frame := o.frame.value)
  {
    hide PublicationStep, DispositionStep, DriverStep, OriginalStep;
    PublicationGoes(now);
    assert now.leaked + [] == now.leaked;
  }

  lemma PublicationGoes(now: Now)
    requires now.frame.pc.PubControl? || now.frame.pc.PubFlag? || now.frame.pc.PubFailed?
    ensures var o := PublicationStep(now.shared, now.slot, now.frame);
      o.frame.Some? && o.leaked == [] && !o.broken && o.slot == now.slot
  {
  }

  lemma OnwardClaims(now: Now, next: Then, script: Script)
    requires (now.frame.pc == FailClaim && next == FailedClaim) || (now.frame.pc == Claim && next == Claiming)
    ensures var (g, slot, app, poisoned) := ClaimApp(now.shared, now.slot, script.lockBusy);
      Onward(now, script) == Now(g, slot, now.leaked, now.broken,
                                 now.frame.(app := app, pc := if poisoned then PubControl(next) else Resume(next)))
  {
    hide ClaimApp, PublicationStep, DriverStep, OriginalStep;
    assert now.leaked + [] == now.leaked;
  }

  /** The three stores of a publication, seen from one frame. */
  lemma SoloPublishes(now: Now, next: Then, script: Script)
    requires now.frame.pc == PubControl(next)
    ensures Solo(now, script) ==
      Solo(now.(shared := now.shared.(gate := GateState(FailedClosed, false), failed := true),
                frame := now.frame.(pc := Resume(next))), script)
  {
    hide Solo, Onward, Rank, FrameStep;
    SoloAfter(now, script);
    OnwardPublishes(now, script);
    var n1 := Onward(now, script);
    SoloAfter(n1, script);
    OnwardPublishes(n1, script);
    var n2 := Onward(n1, script);
    SoloAfter(n2, script);
    OnwardPublishes(n2, script);
  }

  /** Whatever the script, a frame that runs alone enters the original exactly once, its commit finds the slot
      Busy, and the App it claimed is in the slot or leaked when it is gone. */
  lemma {:induction false} SoloEntersOnce(now: Now, script: Script)
    requires Enabled(now.shared, now.slot, now.frame)
    ensures var end := Solo(now, script);
      && end.entered == 1 && end.broken == now.broken && SharedOk(end.shared)
      && Ids(OptionId(end.shared.handoff)) + Ids(SlotId(end.slot)) + LeakedIds(end.leaked)
         == Ids(OptionId(now.shared.handoff)) + Ids(SlotId(now.slot)) + LeakedIds(now.leaked) + Ids(OptionId(now.frame.app))
    decreases Rank(now.frame.pc)
  {
    hide FrameStep, Rank, SharedOk, FrameOk, Ids, OptionId, SlotId, LeakedIds, AppRests, Moves;
    var f, c := now.frame, ChoiceAt(script, now.frame.pc);
    var o := FrameStep(now.shared, now.slot, f, c);
    FrameEnds(now.shared, now.slot, f, c);
    FrameStepKeeps(now.shared, now.slot, f, c);
    MovesKeepSum(now.shared, now.slot, f, o);
    LeakedIdsAppend(now.leaked, o.leaked);
    NothingHeld();
    var h, s, l := Ids(OptionId(now.shared.handoff)), Ids(SlotId(now.slot)), LeakedIds(now.leaked);
    var h1, s1, l1 := Ids(OptionId(o.shared.handoff)), Ids(SlotId(o.slot)), LeakedIds(o.leaked);
    var a, a1 := Ids(OptionId(f.app)), Ids(OptionId(AppAfter(o)));
    assert h1 + s1 + (l + l1) + a1 == (h1 + s1 + a1 + l1) + l;
    assert h + s + l + a == (h + s + a) + l;
    if o.frame.Some? {
      SoloEntersOnce(Now(o.shared, o.slot, now.leaked + o.leaked, now.broken || o.broken, o.frame.value), script);
    }
  }

  lemma NothingHeld()
    ensures Ids(OptionId(None)) == multiset{}
  {
  }

  class SchedulerFrame {
    const context: Context
    const thread: ThreadSlot
    var app: Option<App>
    var phase: OriginalPhase
    var tlsCommitted: bool
    ghost var pc: Pc
    ghost var entered: nat
    ghost const bornFailed: bool

    constructor (context: Context, thread: ThreadSlot)
      ensures this.context == context && this.thread == thread
      ensures View() == Frame(Start, None, BeforeOriginal, false, 0, context.failed)
    {
      this.context, this.thread := context, thread;
      app, phase, tlsCommitted := None, BeforeOriginal, false;
      pc, entered, bornFailed := Start, 0, context.failed;
    }

    ghost function View(): Frame
      reads this
    {
      Frame(pc, app, phase, tlsCommitted, entered, bornFailed)
    }

    ghost function State(): Now
      reads this, context, context.handoff, context.gate, thread
    {
      Now(context.View(), thread.slot, thread.leaked, thread.broken, View())
    }

    /** Publishes global failure on the way to `next`. */
    method Publish(ghost next: Then, script: Script)
      requires pc == PubControl(next)
      modifies this`pc, context`failed, context.gate
      ensures Solo(State(), script) == old(Solo(State(), script))
      ensures pc == Resume(next)
      ensures State() == old(State()).(shared := context.View(), frame := old(View()).(pc := Resume(next)))
    {
      hide Solo;
      SoloPublishes(State(), next, script);
      context.PublishGlobalFailure();
      pc := Resume(next);
    }

    method ClaimOwn(ghost next: Then, script: Script)
      requires (pc == FailClaim && next == FailedClaim) || (pc == Claim && next == Claiming)
      modifies this`pc, this`app, thread`slot, context`failed, context.handoff`app, context.gate
      ensures Solo(State(), script) == old(Solo(State(), script))
      ensures pc == Resume(next)
    {
      hide Solo, Onward, ClaimApp;
      SoloAfter(State(), script);
      OnwardClaims(State(), next, script);
      ghost var now := Onward(State(), script);
      var claimed, poisoned := thread.ClaimFrom(context, script.lockBusy);
      app := claimed;
      pc := Resume(next);
      if poisoned {
        SoloPublishes(now, next, script);
        assert State() == now.(shared := now.shared.(gate := GateState(FailedClosed, false), failed := true),
                               frame := now.frame.(pc := Resume(next)));
      } else {
        assert State() == now;
      }
    }

    method CommitOwn(exit: bool, last: bool, script: Script)
      requires if last then pc == CommitTls(exit) else pc == FailCommit && exit
      modifies this, thread
      ensures Solo(State(), script) == old(Solo(State(), script))
      ensures pc == if last then Drop else ToOriginal(Passthrough)
    {
      hide Solo;
      SoloAfter(State(), script);
      ghost var now := Onward(State(), script);
      if app.Some? {
        thread.CommitApp(app.value, exit);
        app := None;
      }
      if last {
        tlsCommitted := true;
      }
      pc := if last then Drop else ToOriginal(Passthrough);
      assert thread.leaked == now.leaked;
    }

    /** The guard is new each time, so it always grants the call; `phase` is what remembers. */
    method CallOriginalOnce(ghost k: After, unwinds: bool, script: Script) returns (unwound: bool)
      requires pc == ToOriginal(k)
      requires unwinds == ChoiceAt(script, InOriginal(k)).unwinds
      modifies this`pc, this`phase, this`entered
      ensures Solo(State(), script) == old(Solo(State(), script))
      ensures unwound == unwinds && entered == old(entered) + 1
      ensures pc == if unwound then (if k == Compensate then Drop else PubControl(Unwound))
                    else if k == Commit then ReadExit else Drop
      ensures phase == if unwound then CallingOriginal else AfterOriginal
    {
      hide Solo, FrameStep, Rank, SchedulerFrame.State, SchedulerFrame.View;
      var guard := new OriginalGuard();
      var granted := guard.BeginCall();
      if !granted {
        return false;
      }
      EnterOriginal(k, script);
      LeaveOriginal(k, unwinds, script);
      if !unwinds {
        guard.EndCall();
      }
      return unwinds;
    }

    method EnterOriginal(ghost k: After, script: Script)
      requires pc == ToOriginal(k)
      modifies this`pc, this`phase, this`entered
      ensures Solo(State(), script) == old(Solo(State(), script))
      ensures pc == InOriginal(k) && phase == CallingOriginal && entered == old(entered) + 1
    {
      hide Solo, DispositionStep, DriverStep, PublicationStep, ClaimApp, CommittedSlot, Rank;
      SoloAfter(State(), script);
      ghost var now := Onward(State(), script);
      phase, entered, pc := CallingOriginal, entered + 1, InOriginal(k);
      assert State().leaked == now.leaked;
    }

    method LeaveOriginal(ghost k: After, unwinds: bool, script: Script)
      requires pc == InOriginal(k) && phase == CallingOriginal
      requires unwinds == ChoiceAt(script, pc).unwinds
      modifies this`pc, this`phase
      ensures Solo(State(), script) == old(Solo(State(), script))
      ensures pc == if unwinds then (if k == Compensate then Drop else PubControl(Unwound))
                    else if k == Commit then ReadExit else Drop
      ensures phase == if unwinds then CallingOriginal else AfterOriginal
    {
      hide Solo, DispositionStep, DriverStep, PublicationStep, ClaimApp, CommittedSlot, Rank;
      SoloAfter(State(), script);
      ghost var now := Onward(State(), script);
      if !unwinds {
        phase := AfterOriginal;
      }
      pc := if unwinds then (if k == Compensate then Drop else PubControl(Unwound))
            else if k == Commit then ReadExit else Drop;
      assert State().leaked == now.leaked;
    }

    /** The driver pass on the claimed App: Startup once and the gate opened after it, Update from then on. */
    method RunDriver(script: Script) returns (unwound: bool)
      requires pc == Claimed && app.Some?
      modifies this`pc, this`app, context`startupsReturned, context.gate
      ensures Solo(State(), script) == old(Solo(State(), script))
      ensures unwound == script.driverUnwinds && phase == old(phase)
      ensures pc == if unwound then PubControl(Unwound) else ToOriginal(Commit)
    {
      hide Solo, FrameStep, Rank, SchedulerFrame.State, SchedulerFrame.View, Context.View;
      var startup := EnterDriver(script);
      unwound := LeaveDriver(startup, script);
      if startup && !unwound {
        OpenTheGate(script);
      }
    }

    method EnterDriver(script: Script) returns (startup: bool)
      requires pc == Claimed && app.Some?
      modifies this`pc, this`app
      ensures Solo(State(), script) == old(Solo(State(), script))
      ensures pc == Driver(startup) && app.Some?
    {
      hide Solo, DispositionStep, OriginalStep, PublicationStep, ClaimApp, CommittedSlot, Rank;
      SoloAfter(State(), script);
      ghost var now := Onward(State(), script);
      var held := app.value;
      startup := !held.started;
      if startup {
        app := Some(held.(startups := held.startups + 1));
      } else {
        app := Some(held.(updates := held.updates + 1));
      }
      pc := Driver(startup);
      assert State().leaked == now.leaked;
    }

    method LeaveDriver(startup: bool, script: Script) returns (unwound: bool)
      requires pc == Driver(startup) && app.Some?
      modifies this`pc, this`app, context`startupsReturned
      ensures Solo(State(), script) == old(Solo(State(), script))
      ensures unwound == script.driverUnwinds
      ensures pc == if unwound then PubControl(Unwound) else if startup then OpenGate else ToOriginal(Commit)
    {
      hide Solo, DispositionStep, OriginalStep, PublicationStep, ClaimApp, CommittedSlot, Rank;
      SoloAfter(State(), script);
      ghost var now := Onward(State(), script);
      unwound := script.driverUnwinds;
      if startup && (!unwound || script.driverCompleted) {
        app := Some(app.value.(started := true));
      }
      if startup && !unwound {
        context.startupsReturned := context.startupsReturned + 1;
      }
      pc := if unwound then PubControl(Unwound) else if startup then OpenGate else ToOriginal(Commit);
      assert State().leaked == now.leaked;
    }

    method OpenTheGate(script: Script)
      requires pc == OpenGate
      modifies this`pc, context.gate
      ensures Solo(State(), script) == old(Solo(State(), script)) && pc == ToOriginal(Commit)
    {
      hide Solo, DispositionStep, OriginalStep, PublicationStep, ClaimApp, CommittedSlot, Rank;
      SoloAfter(State(), script);
      ghost var now := Onward(State(), script);
      var _ := context.gate.TryOpen();
      pc := ToOriginal(Commit);
      assert State().leaked == now.leaked;
    }

    /** Entered on another thread: failure is published and an empty slot given up for good. */
    method RejectThread(script: Script)
      requires pc == PubControl(Mismatch)
      modifies this`pc, thread`slot, context`failed, context.gate
      ensures Solo(State(), script) == old(Solo(State(), script))
      ensures pc == ToOriginal(Passthrough) && phase == old(phase)
    {
      hide Solo, DriverStep, OriginalStep, PublicationStep, ClaimApp, CommittedSlot, Rank;
      Publish(Mismatch, script);
      SoloAfter(State(), script);
      ghost var now := Onward(State(), script);
      if thread.slot == AwaitingHandoff {
        thread.slot := Unavailable;
      }
      pc := ToOriginal(Passthrough);
      assert State().leaked == now.leaked;
    }

    /** Reads `failed`, then the thread identity; says whether the frame may go on to claim. */
    method Admit(script: Script) returns (failing: bool, unwound: bool)
      requires pc == Start
      modifies this`pc
      ensures Solo(State(), script) == old(Solo(State(), script))
      ensures failing == context.failed && unwound == (!failing && script.identityUnwinds)
      ensures pc == if failing then FailClaim else if unwound then PubControl(Unwound)
                    else if script.onMainThread then Claim else PubControl(Mismatch)
    {
      hide Solo, DriverStep, OriginalStep, PublicationStep, ClaimApp, CommittedSlot, Rank;
      SoloAfter(State(), script);
      ghost var now := Onward(State(), script);
      failing, unwound := context.failed, false;
      pc := if failing then FailClaim else Identity;
      assert State().leaked == now.leaked;
      if !failing {
        SoloAfter(State(), script);
        now := Onward(State(), script);
        unwound := script.identityUnwinds;
        pc := if unwound then PubControl(Unwound) else if script.onMainThread then Claim else PubControl(Mismatch);
        assert State().leaked == now.leaked;
      }
    }

    method Execute(script: Script) returns (unwound: bool)
      requires pc == Start
      modifies this, thread, context, context.handoff`app, context.gate
      ensures Solo(State(), script) == old(Solo(State(), script))
      ensures pc == if unwound then PubControl(Unwound) else Drop
    {
      hide Solo, FrameStep, ClaimApp, CommittedSlot, Rank, SchedulerFrame.State, SchedulerFrame.View, Context.View;
      var failing;
      failing, unwound := Admit(script);
      if unwound {
        return true;
      }
      if failing {
        ClaimOwn(FailedClaim, script);
        CommitOwn(true, false, script);
        unwound := CallOriginalOnce(Passthrough, script.originalUnwinds, script);
        return;
      }
      if !script.onMainThread {
        RejectThread(script);
        unwound := CallOriginalOnce(Passthrough, script.originalUnwinds, script);
        return;
      }
      ClaimOwn(Claiming, script);
      if app.None? {
        PassThrough(script);
        unwound := CallOriginalOnce(Passthrough, script.originalUnwinds, script);
        return;
      }
      unwound := Drive(script);
    }

    /** With an App claimed: the driver, the original, and the commit of what the failure flag then says. */
    method Drive(script: Script) returns (unwound: bool)
      requires pc == Claimed && app.Some?
      modifies this, thread, context`startupsReturned, context.gate
      ensures Solo(State(), script) == old(Solo(State(), script))
      ensures pc == if unwound then PubControl(Unwound) else Drop
    {
      hide Solo, FrameStep, ClaimApp, CommittedSlot, Rank, SchedulerFrame.State, SchedulerFrame.View, Context.View;
      unwound := RunDriver(script);
      if unwound {
        return;
      }
      unwound := CallOriginalOnce(Commit, script.originalUnwinds, script);
      if unwound {
        return;
      }
      var exit := ReadFailed(script);
      CommitOwn(exit, true, script);
    }

    ghost method PassThrough(script: Script)
      requires pc == Claimed && app.None?
      modifies this`pc
      ensures Solo(State(), script) == old(Solo(State(), script)) && pc == ToOriginal(Passthrough)
    {
      hide Solo, ClaimApp, CommittedSlot, Rank;
      SoloAfter(State(), script);
      ghost var now := Onward(State(), script);
      pc := ToOriginal(Passthrough);
      assert State().leaked == now.leaked;
    }

    method ReadFailed(script: Script) returns (exit: bool)
      requires pc == ReadExit
      modifies this`pc
      ensures Solo(State(), script) == old(Solo(State(), script)) && pc == CommitTls(exit)
    {
      hide Solo, ClaimApp, CommittedSlot, Rank;
      SoloAfter(State(), script);
      ghost var now := Onward(State(), script);
      exit := context.failed;
      pc := CommitTls(exit);
      assert State().leaked == now.leaked;
    }

    /** After an unwind: the original is called only if it has not been entered, and at most this once. */
    method RecoverFrame(script: Script)
      requires pc == PubControl(Unwound)
      modifies this`pc, this`phase, this`entered, context`failed, context.gate
      ensures Solo(State(), script) == old(Solo(State(), script)) && pc == Drop
    {
      hide Solo, FrameStep, ClaimApp, CommittedSlot, Rank, SchedulerFrame.State, SchedulerFrame.View, Context.View;
      Publish(Unwound, script);
      var calls := Compensates(script);
      if calls {
        var _ := CallOriginalOnce(Compensate, script.compensationUnwinds, script);
      }
    }

    method Compensates(script: Script) returns (calls: bool)
      requires pc == Recover
      modifies this`pc
      ensures Solo(State(), script) == old(Solo(State(), script))
      ensures calls == (phase == BeforeOriginal) && pc == if calls then ToOriginal(Compensate) else Drop
    {
      hide Solo, ClaimApp, CommittedSlot, Rank;
      SoloAfter(State(), script);
      ghost var now := Onward(State(), script);
      calls := phase == BeforeOriginal;
      pc := if calls then ToOriginal(Compensate) else Drop;
      assert State().leaked == now.leaked;
    }

    /** The frame's own drop: an App still held is leaked, never dropped. */
    method DropFrame(script: Script)
      requires pc == Drop
      modifies this, thread`leaked, context`failed, context.gate
      ensures End(context.View(), thread.slot, thread.leaked, thread.broken, entered) == old(Solo(State(), script))
    {
      hide ClaimApp, CommittedSlot, Rank, DispositionStep, DriverStep, PublicationStep, CommitStep;
      SoloAfter(State(), script);
      ghost var now := Onward(State(), script);
      if tlsCommitted || app.None? {
        assert thread.leaked + [] == thread.leaked;
        return;
      }
      pc := PubControl(Dropping);
      assert State().leaked == now.leaked;
      Publish(Dropping, script);
      thread.leaked := thread.leaked + [app.value];
      app := None;
    }
  }

  /** One whole callback, nothing else running: the step machine run on a new frame until it is popped. */
  method RunFrame(context: Context, thread: ThreadSlot, script: Script) returns (ghost entered: nat)
    modifies context, context.handoff`app, context.gate, thread
    ensures End(context.View(), thread.slot, thread.leaked, thread.broken, entered)
            == old(Solo(Now(context.View(), thread.slot, thread.leaked, thread.broken,
                            Frame(Start, None, BeforeOriginal, false, 0, context.failed)), script))
    ensures old(SharedOk(context.View()) && (thread.slot.Running? || thread.slot.Exited? ==> AppRests(thread.slot.app))) ==>
      entered == 1 && thread.broken == old(thread.broken)
  {
    hide Solo, FrameStep, ClaimApp, CommittedSlot, Rank;
    var frame := new SchedulerFrame(context, thread);
    assert frame.State() == Now(context.View(), thread.slot, thread.leaked, thread.broken,
                                Frame(Start, None, BeforeOriginal, false, 0, context.failed));
    ghost var start := frame.State();
    if SharedOk(start.shared) && (start.slot.Running? || start.slot.Exited? ==> AppRests(start.slot.app)) {
      SoloEntersOnce(start, script);
    }
    var unwound := frame.Execute(script);
    if unwound {
      frame.RecoverFrame(script);
    }
    frame.DropFrame(script);
    entered := frame.entered;
  }
}
