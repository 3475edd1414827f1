/** What one whole callback does, by the state it finds and where it unwinds. */
module FrameOutcomes {
  import opened Options
  import opened Gate
  import opened OriginalCall
  import opened Scheduler
  import opened SchedulerInvariants
  import opened SchedulerFrame

  function Fresh(g: Shared, slot: AppSlot, leaked: seq<App>): Now
  {
    Now(g, slot, leaked, false, Frame(Start, None, BeforeOriginal, false, 0, g.failed))
  }

  function Failing(g: Shared): Shared { g.(gate := GateState(FailedClosed, false), failed := true) }

  /** The frame `now` has become, with nothing leaked or broken on the way. */
  lemma SoloGoes(now: Now, script: Script, next: Now)
    requires FrameStep(now.shared, now.slot, now.frame, ChoiceAt(script, now.frame.pc))
             == Outcome(next.shared, next.slot, Some(next.frame), [], false)
    requires next.leaked == now.leaked && next.broken == now.broken
    ensures Solo(now, script) == Solo(next, script)
  {
    hide FrameStep, Solo;
    SoloAfter(now, script);
    assert now.leaked + [] == now.leaked;
  }

  lemma SoloPops(now: Now, script: Script, leaked: seq<App>)
    requires FrameStep(now.shared, now.slot, now.frame, ChoiceAt(script, now.frame.pc))
             == Outcome(now.shared, now.slot, None, leaked, false)
    ensures Solo(now, script) == End(now.shared, now.slot, now.leaked + leaked, now.broken, now.frame.entered)
  {
    hide FrameStep;
  }

  /** A frame that has entered the original once more and come out of it. */
  function BackFromOriginal(f: Frame, k: After, unwound: bool): Frame
  {
    Frame(if unwound then (if k == Compensate then Drop else PubControl(Unwound)) else if k == Commit then ReadExit else Drop,
          f.app, if unwound then CallingOriginal else AfterOriginal, f.committed, f.entered + 1, f.bornFailed)
  }

  lemma OriginalGoes(now: Now, script: Script, k: After)
    requires now.frame.pc == ToOriginal(k)
    ensures Solo(now, script) ==
      Solo(now.(frame := BackFromOriginal(now.frame, k, ChoiceAt(script, InOriginal(k)).unwinds)), script)
  {
    hide Solo, ClaimApp, CommittedSlot, DispositionStep, DriverStep, PublicationStep, CommitStep, Rank;
    var f := now.frame;
    var inside := now.(frame := f.(pc := InOriginal(k), phase := CallingOriginal, entered := f.entered + 1));
    SoloGoes(now, script, inside);
    SoloGoes(inside, script, now.(frame := BackFromOriginal(f, k, ChoiceAt(script, InOriginal(k)).unwinds)));
  }

  lemma NothingToDrop(now: Now, script: Script)
    requires now.frame.pc == Drop && now.frame.app == None
    ensures Solo(now, script) == End(now.shared, now.slot, now.leaked, now.broken, now.frame.entered)
  {
    hide Solo, ClaimApp, CommittedSlot, DispositionStep, DriverStep, PublicationStep, CommitStep, Rank;
    SoloPops(now, script, []);
    assert now.leaked + [] == now.leaked;
  }

  /** From the call of the original on, with no App held: the frame ends, whatever the original does. */
  lemma PassthroughEnds(now: Now, script: Script)
    requires now.frame.pc == ToOriginal(Passthrough) && now.frame.app == None && !now.frame.committed
    ensures Solo(now, script) ==
      End(if script.originalUnwinds then Failing(now.shared) else now.shared,
          now.slot, now.leaked, now.broken, now.frame.entered + 1)
  {
    hide Solo, ClaimApp, CommittedSlot, DispositionStep, DriverStep, PublicationStep, CommitStep, Rank;
    OriginalGoes(now, script, Passthrough);
    var out := now.(frame := BackFromOriginal(now.frame, Passthrough, script.originalUnwinds));
    if script.originalUnwinds {
      SoloPublishes(out, Unwound, script);
      var failed := out.(shared := Failing(now.shared), frame := out.frame.(pc := Recover));
      SoloGoes(failed, script, failed.(frame := failed.frame.(pc := Drop)));
      NothingToDrop(failed.(frame := failed.frame.(pc := Drop)), script);
    } else {
      NothingToDrop(out, script);
    }
  }

  /** On another thread nothing is claimed: failure is published, and a slot still waiting is given up. */
  lemma WrongThreadFails(g: Shared, slot: AppSlot, leaked: seq<App>, script: Script)
    requires !g.failed && !script.identityUnwinds && !script.onMainThread
    ensures Solo(Fresh(g, slot, leaked), script) ==
      End(Failing(g), if slot == AwaitingHandoff then Unavailable else slot, leaked, false, 1)
  {
    hide Solo, ClaimApp, CommittedSlot;
    var now := Fresh(g, slot, leaked);
    var f := now.frame;
    SoloGoes(now, script, now.(frame := f.(pc := Identity)));
    SoloGoes(now.(frame := f.(pc := Identity)), script, now.(frame := f.(pc := PubControl(Mismatch))));
    SoloPublishes(now.(frame := f.(pc := PubControl(Mismatch))), Mismatch, script);
    var failed := now.(shared := Failing(g), frame := f.(pc := MismatchTls));
    var given := failed.(slot := if slot == AwaitingHandoff then Unavailable else slot, frame := f.(pc := ToOriginal(Passthrough)));
    SoloGoes(failed, script, given);
    PassthroughEnds(given, script);
  }

  /** The frame once its App has been claimed. */
  function Holding(g: Shared, app: App, leaked: seq<App>): Now
  {
    Now(g, Busy, leaked, false, Frame(Claimed, Some(app), BeforeOriginal, false, 0, g.failed))
  }

  /** What the driver pass makes of the App. */
  function Driven(app: App): App
  {
    if app.started then app.(updates := app.updates + 1) else app.(started := true, startups := app.startups + 1)
  }

  /** What it makes of the shared state: a returned Startup opens the gate. */
  function AfterDriver(g: Shared, app: App): Shared
  {
    if app.started then g else g.(startupsReturned := g.startupsReturned + 1, gate := g.gate.Opened())
  }

  lemma DriverReturns(g: Shared, app: App, leaked: seq<App>, script: Script)
    requires !script.driverUnwinds
    ensures var now := Holding(g, app, leaked);
      Solo(now, script) ==
      Solo(now.(shared := AfterDriver(g, app), frame := now.frame.(pc := ToOriginal(Commit), app := Some(Driven(app)))), script)
  {
    hide Solo, ClaimApp, CommittedSlot;
    var now := Holding(g, app, leaked);
    var f := now.frame;
    if app.started {
      var driving := now.(frame := f.(pc := Driver(false), app := Some(Driven(app))));
      SoloGoes(now, script, driving);
      SoloGoes(driving, script, driving.(frame := driving.frame.(pc := ToOriginal(Commit))));
    } else {
      var driving := now.(frame := f.(pc := Driver(true), app := Some(app.(startups := app.startups + 1))));
      SoloGoes(now, script, driving);
      var counted := g.(startupsReturned := g.startupsReturned + 1);
      var opening := driving.(shared := counted, frame := f.(pc := OpenGate, app := Some(Driven(app))));
      SoloGoes(driving, script, opening);
      SoloGoes(opening, script, opening.(shared := AfterDriver(g, app), frame := opening.frame.(pc := ToOriginal(Commit))));
    }
  }

  /** A frame in which nothing unwinds runs one driver pass, calls the original and keeps the App: Running while no
      failure is published, Exited otherwise. */
  lemma CleanFrame(g: Shared, app: App, leaked: seq<App>, script: Script)
    requires !script.driverUnwinds && !script.originalUnwinds
    ensures Solo(Holding(g, app, leaked), script) ==
      End(AfterDriver(g, app), if g.failed then Exited(Driven(app)) else Running(Driven(app)), leaked, false, 1)
  {
    hide Solo, ClaimApp, DispositionStep, DriverStep, PublicationStep, Rank;
    DriverReturns(g, app, leaked, script);
    var held := Holding(g, app, leaked);
    var now := held.(shared := AfterDriver(g, app), frame := held.frame.(pc := ToOriginal(Commit), app := Some(Driven(app))));
    var f := now.frame;
    OriginalGoes(now, script, Commit);
    var back := now.(frame := BackFromOriginal(f, Commit, false));
    CommitEnds(back, Driven(app), script);
  }

  lemma CommitEnds(now: Now, app: App, script: Script)
    requires now.frame.pc == ReadExit && now.slot == Busy && now.frame.app == Some(app)
    ensures Solo(now, script) ==
      End(now.shared, if now.shared.failed then Exited(app) else Running(app), now.leaked, now.broken, now.frame.entered)
  {
    hide Solo, ClaimApp, DispositionStep, DriverStep, PublicationStep, Rank;
    var f, exit := now.frame, now.shared.failed;
    SoloGoes(now, script, now.(frame := f.(pc := CommitTls(exit))));
    var done := now.(slot := if exit then Exited(app) else Running(app), frame := f.(pc := Drop, app := None, committed := true));
    SoloGoes(now.(frame := f.(pc := CommitTls(exit))), script, done);
    NothingToDrop(done, script);
  }

  /** Recovery with an App in hand and the original not yet entered. */
  lemma LeakedAtEnd(g: Shared, app: App, leaked: seq<App>, born: bool, script: Script)
    requires g == Failing(g)
    ensures Solo(Now(g, Busy, leaked, false, Frame(Recover, Some(app), BeforeOriginal, false, 0, born)), script)
            == End(g, Busy, leaked + [app], false, 1)
  {
    hide Solo, ClaimApp, CommittedSlot, DispositionStep, DriverStep, PublicationStep, CommitStep, Rank;
    var f := Frame(Recover, Some(app), BeforeOriginal, false, 0, born);
    var now := Now(g, Busy, leaked, false, f);
    SoloGoes(now, script, now.(frame := f.(pc := ToOriginal(Compensate))));
    OriginalGoes(now.(frame := f.(pc := ToOriginal(Compensate))), script, Compensate);
    DropLeaks(now.(frame := BackFromOriginal(f, Compensate, script.compensationUnwinds)), app, script);
  }

  lemma DropLeaks(now: Now, app: App, script: Script)
    requires now.frame.pc == Drop && !now.frame.committed && now.frame.app == Some(app)
    ensures Solo(now, script) == End(Failing(now.shared), now.slot, now.leaked + [app], now.broken, now.frame.entered)
  {
    hide Solo, ClaimApp, CommittedSlot, DispositionStep, DriverStep, PublicationStep, CommitStep, Rank;
    var publishing := now.(frame := now.frame.(pc := PubControl(Dropping)));
    SoloGoes(now, script, publishing);
    SoloPublishes(publishing, Dropping, script);
    SoloPops(publishing.(shared := Failing(now.shared), frame := now.frame.(pc := Leak)), script, [app]);
  }

  // The table

  /** What a driver that unwinds leaves of the App. */
  function Broken(app: App, completed: bool): App
  {
    if app.started then app.(updates := app.updates + 1)
    else app.(startups := app.startups + 1, started := completed)
  }

  function Passed(g: Shared, slot: AppSlot, leaked: seq<App>, originalUnwinds: bool): End
  {
    End(if originalUnwinds then Failing(g) else g, slot, leaked, false, 1)
  }

  /** With an App in hand. */
  function DriverOutcome(g: Shared, app: App, leaked: seq<App>, script: Script): End
  {
    if script.driverUnwinds then End(Failing(g), Busy, leaked + [Broken(app, script.driverCompleted)], false, 1)
    else if script.originalUnwinds then End(Failing(AfterDriver(g, app)), Busy, leaked + [Driven(app)], false, 1)
    else End(AfterDriver(g, app), if g.failed then Exited(Driven(app)) else Running(Driven(app)), leaked, false, 1)
  }

  /** What a callback leaves behind, for every state it can find and every way it can go. */
  function FrameOutcome(g: Shared, slot: AppSlot, leaked: seq<App>, script: Script): End
  {
    var (g1, slot1, app, poisoned) := ClaimApp(g, slot, script.lockBusy);
    var g2 := if poisoned then Failing(g1) else g1;
    if g.failed then
      Passed(g2, if app.Some? then Exited(app.value) else slot1, leaked, script.originalUnwinds)
    else if script.identityUnwinds then End(Failing(g), slot, leaked, false, 1)
    else if !script.onMainThread then
      End(Failing(g), if slot == AwaitingHandoff then Unavailable else slot, leaked, false, 1)
    else if app.None? then Passed(g2, slot1, leaked, script.originalUnwinds)
    else DriverOutcome(g1, app.value, leaked, script)
  }

  lemma ClaimFacts(g: Shared, slot: AppSlot, lockBusy: bool)
    ensures var (g1, slot1, app, poisoned) := ClaimApp(g, slot, lockBusy);
      && g1.failed == g.failed && (app.Some? ==> slot1 == Busy && !poisoned) && (app.None? ==> g1 == g)
  {
  }

  /** The claim and, if the handoff was poisoned, its publication. */
  lemma ClaimGoes(now: Now, script: Script, next: Then)
    requires (next == FailedClaim && now.frame.pc == FailClaim) || (next == Claiming && now.frame.pc == Claim)
    ensures var (g1, slot1, app, poisoned) := ClaimApp(now.shared, now.slot, script.lockBusy);
      Solo(now, script) == Solo(now.(shared := if poisoned then Failing(g1) else g1, slot := slot1,
                                     frame := now.frame.(app := app, pc := Resume(next))), script)
  {
    hide Solo, ClaimApp, CommittedSlot, DriverStep, OriginalStep, PublicationStep, CommitStep, Rank;
    var (g1, slot1, app, poisoned) := ClaimApp(now.shared, now.slot, script.lockBusy);
    var claimed := now.(shared := g1, slot := slot1,
                        frame := now.frame.(app := app, pc := if poisoned then PubControl(next) else Resume(next)));
    SoloGoes(now, script, claimed);
    if poisoned {
      SoloPublishes(claimed, next, script);
    }
  }

  lemma FailedOutcome(g: Shared, slot: AppSlot, leaked: seq<App>, script: Script)
    requires g.failed
    ensures Solo(Fresh(g, slot, leaked), script) == FrameOutcome(g, slot, leaked, script)
  {
    hide Solo, ClaimApp, DriverStep, OriginalStep, PublicationStep, Rank;
    var now := Fresh(g, slot, leaked);
    var f := now.frame;
    var (g1, slot1, app, poisoned) := ClaimApp(g, slot, script.lockBusy);
    ClaimFacts(g, slot, script.lockBusy);
    SoloGoes(now, script, now.(frame := f.(pc := FailClaim)));
    ClaimGoes(now.(frame := f.(pc := FailClaim)), script, FailedClaim);
    var g2 := if poisoned then Failing(g1) else g1;
    var claimed := now.(shared := g2, slot := slot1, frame := f.(app := app, pc := FailCommit));
    var after := claimed.(slot := if app.Some? then Exited(app.value) else slot1,
                          frame := f.(app := None, pc := ToOriginal(Passthrough)));
    SoloGoes(claimed, script, after);
    PassthroughEnds(after, script);
  }

  lemma IdentityOutcome(g: Shared, slot: AppSlot, leaked: seq<App>, script: Script)
    requires !g.failed && script.identityUnwinds
    ensures Solo(Fresh(g, slot, leaked), script) == End(Failing(g), slot, leaked, false, 1)
  {
    hide Solo, ClaimApp, CommittedSlot, DriverStep, OriginalStep, PublicationStep, CommitStep, Rank;
    var now := Fresh(g, slot, leaked);
    var f := now.frame;
    SoloGoes(now, script, now.(frame := f.(pc := Identity)));
    var thrown := now.(frame := f.(pc := PubControl(Unwound)));
    SoloGoes(now.(frame := f.(pc := Identity)), script, thrown);
    SoloPublishes(thrown, Unwound, script);
    CompensateEnds(thrown.(shared := Failing(g), frame := f.(pc := Recover)), script);
  }

  lemma CompensateEnds(now: Now, script: Script)
    requires now.frame.pc == Recover && now.frame.phase == BeforeOriginal && now.frame.app == None
    ensures Solo(now, script) == End(now.shared, now.slot, now.leaked, now.broken, now.frame.entered + 1)
  {
    hide Solo, ClaimApp, CommittedSlot, DispositionStep, DriverStep, PublicationStep, CommitStep, Rank;
    var calling := now.(frame := now.frame.(pc := ToOriginal(Compensate)));
    SoloGoes(now, script, calling);
    OriginalGoes(calling, script, Compensate);
    NothingToDrop(calling.(frame := BackFromOriginal(calling.frame, Compensate, script.compensationUnwinds)), script);
  }

  /** The original unwinds after a driver pass: the App is leaked with its pass done. */
  lemma OriginalUnwoundFrame(g: Shared, app: App, leaked: seq<App>, script: Script)
    requires !script.driverUnwinds && script.originalUnwinds
    ensures Solo(Holding(g, app, leaked), script)
            == End(Failing(AfterDriver(g, app)), Busy, leaked + [Driven(app)], false, 1)
  {
    hide Solo, ClaimApp, CommittedSlot, DispositionStep, DriverStep, PublicationStep, CommitStep, Rank;
    DriverReturns(g, app, leaked, script);
    var held := Holding(g, app, leaked);
    var now := held.(shared := AfterDriver(g, app), frame := held.frame.(pc := ToOriginal(Commit), app := Some(Driven(app))));
    OriginalGoes(now, script, Commit);
    var thrown := now.(frame := BackFromOriginal(now.frame, Commit, true));
    SoloPublishes(thrown, Unwound, script);
    var failed := thrown.(shared := Failing(AfterDriver(g, app)), frame := thrown.frame.(pc := Recover));
    SoloGoes(failed, script, failed.(frame := failed.frame.(pc := Drop)));
    DropLeaks(failed.(frame := failed.frame.(pc := Drop)), Driven(app), script);
  }

  lemma DriverUnwoundFrame(g: Shared, app: App, leaked: seq<App>, script: Script)
    requires script.driverUnwinds
    ensures Solo(Holding(g, app, leaked), script)
            == End(Failing(g), Busy, leaked + [Broken(app, script.driverCompleted)], false, 1)
  {
    hide Solo, ClaimApp, CommittedSlot, DispositionStep, OriginalStep, PublicationStep, Rank;
    var now := Holding(g, app, leaked);
    var f := now.frame;
    var begun := if app.started then app.(updates := app.updates + 1) else app.(startups := app.startups + 1);
    var driving := now.(frame := f.(pc := Driver(!app.started), app := Some(begun)));
    SoloGoes(now, script, driving);
    var kept := Broken(app, script.driverCompleted);
    var thrown := driving.(frame := f.(pc := PubControl(Unwound), app := Some(kept)));
    SoloGoes(driving, script, thrown);
    SoloPublishes(thrown, Unwound, script);
    LeakedAtEnd(Failing(g), kept, leaked, g.failed, script);
  }

  lemma HoldingOutcome(g: Shared, app: App, leaked: seq<App>, script: Script)
    ensures Solo(Holding(g, app, leaked), script) == DriverOutcome(g, app, leaked, script)
  {
    hide Solo, Rank;
    if script.driverUnwinds {
      DriverUnwoundFrame(g, app, leaked, script);
    } else if script.originalUnwinds {
      OriginalUnwoundFrame(g, app, leaked, script);
    } else {
      CleanFrame(g, app, leaked, script);
    }
  }

  lemma ClaimingOutcome(g: Shared, slot: AppSlot, leaked: seq<App>, script: Script)
    requires !g.failed && !script.identityUnwinds && script.onMainThread
    ensures Solo(Fresh(g, slot, leaked), script) == FrameOutcome(g, slot, leaked, script)
  {
    hide Solo, ClaimApp, CommittedSlot, OriginalStep, PublicationStep, CommitStep, Rank, DriverOutcome;
    var now := Fresh(g, slot, leaked);
    var f := now.frame;
    var (g1, slot1, app, poisoned) := ClaimApp(g, slot, script.lockBusy);
    ClaimFacts(g, slot, script.lockBusy);
    SoloGoes(now, script, now.(frame := f.(pc := Identity)));
    SoloGoes(now.(frame := f.(pc := Identity)), script, now.(frame := f.(pc := Claim)));
    ClaimGoes(now.(frame := f.(pc := Claim)), script, Claiming);
    var g2 := if poisoned then Failing(g1) else g1;
    var claimed := now.(shared := g2, slot := slot1, frame := f.(app := app, pc := Claimed));
    if app.Some? {
      assert claimed == Holding(g1, app.value, leaked);
      HoldingOutcome(g1, app.value, leaked, script);
    } else {
      var passing := claimed.(frame := f.(pc := ToOriginal(Passthrough)));
      SoloGoes(claimed, script, passing);
      PassthroughEnds(passing, script);
    }
  }

  /** The step machine, run on a callback alone until its frame is popped, leaves exactly what the table says:
      for every shared state, every slot, and every place where something can unwind or be busy. */
  lemma SoloIsTable(g: Shared, slot: AppSlot, leaked: seq<App>, script: Script)
    ensures Solo(Fresh(g, slot, leaked), script) == FrameOutcome(g, slot, leaked, script)
  {
    hide Solo, ClaimApp, Rank;
    if g.failed {
      FailedOutcome(g, slot, leaked, script);
    } else if script.identityUnwinds {
      IdentityOutcome(g, slot, leaked, script);
    } else if script.onMainThread {
      ClaimingOutcome(g, slot, leaked, script);
    } else {
      WrongThreadFails(g, slot, leaked, script);
    }
  }

  // Rows of the table

  /** A thread that is Busy, Exited or Unavailable is only passed through: its slot and its Apps stay. */
  lemma ClosedSlotPassesThrough(g: Shared, slot: AppSlot, leaked: seq<App>, script: Script)
    requires slot.Busy? || slot.Exited? || slot.Unavailable?
    requires !g.failed ==> script.onMainThread && !script.identityUnwinds
    ensures Solo(Fresh(g, slot, leaked), script) ==
      End(if script.originalUnwinds then Failing(g) else g, slot, leaked, false, 1)
  {
    hide Solo;
    SoloIsTable(g, slot, leaked, script);
  }

  /** After a failure a thread's next frame retires its App without running it. */
  lemma FailedFrameExits(g: Shared, app: App, leaked: seq<App>, script: Script)
    requires g.failed
    ensures Solo(Fresh(g, Running(app), leaked), script) ==
      End(if script.originalUnwinds then Failing(g) else g, Exited(app), leaked, false, 1)
  {
    hide Solo;
    SoloIsTable(g, Running(app), leaked, script);
  }

  /** The App handed over, or the one kept from the last frame. */
  lemma ClaimsApp(g: Shared, slot: AppSlot, leaked: seq<App>, script: Script)
    requires !g.failed && !script.identityUnwinds && script.onMainThread
    ensures slot.Running? ==> Solo(Fresh(g, slot, leaked), script) == Solo(Holding(g, slot.app, leaked), script)
    ensures slot.AwaitingHandoff? && !script.lockBusy && !g.poisoned && g.handoff.Some? ==>
      Solo(Fresh(g, slot, leaked), script) == Solo(Holding(g.(handoff := None), g.handoff.value, leaked), script)
  {
    hide Solo, DriverOutcome;
    SoloIsTable(g, slot, leaked, script);
    if slot.Running? {
      HoldingOutcome(g, slot.app, leaked, script);
    } else if slot.AwaitingHandoff? && !script.lockBusy && !g.poisoned && g.handoff.Some? {
      HoldingOutcome(g.(handoff := None), g.handoff.value, leaked, script);
    }
  }

  /** A frame whose driver unwinds publishes failure, calls the original once all the same, and leaks the App:
      the thread stays Busy. */
  lemma UnwoundFrame(g: Shared, app: App, leaked: seq<App>, script: Script)
    requires script.driverUnwinds
    ensures var end := Solo(Holding(g, app, leaked), script);
      && end.shared == Failing(g) && end.slot == Busy && !end.broken && end.entered == 1
      && |end.leaked| == |leaked| + 1 && leaked <= end.leaked && end.leaked[|leaked|].id == app.id
  {
    hide Solo;
    DriverUnwoundFrame(g, app, leaked, script);
  }
}
