/** How Apps get into the scheduler, and that they then run. */
module SchedulerLiveness {
  import opened Options
  import opened Gate
  import opened OriginalCall
  import opened Scheduler
  import opened SchedulerInvariants
  import opened SchedulerFrame
  import opened FrameOutcomes

  // Publications

  /** The handoff is poisoned by nothing but a panic under its lock. */
  lemma {:induction false} PoisonedByPanic(threads: nat, actions: seq<Action>)
    ensures Run(Init(threads), actions).shared.poisoned <==> Poison in actions
    decreases |actions|
  {
    if actions != [] {
      var n := |actions| - 1;
      PoisonedByPanic(threads, actions[..n]);
      StepPoisons(Run(Init(threads), actions[..n]), actions[n]);
      assert actions == actions[..n] + [actions[n]];
    }
  }

  lemma StepPoisons(s: State, a: Action)
    ensures Step(s, a).shared.poisoned <==> s.shared.poisoned || a == Poison
  {
    hide ClaimApp, CommittedSlot, Advanced, Entered, FrameStep;
    if a.Advance? && a.thread < |s.threads| && s.threads[a.thread].stack != [] {
      var t := s.threads[a.thread];
      FramePoisons(s.shared, t.slot, t.stack[|t.stack| - 1], a.choice);
    }
  }

  lemma FramePoisons(g: Shared, slot: AppSlot, f: Frame, c: Choice)
    ensures FrameStep(g, slot, f, c).shared.poisoned == g.poisoned && FrameStep(g, slot, f, c).shared.published == g.published
  {
    hide PublicationStep, DispositionStep, DriverStep, OriginalStep;
    if f.pc.PubControl? || f.pc.PubFlag? || f.pc.PubFailed? {
      PublicationPoisons(g, slot, f);
    } else if f.pc.Start? || f.pc.FailClaim? || f.pc.FailCommit? || f.pc.Identity? || f.pc.MismatchTls? || f.pc.Claim? {
      DispositionPoisons(g, slot, f, c);
    } else if f.pc.Claimed? || f.pc.Driver? || f.pc.OpenGate? {
      DriverPoisons(g, slot, f, c);
    } else {
      OriginalPoisons(g, slot, f, c);
    }
  }

  predicate SamePublications(g: Shared, g1: Shared) { g1.poisoned == g.poisoned && g1.published == g.published }

  lemma PublicationPoisons(g: Shared, slot: AppSlot, f: Frame)
    requires f.pc.PubControl? || f.pc.PubFlag? || f.pc.PubFailed?
    ensures SamePublications(g, PublicationStep(g, slot, f).shared)
  {
  }

  lemma DispositionPoisons(g: Shared, slot: AppSlot, f: Frame, c: Choice)
    requires f.pc.Start? || f.pc.FailClaim? || f.pc.FailCommit? || f.pc.Identity? || f.pc.MismatchTls? || f.pc.Claim?
    ensures SamePublications(g, DispositionStep(g, slot, f, c).shared)
  {
  }

  lemma DriverPoisons(g: Shared, slot: AppSlot, f: Frame, c: Choice)
    requires f.pc.Claimed? || f.pc.Driver? || f.pc.OpenGate?
    ensures SamePublications(g, DriverStep(g, slot, f, c).shared)
  {
  }

  lemma OriginalPoisons(g: Shared, slot: AppSlot, f: Frame, c: Choice)
    requires !(f.pc.PubControl? || f.pc.PubFlag? || f.pc.PubFailed?)
    requires !(f.pc.Start? || f.pc.FailClaim? || f.pc.FailCommit? || f.pc.Identity? || f.pc.MismatchTls? || f.pc.Claim?)
    requires !(f.pc.Claimed? || f.pc.Driver? || f.pc.OpenGate?)
    ensures SamePublications(g, OriginalStep(g, slot, f, c).shared)
  {
  }

  /** In every run: a publication that finds the handoff empty, with no panic under its lock before, puts a new App
      there; any other changes nothing. */
  lemma PublicationExactly(threads: nat, actions: seq<Action>, id: nat)
    ensures var s := Run(Init(threads), actions);
      var s1 := Run(Init(threads), actions + [Publish(id)]);
      if s.shared.handoff == None && Poison !in actions then
        s1 == s.(shared := s.shared.(handoff := Some(App(id, false, 0, 0)), published := s.shared.published + multiset{id}))
      else s1 == s
  {
    hide Run;
    PoisonedByPanic(threads, actions);
    RunLast(threads, actions, Publish(id));
  }

  lemma RunLast(threads: nat, actions: seq<Action>, a: Action)
    ensures Run(Init(threads), actions + [a]) == Step(Run(Init(threads), actions), a)
  {
    hide Step;
    var all := actions + [a];
    assert all[..|all| - 1] == actions && all[|all| - 1] == a;
  }

  /** The handoff is emptied by nothing but the claim of a thread that waits for it and finds it unlocked and
      healthy; that thread is then Busy with the App in its frame. */
  lemma HandoffTaken(g: Shared, slot: AppSlot, f: Frame, c: Choice)
    ensures var o := FrameStep(g, slot, f, c);
      if (f.pc == Claim || f.pc == FailClaim) && slot == AwaitingHandoff && !c.lockBusy && !g.poisoned && g.handoff.Some? then
        o.shared.handoff == None && o.slot == Busy && o.frame.Some? && o.frame.value.app == g.handoff
      else o.shared.handoff == g.handoff
  {
  }

  // What a claim finds, row by row

  /** A contended lock is waited for by nobody: the slot, the handoff and the gate stay, the original is called. */
  lemma ContendedRow(g: Shared, leaked: seq<App>, script: Script)
    requires script.lockBusy && (g.failed || (script.onMainThread && !script.identityUnwinds))
    ensures Solo(Fresh(g, AwaitingHandoff, leaked), script)
            == End(if script.originalUnwinds then g.(gate := GateState(FailedClosed, false), failed := true) else g,
                   AwaitingHandoff, leaked, false, 1)
  {
    hide Solo;
    SoloIsTable(g, AwaitingHandoff, leaked, script);
  }

  /** A poisoned handoff publishes failure and gives the thread up for good. */
  lemma PoisonedRow(g: Shared, leaked: seq<App>, script: Script)
    requires !script.lockBusy && g.poisoned && (g.failed || (script.onMainThread && !script.identityUnwinds))
    ensures Solo(Fresh(g, AwaitingHandoff, leaked), script)
            == End(g.(gate := GateState(FailedClosed, false), failed := true), Unavailable, leaked, false, 1)
  {
    hide Solo;
    SoloIsTable(g, AwaitingHandoff, leaked, script);
  }

  /** An empty handoff leaves the thread waiting. */
  lemma EmptyRow(g: Shared, leaked: seq<App>, script: Script)
    requires !g.poisoned && g.handoff == None && (g.failed || (script.onMainThread && !script.identityUnwinds))
    ensures Solo(Fresh(g, AwaitingHandoff, leaked), script)
            == End(if script.originalUnwinds then g.(gate := GateState(FailedClosed, false), failed := true) else g,
                   AwaitingHandoff, leaked, false, 1)
  {
    hide Solo;
    SoloIsTable(g, AwaitingHandoff, leaked, script);
  }

  /** After a failure an App still in the handoff is taken and retired without being run. */
  lemma FailedHandoffRow(g: Shared, leaked: seq<App>, script: Script)
    requires g.failed && !script.lockBusy && !g.poisoned && g.handoff.Some?
    ensures Solo(Fresh(g, AwaitingHandoff, leaked), script)
            == End(if script.originalUnwinds then g.(handoff := None, gate := GateState(FailedClosed, false)) else g.(handoff := None),
                   Exited(g.handoff.value), leaked, false, 1)
  {
    hide Solo;
    SoloIsTable(g, AwaitingHandoff, leaked, script);
  }

  // Runs of one frame

  /** Running thread `i` on its own through its top frame, the outside answering as the script says, ends as the
      frame alone does. */
  lemma {:induction false} SoloRuns(s: State, i: nat, script: Script) returns (choices: seq<Choice>)
    requires i < |s.threads| && s.threads[i].stack != []
    ensures var t := s.threads[i];
      var n := |t.stack| - 1;
      var end := Solo(Now(s.shared, t.slot, t.leaked, t.broken, t.stack[n]), script);
      AdvanceAll(s, i, choices) ==
      State(end.shared, s.threads[i := Thread(end.slot, t.stack[..n], end.leaked, t.done + [end.entered], end.broken)])
    ensures forall c :: c in choices ==> c.onMainThread == script.onMainThread && c.lockBusy == script.lockBusy
    ensures !script.identityUnwinds && !script.driverUnwinds && !script.originalUnwinds && !script.compensationUnwinds ==>
      forall c :: c in choices ==> !c.unwinds
    decreases Rank(s.threads[i].stack[|s.threads[i].stack| - 1].pc)
  {
    hide FrameStep, Rank;
    var t := s.threads[i];
    var n := |t.stack| - 1;
    var top := t.stack[n];
    var c := ChoiceAt(script, top.pc);
    var o := FrameStep(s.shared, t.slot, top, c);
    var s1 := Step(s, Advance(i, c));
    FrameEnds(s.shared, t.slot, top, c);
    if o.frame.Some? {
      var rest := SoloRuns(s1, i, script);
      choices := [c] + rest;
      assert choices[1..] == rest;
      assert s1.threads[i].stack[..n] == t.stack[..n];
      assert s1.threads[i].stack[n] == o.frame.value;
    } else {
      choices := [c];
      assert choices[1..] == [];
    }
  }

  /** A callback in which nothing unwinds or is contended, on the right thread. */
  const CLEAN := Script(false, true, false, false, false, false, false)

  /** One whole clean callback of an idle thread. */
  lemma CleanCallback(s: State, i: nat) returns (choices: seq<Choice>)
    requires i < |s.threads| && s.threads[i].stack == [] && !s.threads[i].broken
    ensures var t := s.threads[i];
      var end := FrameOutcome(s.shared, t.slot, t.leaked, CLEAN);
      AdvanceAll(Step(s, Enter(i)), i, choices) ==
      State(end.shared, s.threads[i := Thread(end.slot, [], end.leaked, t.done + [end.entered], end.broken)])
    ensures forall c :: c in choices ==> !c.unwinds && c.onMainThread && !c.lockBusy
  {
    hide Solo, FrameOutcome, AdvanceAll;
    var t, s1 := s.threads[i], Step(s, Enter(i));
    choices := SoloRuns(s1, i, CLEAN);
    SoloIsTable(s.shared, t.slot, t.leaked, CLEAN);
    assert s1.threads[i].stack == [Fresh(s.shared, t.slot, t.leaked).frame];
    assert s1.threads[i].stack[..0] == [];
  }

  lemma {:induction false} ThreadsStay(threads: nat, actions: seq<Action>)
    ensures |Run(Init(threads), actions).threads| == threads
    decreases |actions|
  {
    hide FrameStep;
    if actions != [] {
      ThreadsStay(threads, actions[..|actions| - 1]);
    }
  }

  /** The game may call back from inside a driver or the original: the nested callback of a thread that is busy with
      its App enters the original once and leaves the App, the outer frames and everything else as they were. */
  lemma NestedPassesThrough(s: State, i: nat) returns (choices: seq<Choice>)
    requires i < |s.threads| && s.threads[i].stack != [] && !s.threads[i].broken && s.threads[i].slot == Busy
    requires var top := s.threads[i].stack[|s.threads[i].stack| - 1].pc; top.Driver? || top.InOriginal?
    ensures AdvanceAll(Step(s, Enter(i)), i, choices)
            == s.(threads := s.threads[i := s.threads[i].(done := s.threads[i].done + [1])])
    ensures forall c :: c in choices ==> !c.unwinds && c.onMainThread && !c.lockBusy
  {
    hide Solo, AdvanceAll;
    var t, s1 := s.threads[i], Step(s, Enter(i));
    choices := SoloRuns(s1, i, CLEAN);
    SoloIsTable(s.shared, t.slot, t.leaked, CLEAN);
    assert s1.threads[i].stack == t.stack + [Fresh(s.shared, t.slot, t.leaked).frame];
    assert s1.threads[i].stack[..|t.stack|] == t.stack;
  }

  /** From anywhere else it cannot call back. */
  lemma NoOtherEntry(s: State, i: nat)
    ensures Step(s, Enter(i)) != s ==>
      i < |s.threads| && var stack := s.threads[i].stack;
      stack == [] || stack[|stack| - 1].pc.Driver? || stack[|stack| - 1].pc.InOriginal?
  {
  }

  /** In every run: an App published into an empty, healthy handoff is started by the next clean callback of any
      idle thread. The thread then runs it, its Startup has returned, and the gate is open. */
  lemma PublishedAppStarts(threads: nat, actions: seq<Action>, id: nat, i: nat) returns (choices: seq<Choice>)
    requires i < threads
    requires var s := Run(Init(threads), actions);
      && s.shared.handoff == None && Poison !in actions && !s.shared.failed && s.shared.gate.control == Closed
      && i < |s.threads| && s.threads[i].stack == [] && s.threads[i].slot == AwaitingHandoff
    ensures |Run(Init(threads), actions).threads| == threads
    ensures var s := Run(Init(threads), actions);
      var end := AdvanceAll(Step(Run(Init(threads), actions + [Publish(id)]), Enter(i)), i, choices);
      && |end.threads| == threads
      && end.threads[i].slot == Running(App(id, true, 1, 0)) && end.threads[i].stack == []
      && end.threads[i].leaked == s.threads[i].leaked && end.threads[i].done == s.threads[i].done + [1]
      && end.shared.handoff == None && !end.shared.failed && end.shared.gate == GateState(Open, true)
      && forall j :: 0 <= j < threads && j != i ==> end.threads[j] == s.threads[j]
    ensures forall c :: c in choices ==> !c.unwinds && c.onMainThread && !c.lockBusy
  {
    hide Run, Step, AdvanceAll;
    var s, s1 := Run(Init(threads), actions), Run(Init(threads), actions + [Publish(id)]);
    PublicationExactly(threads, actions, id);
    PoisonedByPanic(threads, actions);
    ThreadsStay(threads, actions);
    RunKeeps(threads, actions);
    assert ThreadOk(s.shared, s.threads[i]);
    choices := CleanCallback(s1, i);
  }

  /** Every further clean callback is one Update, for as long as no failure is published. */
  lemma RunningAppUpdates(s: State, i: nat, app: App) returns (choices: seq<Choice>)
    requires i < |s.threads| && s.threads[i].stack == [] && !s.threads[i].broken
    requires s.threads[i].slot == Running(app) && app.started && !s.shared.failed
    ensures var t := s.threads[i];
      AdvanceAll(Step(s, Enter(i)), i, choices) ==
      s.(threads := s.threads[i := Thread(Running(app.(updates := app.updates + 1)), [], t.leaked, t.done + [1], false)])
    ensures forall c :: c in choices ==> !c.unwinds && c.onMainThread && !c.lockBusy
  {
    hide AdvanceAll, Step;
    choices := CleanCallback(s, i);
  }
}
