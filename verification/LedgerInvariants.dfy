/** What the owner ledgers keep: no type twice, exact rollback, and every slot back at its first word. */
module LedgerInvariants {
  import opened Multisets
  import opened Gate
  import opened OwnerLedger

  // The world is the baseline and the ledgers, nothing twice

  function Types(inserted: seq<LedgerEntry>): multiset<TypeId>
  {
    if inserted == [] then multiset{} else Types(inserted[..|inserted| - 1]) + multiset{inserted[|inserted| - 1].typeId}
  }

  function AllTypes(records: seq<Record>): multiset<TypeId>
  {
    if records == [] then multiset{} else AllTypes(records[..|records| - 1]) + Types(records[|records| - 1].inserted)
  }

  /** Sets count every type once, so no type is in two ledgers, in one twice, or in a ledger and the baseline. */
  predicate WorldIsLedgers(a: App) { multiset(a.world) == multiset(a.baseline) + AllTypes(a.records) }

  lemma {:induction false} EditTypes(records: seq<Record>, i: nat, r: Record)
    requires i < |records|
    ensures AllTypes(records[i := r]) + Types(records[i].inserted) == AllTypes(records) + Types(r.inserted)
  {
    hide Types;
    var n := |records| - 1;
    if i < n {
      EditTypes(records[..n], i, r);
      assert records[i := r][..n] == records[..n][i := r];
      SumSwap(AllTypes(records[..n][i := r]), AllTypes(records[..n]), Types(records[n].inserted),
              Types(records[i].inserted), Types(r.inserted));
    } else {
      assert records[i := r][..n] == records[..n];
    }
  }

  lemma SetMinus(world: set<TypeId>, t: TypeId, rest: multiset<TypeId>)
    requires multiset(world) == rest + multiset{t}
    ensures t in world && multiset(world - {t}) == rest
  {
    assert multiset(world)[t] == rest[t] + 1;
    forall x ensures multiset(world - {t})[x] == rest[x] {
      assert multiset(world)[x] == rest[x] + multiset{t}[x];
    }
  }

  lemma {:induction false} RemovedTypes(world: set<TypeId>, inserted: seq<LedgerEntry>, rest: multiset<TypeId>)
    requires multiset(world) == rest + Types(inserted)
    ensures multiset(Removed(world, inserted)) == rest
    decreases |inserted|
  {
    if inserted != [] {
      var n := |inserted| - 1;
      assert rest + Types(inserted) == (rest + Types(inserted[..n])) + multiset{inserted[n].typeId};
      SetMinus(world, inserted[n].typeId, rest + Types(inserted[..n]));
      RemovedTypes(world - {inserted[n].typeId}, inserted[..n], rest);
    }
  }

  lemma RollbackKeepsWorld(a: App, i: nat)
    requires WorldIsLedgers(a) && i < |a.records|
    ensures WorldIsLedgers(RolledBack(a, i))
  {
    hide Types, AllTypes, Removed, Undone;
    var r := RolledBack(a, i);
    EditTypes(a.records, i, r.records[i]);
    NoTypes();
    var own := Types(a.records[i].inserted);
    assert AllTypes(r.records) + own == AllTypes(a.records) + multiset{};
    assert (multiset(a.baseline) + AllTypes(r.records)) + own == multiset(a.baseline) + (AllTypes(r.records) + own);
    RemovedTypes(a.world, a.records[i].inserted, multiset(a.baseline) + AllTypes(r.records));
  }

  lemma NoTypes()
    ensures Types([]) == multiset{} && AllTypes([]) == multiset{}
  {
  }

  lemma SameLedger(a: App, i: nat, r: Record)
    requires WorldIsLedgers(a) && i < |a.records| && r.inserted == a.records[i].inserted
    ensures WorldIsLedgers(Edit(a, i, r))
  {
    hide Types, AllTypes;
    EditTypes(a.records, i, r);
    assert forall x :: AllTypes(a.records[i := r])[x] == AllTypes(a.records)[x] by {
      forall x ensures AllTypes(a.records[i := r])[x] == AllTypes(a.records)[x] {
        assert (AllTypes(a.records[i := r]) + Types(r.inserted))[x] == (AllTypes(a.records) + Types(r.inserted))[x];
      }
    }
  }

  lemma AddType(world: set<TypeId>, t: TypeId)
    requires t !in world
    ensures multiset(world + {t}) == multiset(world) + multiset{t}
  {
  }

  lemma InsertKeepsWorld(a: App, i: nat, t: TypeId)
    requires WorldIsLedgers(a) && i < |a.records|
    ensures WorldIsLedgers(Inserted(a, i, t).0)
  {
    hide AllTypes;
    if t !in a.world {
      var rec := a.records[i];
      var rec1 := Inserted(a, i, t).0.records[i];
      EditTypes(a.records, i, rec1);
      AddType(a.world, t);
      assert rec1.inserted[..|rec.inserted|] == rec.inserted;
      assert Types(rec1.inserted) == Types(rec.inserted) + multiset{t};
      Cancel(AllTypes(a.records[i := rec1]), AllTypes(a.records) + multiset{t}, Types(rec.inserted));
    }
  }

  lemma PerformKeepsWorld(a: App, i: nat, op: BuildOp)
    requires WorldIsLedgers(a) && i < |a.records|
    ensures WorldIsLedgers(Performed(a, i, op).0)
  {
    hide AllTypes, Types;
    match op
    case InsertResource(t) => InsertKeepsWorld(a, i, t);
    case RegisterMessage(t) =>
      if t !in a.world {
        NotInBaseline(a, t);
        AddType(a.world, t);
        AddType(a.baseline, t);
      }
    case InstallHook(slot, replacement, siteFree) =>
      if siteFree && slot in a.slots && a.slots[slot] != 0 {
        SameLedger(a, i, Hooked(a, i, slot, replacement, siteFree).0.records[i]);
      }
    case RegisterRestore => SameLedger(a, i, Performed(a, i, op).0.records[i]);
    case Other(_) =>
  }

  lemma NotInBaseline(a: App, t: TypeId)
    requires WorldIsLedgers(a) && t !in a.world
    ensures t !in a.baseline
  {
    assert multiset(a.world)[t] == multiset(a.baseline)[t] + AllTypes(a.records)[t];
  }

  lemma {:induction false} BuildKeepsWorld(a: App, i: nat, script: BuildScript)
    requires WorldIsLedgers(a) && i < |a.records|
    ensures WorldIsLedgers(Built(a, i, script).0)
    decreases |script.steps|
  {
    hide WorldIsLedgers, Performed;
    if script.steps != [] {
      PerformKeepsWorld(a, i, script.steps[0].0);
      BuildKeepsWorld(Performed(a, i, script.steps[0].0).0, i, script.(steps := script.steps[1..]));
    }
  }

  lemma RegisterKeepsWorld(a: App)
    requires WorldIsLedgers(a)
    ensures WorldIsLedgers(a.(records := a.records + [NewRecord()]))
  {
    var records := a.records + [NewRecord()];
    assert records[..|a.records|] == a.records;
  }

  lemma {:induction false} DrainKeepsWorld(a: App, i: nat, pending: seq<TypeId>)
    requires WorldIsLedgers(a) && i < |a.records|
    ensures WorldIsLedgers(Drained(a, i, pending).0)
    decreases |pending|
  {
    hide WorldIsLedgers, Inserted;
    if pending != [] {
      InsertKeepsWorld(a, i, pending[0]);
      DrainKeepsWorld(Inserted(a, i, pending[0]).0, i, pending[1..]);
    }
  }

  lemma {:induction false} StartKeepsWorld(a: App, i: nat, systems: seq<StartupSystem>)
    requires WorldIsLedgers(a) && i < |a.records|
    ensures WorldIsLedgers(Started(a, i, systems).0)
    decreases |systems|
  {
    hide WorldIsLedgers, Drained;
    if systems != [] {
      var rec := a.records[i];
      var rec1 := rec.(effects := rec.effects + Customs(systems[0].effects));
      SameLedger(a, i, rec1);
      DrainKeepsWorld(Edit(a, i, rec1), i, systems[0].pending);
      StartKeepsWorld(Drained(Edit(a, i, rec1), i, systems[0].pending).0, i, systems[1..]);
    }
  }

  lemma OwnerStartKeepsWorld(a: App, i: nat, systems: seq<StartupSystem>)
    requires WorldIsLedgers(a) && i < |a.records|
    ensures WorldIsLedgers(OwnerStarted(a, i, systems))
  {
    hide WorldIsLedgers, Started, RolledBack;
    StartKeepsWorld(a, i, systems);
    var (a1, ok) := Started(a, i, systems);
    if ok {
      SameLedger(a1, i, a1.records[i].(gate := a1.records[i].gate.Opened()));
    } else {
      RollbackKeepsWorld(a1, i);
    }
  }

  lemma {:induction false} StartupKeepsWorld(a: App, count: nat, systems: nat -> seq<StartupSystem>)
    requires WorldIsLedgers(a) && count <= |a.records|
    ensures WorldIsLedgers(StartedUpTo(a, count, systems))
  {
    hide WorldIsLedgers, OwnerStarted;
    if count > 0 {
      StartupKeepsWorld(a, count - 1, systems);
      OwnerStartKeepsWorld(StartedUpTo(a, count - 1, systems), count - 1, systems(count - 1));
    }
  }

  lemma {:induction false} UpdateKeepsWorld(a: App, count: nat, ok: nat -> bool)
    requires WorldIsLedgers(a) && count <= |a.records|
    ensures WorldIsLedgers(UpdatedUpTo(a, count, ok))
  {
    hide WorldIsLedgers, Undone;
    if count > 0 {
      UpdateKeepsWorld(a, count - 1, ok);
      var a1 := UpdatedUpTo(a, count - 1, ok);
      SameLedger(a1, count - 1, UpdateRetired(a1, count - 1).records[count - 1]);
      SlotsDoNotMatter(Edit(a1, count - 1, UpdateRetired(a1, count - 1).records[count - 1]), UpdateRetired(a1, count - 1).slots);
    }
  }

  lemma SlotsDoNotMatter(a: App, slots: map<nat, nat>)
    ensures WorldIsLedgers(a.(slots := slots)) == WorldIsLedgers(a)
  {
  }

  lemma {:induction false} TeardownKeepsWorld(a: App, from: nat)
    requires WorldIsLedgers(a) && from <= |a.records|
    ensures WorldIsLedgers(TornDownTo(a, from))
    decreases |a.records| - from
  {
    hide WorldIsLedgers, RolledBack;
    if from < |a.records| {
      TeardownKeepsWorld(a, from + 1);
      RollbackKeepsWorld(TornDownTo(a, from + 1), from);
    }
  }

  lemma StepKeepsWorld(a: App, op: Op)
    requires WorldIsLedgers(a)
    ensures WorldIsLedgers(Step(a, op))
  {
    hide WorldIsLedgers, Built, RolledBack, StartedUpTo, UpdatedUpTo, TornDownTo;
    match op
    case AddPlugin(script) =>
      RegisterKeepsWorld(a);
      BuildKeepsWorld(a.(records := a.records + [NewRecord()]), |a.records|, script);
      RollbackKeepsWorld(Built(a.(records := a.records + [NewRecord()]), |a.records|, script).0, |a.records|);
    case RunStartup(systems) => StartupKeepsWorld(a, |a.records|, systems);
    case RunUpdate(ok) => UpdateKeepsWorld(a, |a.records|, ok);
    case Teardown => TeardownKeepsWorld(a, 0);
  }

  /** Between driver calls the world's types are the baseline and the owners' ledgers, each type once. */
  lemma {:induction false} WorldConserved(slots: map<nat, nat>, ops: seq<Op>)
    ensures WorldIsLedgers(After(App({}, {}, slots, []), ops))
    decreases |ops|
  {
    hide Step;
    if ops != [] {
      WorldConserved(slots, ops[..|ops| - 1]);
      StepKeepsWorld(After(App({}, {}, slots, []), ops[..|ops| - 1]), ops[|ops| - 1]);
    }
  }

  // Startup rollback

  /** A startup that fails at any system, with any part of its queue applied, takes out exactly the owner's own
      types, those of its build included; the other owners' records and gates stay as they are. */
  lemma FailedStartupUndone(a: App, i: nat, systems: seq<StartupSystem>)
    requires WorldIsLedgers(a) && i < |a.records| && !Started(a, i, systems).1
    ensures var b := OwnerStarted(a, i, systems);
      && multiset(a.world) == multiset(b.world) + Types(a.records[i].inserted)
      && b.baseline == a.baseline && b.slots == Undone(a.slots, a.records[i].effects)
      && b.records == a.records[i := Record(false, a.records[i].gate.ControlClosed().FlagCleared(), [], [])]
  {
    hide Types, AllTypes, Removed, Undone, Started;
    StartTouchesOwner(a, i, systems);
    StartUnwinds(a, i, systems);
    OwnerStartKeepsWorld(a, i, systems);
    var b := OwnerStarted(a, i, systems);
    assert b.records == a.records[i := b.records[i]] && b.records[i].inserted == [];
    EditTypes(a.records, i, b.records[i]);
    NoTypes();
    var own := Types(a.records[i].inserted);
    assert AllTypes(b.records) + own == AllTypes(a.records) + multiset{};
    assert multiset(b.world) + own == multiset(a.baseline) + (AllTypes(b.records) + own);
  }

  lemma {:induction false} StartTouchesOwner(a: App, i: nat, systems: seq<StartupSystem>)
    requires i < |a.records|
    ensures var b := Started(a, i, systems).0;
      b.records == a.records[i := b.records[i]] && b.records[i].gate == a.records[i].gate
      && b.baseline == a.baseline && b.slots == a.slots
    decreases |systems|
  {
    hide Drained;
    if systems != [] {
      var rec := a.records[i];
      var a1 := Edit(a, i, rec.(effects := rec.effects + Customs(systems[0].effects)));
      DrainTouchesOwner(a1, i, systems[0].pending);
      StartTouchesOwner(Drained(a1, i, systems[0].pending).0, i, systems[1..]);
    }
  }

  lemma {:induction false} DrainTouchesOwner(a: App, i: nat, pending: seq<TypeId>)
    requires i < |a.records|
    ensures var b := Drained(a, i, pending).0;
      b.records == a.records[i := b.records[i]] && b.records[i].gate == a.records[i].gate
      && b.records[i].effects == a.records[i].effects && b.baseline == a.baseline && b.slots == a.slots
    decreases |pending|
  {
    if pending != [] {
      DrainTouchesOwner(Inserted(a, i, pending[0]).0, i, pending[1..]);
    }
  }

  lemma {:induction false} StartUnwinds(a: App, i: nat, systems: seq<StartupSystem>)
    requires i < |a.records|
    ensures Undone(a.slots, Started(a, i, systems).0.records[i].effects) == Undone(a.slots, a.records[i].effects)
    decreases |systems|
  {
    hide Undone, Drained;
    if systems != [] {
      var rec := a.records[i];
      var a1 := Edit(a, i, rec.(effects := rec.effects + Customs(systems[0].effects)));
      CustomsUnwind(a.slots, rec.effects, systems[0].effects);
      DrainTouchesOwner(a1, i, systems[0].pending);
      StartUnwinds(Drained(a1, i, systems[0].pending).0, i, systems[1..]);
    }
  }

  lemma {:induction false} CustomsUnwind(slots: map<nat, nat>, effects: seq<Restore>, count: nat)
    ensures Undone(slots, effects + Customs(count)) == Undone(slots, effects)
    decreases count
  {
    hide Undone;
    if count == 0 {
      assert effects + Customs(0) == effects;
    } else {
      assert effects + Customs(count) == (effects + Customs(count - 1)) + [Custom];
      CustomUnwinds(slots, effects + Customs(count - 1));
      CustomsUnwind(slots, effects, count - 1);
    }
  }

  // Slots: what is undone

  function AllEffects(records: seq<Record>): seq<Restore>
  {
    if records == [] then [] else AllEffects(records[..|records| - 1]) + records[|records| - 1].effects
  }

  lemma {:induction false} UndoneAppend(slots: map<nat, nat>, first: seq<Restore>, second: seq<Restore>)
    ensures Undone(slots, first + second) == Undone(Undone(slots, second), first)
    decreases |second|
  {
    if second == [] {
      assert first + second == first;
    } else {
      var n := |second| - 1;
      assert (first + second)[..|first + second| - 1] == first + second[..n];
      UndoneAppend(Restored(slots, second[n]), first, second[..n]);
    }
  }

  /** Undoing everything recorded brings the slots back to `start`. */
  predicate Unwinds(a: App, start: map<nat, nat>) { Undone(a.slots, AllEffects(a.records)) == start }

  lemma HookUnwinds(slots: map<nat, nat>, effects: seq<Restore>, slot: nat, replacement: nat)
    requires slot in slots
    ensures Undone(slots[slot := replacement], effects + [HookRestore(slot, slots[slot], replacement)]) == Undone(slots, effects)
  {
    var effect := HookRestore(slot, slots[slot], replacement);
    assert (effects + [effect])[..|effects|] == effects;
    assert Restored(slots[slot := replacement], effect) == slots;
  }

  lemma CustomUnwinds(slots: map<nat, nat>, effects: seq<Restore>)
    ensures Undone(slots, effects + [Custom]) == Undone(slots, effects)
  {
    assert (effects + [Custom])[..|effects|] == effects;
  }

  /** A plugin's own effects, undone, give back the slots it found, however far its build got. */
  lemma {:induction false} BuildUnwinds(a: App, i: nat, script: BuildScript)
    requires i < |a.records|
    ensures var b := Built(a, i, script).0;
      && Undone(b.slots, b.records[i].effects) == Undone(a.slots, a.records[i].effects)
      && b.records[..i] == a.records[..i] && b.records[i + 1..] == a.records[i + 1..]
      && b.records[i].active == a.records[i].active && b.records[i].gate == a.records[i].gate
    decreases |script.steps|
  {
    hide Undone, Restored;
    if script.steps != [] {
      PerformUnwinds(a, i, script.steps[0].0);
      BuildUnwinds(Performed(a, i, script.steps[0].0).0, i, script.(steps := script.steps[1..]));
    }
  }

  lemma PerformUnwinds(a: App, i: nat, op: BuildOp)
    requires i < |a.records|
    ensures var b := Performed(a, i, op).0;
      && Undone(b.slots, b.records[i].effects) == Undone(a.slots, a.records[i].effects)
      && b.records[..i] == a.records[..i] && b.records[i + 1..] == a.records[i + 1..]
      && b.records[i].active == a.records[i].active && b.records[i].gate == a.records[i].gate
  {
    hide Undone, Restored;
    CustomUnwinds(a.slots, a.records[i].effects);
    if op.InstallHook? && op.slot in a.slots {
      HookUnwinds(a.slots, a.records[i].effects, op.slot, op.replacement);
    }
  }

  /** A failed build leaves no trace but its messages and a retired, empty record: every slot word, every other
      owner's record and every resource type is as before. */
  lemma FailedBuildUndone(a: App, script: BuildScript)
    requires WorldIsLedgers(a)
    requires !Built(a.(records := a.records + [NewRecord()]), |a.records|, script).1
    ensures var b := WithPlugin(a, script);
      && b.slots == a.slots
      && b.records == a.records + [Record(false, GateState(FailedClosed, false), [], [])]
      && a.world <= b.world && a.baseline <= b.baseline && b.world - a.world == b.baseline - a.baseline
  {
    hide Types, AllTypes, Removed, Undone, Built;
    var a1 := a.(records := a.records + [NewRecord()]);
    var i := |a.records|;
    var b1 := Built(a1, i, script).0;
    var b := RolledBack(b1, i);
    BuildUnwinds(a1, i, script);
    NothingUndone(a.slots);
    assert b.records[..i] == b1.records[..i] == a1.records[..i] == a.records;
    assert b.records == b.records[..i] + [b.records[i]];
    RegisterKeepsWorld(a);
    BuildKeepsWorld(a1, i, script);
    RollbackKeepsWorld(b1, i);
    BaselineGrows(a1, i, script);
    ExactWorld(a, b);
  }

  lemma NothingUndone(slots: map<nat, nat>)
    ensures Undone(slots, []) == slots
  {
  }

  lemma {:induction false} BaselineGrows(a: App, i: nat, script: BuildScript)
    requires i < |a.records|
    ensures a.baseline <= Built(a, i, script).0.baseline
    ensures Built(a, i, script).0.baseline - a.baseline !! a.world
    decreases |script.steps|
  {
    if script.steps != [] {
      var a1 := Performed(a, i, script.steps[0].0).0;
      assert a.baseline <= a1.baseline && a.world <= a1.world && a1.baseline - a.baseline !! a.world;
      BaselineGrows(a1, i, script.(steps := script.steps[1..]));
    }
  }

  lemma ExactWorld(a: App, b: App)
    requires WorldIsLedgers(a) && WorldIsLedgers(b)
    requires b.records == a.records + [Record(false, GateState(FailedClosed, false), [], [])]
    requires a.baseline <= b.baseline && b.baseline - a.baseline !! a.world
    ensures a.world <= b.world && b.world - a.world == b.baseline - a.baseline
  {
    assert b.records[..|a.records|] == a.records;
    assert AllTypes(b.records) == AllTypes(a.records) + Types([]);
    forall t ensures (t in b.world) == (t in a.world || t in b.baseline - a.baseline) {
      assert multiset(b.world)[t] == multiset(b.baseline)[t] + AllTypes(a.records)[t];
      assert multiset(a.world)[t] == multiset(a.baseline)[t] + AllTypes(a.records)[t];
    }
  }

  // Builds, then teardown

  function WithPlugins(a: App, scripts: seq<BuildScript>): App
    decreases |scripts|
  {
    if scripts == [] then a else WithPlugin(WithPlugins(a, scripts[..|scripts| - 1]), scripts[|scripts| - 1])
  }

  predicate RetiredIsEmpty(a: App) { forall r | r in a.records :: !r.active ==> r.effects == [] }

  lemma PluginUnwinds(a: App, script: BuildScript)
    requires RetiredIsEmpty(a)
    ensures var b := WithPlugin(a, script);
      RetiredIsEmpty(b) && Undone(b.slots, AllEffects(b.records)) == Undone(a.slots, AllEffects(a.records))
  {
    hide Built, Undone, Removed;
    var a1 := a.(records := a.records + [NewRecord()]);
    var i := |a.records|;
    var (b1, ok) := Built(a1, i, script);
    BuildUnwinds(a1, i, script);
    NothingUndone(a.slots);
    var b := WithPlugin(a, script);
    assert b.records[..i] == b1.records[..i] == a1.records[..i] == a.records;
    assert b.records == a.records + [b.records[i]];
    assert AllEffects(b.records) == AllEffects(a.records) + b.records[i].effects;
    UndoneAppend(b.slots, AllEffects(a.records), b.records[i].effects);
    NothingUndone(b.slots);
    forall r | r in b.records ensures !r.active ==> r.effects == [] {
      assert r in a.records || r == b.records[i];
    }
  }

  lemma {:induction false} PluginsUnwind(slots: map<nat, nat>, scripts: seq<BuildScript>)
    ensures var a := WithPlugins(App({}, {}, slots, []), scripts);
      RetiredIsEmpty(a) && Undone(a.slots, AllEffects(a.records)) == slots
    decreases |scripts|
  {
    hide WithPlugin;
    if scripts != [] {
      PluginsUnwind(slots, scripts[..|scripts| - 1]);
      PluginUnwinds(WithPlugins(App({}, {}, slots, []), scripts[..|scripts| - 1]), scripts[|scripts| - 1]);
    }
  }

  /** Tearing down owners from the last to `from` undoes their effects, newest first. */
  lemma {:induction false} TeardownUndoes(a: App, from: nat)
    requires RetiredIsEmpty(a) && from <= |a.records|
    ensures var b := TornDownTo(a, from);
      && Undone(b.slots, AllEffects(a.records[..from])) == Undone(a.slots, AllEffects(a.records))
      && b.records[..from] == a.records[..from]
      && forall i | from <= i < |b.records| :: !b.records[i].active && b.records[i].effects == []
    decreases |a.records| - from
  {
    hide Undone, Removed;
    if from == |a.records| {
      assert a.records[..from] == a.records;
    } else {
      TeardownUndoes(a, from + 1);
      var b1 := TornDownTo(a, from + 1);
      assert a.records[..from + 1][..from] == a.records[..from];
      assert b1.records[from] == b1.records[..from + 1][from] == a.records[from];
      UndoneAppend(b1.slots, AllEffects(a.records[..from]), a.records[from].effects);
      NothingUndone(b1.slots);
      assert a.records[from] in a.records;
      assert b1.records[..from + 1][..from] == b1.records[..from];
    }
  }

  /** Whatever the plugins hook, repeating slots or not, and however many of their builds fail, teardown returns
      every slot to its initial word and every owner is retired with nothing left to undo. */
  lemma TeardownRestoresSlots(slots: map<nat, nat>, scripts: seq<BuildScript>)
    ensures var b := TornDown(WithPlugins(App({}, {}, slots, []), scripts));
      b.slots == slots && forall r | r in b.records :: !r.active && r.effects == []
  {
    hide Undone, TornDownTo, WithPlugins;
    var a := WithPlugins(App({}, {}, slots, []), scripts);
    PluginsUnwind(slots, scripts);
    TeardownUndoes(a, 0);
    NothingUndone(TornDown(a).slots);
  }

  // Retirement out of order

  predicate Touches(effects: seq<Restore>, slot: nat)
  {
    exists e :: e in effects && e.HookRestore? && e.slot == slot
  }

  /** No slot hooked by owner `i` is hooked by an owner registered after it. */
  predicate LastHooker(a: App, i: nat)
    requires i < |a.records|
  {
    forall e | e in a.records[i].effects && e.HookRestore? :: !Touches(AllEffects(a.records[i + 1..]), e.slot)
  }

  predicate Disjoint(one: seq<Restore>, other: seq<Restore>)
  {
    forall e | e in one && e.HookRestore? :: !Touches(other, e.slot)
  }

  lemma RestoresCommute(slots: map<nat, nat>, e: Restore, f: Restore)
    requires e.HookRestore? && f.HookRestore? ==> e.slot != f.slot
    ensures Restored(Restored(slots, e), f) == Restored(Restored(slots, f), e)
  {
  }

  lemma {:induction false} RestoreCommutesPast(slots: map<nat, nat>, e: Restore, effects: seq<Restore>)
    requires e.HookRestore? ==> !Touches(effects, e.slot)
    ensures Undone(Restored(slots, e), effects) == Restored(Undone(slots, effects), e)
    decreases |effects|
  {
    hide Restored;
    if effects != [] {
      var n := |effects| - 1;
      assert effects[n] in effects && forall f :: f in effects[..n] ==> f in effects;
      RestoresCommute(slots, e, effects[n]);
      RestoreCommutesPast(Restored(slots, effects[n]), e, effects[..n]);
    }
  }

  lemma {:induction false} UndosCommute(slots: map<nat, nat>, one: seq<Restore>, other: seq<Restore>)
    requires Disjoint(one, other)
    ensures Undone(Undone(slots, one), other) == Undone(Undone(slots, other), one)
    decreases |one|
  {
    hide Restored, Touches;
    if one != [] {
      var n := |one| - 1;
      assert one[n] in one && forall e :: e in one[..n] ==> e in one;
      RestoreCommutesPast(slots, one[n], other);
      UndosCommute(Restored(slots, one[n]), one[..n], other);
    }
  }

  lemma {:induction false} EffectsAround(records: seq<Record>, i: nat)
    requires i < |records|
    ensures AllEffects(records) == AllEffects(records[..i]) + records[i].effects + AllEffects(records[i + 1..])
    decreases |records|
  {
    var n := |records| - 1;
    if i == n {
      assert records[i + 1..] == [];
    } else {
      EffectsAround(records[..n], i);
      assert records[..n][..i] == records[..i] && records[..n][i + 1..] == records[i + 1..][..n - i - 1];
      assert records[i + 1..][|records[i + 1..]| - 1] == records[n];
    }
  }

  /** Retiring an owner whose slots nobody after it hooks, at any time, leaves the others' undoing intact:
      everything still unwinds to the same slot words, whatever the words are. */
  lemma LastHookerRetires(a: App, i: nat)
    requires i < |a.records| && LastHooker(a, i)
    ensures var b := UpdateRetired(a, i);
      Undone(b.slots, AllEffects(b.records)) == Undone(a.slots, AllEffects(a.records))
  {
    hide Undone, Touches;
    var b := UpdateRetired(a, i);
    var before, own, after := AllEffects(a.records[..i]), a.records[i].effects, AllEffects(a.records[i + 1..]);
    EffectsAround(a.records, i);
    EffectsAround(b.records, i);
    assert b.records[..i] == a.records[..i] && b.records[i + 1..] == a.records[i + 1..];
    assert before + [] == before;
    UndosCommute(a.slots, own, after);
    UndoneAppend(b.slots, before, after);
    UndoneAppend(a.slots, before + own, after);
    UndoneAppend(Undone(a.slots, after), before, own);
  }

  /** Two plugins hook one slot, holding `o`: the first with `x`, the second with `y`. If the first is retired
      first, its restore finds the second's word and does nothing, and teardown then brings `x` back: the
      slot gets its first word again exactly when that was `x` already. */
  lemma OutOfOrderRetirement(slot: nat, o: nat, x: nat, y: nat)
    requires o != 0 && x != 0 && x != y
    ensures var hook := (r: nat) => BuildScript([(InstallHook(slot, r, true), true)], true);
      var a := WithPlugin(WithPlugin(App({}, {}, map[slot := o], []), hook(x)), hook(y));
      var end := TornDown(UpdateRetired(a, 0));
      && end.slots == map[slot := x]
      && (end.slots == map[slot := o] <==> x == o)
  {
    var hook := (r: nat) => BuildScript([(InstallHook(slot, r, true), true)], true);
    var start := App({}, {}, map[slot := o], []);
    var a1 := WithPlugin(start, hook(x));
    OneHook(start, slot, x);
    OneHook(a1, slot, y);
    var a2 := WithPlugin(a1, hook(y));
    var e0, e1 := HookRestore(slot, o, x), HookRestore(slot, x, y);
    assert a2.slots == map[slot := y];
    assert a2.records == [NewRecord().(effects := [e0]), NewRecord().(effects := [e1])];
    OneUndone(a2.slots, e0);
    var b := UpdateRetired(a2, 0);
    assert b.slots == map[slot := y];
    OneUndone(b.slots, e1);
    var t2 := TornDownTo(b, 2);
    assert t2 == b;
    var t1 := TornDownTo(b, 1);
    assert t1.slots == map[slot := x] && !t1.records[0].active;
    assert TornDownTo(b, 0) == t1;
  }

  lemma OneUndone(slots: map<nat, nat>, e: Restore)
    ensures Undone(slots, [e]) == Restored(slots, e)
  {
    assert [e][..0] == [];
    NothingUndone(Restored(slots, e));
  }

  lemma OneHook(a: App, slot: nat, replacement: nat)
    requires slot in a.slots && a.slots[slot] != 0
    ensures var script := BuildScript([(InstallHook(slot, replacement, true), true)], true);
      WithPlugin(a, script) == a.(
        slots := a.slots[slot := replacement],
        records := a.records + [NewRecord().(effects := [HookRestore(slot, a.slots[slot], replacement)])])
  {
    var script := BuildScript([(InstallHook(slot, replacement, true), true)], true);
    var a1 := a.(records := a.records + [NewRecord()]);
    var (a2, ok) := Performed(a1, |a.records|, InstallHook(slot, replacement, true));
    assert script.steps[1..] == [];
    var hook := HookRestore(slot, a.slots[slot], replacement);
    assert NewRecord().effects + [hook] == [hook];
    assert Built(a1, |a.records|, script) == Built(a2, |a.records|, script.(steps := []));
    assert a2.records == a.records + [NewRecord().(effects := [HookRestore(slot, a.slots[slot], replacement)])];
  }
}
