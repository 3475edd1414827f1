/** What builds, startups and updates leave behind, and when an owner's gate is open. */
module OwnerOutcomes {
  import opened Gate
  import opened OwnerLedger
  import opened LedgerInvariants

  // A startup pass over one owner

  /** Everything the systems queue, in order. */
  function Queued(systems: seq<StartupSystem>): seq<TypeId>
  {
    if systems == [] then [] else systems[0].pending + Queued(systems[1..])
  }

  function EffectCount(systems: seq<StartupSystem>): nat
  {
    if systems == [] then 0 else systems[0].effects + EffectCount(systems[1..])
  }

  predicate AllOk(systems: seq<StartupSystem>) { forall k :: 0 <= k < |systems| ==> systems[k].ok }

  /** None of the types is in the world, and none is queued twice. */
  predicate New(types: seq<TypeId>, world: set<TypeId>)
  {
    && (forall k :: 0 <= k < |types| ==> types[k] !in world)
    && forall j, k :: 0 <= j < k < |types| ==> types[j] != types[k]
  }

  function TypeSet(types: seq<TypeId>): set<TypeId> { set t | t in types }

  /** The entries of types inserted one after the other. */
  function Entries(types: seq<TypeId>, order: nat): (entries: seq<LedgerEntry>)
    ensures |entries| == |types|
    ensures forall k :: 0 <= k < |types| ==> entries[k] == LedgerEntry(types[k], order + k)
  {
    seq(|types|, k requires 0 <= k < |types| => LedgerEntry(types[k], order + k))
  }

  lemma NewSplit(first: seq<TypeId>, second: seq<TypeId>, world: set<TypeId>)
    ensures New(first + second, world) <==> New(first, world) && New(second, world + TypeSet(first))
  {
    var all := first + second;
    if New(all, world) {
      forall k | 0 <= k < |first| ensures first[k] !in world {
        assert all[k] == first[k];
      }
      forall j, k | 0 <= j < k < |first| ensures first[j] != first[k] {
        assert all[j] == first[j] && all[k] == first[k];
      }
      forall k | 0 <= k < |second| ensures second[k] !in world + TypeSet(first) {
        assert all[|first| + k] == second[k];
        forall j | 0 <= j < |first| ensures first[j] != second[k] {
          assert all[j] == first[j];
        }
      }
      forall j, k | 0 <= j < k < |second| ensures second[j] != second[k] {
        assert all[|first| + j] == second[j] && all[|first| + k] == second[k];
      }
    }
    if New(first, world) && New(second, world + TypeSet(first)) {
      forall j, k | 0 <= j < k < |all| ensures all[j] != all[k] {
        if j < |first| <= k {
          assert first[j] in first && second[k - |first|] == all[k];
        }
      }
    }
  }

  /** The owner's record with `types` inserted and `effects` restore actions more. */
  function Grown(a: App, i: nat, types: seq<TypeId>, effects: nat): App
    requires i < |a.records|
  {
    var rec := a.records[i];
    Edit(a, i, rec.(inserted := rec.inserted + Entries(types, NextOrder(rec.inserted)), effects := rec.effects + Customs(effects)))
      .(world := a.world + TypeSet(types))
  }

  lemma GrownNothing(a: App, i: nat)
    requires i < |a.records|
    ensures Grown(a, i, [], 0) == a
  {
    var rec := a.records[i];
    assert rec.inserted + Entries([], NextOrder(rec.inserted)) == rec.inserted && rec.effects + Customs(0) == rec.effects;
    assert a.records[i := rec] == a.records && a.world + TypeSet([]) == a.world;
  }

  lemma GrownTwice(a: App, i: nat, t1: seq<TypeId>, e1: nat, t2: seq<TypeId>, e2: nat)
    requires i < |a.records|
    ensures Grown(Grown(a, i, t1, e1), i, t2, e2) == Grown(a, i, t1 + t2, e1 + e2)
  {
    var rec := a.records[i];
    var b, c := Grown(a, i, t1, e1), Grown(a, i, t1 + t2, e1 + e2);
    var n := NextOrder(rec.inserted);
    assert NextOrder(b.records[i].inserted) == n + |t1| by {
      if t1 == [] {
        assert b.records[i].inserted == rec.inserted;
      }
    }
    assert rec.inserted + Entries(t1, n) + Entries(t2, n + |t1|) == rec.inserted + Entries(t1 + t2, n);
    assert rec.effects + Customs(e1) + Customs(e2) == rec.effects + Customs(e1 + e2);
    assert a.world + TypeSet(t1) + TypeSet(t2) == a.world + TypeSet(t1 + t2);
    assert Grown(b, i, t2, e2).records == c.records;
  }

  /** One queue is applied whole exactly when all its types are new. */
  lemma {:induction false} DrainExactly(a: App, i: nat, pending: seq<TypeId>)
    requires i < |a.records|
    ensures Drained(a, i, pending).1 <==> New(pending, a.world)
    ensures New(pending, a.world) ==> Drained(a, i, pending).0 == Grown(a, i, pending, 0)
    decreases |pending|
  {
    hide Grown, New;
    GrownNothing(a, i);
    if pending == [] {
      NoneNew(a.world);
    } else {
      var a1 := Inserted(a, i, pending[0]).0;
      InsertGrows(a, i, pending[0]);
      NewSplit([pending[0]], pending[1..], a.world);
      assert [pending[0]] + pending[1..] == pending;
      assert a.world + TypeSet([pending[0]]) == a.world + {pending[0]};
      DrainExactly(a1, i, pending[1..]);
      GrownTwice(a, i, [pending[0]], 0, pending[1..], 0);
    }
  }

  lemma NoneNew(world: set<TypeId>)
    ensures New([], world)
  {
  }

  lemma InsertGrows(a: App, i: nat, t: TypeId)
    requires i < |a.records|
    ensures Inserted(a, i, t).1 == (t !in a.world) == New([t], a.world)
    ensures t !in a.world ==> Inserted(a, i, t).0 == Grown(a, i, [t], 0)
    ensures t !in a.world ==> Inserted(a, i, t).0.world == a.world + {t}
    ensures t in a.world ==> Inserted(a, i, t).0 == a
  {
    assert New([t], a.world) <==> t !in a.world by {
      assert [t][0] == t;
    }
    if t !in a.world {
      var rec := a.records[i];
      assert Entries([t], NextOrder(rec.inserted)) == [LedgerEntry(t, NextOrder(rec.inserted))];
      assert rec.effects + Customs(0) == rec.effects && TypeSet([t]) == {t};
    }
  }

  /** A startup pass gets to its end exactly when every system succeeds and everything queued is new; then it has
      inserted what was queued, in order, and recorded every restore action, and touched nothing else. */
  lemma {:induction false} StartExactly(a: App, i: nat, systems: seq<StartupSystem>)
    requires i < |a.records|
    ensures Started(a, i, systems).1 <==> AllOk(systems) && New(Queued(systems), a.world)
    ensures Started(a, i, systems).1 ==> Started(a, i, systems).0 == Grown(a, i, Queued(systems), EffectCount(systems))
    decreases |systems|
  {
    hide Grown, New, Drained;
    GrownNothing(a, i);
    if systems == [] {
      NoneNew(a.world);
    } else {
      var system, rest := systems[0], systems[1..];
      var rec := a.records[i];
      var a1 := Edit(a, i, rec.(effects := rec.effects + Customs(system.effects)));
      EffectsGrow(a, i, system.effects);
      DrainExactly(a1, i, system.pending);
      NewSplit(system.pending, Queued(rest), a.world);
      var a2 := Drained(a1, i, system.pending).0;
      if system.ok && New(system.pending, a.world) {
        GrownTwice(a, i, [], system.effects, system.pending, 0);
        assert [] + system.pending == system.pending;
        GrownWorld(a, i, system.pending, system.effects);
        StartExactly(a2, i, rest);
        GrownTwice(a, i, system.pending, system.effects, Queued(rest), EffectCount(rest));
      }
      assert AllOk(systems) <==> system.ok && AllOk(rest) by {
        assert forall k :: 0 <= k < |rest| ==> rest[k] == systems[k + 1];
        assert forall k :: 0 < k < |systems| ==> systems[k] == rest[k - 1];
      }
    }
  }

  lemma EffectsGrow(a: App, i: nat, effects: nat)
    requires i < |a.records|
    ensures var rec := a.records[i]; Edit(a, i, rec.(effects := rec.effects + Customs(effects))) == Grown(a, i, [], effects)
  {
    var rec := a.records[i];
    assert rec.inserted + Entries([], NextOrder(rec.inserted)) == rec.inserted && a.world + TypeSet([]) == a.world;
  }

  lemma GrownWorld(a: App, i: nat, types: seq<TypeId>, effects: nat)
    requires i < |a.records|
    ensures Grown(a, i, types, effects).world == a.world + TypeSet(types) && |Grown(a, i, types, effects).records| == |a.records|
  {
  }

  /** An owner whose startup succeeds stays active with its gate opened, every queued type in the world and, in
      order, in its ledger; nothing else changes. Any other owner is rolled back. */
  lemma SuccessfulStartup(a: App, i: nat, systems: seq<StartupSystem>)
    requires i < |a.records|
    ensures var b := OwnerStarted(a, i, systems);
      if AllOk(systems) && New(Queued(systems), a.world) then
        && b.world == a.world + (set t | t in Queued(systems)) && b.slots == a.slots && b.baseline == a.baseline
        && |b.records| == |a.records| && (forall j :: 0 <= j < |a.records| && j != i ==> b.records[j] == a.records[j])
        && b.records[i].active == a.records[i].active
        && b.records[i].gate == (if a.records[i].gate.control == Closed then GateState(Open, true) else a.records[i].gate)
        && b.records[i].inserted == a.records[i].inserted + Entries(Queued(systems), NextOrder(a.records[i].inserted))
      else !b.records[i].active && b.records[i].gate == GateState(FailedClosed, false)
  {
    hide Started, New, Undone, Removed;
    StartExactly(a, i, systems);
  }

  /** What the active ones of the first `count` owners queue. */
  function QueuedUpTo(a: App, count: nat, systems: nat -> seq<StartupSystem>): seq<TypeId>
    requires count <= |a.records|
  {
    if count == 0 then []
    else
      QueuedUpTo(a, count - 1, systems) + (if a.records[count - 1].active then Queued(systems(count - 1)) else [])
  }

  /** Owner `i` after a pass in which its startup succeeded: gate opened, what it queued in its ledger. */
  predicate StartedWell(r: Record, r1: Record, types: seq<TypeId>)
  {
    && r1.active && r1.gate == r.gate.Opened() && r1.inserted == r.inserted + Entries(types, NextOrder(r.inserted))
  }

  /** A startup pass in which every system of every active owner succeeds and nothing is queued twice or there already:
      all of them are started, and the world has everything they queued. */
  lemma {:induction false} AllStart(a: App, count: nat, systems: nat -> seq<StartupSystem>)
    requires count <= |a.records|
    requires forall i :: 0 <= i < count && a.records[i].active ==> AllOk(systems(i))
    requires New(QueuedUpTo(a, count, systems), a.world)
    ensures var b := StartedUpTo(a, count, systems);
      && b.world == a.world + TypeSet(QueuedUpTo(a, count, systems)) && b.slots == a.slots
      && (forall i :: 0 <= i < count && a.records[i].active ==> StartedWell(a.records[i], b.records[i], Queued(systems(i))))
      && (forall i :: 0 <= i < |a.records| && (i >= count || !a.records[i].active) ==> b.records[i] == a.records[i])
    decreases count
  {
    hide OwnerStarted, New, Queued, AllOk, StartedWell, Entries;
    if count > 0 {
      var i := count - 1;
      var own := if a.records[i].active then Queued(systems(i)) else [];
      var before := QueuedUpTo(a, i, systems);
      NewSplit(before, own, a.world);
      AllStart(a, i, systems);
      var b := StartedUpTo(a, i, systems);
      if a.records[i].active {
        SuccessfulStartup(b, i, systems(i));
        assert StartedWell(b.records[i], OwnerStarted(b, i, systems(i)).records[i], Queued(systems(i))) by {
          WellStarted(b, i, systems(i));
        }
      }
      assert a.world + TypeSet(before) + TypeSet(own) == a.world + TypeSet(before + own);
    }
  }

  lemma WellStarted(a: App, i: nat, systems: seq<StartupSystem>)
    requires i < |a.records| && a.records[i].active && AllOk(systems) && New(Queued(systems), a.world)
    ensures StartedWell(a.records[i], OwnerStarted(a, i, systems).records[i], Queued(systems))
  {
    hide New, AllOk, Queued, Entries, OwnerStarted;
    SuccessfulStartup(a, i, systems);
  }

  // Every run

  /** A startup has run since owner `i` was registered. */
  ghost predicate Passed(a: App, ops: seq<Op>, i: nat)
    decreases |ops|
  {
    ops != [] &&
    (var n := |ops| - 1; Passed(a, ops[..n], i) || (ops[n].RunStartup? && i < |After(a, ops[..n]).records|))
  }

  function GateOf(active: bool, passed: bool): GateState
  {
    if !active then GateState(FailedClosed, false) else if passed then GateState(Open, true) else GateState(Closed, false)
  }

  /** Nothing but activity and gates, owner by owner. */
  predicate SameGates(a: App, b: App, from: nat, to: nat)
  {
    to <= |a.records| && to <= |b.records| &&
    forall i :: from <= i < to ==> b.records[i].gate == a.records[i].gate && b.records[i].active == a.records[i].active
  }

  lemma {:induction false} BuiltGates(a: App, i: nat, script: BuildScript)
    requires i < |a.records|
    ensures SameGates(a, Built(a, i, script).0, 0, |a.records|)
    decreases |script.steps|
  {
    if script.steps != [] {
      var a1 := Performed(a, i, script.steps[0].0).0;
      PerformedGates(a, i, script.steps[0].0);
      BuiltGates(a1, i, script.(steps := script.steps[1..]));
    }
  }

  lemma PerformedGates(a: App, i: nat, op: BuildOp)
    requires i < |a.records|
    ensures SameGates(a, Performed(a, i, op).0, 0, |a.records|)
  {
  }

  lemma {:induction false} DrainedGates(a: App, i: nat, pending: seq<TypeId>)
    requires i < |a.records|
    ensures SameGates(a, Drained(a, i, pending).0, 0, |a.records|)
    decreases |pending|
  {
    if pending != [] {
      DrainedGates(Inserted(a, i, pending[0]).0, i, pending[1..]);
    }
  }

  lemma {:induction false} StartedGates(a: App, i: nat, systems: seq<StartupSystem>)
    requires i < |a.records|
    ensures SameGates(a, Started(a, i, systems).0, 0, |a.records|)
    decreases |systems|
  {
    hide Drained;
    if systems != [] {
      var rec := a.records[i];
      var a1 := Edit(a, i, rec.(effects := rec.effects + Customs(systems[0].effects)));
      DrainedGates(a1, i, systems[0].pending);
      StartedGates(Drained(a1, i, systems[0].pending).0, i, systems[1..]);
    }
  }

  /** After a startup pass over the first `count` owners each of them is either retired with its gate closed for
      good, or active with its gate opened; the others are as before. */
  lemma {:induction false} StartupGates(a: App, count: nat, systems: nat -> seq<StartupSystem>)
    requires count <= |a.records|
    ensures var b := StartedUpTo(a, count, systems);
      && SameGates(a, b, count, |a.records|)
      && forall i :: 0 <= i < count ==>
           if !a.records[i].active then b.records[i].gate == a.records[i].gate && !b.records[i].active
           else if b.records[i].active then b.records[i].gate == a.records[i].gate.Opened()
           else b.records[i].gate == GateState(FailedClosed, false)
    decreases count
  {
    hide Started, Undone, Removed;
    if count > 0 {
      StartupGates(a, count - 1, systems);
      StartedGates(StartedUpTo(a, count - 1, systems), count - 1, systems(count - 1));
    }
  }

  lemma {:induction false} UpdateGates(a: App, count: nat, ok: nat -> bool)
    requires count <= |a.records|
    ensures var b := UpdatedUpTo(a, count, ok);
      && SameGates(a, b, count, |a.records|)
      && forall i :: 0 <= i < count ==>
           if a.records[i].active && !ok(i) then b.records[i].gate == GateState(FailedClosed, false) && !b.records[i].active
           else b.records[i].gate == a.records[i].gate && b.records[i].active == a.records[i].active
    decreases count
  {
    hide Undone;
    if count > 0 {
      UpdateGates(a, count - 1, ok);
    }
  }

  lemma {:induction false} TeardownGates(a: App, from: nat)
    requires from <= |a.records|
    ensures var b := TornDownTo(a, from);
      && SameGates(a, b, 0, from)
      && forall i :: from <= i < |a.records| ==>
           && !b.records[i].active
           && b.records[i].gate == (if a.records[i].active then GateState(FailedClosed, false) else a.records[i].gate)
    decreases |a.records| - from
  {
    hide Undone, Removed;
    if from < |a.records| {
      TeardownGates(a, from + 1);
    }
  }

  lemma PluginGates(a: App, script: BuildScript)
    ensures var b := WithPlugin(a, script);
      && SameGates(a, b, 0, |a.records|) && |b.records| == |a.records| + 1
      && var rec := b.records[|a.records|];
         rec.gate == if rec.active then GateState(Closed, false) else GateState(FailedClosed, false)
  {
    hide Built, Undone, Removed;
    BuiltGates(a.(records := a.records + [NewRecord()]), |a.records|, script);
  }

  /** In every run an owner's gate is open exactly when the owner is active and a startup has passed over it; it is
      closed for good exactly when the owner is retired. */
  lemma {:induction false} GateTellsOwner(a: App, ops: seq<Op>)
    requires a.records == []
    ensures forall i :: 0 <= i < |After(a, ops).records| ==>
      After(a, ops).records[i].gate == GateOf(After(a, ops).records[i].active, Passed(a, ops, i))
    ensures forall i: nat :: Passed(a, ops, i) ==> i < |After(a, ops).records|
    decreases |ops|
  {
    hide WithPlugin, StartedUpTo, UpdatedUpTo, TornDownTo;
    if ops != [] {
      var n := |ops| - 1;
      GateTellsOwner(a, ops[..n]);
      var b := After(a, ops[..n]);
      match ops[n]
      case AddPlugin(script) => PluginGates(b, script);
      case RunStartup(systems) => StartupGates(b, |b.records|, systems);
      case RunUpdate(ok) => UpdateGates(b, |b.records|, ok);
      case Teardown => TeardownGates(b, 0);
    }
  }

  /** What readers of the gate see. */
  lemma GateReadsOpen(a: App, ops: seq<Op>, i: nat)
    requires a.records == [] && i < |After(a, ops).records|
    ensures var rec := After(a, ops).records[i];
      && (rec.gate.flag <==> rec.active && Passed(a, ops, i))
      && (rec.gate.control == FailedClosed <==> !rec.active)
  {
    hide After, Passed;
    GateTellsOwner(a, ops);
  }

  // Builds

  /** When a host call of a build succeeds. */
  predicate Succeeds(a: App, op: BuildOp)
  {
    match op
    case InsertResource(t) => t !in a.world
    case RegisterMessage(_) => true
    case InstallHook(slot, _, siteFree) => siteFree && slot in a.slots && a.slots[slot] != 0
    case RegisterRestore => true
    case Other(ok) => ok
  }

  /** What it leaves: the world with the type, the slot with the replacement, the ledger with the entry. */
  lemma CallExactly(a: App, i: nat, op: BuildOp)
    requires i < |a.records|
    ensures var (b, ok) := Performed(a, i, op);
      var r, r1 := a.records[i], b.records[i];
      && ok == Succeeds(a, op) && (!ok ==> b == a)
      && b.world == a.world + (if op.InsertResource? || op.RegisterMessage? then {op.typeId} else {})
      && b.baseline == a.baseline + (if op.RegisterMessage? && op.typeId !in a.world then {op.typeId} else {})
      && b.slots == (if ok && op.InstallHook? then a.slots[op.slot := op.replacement] else a.slots)
      && r1.inserted == r.inserted + (if ok && op.InsertResource? then [LedgerEntry(op.typeId, NextOrder(r.inserted))] else [])
      && r1.effects == r.effects + (if !ok then [] else if op.RegisterRestore? then [Custom]
                                    else if op.InstallHook? then [HookRestore(op.slot, a.slots[op.slot], op.replacement)] else [])
      && (forall j :: 0 <= j < |a.records| && j != i ==> b.records[j] == a.records[j])
  {
  }

  /** The calls made one after the other, whether they succeed or not. */
  function Called(a: App, i: nat, steps: seq<(BuildOp, bool)>): (b: App)
    requires i < |a.records|
    ensures |b.records| == |a.records|
    decreases |steps|
  {
    if steps == [] then a else Performed(Called(a, i, steps[..|steps| - 1]), i, steps[|steps| - 1].0).0
  }

  /** Call `k` fails and the build passes the failure on. */
  predicate GivesUp(a: App, i: nat, steps: seq<(BuildOp, bool)>, k: nat)
    requires i < |a.records| && k < |steps|
  {
    steps[k].1 && !Succeeds(Called(a, i, steps[..k]), steps[k].0)
  }

  lemma {:induction false} CalledFirst(a: App, i: nat, steps: seq<(BuildOp, bool)>)
    requires i < |a.records| && steps != []
    ensures Called(a, i, steps) == Called(Performed(a, i, steps[0].0).0, i, steps[1..])
    decreases |steps|
  {
    hide Performed;
    var n := |steps| - 1;
    if n > 0 {
      CalledFirst(a, i, steps[..n]);
      assert steps[..n][1..] == steps[1..][..n - 1];
    } else {
      assert steps[..0] == [] && steps[1..] == [];
    }
  }

  /** A build makes its calls up to the first failure it passes on, which fails it; one without such a failure makes
      them all and ends as the build function does. */
  lemma {:induction false} BuildExactly(a: App, i: nat, script: BuildScript) returns (k: nat)
    requires i < |a.records|
    ensures k <= |script.steps| && Built(a, i, script).0 == Called(a, i, script.steps[..k])
    ensures forall j: nat :: j + 1 < k ==> !GivesUp(a, i, script.steps, j)
    ensures Built(a, i, script).1 ==> k == |script.steps| && script.ok && forall j: nat :: j < k ==> !GivesUp(a, i, script.steps, j)
    ensures !Built(a, i, script).1 ==>
      (k > 0 && GivesUp(a, i, script.steps, k - 1))
      || (k == |script.steps| && !script.ok && forall j: nat :: j < k ==> !GivesUp(a, i, script.steps, j))
    decreases |script.steps|
  {
    hide Performed, Succeeds;
    var steps := script.steps;
    if steps == [] {
      k := 0;
      assert steps[..0] == [];
    } else {
      var (a1, ok) := Performed(a, i, steps[0].0);
      CallSucceeds(a, i, steps[0].0);
      assert steps[..0] == [];
      if !ok && steps[0].1 {
        k := 1;
        assert GivesUp(a, i, steps, 0);
        CalledFirst(a, i, steps[..1]);
        assert steps[..1][1..] == [];
      } else {
        var rest := BuildExactly(a1, i, script.(steps := steps[1..]));
        k := rest + 1;
        assert steps[..k][1..] == steps[1..][..rest];
        CalledFirst(a, i, steps[..k]);
        forall j: nat | j < |steps| - 1 ensures GivesUp(a, i, steps, j + 1) == GivesUp(a1, i, steps[1..], j) {
          assert steps[..j + 1][1..] == steps[1..][..j];
          CalledFirst(a, i, steps[..j + 1]);
        }
        assert !GivesUp(a, i, steps, 0);
        forall j: nat | 0 < j < |steps| ensures GivesUp(a, i, steps, j) == GivesUp(a1, i, steps[1..], j - 1) {
        }
      }
    }
  }

  lemma CallSucceeds(a: App, i: nat, op: BuildOp)
    requires i < |a.records|
    ensures Performed(a, i, op).1 == Succeeds(a, op)
  {
  }

  /** An update pass takes no resource out of the world or a ledger, whoever it retires. */
  lemma {:induction false} UpdateKeepsResources(a: App, count: nat, ok: nat -> bool)
    requires count <= |a.records|
    ensures var b := UpdatedUpTo(a, count, ok);
      b.world == a.world && b.baseline == a.baseline
      && forall i :: 0 <= i < |a.records| ==> b.records[i].inserted == a.records[i].inserted
    decreases count
  {
    hide Undone;
    if count > 0 {
      UpdateKeepsResources(a, count - 1, ok);
    }
  }
}
