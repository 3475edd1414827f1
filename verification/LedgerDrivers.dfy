/** The composition root as it runs: host calls, drivers and rollback loops, against the ledger specification. */
module LedgerDrivers {
  import opened Gate
  import opened OwnerLedger

  function LastFirst(effects: seq<Restore>): (r: seq<Restore>)
    ensures |r| == |effects|
    ensures forall k :: 0 <= k < |effects| ==> r[k] == effects[|effects| - 1 - k]
    decreases |effects|
  {
    if effects == [] then [] else [effects[|effects| - 1]] + LastFirst(effects[..|effects| - 1])
  }

  class CompositionRoot {
    var world: set<TypeId>
    ghost var baseline: set<TypeId>
    var slots: map<nat, nat>
    var records: seq<Record>
    /** The types removed from the world, in order, and the restore actions run, in order. */
    ghost var removals: seq<TypeId>
    ghost var restores: seq<Restore>

    constructor (slots: map<nat, nat>)
      ensures View() == App({}, {}, slots, []) && removals == [] && restores == []
    {
      world, baseline, this.slots, records, removals, restores := {}, {}, slots, [], [], [];
    }

    ghost function View(): App
      reads this
    {
      App(world, baseline, slots, records)
    }

    // Host calls

    method InsertResource(i: nat, t: TypeId) returns (ok: bool)
      requires i < |records|
      modifies this`world, this`records
      ensures (View(), ok) == Inserted(old(View()), i, t)
      ensures ok <==> t !in old(world)
      ensures ok ==> world == old(world) + {t} && |records[i].inserted| == old(|records[i].inserted|) + 1
      ensures ok ==> records[i].inserted[|records[i].inserted| - 1].typeId == t
      ensures !ok ==> View() == old(View())
    {
      var rec := records[i];
      var order := NextOrder(rec.inserted);
      if t in world {
        return false;
      }
      world := world + {t};
      records := records[i := rec.(inserted := rec.inserted + [LedgerEntry(t, order)])];
      return true;
    }

    method InstallHook(i: nat, slot: nat, replacement: nat, siteFree: bool) returns (ok: bool)
      requires i < |records|
      modifies this`slots, this`records
      ensures (View(), ok) == Hooked(old(View()), i, slot, replacement, siteFree)
      ensures ok <==> siteFree && slot in old(slots) && old(slots)[slot] != 0
      ensures ok ==> slots == old(slots)[slot := replacement]
      ensures ok ==> records[i].effects == old(records[i].effects) + [HookRestore(slot, old(slots)[slot], replacement)]
      ensures !ok ==> View() == old(View())
    {
      if !siteFree || slot !in slots {
        return false;
      }
      var original := slots[slot];
      if original == 0 {
        return false;
      }
      slots := slots[slot := replacement];
      records := records[i := records[i].(effects := records[i].effects + [HookRestore(slot, original, replacement)])];
      return true;
    }

    method Perform(i: nat, op: BuildOp) returns (ok: bool)
      requires i < |records|
      modifies this`world, this`baseline, this`slots, this`records
      ensures (View(), ok) == Performed(old(View()), i, op)
    {
      match op
      case InsertResource(t) => ok := InsertResource(i, t);
      case RegisterMessage(t) =>
        if t !in world {
          world, baseline := world + {t}, baseline + {t};
        }
        ok := true;
      case InstallHook(slot, replacement, siteFree) => ok := InstallHook(i, slot, replacement, siteFree);
      case RegisterRestore =>
        records := records[i := records[i].(effects := records[i].effects + [Custom])];
        ok := true;
      case Other(fine) => ok := fine;
    }

    // Rollback

    /** Pops the owner's resources, newest first. */
    method RemoveInserted(i: nat)
      requires i < |records|
      modifies this`world, this`records, this`removals
      ensures View() == old(View()).(world := Removed(old(world), old(records[i].inserted)),
                                     records := old(records)[i := old(records[i]).(inserted := [])])
      ensures removals == old(removals) + NewestFirst(old(records[i].inserted))
    {
      ghost var was := records[i];
      while records[i].inserted != []
        invariant |records| == |old(records)| && records == old(records)[i := was.(inserted := records[i].inserted)]
        invariant records[i].inserted <= was.inserted
        invariant Removed(world, records[i].inserted) == Removed(old(world), was.inserted)
        invariant removals + NewestFirst(records[i].inserted) == old(removals) + NewestFirst(was.inserted)
        decreases |records[i].inserted|
      {
        var rec := records[i];
        var n := |rec.inserted| - 1;
        ghost var rest := NewestFirst(rec.inserted[..n]);
        assert NewestFirst(rec.inserted) == [rec.inserted[n].typeId] + rest;
        assert (removals + [rec.inserted[n].typeId]) + rest == removals + ([rec.inserted[n].typeId] + rest);
        records := records[i := rec.(inserted := rec.inserted[..n])];
        world := world - {rec.inserted[n].typeId};
        removals := removals + [rec.inserted[n].typeId];
      }
    }

    /** Runs one restore action; a failing one is reported and the rollback goes on. */
    method ExecuteRestore(effect: Restore)
      modifies this`slots, this`restores
      ensures slots == Restored(old(slots), effect) && restores == old(restores) + [effect]
      ensures effect.HookRestore? && effect.slot in old(slots) ==>
        slots[effect.slot] == if old(slots)[effect.slot] == effect.replacement then effect.original else old(slots)[effect.slot]
    {
      restores := restores + [effect];
      match effect
      case HookRestore(slot, original, replacement) =>
        if slot in slots && slots[slot] == replacement {
          slots := slots[slot := original];
        }
      case Custom =>
    }

    method UndoEffects(i: nat)
      requires i < |records|
      modifies this`slots, this`records, this`restores
      ensures View() == old(View()).(slots := Undone(old(slots), old(records[i].effects)),
                                     records := old(records)[i := old(records[i]).(effects := [])])
      ensures restores == old(restores) + LastFirst(old(records[i].effects))
    {
      ghost var was := records[i];
      while records[i].effects != []
        invariant |records| == |old(records)| && records == old(records)[i := was.(effects := records[i].effects)]
        invariant restores + LastFirst(records[i].effects) == old(restores) + LastFirst(was.effects)
        invariant Undone(slots, records[i].effects) == Undone(old(slots), was.effects)
        decreases |records[i].effects|
      {
        var rec := records[i];
        var n := |rec.effects| - 1;
        ghost var rest := LastFirst(rec.effects[..n]);
        assert LastFirst(rec.effects) == [rec.effects[n]] + rest;
        assert (restores + [rec.effects[n]]) + rest == restores + ([rec.effects[n]] + rest);
        records := records[i := rec.(effects := rec.effects[..n])];
        ExecuteRestore(rec.effects[n]);
      }
    }

    method CloseGate(i: nat)
      requires i < |records|
      modifies this`records
      ensures records == old(records)[i := old(records[i]).(gate := old(records[i]).gate.ControlClosed().FlagCleared())]
    {
      records := records[i := records[i].(gate := records[i].gate.ControlClosed().FlagCleared())];
    }

    /** Build, startup and teardown all roll an owner back in this order. */
    method Rollback(i: nat)
      requires i < |records|
      modifies this
      ensures View() == RolledBack(old(View()), i) && baseline == old(baseline)
      ensures removals == old(removals) + NewestFirst(old(records[i].inserted))
      ensures restores == old(restores) + LastFirst(old(records[i].effects))
      ensures records[i] == Record(false, GateState(FailedClosed, false), [], [])
    {
      CloseGate(i);
      RemoveInserted(i);
      UndoEffects(i);
      records := records[i := records[i].(active := false)];
    }

    method UpdateRetire(i: nat)
      requires i < |records|
      modifies this`records, this`slots, this`restores
      ensures View() == UpdateRetired(old(View()), i)
      ensures records[i] == Record(false, GateState(FailedClosed, false), old(records[i].inserted), [])
      ensures restores == old(restores) + LastFirst(old(records[i].effects))
    {
      CloseGate(i);
      records := records[i := records[i].(active := false)];
      UndoEffects(i);
    }

    // Drivers

    method AddPlugin(script: BuildScript)
      modifies this
      ensures View() == WithPlugin(old(View()), script)
    {
      hide Performed, RolledBack;
      var i := |records|;
      records := records + [NewRecord()];
      ghost var start := View();
      var ok := script.ok;
      for k := 0 to |script.steps|
        invariant |records| == i + 1 && ok == script.ok
        invariant Built(View(), i, script.(steps := script.steps[k..])) == Built(start, i, script)
      {
        assert script.steps[k..][1..] == script.steps[k + 1..];
        var fine := Perform(i, script.steps[k].0);
        if !fine && script.steps[k].1 {
          ok := false;
          break;
        }
      }
      if !ok {
        Rollback(i);
      }
    }

    /** One owner's Startup systems; the queue of each is applied as soon as it has succeeded. */
    method StartOwner(i: nat, systems: seq<StartupSystem>) returns (ok: bool)
      requires i < |records|
      modifies this`world, this`records
      ensures (View(), ok) == Started(old(View()), i, systems)
    {
      hide Inserted, Customs;
      for k := 0 to |systems|
        invariant i < |records| && baseline == old(baseline) && slots == old(slots)
        invariant Started(View(), i, systems[k..]) == Started(old(View()), i, systems)
      {
        assert systems[k..][1..] == systems[k + 1..];
        var system := systems[k];
        records := records[i := records[i].(effects := records[i].effects + Customs(system.effects))];
        if !system.ok {
          return false;
        }
        ghost var queued := View();
        for j := 0 to |system.pending|
          invariant i < |records| && baseline == old(baseline) && slots == old(slots)
          invariant Drained(View(), i, system.pending[j..]) == Drained(queued, i, system.pending)
        {
          assert system.pending[j..][1..] == system.pending[j + 1..];
          var fine := InsertResource(i, system.pending[j]);
          if !fine {
            return false;
          }
        }
      }
      return true;
    }

    method RunStartup(systems: nat -> seq<StartupSystem>)
      modifies this
      ensures View() == StartedUpTo(old(View()), old(|records|), systems)
    {
      hide Started, RolledBack;
      var owners := records;
      for i := 0 to |owners|
        invariant |records| == |owners| && View() == StartedUpTo(old(View()), i, systems)
      {
        if owners[i].active {
          var ok := StartOwner(i, systems(i));
          if ok {
            records := records[i := records[i].(gate := records[i].gate.Opened())];
          } else {
            Rollback(i);
          }
        }
      }
    }

    method RunUpdate(ok: nat -> bool)
      modifies this
      ensures View() == UpdatedUpTo(old(View()), old(|records|), ok)
    {
      hide UpdateRetired;
      var owners := records;
      for i := 0 to |owners|
        invariant |records| == |owners| && View() == UpdatedUpTo(old(View()), i, ok)
      {
        if owners[i].active && !ok(i) {
          UpdateRetire(i);
        }
      }
    }

    method TeardownAll()
      modifies this
      ensures View() == TornDown(old(View()))
    {
      hide RolledBack;
      var n := |records|;
      for i := n downto 0
        invariant |records| == n && View() == TornDownTo(old(View()), i)
      {
        if records[i].active {
          Rollback(i);
        }
      }
    }
  }
}
