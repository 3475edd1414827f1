/** Owner scopes: what building, starting, updating and retiring plugins does to the world, the hooked slots and the ledgers. */
module OwnerLedger {
  import opened Gate

  type TypeId = nat

  datatype LedgerEntry = LedgerEntry(typeId: TypeId, order: nat)

  /** A restore action: an installed hook's, or one whose closure does not touch a slot. */
  datatype Restore = HookRestore(slot: nat, original: nat, replacement: nat) | Custom

  datatype Record = Record(active: bool, gate: GateState, inserted: seq<LedgerEntry>, effects: seq<Restore>)

  /** `world` holds the resource types present, `baseline` those put there by message registration,
      `slots` the word in each method pointer slot. */
  datatype App = App(world: set<TypeId>, baseline: set<TypeId>, slots: map<nat, nat>, records: seq<Record>)

  // What a plugin does

  datatype BuildOp =
    | InsertResource(typeId: TypeId)
    | RegisterMessage(typeId: TypeId)
    | InstallHook(slot: nat, replacement: nat, siteFree: bool)
    | RegisterRestore
    | Other(ok: bool)

  /** A build function: its calls, whether it gives up when one fails, and how it ends otherwise. */
  datatype BuildScript = BuildScript(steps: seq<(BuildOp, bool)>, ok: bool)

  /** A Startup system: the restore actions it registers, the resources it queues, and whether it succeeds. */
  datatype StartupSystem = StartupSystem(effects: nat, pending: seq<TypeId>, ok: bool)

  function NextOrder(inserted: seq<LedgerEntry>): nat
  {
    if inserted == [] then 0 else inserted[|inserted| - 1].order + 1
  }

  function Edit(a: App, i: nat, r: Record): App
    requires i < |a.records|
  {
    a.(records := a.records[i := r])
  }

  function Inserted(a: App, i: nat, t: TypeId): (r: (App, bool))
    requires i < |a.records|
    ensures |r.0.records| == |a.records|
  {
    if t in a.world then (a, false)
    else
      var rec := a.records[i];
      (Edit(a, i, rec.(inserted := rec.inserted + [LedgerEntry(t, NextOrder(rec.inserted))])).(world := a.world + {t}), true)
  }

  /** Resolve, bind (a null word is refused), swap in the replacement, and record how to undo it. */
  function Hooked(a: App, i: nat, slot: nat, replacement: nat, siteFree: bool): (r: (App, bool))
    requires i < |a.records|
    ensures |r.0.records| == |a.records|
  {
    if !siteFree || slot !in a.slots || a.slots[slot] == 0 then (a, false)
    else
      var rec := a.records[i];
      (Edit(a, i, rec.(effects := rec.effects + [HookRestore(slot, a.slots[slot], replacement)]))
         .(slots := a.slots[slot := replacement]), true)
  }

  function Performed(a: App, i: nat, op: BuildOp): (r: (App, bool))
    requires i < |a.records|
    ensures |r.0.records| == |a.records|
  {
    match op
    case InsertResource(t) => Inserted(a, i, t)
    case RegisterMessage(t) =>
      (if t in a.world then a else a.(world := a.world + {t}, baseline := a.baseline + {t}), true)
    case InstallHook(slot, replacement, siteFree) => Hooked(a, i, slot, replacement, siteFree)
    case RegisterRestore => (Edit(a, i, a.records[i].(effects := a.records[i].effects + [Custom])), true)
    case Other(ok) => (a, ok)
  }

  function Built(a: App, i: nat, script: BuildScript): (r: (App, bool))
    requires i < |a.records|
    ensures |r.0.records| == |a.records|
    decreases |script.steps|
  {
    if script.steps == [] then (a, script.ok)
    else
      var ((op, propagates), rest) := (script.steps[0], script.(steps := script.steps[1..]));
      var (a1, ok) := Performed(a, i, op);
      if !ok && propagates then (a1, false) else Built(a1, i, rest)
  }

  // Rolling back

  /** Newest first. */
  function Removed(world: set<TypeId>, inserted: seq<LedgerEntry>): set<TypeId>
    decreases |inserted|
  {
    if inserted == [] then world
    else Removed(world - {inserted[|inserted| - 1].typeId}, inserted[..|inserted| - 1])
  }

  function NewestFirst(inserted: seq<LedgerEntry>): (types: seq<TypeId>)
    ensures |types| == |inserted|
    ensures forall k :: 0 <= k < |types| ==> types[k] == inserted[|inserted| - 1 - k].typeId
    decreases |inserted|
  {
    if inserted == [] then []
    else [inserted[|inserted| - 1].typeId] + NewestFirst(inserted[..|inserted| - 1])
  }

  /** Ownership-aware: a slot that no longer holds the replacement is left alone. */
  function Restored(slots: map<nat, nat>, effect: Restore): (r: map<nat, nat>)
    ensures r.Keys == slots.Keys
  {
    if effect.HookRestore? && effect.slot in slots && slots[effect.slot] == effect.replacement then
      slots[effect.slot := effect.original]
    else slots
  }

  function Undone(slots: map<nat, nat>, effects: seq<Restore>): (r: map<nat, nat>)
    ensures r.Keys == slots.Keys
    decreases |effects|
  {
    if effects == [] then slots
    else Undone(Restored(slots, effects[|effects| - 1]), effects[..|effects| - 1])
  }

  /** Gate closed, resources removed, effects undone, Retired: the rollback of a build, a startup or a teardown. */
  function RolledBack(a: App, i: nat): (r: App)
    requires i < |a.records|
    ensures |r.records| == |a.records|
  {
    var rec := a.records[i];
    Edit(a, i, Record(false, rec.gate.ControlClosed().FlagCleared(), [], []))
      .(world := Removed(a.world, rec.inserted), slots := Undone(a.slots, rec.effects))
  }

  /** Retirement during Update leaves the owner's resources in the world. */
  function UpdateRetired(a: App, i: nat): (r: App)
    requires i < |a.records|
    ensures |r.records| == |a.records|
  {
    var rec := a.records[i];
    Edit(a, i, Record(false, rec.gate.ControlClosed().FlagCleared(), rec.inserted, []))
      .(slots := Undone(a.slots, rec.effects))
  }

  // The drivers

  function NewRecord(): Record { Record(true, GateState(Closed, false), [], []) }

  function WithPlugin(a: App, script: BuildScript): App
  {
    var i := |a.records|;
    var (a1, ok) := Built(a.(records := a.records + [NewRecord()]), i, script);
    if ok then a1 else RolledBack(a1, i)
  }

  /** The queued inserts, in order, up to the first conflict. */
  function Drained(a: App, i: nat, pending: seq<TypeId>): (r: (App, bool))
    requires i < |a.records|
    ensures |r.0.records| == |a.records|
    decreases |pending|
  {
    if pending == [] then (a, true)
    else
      var (a1, ok) := Inserted(a, i, pending[0]);
      if !ok then (a1, false) else Drained(a1, i, pending[1..])
  }

  function Customs(count: nat): seq<Restore> { seq(count, _ => Custom) }

  function Started(a: App, i: nat, systems: seq<StartupSystem>): (r: (App, bool))
    requires i < |a.records|
    ensures |r.0.records| == |a.records|
    decreases |systems|
  {
    if systems == [] then (a, true)
    else
      var system, rec := systems[0], a.records[i];
      var a1 := Edit(a, i, rec.(effects := rec.effects + Customs(system.effects)));
      if !system.ok then (a1, false)
      else
        var (a2, ok) := Drained(a1, i, system.pending);
        if !ok then (a2, false) else Started(a2, i, systems[1..])
  }

  function OwnerStarted(a: App, i: nat, systems: seq<StartupSystem>): (r: App)
    requires i < |a.records|
    ensures |r.records| == |a.records|
  {
    var (a1, ok) := Started(a, i, systems);
    if ok then Edit(a1, i, a1.records[i].(gate := a1.records[i].gate.Opened())) else RolledBack(a1, i)
  }

  /** Owners `0..count` in registration order, skipping the retired. */
  function StartedUpTo(a: App, count: nat, systems: nat -> seq<StartupSystem>): (r: App)
    requires count <= |a.records|
    ensures |r.records| == |a.records|
  {
    if count == 0 then a
    else
      var a1 := StartedUpTo(a, count - 1, systems);
      if a.records[count - 1].active then OwnerStarted(a1, count - 1, systems(count - 1)) else a1
  }

  function UpdatedUpTo(a: App, count: nat, ok: nat -> bool): (r: App)
    requires count <= |a.records|
    ensures |r.records| == |a.records|
  {
    if count == 0 then a
    else
      var a1 := UpdatedUpTo(a, count - 1, ok);
      if a.records[count - 1].active && !ok(count - 1) then UpdateRetired(a1, count - 1) else a1
  }

  /** Owners from the last down to `from`. */
  function TornDownTo(a: App, from: nat): (r: App)
    requires from <= |a.records|
    ensures |r.records| == |a.records|
    decreases |a.records| - from
  {
    if from == |a.records| then a
    else
      var a1 := TornDownTo(a, from + 1);
      if a1.records[from].active then RolledBack(a1, from) else a1
  }

  function TornDown(a: App): App { TornDownTo(a, 0) }

  datatype Op =
    | AddPlugin(script: BuildScript)
    | RunStartup(systems: nat -> seq<StartupSystem>)
    | RunUpdate(ok: nat -> bool)
    | Teardown

  function Step(a: App, op: Op): App
  {
    match op
    case AddPlugin(script) => WithPlugin(a, script)
    case RunStartup(systems) => StartedUpTo(a, |a.records|, systems)
    case RunUpdate(ok) => UpdatedUpTo(a, |a.records|, ok)
    case Teardown => TornDown(a)
  }

  function After(a: App, ops: seq<Op>): App
    decreases |ops|
  {
    if ops == [] then a else Step(After(a, ops[..|ops| - 1]), ops[|ops| - 1])
  }
}
