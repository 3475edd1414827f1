/** A patched function entry presented as a compare-and-swap word, and the method slot bound to it. */
module EntryPatchMemory {
  import opened Options
  import opened Bits
  import opened Arm
  import opened Relocation
  import opened Trampoline
  import opened TrampolineBuilder
  import opened EntryPatching

  type Byte = x: int | 0 <= x < 256

  function LittleEndian(w: Word): (bytes: seq<Byte>)
    ensures |bytes| == 4
  {
    var b1, b2, b3 := w / 0x100, w / 0x1_0000, w / 0x100_0000;
    assert b3 < 0x100;
    [w % 0x100, b1 % 0x100, b2 % 0x100, b3]
  }

  function FromLittleEndian(b: seq<Byte>): Word
    requires |b| == 4
  {
    var b0: int, b1: int, b2: int, b3: int := b[0], b[1], b[2], b[3];
    b0 + 0x100 * b1 + 0x1_0000 * b2 + 0x100_0000 * b3
  }

  function Bytes(words: seq<Word>): (bytes: seq<Byte>)
    ensures |bytes| == 4 * |words|
  {
    if words == [] then [] else LittleEndian(words[0]) + Bytes(words[1..])
  }

  /** `chunks_exact(4)`: a shorter rest is dropped. */
  function WordsOf(bytes: seq<Byte>): (words: seq<Word>)
    ensures |words| == |bytes| / 4
  {
    if |bytes| < 4 then [] else [FromLittleEndian(bytes[..4])] + WordsOf(bytes[4..])
  }

  lemma WordRoundTrip(w: Word)
    ensures FromLittleEndian(LittleEndian(w)) == w
  {
    var b1, b2, b3 := w / 0x100, w / 0x1_0000, w / 0x100_0000;
    NextByte(w);
    NextByte(b1);
    NextByte(b2);
    assert w / 0x100 / 0x100 == b2 && b2 / 0x100 == b3;
  }

  function Power256(k: nat): (p: nat)
    ensures p > 0
  {
    if k == 0 then 1 else 256 * Power256(k - 1)
  }

  lemma Powers256()
    ensures Power256(0) == 1 && Power256(1) == 0x100 && Power256(2) == 0x1_0000 && Power256(3) == 0x100_0000
    ensures Power256(4) == 0x1_0000_0000 && Power256(5) == 0x100_0000_0000
    ensures Power256(6) == 0x1_0000_0000_0000 && Power256(7) == 0x100_0000_0000_0000
  {
    assert Power256(2) == 256 * Power256(1) && Power256(4) == 256 * Power256(3);
    assert Power256(6) == 256 * Power256(5) && Power256(5) == 256 * Power256(4);
  }

  /** The low byte comes first: byte `k` is the `k`-th digit to base 256. */
  lemma BytesAreDigits(w: Word, k: nat)
    requires k < 4
    ensures LittleEndian(w)[k] == w / Power256(k) % 256
  {
    hide Power256;
    Powers256();
    assert w / 0x100_0000 < 256 && w / 1 == w;
  }

  lemma NextByte(x: nat)
    ensures x == x % 0x100 + 0x100 * (x / 0x100)
  {
  }

  lemma {:induction false} WordsRoundTrip(words: seq<Word>)
    ensures WordsOf(Bytes(words)) == words
  {
    hide LittleEndian, FromLittleEndian;
    if words != [] {
      WordRoundTrip(words[0]);
      WordsRoundTrip(words[1..]);
      assert Bytes(words)[..4] == LittleEndian(words[0]) && Bytes(words)[4..] == Bytes(words[1..]);
    }
  }

  // The specification: the patch as a value, its state, and one operation on it

  type Memory = map<int, Byte>

  predicate Mapped(memory: Memory, at: nat, count: nat)
  {
    forall k | at <= k < at + count :: k in memory
  }

  function ReadBytes(memory: Memory, at: nat, count: nat): (bytes: seq<Byte>)
    requires Mapped(memory, at, count)
    ensures |bytes| == count
  {
    seq(count, i requires 0 <= i < count => memory[at + i])
  }

  function WriteBytes(memory: Memory, at: nat, bytes: seq<Byte>): Memory
  {
    map k | k in memory :: if at <= k < at + |bytes| then bytes[k - at] else memory[k]
  }

  datatype Patch = Patch(entry: nat, replacement: nat, trampoline: nat, patch: seq<Byte>, original: seq<Byte>) {
    function Word(installed: bool): nat { if installed then replacement else trampoline }
  }

  datatype State = State(installed: bool, memory: Memory)

  datatype Op = Read | Cas(expected: nat, new_: nat, remapOk: bool)

  datatype Answer = Seen(word: nat) | Swapped | Refused(actual: nat)

  function Perform(p: Patch, s: State, op: Op): (State, Answer)
  {
    var current := p.Word(s.installed);
    match op
    case Read => (s, Seen(current))
    case Cas(expected, new_, remapOk) =>
      if expected != current || !remapOk then (s, Refused(current))
      else if new_ == p.replacement && !s.installed then
        (State(new_ == p.replacement, WriteBytes(s.memory, p.entry, p.patch)), Swapped)
      else if new_ == p.trampoline && s.installed then
        (State(new_ == p.replacement, WriteBytes(s.memory, p.entry, p.original)), Swapped)
      else (s, Refused(current))
  }

  function PerformAll(p: Patch, s: State, ops: seq<Op>): State
    decreases |ops|
  {
    if ops == [] then s else Perform(p, PerformAll(p, s, ops[..|ops| - 1]), ops[|ops| - 1]).0
  }

  /** A patch just built over `memory`, not yet installed. */
  ghost predicate Pristine(p: Patch, s: State)
  {
    && !s.installed && |p.patch| == |p.original|
    && Mapped(s.memory, p.entry, |p.original|)
    && ReadBytes(s.memory, p.entry, |p.original|) == p.original
  }

  /** Nothing but the entry bytes ever differs from the memory at the start. */
  ghost predicate Framed(p: Patch, start: State, s: State)
  {
    && s.memory.Keys == start.memory.Keys
    && forall k | k in s.memory && !(p.entry <= k < p.entry + |p.original|) :: s.memory[k] == start.memory[k]
  }

  function EntryBytes(p: Patch, s: State): seq<Byte>
    requires Mapped(s.memory, p.entry, |p.original|)
  {
    ReadBytes(s.memory, p.entry, |p.original|)
  }

  lemma WriteThenRead(memory: Memory, at: nat, bytes: seq<Byte>)
    requires Mapped(memory, at, |bytes|)
    ensures Mapped(WriteBytes(memory, at, bytes), at, |bytes|)
    ensures ReadBytes(WriteBytes(memory, at, bytes), at, |bytes|) == bytes
  {
  }

  /** Whatever is read or swapped, the entry holds one of the two byte strings and nothing else changes;
      and unless the two words coincide, it holds the one the word announces. */
  lemma {:induction false} EntryIsOneOfTwo(p: Patch, start: State, ops: seq<Op>)
    requires Pristine(p, start)
    ensures var s := PerformAll(p, start, ops);
      && Framed(p, start, s) && Mapped(s.memory, p.entry, |p.original|)
      && (EntryBytes(p, s) == p.patch || EntryBytes(p, s) == p.original)
      && (p.replacement != p.trampoline ==> EntryBytes(p, s) == if s.installed then p.patch else p.original)
    decreases |ops|
  {
    if ops != [] {
      var rest, op := ops[..|ops| - 1], ops[|ops| - 1];
      EntryIsOneOfTwo(p, start, rest);
      var s := PerformAll(p, start, rest);
      if Perform(p, s, op).1 == Swapped {
        WriteThenRead(s.memory, p.entry, p.patch);
        WriteThenRead(s.memory, p.entry, p.original);
      }
    }
  }

  /** The word tells the truth about the bytes. */
  ghost predicate Truthful(p: Patch, s: State)
    requires Mapped(s.memory, p.entry, |p.original|)
  {
    p.Word(s.installed) == p.replacement <==> EntryBytes(p, s) == p.patch
  }

  ghost predicate TruthfulAfter(p: Patch, start: State, ops: seq<Op>)
  {
    var s := PerformAll(p, start, ops);
    Mapped(s.memory, p.entry, |p.original|) && Truthful(p, s)
  }

  /** The word reads as the replacement exactly when the entry is patched, after every sequence of reads and
      swaps, if and only if the two words coincide just when the two byte strings do. */
  lemma WordTellsEntry(p: Patch, start: State)
    requires Pristine(p, start)
    ensures (forall ops :: TruthfulAfter(p, start, ops))
            == ((p.trampoline == p.replacement) == (p.original == p.patch))
  {
    assert PerformAll(p, start, []) == start;
    assert EntryBytes(p, start) == p.original;
    assert TruthfulAfter(p, start, []) == ((p.trampoline == p.replacement) == (p.original == p.patch));
    if (p.trampoline == p.replacement) == (p.original == p.patch) {
      forall ops ensures TruthfulAfter(p, start, ops) {
        EntryIsOneOfTwo(p, start, ops);
      }
    }
  }

  /** The slot contract: a swap that succeeds moved the word from `expected` to `new_`; one that fails reports
      the word and writes nothing. It succeeds exactly for the one other word, when the remap does. */
  lemma CasRefinesWord(p: Patch, start: State, ops: seq<Op>, expected: nat, new_: nat, remapOk: bool)
    requires Pristine(p, start)
    ensures var s := PerformAll(p, start, ops);
      var (after, answer) := Perform(p, s, Cas(expected, new_, remapOk));
      && (answer.Swapped? ==> p.Word(s.installed) == expected && p.Word(after.installed) == new_)
      && (!answer.Swapped? ==> answer == Refused(p.Word(s.installed)) && after == s)
      && (p.replacement != p.trampoline ==>
            answer.Swapped? ==
            (remapOk && expected == p.Word(s.installed) && new_ == p.Word(!s.installed) && new_ != expected))
  {
  }

  lemma SameMemory(a: Memory, b: Memory)
    requires a.Keys == b.Keys && forall k | k in a :: a[k] == b[k]
    ensures a == b
  {
    forall k | k in a ensures a[k] == b[k] && 0 <= a[k] < 256 {
    }
  }

  /** Whenever the word is back at the trampoline, the whole memory is byte for byte what it was. */
  lemma UninstalledIsUntouched(p: Patch, start: State, ops: seq<Op>)
    requires Pristine(p, start) && p.replacement != p.trampoline
    ensures var s := PerformAll(p, start, ops);
      p.Word(s.installed) == p.trampoline ==> s.memory == start.memory
  {
    hide PerformAll, EntryBytes, Framed;
    EntryIsOneOfTwo(p, start, ops);
    var s := PerformAll(p, start, ops);
    if !s.installed {
      PristineBytes(p, start);
      SameEntryBytes(p, start, s);
    }
  }

  lemma PristineBytes(p: Patch, s: State)
    requires Pristine(p, s)
    ensures EntryBytes(p, s) == p.original
  {
  }

  lemma SameEntryBytes(p: Patch, start: State, s: State)
    requires Framed(p, start, s) && Mapped(s.memory, p.entry, |p.original|) && Mapped(start.memory, p.entry, |p.original|)
    requires EntryBytes(p, s) == EntryBytes(p, start)
    ensures s.memory == start.memory
  {
    forall k | k in s.memory ensures s.memory[k] == start.memory[k] {
      if p.entry <= k < p.entry + |p.original| {
        assert s.memory[k] == EntryBytes(p, s)[k - p.entry] == EntryBytes(p, start)[k - p.entry];
      }
    }
    SameMemory(s.memory, start.memory);
  }

  // The objects

  class Process {
    var memory: Memory

    constructor (memory: Memory)
      ensures this.memory == memory
    {
      this.memory := memory;
    }

    /** The page remap, reduced to its outcome: all bytes written, or none. */
    method RemapPatch(at: nat, bytes: seq<Byte>, ok: bool) returns (written: bool)
      modifies this
      ensures written == ok
      ensures memory == if ok then WriteBytes(old(memory), at, bytes) else old(memory)
    {
      if ok {
        memory := WriteBytes(memory, at, bytes);
      }
      return ok;
    }
  }

  datatype BuildError = SlotMalformed | Unsupported(error: Error)

  class PatchMemory {
    const process: Process
    const p: Patch
    var installed: bool
    var failure: bool

    constructor (process: Process, p: Patch)
      ensures this.process == process && this.p == p && !installed && !failure
    {
      this.process, this.p := process, p;
      installed, failure := false, false;
    }

    function View(): State
      reads this, process
    {
      State(installed, process.memory)
    }

    method StateWord() returns (word: nat)
      ensures word == p.Word(installed)
    {
      if installed {
        word := p.replacement;
      } else {
        word := p.trampoline;
      }
    }

    method PatchEntry(bytes: seq<Byte>, remapOk: bool) returns (ok: bool)
      modifies this`failure, process
      ensures ok == remapOk && failure == (old(failure) || !ok)
      ensures process.memory == if ok then WriteBytes(old(process.memory), p.entry, bytes) else old(process.memory)
    {
      ok := process.RemapPatch(p.entry, bytes, remapOk);
      if !ok {
        failure := true;
      }
    }

    method ReadWord() returns (answer: Answer)
      ensures answer == Perform(p, View(), Read).1
    {
      var word := StateWord();
      answer := Seen(word);
    }

    method CompareExchange(expected: nat, new_: nat, remapOk: bool) returns (answer: Answer)
      modifies this, process
      ensures (View(), answer) == Perform(p, old(View()), Cas(expected, new_, remapOk))
      ensures answer == Swapped <==> remapOk && expected == p.Word(old(installed))
                                     && new_ == (if old(installed) then p.trampoline else p.replacement)
      ensures answer == Swapped ==>
        && installed == (new_ == p.replacement)
        && process.memory == WriteBytes(old(process.memory), p.entry, if old(installed) then p.original else p.patch)
      ensures answer != Swapped ==> answer == Refused(p.Word(old(installed))) && View() == old(View())
      ensures !old(failure) && answer.Swapped? ==> !failure
    {
      var current := StateWord();
      if expected != current {
        return Refused(current);
      }
      var ok := false;
      if new_ == p.replacement && !installed {
        ok := PatchEntry(p.patch, remapOk);
      } else if new_ == p.trampoline && installed {
        ok := PatchEntry(p.original, remapOk);
      }
      if !ok {
        return Refused(current);
      }
      installed := new_ == p.replacement;
      return Swapped;
    }
  }

  /** Why the trampoline cannot be built: the first displaced word that cannot be relocated, or the first thing the
      operating system refuses. */
  function Refusal(entry: nat, ops: seq<Word>, env: PageEnv): Error
  {
    if PlanAll(ops, entry).Err? then PlanAll(ops, entry).error
    else if !env.pageSizeKnown then PageSizeUnavailable
    else if !env.mapped then MapFailed
    else ProtectFailed
  }

  /** Builds the trampoline for the bytes about to be displaced. Nothing is patched yet. */
  method CreateAt(process: Process, entry: nat, replacement: nat, env: PageEnv)
    returns (r: Option<PatchMemory>, error: BuildError)
    requires entry + 16 < USIZE && replacement < USIZE
    requires Mapped(process.memory, entry, 4 * |EntryPatch(entry, replacement)|)
    ensures r.None? && error == SlotMalformed <==> entry == 0 || entry % 4 != 0
    ensures r.None? && error != SlotMalformed ==>
      error == Unsupported(Refusal(entry, WordsOf(ReadBytes(process.memory, entry, 4 * |EntryPatch(entry, replacement)|)), env))
    ensures var original := ReadBytes(process.memory, entry, 4 * |EntryPatch(entry, replacement)|);
      && r.Some? == (entry != 0 && entry % 4 == 0 && Displaced(entry, WordsOf(original), env.base).Accepted()
                     && env.pageSizeKnown && env.mapped && env.protectOk)
      && (r.Some? ==>
            var m := r.value;
            && fresh(m) && m.process == process && Pristine(m.p, m.View())
            && m.p == Patch(entry, replacement, env.base, Bytes(EntryPatch(entry, replacement)), original))
  {
    error := SlotMalformed;
    if entry == 0 || entry % 4 != 0 {
      return None, SlotMalformed;
    }
    var patch := Bytes(EntryPatch(entry, replacement));
    var original := ReadBytes(process.memory, entry, |patch|);
    var built := Build(entry, WordsOf(original), env);
    if built.Err? {
      return None, Unsupported(built.error);
    }
    var m := new PatchMemory(process, Patch(entry, replacement, built.value.0, patch, original));
    return Some(m), error;
  }

  /** The pointer-sized word at `at`. */
  function PointerAt(memory: Memory, at: nat): nat
    requires Mapped(memory, at, 8)
  {
    var bytes := ReadBytes(memory, at, 8);
    Pair(FromLittleEndian(bytes[..4]), FromLittleEndian(bytes[4..]))
  }

  /** The pointer at `at` is its eight bytes, the low one first. */
  lemma PointerIsBytes(memory: Memory, at: nat)
    requires Mapped(memory, at, 8)
    ensures PointerAt(memory, at)
            == memory[at] + Power256(1) * memory[at + 1] + Power256(2) * memory[at + 2] + Power256(3) * memory[at + 3]
               + Power256(4) * memory[at + 4] + Power256(5) * memory[at + 5] + Power256(6) * memory[at + 6] + Power256(7) * memory[at + 7]
  {
    hide Power256;
    Powers256();
    var b := ReadBytes(memory, at, 8);
    assert b[..4] == [b[0], b[1], b[2], b[3]] && b[4..] == [b[4], b[5], b[6], b[7]];
    assert b[0] == memory[at];
  }

  predicate PointerAddress(at: nat) { at != 0 && at % 8 == 0 }

  /** What the backend vouches for: an aligned slot is readable, and what it names is mapped code. */
  predicate Vouched(memory: Memory, slot: nat, replacement: nat)
  {
    replacement < USIZE &&
    (PointerAddress(slot) ==>
       && Mapped(memory, slot, 8)
       && var entry := PointerAt(memory, slot);
          entry != 0 && entry % 4 == 0 ==> entry + 16 < USIZE && Mapped(memory, entry, 4 * |EntryPatch(entry, replacement)|))
  }

  /** The entry is read through the method's slot, once; neither it nor the slot may be null or unaligned. */
  method Create(process: Process, slot: nat, replacement: nat, env: PageEnv)
    returns (r: Option<PatchMemory>, error: BuildError)
    requires Vouched(process.memory, slot, replacement)
    ensures r.None? && error == SlotMalformed <==>
      !PointerAddress(slot) || PointerAt(process.memory, slot) == 0 || PointerAt(process.memory, slot) % 4 != 0
    ensures PointerAddress(slot) && PointerAt(process.memory, slot) != 0 && PointerAt(process.memory, slot) % 4 == 0 ==>
      var entry := PointerAt(process.memory, slot);
      var original := ReadBytes(process.memory, entry, 4 * |EntryPatch(entry, replacement)|);
      && r.Some? == (Displaced(entry, WordsOf(original), env.base).Accepted() && env.pageSizeKnown && env.mapped && env.protectOk)
      && (r.None? ==> error == Unsupported(Refusal(entry, WordsOf(original), env)))
      && (r.Some? ==>
            var m := r.value;
            && fresh(m) && m.process == process && Pristine(m.p, m.View())
            && m.p == Patch(entry, replacement, env.base, Bytes(EntryPatch(entry, replacement)), original))
  {
    hide Refusal, EntryPatch, WordsOf, Bytes, Pristine, ReadBytes, PointerAt, Displaced.Accepted;
    if slot == 0 || slot % 8 != 0 {
      return None, SlotMalformed;
    }
    var entry := PointerAt(process.memory, slot);
    if entry == 0 || entry % 4 != 0 {
      return None, SlotMalformed;
    }
    r, error := CreateAt(process, entry, replacement, env);
  }

  /** The bytes of an installed patch, executed, leave for the replacement. */
  lemma InstalledEntryRedirects(env: Env, p: Patch, start: State, ops: seq<Op>, core: Core)
    requires Pristine(p, start) && p.replacement != p.trampoline && p.entry != p.replacement
    requires p.entry < USIZE && p.replacement < USIZE
    requires p.patch == Bytes(EntryPatch(p.entry, p.replacement))
    ensures var s := PerformAll(p, start, ops);
      && Mapped(s.memory, p.entry, |p.original|)
      && var words := WordsOf(EntryBytes(p, s));
      if p.Word(s.installed) == p.replacement then
        && words == EntryPatch(p.entry, p.replacement) && |words| > 0
        && Run(env, Image(p.entry, words), At(0, core), 2)
           == Left(p.replacement, if Near(p.entry, p.replacement) then core else core.With(SCRATCH, p.replacement))
      else words == WordsOf(p.original)
  {
    hide Run, EntryPatch;
    EntryIsOneOfTwo(p, start, ops);
    WordsRoundTrip(EntryPatch(p.entry, p.replacement));
    PatchReachesReplacement(env, p.entry, p.replacement, core);
  }

  // The method slot

  datatype SlotError = Malformed | SlotConflict | InstallationFailed | OwnershipDrift
  datatype SlotResult = Done | Failed(error: SlotError)

  class MethodPointerSlot {
    const memory: PatchMemory
    const original: nat

    constructor (memory: PatchMemory, original: nat)
      ensures this.memory == memory && this.original == original
    {
      this.memory, this.original := memory, original;
    }

    /** Conflict writes nothing; success leaves the replacement in the word. A confirmed swap is always visible. */
    method Install(replacement: nat, remapOk: bool) returns (r: SlotResult)
      modifies memory, memory.process
      ensures var (after, answer) := Perform(memory.p, old(memory.View()), Cas(original, replacement, remapOk));
        && memory.View() == after
        && r == if answer.Swapped? then Done else Failed(SlotConflict)
      ensures r == Done ==> memory.p.Word(memory.installed) == replacement
    {
      var answer := memory.CompareExchange(original, replacement, remapOk);
      if !answer.Swapped? {
        return Failed(SlotConflict);
      }
      var seen := memory.ReadWord();
      if seen == Seen(replacement) {
        return Done;
      } else {
        return Failed(InstallationFailed);
      }
    }

    method Restore(replacement: nat, remapOk: bool) returns (r: SlotResult)
      modifies memory, memory.process
      ensures var (after, answer) := Perform(memory.p, old(memory.View()), Cas(replacement, original, remapOk));
        && memory.View() == after
        && r == if answer.Swapped? then Done else Failed(OwnershipDrift)
      ensures r == Done ==> memory.p.Word(memory.installed) == original
    {
      var answer := memory.CompareExchange(replacement, original, remapOk);
      if !answer.Swapped? {
        return Failed(OwnershipDrift);
      }
      var seen := memory.ReadWord();
      if seen == Seen(original) {
        return Done;
      } else {
        return Failed(InstallationFailed);
      }
    }
  }

  /** Reads the word that is the original from then on; a null one is refused. Nothing is written. */
  method Bind(memory: PatchMemory) returns (r: Option<MethodPointerSlot>)
    ensures r.None? <==> memory.p.Word(memory.installed) == 0
    ensures r.Some? ==> fresh(r.value) && r.value.memory == memory && r.value.original == memory.p.Word(memory.installed)
  {
    var seen := memory.ReadWord();
    if seen.word == 0 {
      return None;
    }
    var slot := new MethodPointerSlot(memory, seen.word);
    return Some(slot);
  }

  /** Bound, installed and restored: both calls succeed and every byte of memory is as before. */
  method InstallThenRestore(memory: PatchMemory) returns (first: SlotResult, second: SlotResult)
    requires Pristine(memory.p, memory.View())
    requires memory.p.trampoline != 0 && memory.p.replacement != memory.p.trampoline
    modifies memory, memory.process
    ensures first == second == Done
    ensures memory.View() == old(memory.View())
  {
    ghost var p, start := memory.p, memory.View();
    var bound := Bind(memory);
    var slot := bound.value;
    first := slot.Install(memory.p.replacement, true);
    second := slot.Restore(memory.p.replacement, true);
    ghost var ops := [Cas(p.trampoline, p.replacement, true), Cas(p.replacement, p.trampoline, true)];
    assert ops[..1] == [ops[0]] && ops[..1][..0] == [];
    assert PerformAll(p, start, ops[..1]) == Perform(p, PerformAll(p, start, []), ops[0]).0;
    assert PerformAll(p, start, ops) == memory.View();
    UninstalledIsUntouched(p, start, ops);
  }
}
