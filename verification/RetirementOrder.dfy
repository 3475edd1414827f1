/** Which retirements give the slots back: exactly those that happen last hooked, first retired, slot by slot. */
module RetirementOrder {
  import opened OwnerLedger
  import opened LedgerInvariants

  // One slot

  /** One installed hook of a slot: the word it found, and the word it put there. */
  datatype Hook = Hook(original: nat, replacement: nat)

  function On(effects: seq<Restore>, s: nat): seq<Hook>
    decreases |effects|
  {
    if effects == [] then []
    else
      var n := |effects| - 1;
      On(effects[..n], s) +
      (if effects[n].HookRestore? && effects[n].slot == s then [Hook(effects[n].original, effects[n].replacement)] else [])
  }

  function HooksOn(records: seq<Record>, s: nat): seq<Hook>
  {
    if records == [] then [] else HooksOn(records[..|records| - 1], s) + On(records[|records| - 1].effects, s)
  }

  /** What undoing the hooks, newest first, makes of the word in their slot. */
  function UnwindOn(w: nat, hooks: seq<Hook>): nat
    decreases |hooks|
  {
    if hooks == [] then w
    else
      var h := hooks[|hooks| - 1];
      UnwindOn(if w == h.replacement then h.original else w, hooks[..|hooks| - 1])
  }

  /** Each hook found what the one before it put there, the first one found `o`, and the slot holds what the last put. */
  predicate Linked(hooks: seq<Hook>, w: nat, o: nat)
    decreases |hooks|
  {
    if hooks == [] then w == o
    else
      var h := hooks[|hooks| - 1];
      w == h.replacement && Linked(hooks[..|hooks| - 1], h.original, o)
  }

  predicate Avoids(x: nat, hooks: seq<Hook>)
  {
    forall i :: 0 <= i < |hooks| ==> hooks[i].replacement != x
  }

  predicate Distinct(o: nat, hooks: seq<Hook>)
  {
    Avoids(o, hooks) && forall i, j :: 0 <= i < j < |hooks| ==> hooks[i].replacement != hooks[j].replacement
  }

  /** From hook `d` on the hooks lead back to `x` only, which is neither the first word nor known to an earlier hook. */
  predicate StuckAt(hooks: seq<Hook>, w: nat, o: nat, d: nat, x: nat)
  {
    d <= |hooks| && x != o && Linked(hooks[d..], w, x) && Avoids(x, hooks[..d])
  }

  ghost predicate Stuck(hooks: seq<Hook>, w: nat, o: nat)
  {
    exists d: nat, x: nat :: StuckAt(hooks, w, o, d, x)
  }

  ghost predicate Tracks(hooks: seq<Hook>, w: nat, o: nat, linked: bool)
  {
    Distinct(o, hooks) && if linked then Linked(hooks, w, o) else Stuck(hooks, w, o)
  }

  lemma {:induction false} AvoidingStays(w: nat, hooks: seq<Hook>)
    requires Avoids(w, hooks)
    ensures UnwindOn(w, hooks) == w
    decreases |hooks|
  {
    if hooks != [] {
      AvoidingStays(w, hooks[..|hooks| - 1]);
    }
  }

  lemma {:induction false} UnwindAppend(w: nat, first: seq<Hook>, second: seq<Hook>)
    ensures UnwindOn(w, first + second) == UnwindOn(UnwindOn(w, second), first)
    decreases |second|
  {
    if second == [] {
      assert first + second == first;
    } else {
      var n := |second| - 1;
      var h := second[n];
      assert (first + second)[..|first + second| - 1] == first + second[..n];
      UnwindAppend(if w == h.replacement then h.original else w, first, second[..n]);
    }
  }

  /** The word between hook `p - 1` and hook `p`. */
  lemma {:induction false} LinkedSplit(hooks: seq<Hook>, p: nat, w: nat, x: nat)
    requires Linked(hooks, w, x) && p <= |hooks|
    ensures UnwindOn(w, hooks[p..]) == if p == 0 then x else hooks[p - 1].replacement
    ensures Linked(hooks[..p], UnwindOn(w, hooks[p..]), x)
    ensures Linked(hooks[p..], w, UnwindOn(w, hooks[p..]))
    decreases |hooks|
  {
    if p == |hooks| {
      assert hooks[..p] == hooks && hooks[p..] == [];
    } else {
      var n := |hooks| - 1;
      LinkedSplit(hooks[..n], p, hooks[n].original, x);
      assert hooks[..n][p..] == hooks[p..][..n - p] && hooks[..n][..p] == hooks[..p];
      assert hooks[p..][n - p] == hooks[n];
    }
  }

  /** Stuck is for good: however the hooks that are left are undone, the first word does not come back. */
  lemma StuckNeverUnwinds(hooks: seq<Hook>, w: nat, o: nat)
    requires Stuck(hooks, w, o)
    ensures UnwindOn(w, hooks) != o
  {
    var d: nat, x: nat :| StuckAt(hooks, w, o, d, x);
    LinkedSplit(hooks[d..], 0, w, x);
    assert hooks == hooks[..d] + hooks[d..] && hooks[d..][0..] == hooks[d..];
    UnwindAppend(w, hooks[..d], hooks[d..]);
    AvoidingStays(x, hooks[..d]);
  }

  /** Undoing a stretch of hooks with later ones above it does nothing to the word, and loses the way back. */
  lemma RetireUnder(before: seq<Hook>, own: seq<Hook>, later: seq<Hook>, w: nat, o: nat, d: nat, x: nat)
    requires own != [] && later != [] && d <= |before + own + later|
    requires Distinct(o, before + own + later) && Linked((before + own + later)[d..], w, x) && d <= |before| + |own|
    requires d < |before| + |own|
    ensures UnwindOn(w, own) == w && StuckAt(before + later, w, o, |before|, own[|own| - 1].replacement)
  {
    var hooks, q := before + own + later, |before| + |own|;
    LinkedSplit(hooks[d..], q - d, w, x);
    assert hooks[d..][q - d..] == later && hooks[d..][q - d - 1] == own[|own| - 1];
    assert w == later[|later| - 1].replacement == hooks[|hooks| - 1].replacement;
    forall i | 0 <= i < |own| ensures own[i].replacement != w {
      assert hooks[|before| + i] == own[i];
    }
    AvoidingStays(w, own);
    var y := own[|own| - 1].replacement;
    assert hooks[q - 1] == own[|own| - 1];
    forall i | 0 <= i < |before| ensures before[i].replacement != y {
      assert hooks[i] == before[i];
    }
    assert (before + later)[|before|..] == later && (before + later)[..|before|] == before;
  }

  /** The newest hooks come off cleanly. */
  lemma RetireTop(before: seq<Hook>, own: seq<Hook>, w: nat, o: nat, linked: bool)
    requires Tracks(before + own, w, o, linked)
    ensures linked ==> Linked(before, UnwindOn(w, own), o)
    ensures !linked ==> Stuck(before, UnwindOn(w, own), o)
  {
    var hooks, p := before + own, |before|;
    assert hooks[..p] == before && hooks[p..] == own;
    if linked {
      LinkedSplit(hooks, p, w, o);
    } else {
      var d: nat, x: nat :| StuckAt(hooks, w, o, d, x);
      if d <= p {
        RetireAbove(before, own, w, o, d, x);
      } else {
        RetireAcross(before, own, w, o, d, x);
      }
    }
  }

  lemma RetireAbove(before: seq<Hook>, own: seq<Hook>, w: nat, o: nat, d: nat, x: nat)
    requires StuckAt(before + own, w, o, d, x) && d <= |before|
    ensures StuckAt(before, UnwindOn(w, own), o, d, x)
  {
    hide Linked, UnwindOn;
    var hooks, p := before + own, |before|;
    LinkedSplit(hooks[d..], p - d, w, x);
    assert hooks[d..][p - d..] == own && hooks[d..][..p - d] == before[d..] && hooks[..d] == before[..d];
  }

  lemma RetireAcross(before: seq<Hook>, own: seq<Hook>, w: nat, o: nat, d: nat, x: nat)
    requires StuckAt(before + own, w, o, d, x) && d > |before|
    ensures UnwindOn(w, own) == x && StuckAt(before, x, o, |before|, x)
  {
    hide UnwindOn;
    var hooks, p := before + own, |before|;
    var kept := own[..d - p];
    LinkedSplit(hooks[d..], 0, w, x);
    assert hooks[d..][0..] == hooks[d..] && own == kept + hooks[d..];
    UnwindAppend(w, kept, hooks[d..]);
    forall i | 0 <= i < |kept| ensures kept[i].replacement != x {
      assert hooks[..d][p + i] == kept[i];
    }
    AvoidingStays(x, kept);
    forall i | 0 <= i < p ensures before[i].replacement != x {
      assert hooks[..d][i] == before[i];
    }
    assert before[p..] == [] && before[..p] == before;
  }

  /** Hooks below the break are out of the word's way. */
  lemma RetireBelow(before: seq<Hook>, own: seq<Hook>, later: seq<Hook>, w: nat, o: nat, d: nat, x: nat)
    requires Distinct(o, before + own + later) && StuckAt(before + own + later, w, o, d, x)
    requires |before| + |own| <= d
    ensures UnwindOn(w, own) == w && StuckAt(before + later, w, o, d - |own|, x)
  {
    var hooks, p, q := before + own + later, |before|, |before| + |own|;
    assert hooks[d..] == later[d - q..];
    forall i | 0 <= i < |own| ensures own[i].replacement != w {
      assert hooks[p + i] == own[i] && hooks[..d][p + i] == own[i];
      if hooks[d..] != [] {
        assert w == hooks[d..][|hooks| - d - 1].replacement == hooks[|hooks| - 1].replacement;
      }
    }
    AvoidingStays(w, own);
    var left := before + later;
    assert left[d - |own|..] == later[d - q..];
    var lower := left[..d - |own|];
    forall i | 0 <= i < |lower| ensures lower[i].replacement != x {
      assert lower[i] == if i < p then hooks[..d][i] else hooks[..d][i + |own|];
    }
  }

  lemma DistinctWithout(before: seq<Hook>, own: seq<Hook>, later: seq<Hook>, o: nat)
    requires Distinct(o, before + own + later)
    ensures Distinct(o, before + later)
  {
    var hooks, left := before + own + later, before + later;
    var at := (i: int) => if i < |before| then i else i + |own|;
    forall i | 0 <= i < |left| ensures left[i] == hooks[at(i)] {
    }
    forall i | 0 <= i < |left| ensures left[i].replacement != o {
      assert left[i] == hooks[at(i)];
    }
    forall i, j | 0 <= i < j < |left| ensures left[i].replacement != left[j].replacement {
      assert left[i] == hooks[at(i)] && left[j] == hooks[at(j)];
    }
  }

  /** Retiring the hooks `own` of a slot keeps its word on the way back to the first one exactly when it was and
      there are none of them, or none above them. */
  lemma RetireTracks(before: seq<Hook>, own: seq<Hook>, later: seq<Hook>, w: nat, o: nat, linked: bool)
    requires Tracks(before + own + later, w, o, linked)
    ensures Tracks(before + later, UnwindOn(w, own), o, linked && (own == [] || later == []))
  {
    hide Linked, Distinct, StuckAt;
    DistinctWithout(before, own, later, o);
    var hooks := before + own + later;
    if own == [] {
      assert hooks == before + later;
    } else if later == [] {
      assert hooks == before + own && before + later == before;
      RetireTop(before, own, w, o, linked);
    } else if linked {
      assert hooks[0..] == hooks;
      RetireUnder(before, own, later, w, o, 0, o);
    } else {
      var d: nat, x: nat :| StuckAt(hooks, w, o, d, x);
      RetireStuck(before, own, later, w, o, d, x);
    }
  }

  lemma RetireStuck(before: seq<Hook>, own: seq<Hook>, later: seq<Hook>, w: nat, o: nat, d: nat, x: nat)
    requires own != [] && later != []
    requires Distinct(o, before + own + later) && StuckAt(before + own + later, w, o, d, x)
    ensures Stuck(before + later, UnwindOn(w, own), o)
  {
    if d < |before| + |own| {
      RetireUnder(before, own, later, w, o, d, x);
    } else {
      RetireBelow(before, own, later, w, o, d, x);
    }
  }

  /** A hook with a word never seen on the slot. */
  lemma InstallTracks(hooks: seq<Hook>, w: nat, o: nat, linked: bool, r: nat)
    requires Tracks(hooks, w, o, linked) && r != o && Avoids(r, hooks)
    ensures Tracks(hooks + [Hook(w, r)], r, o, linked)
  {
    var next := hooks + [Hook(w, r)];
    assert next[..|hooks|] == hooks;
    if !linked {
      var d: nat, x: nat :| StuckAt(hooks, w, o, d, x);
      assert next[d..][..|hooks| - d] == hooks[d..] && next[..d] == hooks[..d];
      assert StuckAt(next, r, o, d, x);
    }
  }

  // The words seen so far

  predicate WordsIn(hooks: seq<Hook>, w: nat, o: nat, used: set<nat>)
  {
    w in used && o in used && forall i :: 0 <= i < |hooks| ==> hooks[i].original in used && hooks[i].replacement in used
  }

  lemma {:induction false} UnwindIn(w: nat, hooks: seq<Hook>, o: nat, used: set<nat>)
    requires WordsIn(hooks, w, o, used)
    ensures UnwindOn(w, hooks) in used
    decreases |hooks|
  {
    if hooks != [] {
      var h := hooks[|hooks| - 1];
      UnwindIn(if w == h.replacement then h.original else w, hooks[..|hooks| - 1], o, used);
    }
  }

  // All records

  lemma {:induction false} UndoneAt(slots: map<nat, nat>, effects: seq<Restore>, s: nat)
    requires s in slots
    ensures Undone(slots, effects)[s] == UnwindOn(slots[s], On(effects, s))
    decreases |effects|
  {
    if effects != [] {
      var n := |effects| - 1;
      var e := effects[n];
      UndoneAt(Restored(slots, e), effects[..n], s);
      if e.HookRestore? && e.slot == s {
        var h := Hook(e.original, e.replacement);
        assert (On(effects[..n], s) + [h])[..|On(effects[..n], s)|] == On(effects[..n], s);
      } else {
        assert On(effects[..n], s) + [] == On(effects[..n], s);
      }
    }
  }

  lemma {:induction false} HooksAround(records: seq<Record>, i: nat, s: nat)
    requires i < |records|
    ensures HooksOn(records, s) == HooksOn(records[..i], s) + On(records[i].effects, s) + HooksOn(records[i + 1..], s)
    decreases |records|
  {
    hide On;
    var n := |records| - 1;
    if i == n {
      assert records[i + 1..] == [];
    } else {
      HooksAround(records[..n], i, s);
      assert records[..n][..i] == records[..i] && records[..n][i + 1..] == records[i + 1..][..n - i - 1];
      assert records[i + 1..][|records[i + 1..]| - 1] == records[n];
    }
  }

  /** Slot `s` first held `o`; `linked` says whether its word is still on the way back. */
  ghost predicate Follows(a: App, s: nat, o: nat, used: set<nat>, linked: bool)
  {
    && s in a.slots && RetiredIsEmpty(a)
    && Tracks(HooksOn(a.records, s), a.slots[s], o, linked)
    && WordsIn(HooksOn(a.records, s), a.slots[s], o, used)
  }

  /** No owner registered after `i` hooks slot `s`, if `i` does. */
  predicate InOrder(a: App, i: nat, s: nat)
    requires i < |a.records|
  {
    On(a.records[i].effects, s) == [] || HooksOn(a.records[i + 1..], s) == []
  }

  /** `b` is `a` with owner `i` retired, one way or the other. */
  predicate Retired(a: App, i: nat, b: App)
    requires i < |a.records|
  {
    && |b.records| == |a.records| && b.records == a.records[i := b.records[i]]
    && b.records[i].effects == [] && b.slots == Undone(a.slots, a.records[i].effects)
  }

  lemma RetireFollows(a: App, i: nat, b: App, s: nat, o: nat, used: set<nat>, linked: bool)
    requires i < |a.records| && Follows(a, s, o, used, linked) && Retired(a, i, b)
    ensures Follows(b, s, o, used, linked && InOrder(a, i, s))
  {
    hide Undone, On, HooksOn, UnwindOn, Tracks;
    var before, own, later := HooksOn(a.records[..i], s), On(a.records[i].effects, s), HooksOn(a.records[i + 1..], s);
    HooksAround(a.records, i, s);
    HooksAround(b.records, i, s);
    assert b.records[..i] == a.records[..i] && b.records[i + 1..] == a.records[i + 1..];
    NoHooks(s);
    assert before + [] + later == before + later;
    RetireTracks(before, own, later, a.slots[s], o, linked);
    UndoneAt(a.slots, a.records[i].effects, s);
    assert WordsIn(own, a.slots[s], o, used) && WordsIn(before + later, a.slots[s], o, used) by {
      WordsOfParts(before, own, later, a.slots[s], o, used);
    }
    UnwindIn(a.slots[s], own, o, used);
    forall r | r in b.records ensures !r.active ==> r.effects == [] {
      assert r == b.records[i] || r in a.records;
    }
  }

  lemma NoHooks(s: nat)
    ensures On([], s) == [] && HooksOn([], s) == []
  {
  }

  lemma WordsOfParts(before: seq<Hook>, own: seq<Hook>, later: seq<Hook>, w: nat, o: nat, used: set<nat>)
    requires WordsIn(before + own + later, w, o, used)
    ensures WordsIn(own, w, o, used) && WordsIn(before + later, w, o, used)
  {
    var hooks := before + own + later;
    forall i | 0 <= i < |own| ensures own[i].original in used && own[i].replacement in used {
      assert own[i] == hooks[|before| + i];
    }
    forall i | 0 <= i < |before + later|
      ensures (before + later)[i].original in used && (before + later)[i].replacement in used
    {
      assert (before + later)[i] == if i < |before| then hooks[i] else hooks[i + |own|];
    }
  }

  // Builds

  /** Words none of which was seen before or twice. */
  predicate Fresh(words: seq<nat>, used: set<nat>)
  {
    && (forall i :: 0 <= i < |words| ==> words[i] !in used)
    && forall i, j :: 0 <= i < j < |words| ==> words[i] != words[j]
  }

  function With(used: set<nat>, words: seq<nat>): set<nat> { used + (set w | w in words) }

  function Replacements(steps: seq<(BuildOp, bool)>): seq<nat>
  {
    if steps == [] then []
    else (if steps[0].0.InstallHook? then [steps[0].0.replacement] else []) + Replacements(steps[1..])
  }

  lemma FreshSplit(first: seq<nat>, second: seq<nat>, used: set<nat>)
    requires Fresh(first + second, used)
    ensures Fresh(first, used) && Fresh(second, With(used, first))
    ensures With(With(used, first), second) == With(used, first + second)
  {
    var all := first + second;
    forall i | 0 <= i < |first| ensures first[i] !in used {
      assert all[i] == first[i];
    }
    forall i, j | 0 <= i < j < |first| ensures first[i] != first[j] {
      assert all[i] == first[i] && all[j] == first[j];
    }
    forall i | 0 <= i < |second| ensures second[i] !in With(used, first) {
      assert all[|first| + i] == second[i];
      forall j | 0 <= j < |first| ensures first[j] != second[i] {
        assert all[j] == first[j];
      }
    }
    forall i, j | 0 <= i < j < |second| ensures second[i] != second[j] {
      assert all[|first| + i] == second[i] && all[|first| + j] == second[j];
    }
  }

  lemma MoreWords(a: App, s: nat, o: nat, used: set<nat>, more: set<nat>, linked: bool)
    requires Follows(a, s, o, used, linked) && used <= more
    ensures Follows(a, s, o, more, linked)
  {
    hide HooksOn, Tracks;
  }

  /** One call of a build: only the newest record and perhaps one slot change. */
  lemma PerformFollows(a: App, i: nat, op: BuildOp, s: nat, o: nat, used: set<nat>, linked: bool)
    requires |a.records| == i + 1 && a.records[i].active && Follows(a, s, o, used, linked)
    requires op.InstallHook? ==> op.replacement !in used
    ensures var b := Performed(a, i, op).0;
      && b.records[i].active && Follows(b, s, o, With(used, if op.InstallHook? then [op.replacement] else []), linked)
  {
    hide HooksOn, Tracks, On, UnwindOn;
    var b := Performed(a, i, op).0;
    var hooks, w, more := HooksOn(a.records, s), a.slots[s], With(used, if op.InstallHook? then [op.replacement] else []);
    LastHooks(a.records, s);
    LastHooks(b.records, s);
    assert b.records[..i] == a.records[..i];
    LastEffect(a.records[i].effects, s);
    if op.InstallHook? && b != a && op.slot == s {
      var h := Hook(w, op.replacement);
      assert b.records[i].effects == a.records[i].effects + [HookRestore(s, w, op.replacement)];
      assert HooksOn(b.records, s) == hooks + [h];
      InstallTracks(hooks, w, o, linked, op.replacement);
      assert WordsIn(hooks + [h], op.replacement, o, more);
    } else {
      assert HooksOn(b.records, s) == hooks && b.slots[s] == w;
    }
    forall r | r in b.records ensures !r.active ==> r.effects == [] {
      assert r == b.records[i] || r in a.records;
    }
  }

  lemma LastHooks(records: seq<Record>, s: nat)
    requires records != []
    ensures HooksOn(records, s) == HooksOn(records[..|records| - 1], s) + On(records[|records| - 1].effects, s)
  {
  }

  lemma LastEffect(effects: seq<Restore>, s: nat)
    ensures On(effects + [Custom], s) == On(effects, s)
    ensures forall t: nat, w: nat, r: nat :: On(effects + [HookRestore(t, w, r)], s)
              == On(effects, s) + (if t == s then [Hook(w, r)] else [])
  {
    assert forall e: Restore :: (effects + [e])[..|effects|] == effects;
  }

  lemma {:induction false} BuildFollows(a: App, i: nat, script: BuildScript, s: nat, o: nat, used: set<nat>, linked: bool)
    requires |a.records| == i + 1 && a.records[i].active && Follows(a, s, o, used, linked)
    requires Fresh(Replacements(script.steps), used)
    ensures var b := Built(a, i, script).0;
      b.records[i].active && Follows(b, s, o, With(used, Replacements(script.steps)), linked)
    decreases |script.steps|
  {
    hide Follows, Performed, Fresh;
    if script.steps == [] {
      assert With(used, []) == used;
    } else {
      var op := script.steps[0].0;
      var own := if op.InstallHook? then [op.replacement] else [];
      var rest := Replacements(script.steps[1..]);
      FreshSplit(own, rest, used);
      assert op.InstallHook? ==> op.replacement !in used by {
        FirstFresh(own, used);
      }
      PerformFollows(a, i, op, s, o, used, linked);
      var (a1, ok) := Performed(a, i, op);
      MoreWords(a1, s, o, With(used, own), With(With(used, own), rest), linked);
      BuildFollows(a1, i, script.(steps := script.steps[1..]), s, o, With(used, own), linked);
    }
  }

  lemma FirstFresh(words: seq<nat>, used: set<nat>)
    requires Fresh(words, used)
    ensures forall w :: w in words ==> w !in used
  {
  }

  lemma PluginFollows(a: App, script: BuildScript, s: nat, o: nat, used: set<nat>, linked: bool)
    requires Follows(a, s, o, used, linked) && Fresh(Replacements(script.steps), used)
    ensures Follows(WithPlugin(a, script), s, o, With(used, Replacements(script.steps)), linked)
  {
    hide Built, Undone, Removed, HooksOn, Tracks, On, Fresh;
    var i := |a.records|;
    var a1 := a.(records := a.records + [NewRecord()]);
    LastHooks(a1.records, s);
    NoHooks(s);
    assert a1.records[..i] == a.records && HooksOn(a1.records, s) == HooksOn(a.records, s);
    forall r | r in a1.records ensures !r.active ==> r.effects == [] {
      assert r == NewRecord() || r in a.records;
    }
    BuildFollows(a1, i, script, s, o, used, linked);
    var (b1, ok) := Built(a1, i, script);
    if !ok {
      assert b1.records[i + 1..] == [];
      RetireFollows(b1, i, RolledBack(b1, i), s, o, With(used, Replacements(script.steps)), linked);
    }
  }

  // Startup, update and teardown

  lemma {:induction false} StartedFollows(a: App, i: nat, systems: seq<StartupSystem>, s: nat, o: nat, used: set<nat>, linked: bool)
    requires i < |a.records| && Follows(a, s, o, used, linked) && a.records[i].active
    ensures var b := Started(a, i, systems).0;
      && Follows(b, s, o, used, linked) && b.records[i].active
      && On(b.records[i].effects, s) == On(a.records[i].effects, s) && b.records[i + 1..] == a.records[i + 1..]
    decreases |systems|
  {
    hide Follows, On, Customs;
    if systems != [] {
      var system, rec := systems[0], a.records[i];
      var a1 := Edit(a, i, rec.(effects := rec.effects + Customs(system.effects)));
      CustomsOn(rec.effects, system.effects, s);
      SameHooks(a, i, a1, s, o, used, linked);
      if system.ok {
        var (a2, ok) := Drained(a1, i, system.pending);
        DrainedHooks(a1, i, system.pending, s, o, used, linked);
        if ok {
          StartedFollows(a2, i, systems[1..], s, o, used, linked);
        }
      }
    }
  }

  lemma {:induction false} CustomsOn(effects: seq<Restore>, count: nat, s: nat)
    ensures On(effects + Customs(count), s) == On(effects, s)
    decreases count
  {
    if count == 0 {
      assert effects + Customs(0) == effects;
    } else {
      CustomsOn(effects, count - 1, s);
      assert effects + Customs(count) == (effects + Customs(count - 1)) + [Custom];
      LastEffect(effects + Customs(count - 1), s);
    }
  }

  /** A record that stays active and keeps its hooks. */
  lemma SameHooks(a: App, i: nat, b: App, s: nat, o: nat, used: set<nat>, linked: bool)
    requires i < |a.records| == |b.records| && b.records == a.records[i := b.records[i]] && b.slots == a.slots
    requires b.records[i].active && On(b.records[i].effects, s) == On(a.records[i].effects, s)
    requires Follows(a, s, o, used, linked)
    ensures Follows(b, s, o, used, linked) && b.records[i + 1..] == a.records[i + 1..]
  {
    hide HooksOn, On, Tracks;
    HooksAround(a.records, i, s);
    HooksAround(b.records, i, s);
    assert b.records[..i] == a.records[..i] && b.records[i + 1..] == a.records[i + 1..];
    forall r | r in b.records ensures !r.active ==> r.effects == [] {
      assert r == b.records[i] || r in a.records;
    }
  }

  lemma {:induction false} DrainedHooks(a: App, i: nat, pending: seq<TypeId>, s: nat, o: nat, used: set<nat>, linked: bool)
    requires i < |a.records| && Follows(a, s, o, used, linked) && a.records[i].active
    ensures var b := Drained(a, i, pending).0;
      && Follows(b, s, o, used, linked) && b.records[i].active
      && On(b.records[i].effects, s) == On(a.records[i].effects, s) && b.records[i + 1..] == a.records[i + 1..]
    decreases |pending|
  {
    hide Follows, On;
    if pending != [] {
      var (a1, ok) := Inserted(a, i, pending[0]);
      if ok {
        SameHooks(a, i, a1, s, o, used, linked);
        DrainedHooks(a1, i, pending[1..], s, o, used, linked);
      }
    }
  }

  /** Whether every owner the startup pass rolls back goes in order. */
  predicate StartupInOrder(a: App, count: nat, systems: nat -> seq<StartupSystem>, s: nat)
    requires count <= |a.records|
  {
    count == 0 ||
    (var i, a1 := count - 1, StartedUpTo(a, count - 1, systems);
     StartupInOrder(a, i, systems, s) && (a.records[i].active && !Started(a1, i, systems(i)).1 ==> InOrder(a1, i, s)))
  }

  /** Whether every owner the update pass retires goes in order. */
  predicate UpdateInOrder(a: App, count: nat, ok: nat -> bool, s: nat)
    requires count <= |a.records|
  {
    count == 0 ||
    (var i, a1 := count - 1, UpdatedUpTo(a, count - 1, ok);
     UpdateInOrder(a, i, ok, s) && (a.records[i].active && !ok(i) ==> InOrder(a1, i, s)))
  }

  lemma {:induction false} StartupFollows(a: App, count: nat, systems: nat -> seq<StartupSystem>,
                                          s: nat, o: nat, used: set<nat>, linked: bool)
    requires count <= |a.records| && Follows(a, s, o, used, linked)
    ensures var b := StartedUpTo(a, count, systems);
      && Follows(b, s, o, used, linked && StartupInOrder(a, count, systems, s))
      && b.records[count..] == a.records[count..]
    decreases count
  {
    hide Follows, Started, RolledBack, InOrder;
    if count > 0 {
      var i := count - 1;
      StartupFollows(a, i, systems, s, o, used, linked);
      var a1, linked1 := StartedUpTo(a, i, systems), linked && StartupInOrder(a, i, systems, s);
      assert a1.records[i] == a1.records[i..][0] == a.records[i..][0];
      assert a1.records[count..] == a1.records[i..][1..] && a.records[count..] == a.records[i..][1..];
      if a.records[i].active {
        StartedFollows(a1, i, systems(i), s, o, used, linked1);
        var (a2, ok) := Started(a1, i, systems(i));
        if ok {
          var a3 := OwnerStarted(a1, i, systems(i));
          SameHooks(a2, i, a3, s, o, used, linked1);
        } else {
          RolledBackIsRetired(a2, i);
          RetireFollows(a2, i, RolledBack(a2, i), s, o, used, linked1);
          assert RolledBack(a2, i).records[count..] == a2.records[count..];
          SameOrder(a1, a2, i, s);
        }
      }
    }
  }

  lemma RolledBackIsRetired(a: App, i: nat)
    requires i < |a.records|
    ensures Retired(a, i, RolledBack(a, i)) && Retired(a, i, UpdateRetired(a, i))
  {
    hide Undone, Removed;
  }

  lemma SameOrder(a: App, b: App, i: nat, s: nat)
    requires i < |a.records| == |b.records|
    requires On(b.records[i].effects, s) == On(a.records[i].effects, s) && b.records[i + 1..] == a.records[i + 1..]
    ensures InOrder(a, i, s) == InOrder(b, i, s)
  {
  }

  lemma {:induction false} UpdateFollows(a: App, count: nat, ok: nat -> bool, s: nat, o: nat, used: set<nat>, linked: bool)
    requires count <= |a.records| && Follows(a, s, o, used, linked)
    ensures Follows(UpdatedUpTo(a, count, ok), s, o, used, linked && UpdateInOrder(a, count, ok, s))
    decreases count
  {
    hide Follows, UpdateRetired, InOrder;
    if count > 0 {
      var i := count - 1;
      UpdateFollows(a, i, ok, s, o, used, linked);
      var a1 := UpdatedUpTo(a, i, ok);
      if a.records[i].active && !ok(i) {
        RolledBackIsRetired(a1, i);
        RetireFollows(a1, i, UpdateRetired(a1, i), s, o, used, linked && UpdateInOrder(a, i, ok, s));
      }
    }
  }

  /** Teardown always goes in order: when an owner's turn comes, nothing is left above it. */
  lemma {:induction false} TeardownFollows(a: App, from: nat, s: nat, o: nat, used: set<nat>, linked: bool)
    requires from <= |a.records| && Follows(a, s, o, used, linked)
    ensures var b := TornDownTo(a, from);
      && Follows(b, s, o, used, linked) && b.records[..from] == a.records[..from]
      && HooksOn(b.records[from..], s) == []
    decreases |a.records| - from
  {
    hide HooksOn, On, Tracks, WordsIn;
    NoHooks(s);
    if from == |a.records| {
      assert a.records[from..] == [] && a.records[..from] == a.records;
    } else {
      TeardownFollows(a, from + 1, s, o, used, linked);
      var b1, b := TornDownTo(a, from + 1), TornDownTo(a, from);
      assert b1.records[..from + 1][..from] == b1.records[..from] && a.records[..from + 1][..from] == a.records[..from];
      if b1.records[from].active {
        RolledBackIsRetired(b1, from);
        RetireFollows(b1, from, b, s, o, used, linked);
      } else {
        assert b1.records[from] in b1.records;
      }
      HooksAround(b.records[from..], 0, s);
      assert b.records[from..][1..] == b1.records[from + 1..] && b.records[from..][..0] == [];
    }
  }

  // Whole runs

  predicate StepInOrder(a: App, op: Op, s: nat)
  {
    match op
    case RunStartup(systems) => StartupInOrder(a, |a.records|, systems, s)
    case RunUpdate(ok) => UpdateInOrder(a, |a.records|, ok, s)
    case _ => true
  }

  /** Every owner that a startup rolled back or an update retired, and that hooked `s`, was the last to have. */
  predicate RunInOrder(a: App, ops: seq<Op>, s: nat)
    decreases |ops|
  {
    ops == [] ||
    (var n := |ops| - 1; RunInOrder(a, ops[..n], s) && StepInOrder(After(a, ops[..n]), ops[n], s))
  }

  /** The words the plugins of a run put into slots. */
  function RunReplacements(ops: seq<Op>): seq<nat>
    decreases |ops|
  {
    if ops == [] then []
    else
      RunReplacements(ops[..|ops| - 1]) +
      (if ops[|ops| - 1].AddPlugin? then Replacements(ops[|ops| - 1].script.steps) else [])
  }

  lemma {:induction false} RunFollows(slots: map<nat, nat>, ops: seq<Op>, s: nat)
    requires s in slots && Fresh(RunReplacements(ops), slots.Values)
    ensures var a := App({}, {}, slots, []);
      Follows(After(a, ops), s, slots[s], With(slots.Values, RunReplacements(ops)), RunInOrder(a, ops, s))
    decreases |ops|
  {
    hide Follows, Fresh, StartupInOrder, UpdateInOrder, StartedUpTo, UpdatedUpTo, WithPlugin;
    var a, o := App({}, {}, slots, []), slots[s];
    if ops == [] {
      FirstFollows(slots, s);
    } else {
      var n := |ops| - 1;
      var own := if ops[n].AddPlugin? then Replacements(ops[n].script.steps) else [];
      FreshSplit(RunReplacements(ops[..n]), own, slots.Values);
      RunFollows(slots, ops[..n], s);
      var b, used, linked := After(a, ops[..n]), With(slots.Values, RunReplacements(ops[..n])), RunInOrder(a, ops[..n], s);
      match ops[n]
      case AddPlugin(script) => PluginFollows(b, script, s, o, used, linked);
      case RunStartup(systems) =>
        StartupFollows(b, |b.records|, systems, s, o, used, linked);
        assert With(used, []) == used;
      case RunUpdate(ok) =>
        UpdateFollows(b, |b.records|, ok, s, o, used, linked);
        assert With(used, []) == used;
      case Teardown =>
        TeardownFollows(b, 0, s, o, used, linked);
        assert With(used, []) == used;
    }
  }

  lemma FirstFollows(slots: map<nat, nat>, s: nat)
    requires s in slots
    ensures Follows(App({}, {}, slots, []), s, slots[s], With(slots.Values, []), true)
  {
  }

  lemma TornDownWord(a: App, s: nat, o: nat, used: set<nat>, linked: bool)
    requires Follows(a, s, o, used, linked)
    ensures s in TornDown(a).slots && (TornDown(a).slots[s] == o <==> linked)
  {
    hide TornDownTo;
    TeardownFollows(a, 0, s, o, used, linked);
    var b := TornDown(a);
    assert b.records[0..] == b.records;
    if !linked {
      StuckNeverUnwinds([], b.slots[s], o);
    }
  }

  /** After any run of builds, startups, updates and teardowns, as long as no word is put into slots twice,
      teardown gives a slot its first word back exactly when the owners retired from it along the way went in
      order, each the last to have hooked it. */
  lemma RetirementOrderDecides(slots: map<nat, nat>, ops: seq<Op>, s: nat)
    requires s in slots && Fresh(RunReplacements(ops), slots.Values)
    ensures var a := App({}, {}, slots, []);
      var b := TornDown(After(a, ops));
      s in b.slots && (b.slots[s] == slots[s] <==> RunInOrder(a, ops, s))
  {
    hide Follows, Fresh, TornDown, After;
    RunFollows(slots, ops, s);
    var a := App({}, {}, slots, []);
    TornDownWord(After(a, ops), s, slots[s], With(slots.Values, RunReplacements(ops)), RunInOrder(a, ops, s));
  }

  // No slot comes or goes

  lemma {:induction false} BuildKeepsKeys(a: App, i: nat, script: BuildScript)
    requires i < |a.records|
    ensures Built(a, i, script).0.slots.Keys == a.slots.Keys
    decreases |script.steps|
  {
    if script.steps != [] {
      var a1 := Performed(a, i, script.steps[0].0).0;
      assert a1.slots.Keys == a.slots.Keys;
      BuildKeepsKeys(a1, i, script.(steps := script.steps[1..]));
    }
  }

  lemma {:induction false} DrainKeepsSlots(a: App, i: nat, pending: seq<TypeId>)
    requires i < |a.records|
    ensures Drained(a, i, pending).0.slots == a.slots
    decreases |pending|
  {
    if pending != [] {
      DrainKeepsSlots(Inserted(a, i, pending[0]).0, i, pending[1..]);
    }
  }

  lemma {:induction false} StartKeepsSlots(a: App, i: nat, systems: seq<StartupSystem>)
    requires i < |a.records|
    ensures Started(a, i, systems).0.slots == a.slots
    decreases |systems|
  {
    hide Drained, Customs;
    if systems != [] {
      var rec := a.records[i];
      var a1 := Edit(a, i, rec.(effects := rec.effects + Customs(systems[0].effects)));
      DrainKeepsSlots(a1, i, systems[0].pending);
      StartKeepsSlots(Drained(a1, i, systems[0].pending).0, i, systems[1..]);
    }
  }

  lemma {:induction false} StartupKeepsKeys(a: App, count: nat, systems: nat -> seq<StartupSystem>)
    requires count <= |a.records|
    ensures StartedUpTo(a, count, systems).slots.Keys == a.slots.Keys
    decreases count
  {
    hide Started, Undone, Removed;
    if count > 0 {
      StartupKeepsKeys(a, count - 1, systems);
      StartKeepsSlots(StartedUpTo(a, count - 1, systems), count - 1, systems(count - 1));
    }
  }

  lemma {:induction false} UpdateKeepsKeys(a: App, count: nat, ok: nat -> bool)
    requires count <= |a.records|
    ensures UpdatedUpTo(a, count, ok).slots.Keys == a.slots.Keys
    decreases count
  {
    hide Undone;
    if count > 0 {
      UpdateKeepsKeys(a, count - 1, ok);
    }
  }

  lemma {:induction false} TeardownKeepsKeys(a: App, from: nat)
    requires from <= |a.records|
    ensures TornDownTo(a, from).slots.Keys == a.slots.Keys
    decreases |a.records| - from
  {
    hide Undone, Removed;
    if from < |a.records| {
      TeardownKeepsKeys(a, from + 1);
    }
  }

  lemma PluginKeepsKeys(a: App, script: BuildScript)
    ensures WithPlugin(a, script).slots.Keys == a.slots.Keys
  {
    hide Built, Undone, Removed;
    BuildKeepsKeys(a.(records := a.records + [NewRecord()]), |a.records|, script);
  }

  lemma {:induction false} RunKeepsKeys(a: App, ops: seq<Op>)
    ensures After(a, ops).slots.Keys == a.slots.Keys
    decreases |ops|
  {
    hide WithPlugin, StartedUpTo, UpdatedUpTo, TornDownTo;
    if ops != [] {
      var b := After(a, ops[..|ops| - 1]);
      RunKeepsKeys(a, ops[..|ops| - 1]);
      match ops[|ops| - 1]
      case AddPlugin(script) => PluginKeepsKeys(b, script);
      case RunStartup(systems) => StartupKeepsKeys(b, |b.records|, systems);
      case RunUpdate(ok) => UpdateKeepsKeys(b, |b.records|, ok);
      case Teardown => TeardownKeepsKeys(b, 0);
    }
  }

  /** All slots together. */
  lemma RetirementOrderDecidesAll(slots: map<nat, nat>, ops: seq<Op>)
    requires Fresh(RunReplacements(ops), slots.Values)
    ensures var a := App({}, {}, slots, []);
      TornDown(After(a, ops)).slots == slots <==> forall s :: s in slots ==> RunInOrder(a, ops, s)
  {
    hide Fresh, TornDownTo, After, RunInOrder;
    var a := App({}, {}, slots, []);
    var b := TornDown(After(a, ops));
    RunKeepsKeys(a, ops);
    TeardownKeepsKeys(After(a, ops), 0);
    forall s | s in slots ensures b.slots[s] == slots[s] <==> RunInOrder(a, ops, s) {
      RetirementOrderDecides(slots, ops, s);
    }
  }

  // One retirement after builds

  lemma {:induction false} HooksAreTouches(effects: seq<Restore>, s: nat)
    ensures On(effects, s) != [] <==> Touches(effects, s)
    decreases |effects|
  {
    if effects != [] {
      var n := |effects| - 1;
      HooksAreTouches(effects[..n], s);
      assert effects == effects[..n] + [effects[n]];
      if Touches(effects[..n], s) {
        var e :| e in effects[..n] && e.HookRestore? && e.slot == s;
        assert e in effects;
      }
    }
  }

  lemma {:induction false} AllHooksAreTouches(records: seq<Record>, s: nat)
    ensures HooksOn(records, s) == On(AllEffects(records), s)
    decreases |records|
  {
    hide On;
    NoHooks(s);
    if records != [] {
      var n := |records| - 1;
      AllHooksAreTouches(records[..n], s);
      OnAppend(AllEffects(records[..n]), records[n].effects, s);
    }
  }

  lemma {:induction false} OnAppend(first: seq<Restore>, second: seq<Restore>, s: nat)
    ensures On(first + second, s) == On(first, s) + On(second, s)
    decreases |second|
  {
    if second == [] {
      assert first + second == first;
    } else {
      var n := |second| - 1;
      assert (first + second)[..|first + second| - 1] == first + second[..n];
      OnAppend(first, second[..n], s);
    }
  }

  /** The order asked for is that nobody registered later hooks a slot the retired owner hooks. */
  lemma InOrderMeans(a: App, i: nat, s: nat)
    requires i < |a.records|
    ensures InOrder(a, i, s) <==> !(Touches(a.records[i].effects, s) && Touches(AllEffects(a.records[i + 1..]), s))
    ensures LastHooker(a, i) ==> InOrder(a, i, s)
  {
    hide On, HooksOn;
    HooksAreTouches(a.records[i].effects, s);
    HooksAreTouches(AllEffects(a.records[i + 1..]), s);
    AllHooksAreTouches(a.records[i + 1..], s);
  }

  function BuildReplacements(scripts: seq<BuildScript>): seq<nat>
    decreases |scripts|
  {
    if scripts == [] then []
    else BuildReplacements(scripts[..|scripts| - 1]) + Replacements(scripts[|scripts| - 1].steps)
  }

  lemma {:induction false} BuildsFollow(slots: map<nat, nat>, scripts: seq<BuildScript>, s: nat)
    requires s in slots && Fresh(BuildReplacements(scripts), slots.Values)
    ensures var a := WithPlugins(App({}, {}, slots, []), scripts);
      && Follows(a, s, slots[s], With(slots.Values, BuildReplacements(scripts)), true)
      && a.slots.Keys == slots.Keys
    decreases |scripts|
  {
    hide Follows, Fresh, WithPlugin;
    if scripts == [] {
      FirstFollows(slots, s);
    } else {
      var n := |scripts| - 1;
      var first := BuildReplacements(scripts[..n]);
      FreshSplit(first, Replacements(scripts[n].steps), slots.Values);
      BuildsFollow(slots, scripts[..n], s);
      var a := WithPlugins(App({}, {}, slots, []), scripts[..n]);
      PluginFollows(a, scripts[n], s, slots[s], With(slots.Values, first), true);
      PluginKeepsKeys(a, scripts[n]);
    }
  }

  /** After any builds, some failing, an owner retired on its own: teardown then gives every slot its first word
      back exactly when no owner registered after it hooks a slot it hooks. */
  lemma RetiredOwnerDecides(slots: map<nat, nat>, scripts: seq<BuildScript>, i: nat)
    requires Fresh(BuildReplacements(scripts), slots.Values)
    requires i < |WithPlugins(App({}, {}, slots, []), scripts).records|
    ensures var a := WithPlugins(App({}, {}, slots, []), scripts);
      var b := TornDown(UpdateRetired(a, i));
      && (forall s :: s in slots ==> s in b.slots && (b.slots[s] == slots[s] <==> InOrder(a, i, s)))
      && ((forall s :: s in slots ==> b.slots[s] == slots[s])
          <==> !exists s :: s in slots && Touches(a.records[i].effects, s) && Touches(AllEffects(a.records[i + 1..]), s))
  {
    hide Follows, Fresh, TornDownTo, WithPlugins, InOrder, Touches;
    var a := WithPlugins(App({}, {}, slots, []), scripts);
    var b, used := UpdateRetired(a, i), With(slots.Values, BuildReplacements(scripts));
    forall s | s in slots
      ensures s in TornDown(b).slots && (TornDown(b).slots[s] == slots[s] <==> InOrder(a, i, s))
      ensures InOrder(a, i, s) <==> !(Touches(a.records[i].effects, s) && Touches(AllEffects(a.records[i + 1..]), s))
    {
      BuildsFollow(slots, scripts, s);
      RolledBackIsRetired(a, i);
      RetireFollows(a, i, b, s, slots[s], used, true);
      TornDownWord(b, s, slots[s], used, InOrder(a, i, s));
      InOrderMeans(a, i, s);
    }
  }
}
