/** Dispatch through a hook site: whatever the handler does, the original is entered once or not at all. */
module HookDispatch {
  import opened Options
  import opened OriginalCall

  /** One `call_original`: whether the original unwinds, and whether the handler catches that. */
  datatype Attempt = Attempt(unwinds: bool, caught: bool)

  /** A handler: its attempts to call the original, and how it ends if it gets past them. */
  datatype Handler = Handler(attempts: seq<Attempt>, panics: bool)

  /** Where the value returned to the game comes from. */
  datatype Source = Fallback | Passthrough | HandlerResult

  /** What a site holds: its publication, the replacement recorded before the swap, the captured original. */
  datatype Site = Site(published: bool, active: Option<nat>, originalAddr: nat)

  /** The dispatch finds this site's replacement in the slot, and an original to go on to. */
  predicate Reads(site: Site, word: nat)
  {
    site.published && site.active == Some(word) && site.originalAddr != 0
  }

  /** The guard as the handler's calls go through it; `entries` counts entries to the original. */
  datatype Call = Call(phase: OriginalPhase, entries: nat, escaped: bool)

  function Attempted(c: Call, a: Attempt): Call
  {
    if c.phase != BeforeOriginal then c
    else if a.unwinds then Call(CallingOriginal, c.entries + 1, !a.caught)
    else Call(AfterOriginal, c.entries + 1, false)
  }

  function Handled(c: Call, attempts: seq<Attempt>): Call
    decreases |attempts|
  {
    if attempts == [] || c.escaped then c else Handled(Attempted(c, attempts[0]), attempts[1..])
  }

  function Dispatched(site: Site, word: nat, gatesOpen: bool, handler: Handler): (nat, Source)
  {
    if !Reads(site, word) then (0, Fallback)
    else if !gatesOpen then (1, Passthrough)
    else
      var c := Handled(Call(BeforeOriginal, 0, false), handler.attempts);
      if c.phase == BeforeOriginal then (c.entries + 1, Passthrough)
      else (c.entries, if c.escaped || handler.panics then Fallback else HandlerResult)
  }

  lemma {:induction false} HandledOnce(c: Call, attempts: seq<Attempt>)
    requires c.entries == (if c.phase == BeforeOriginal then 0 else 1)
    ensures var h := Handled(c, attempts); h.entries == if h.phase == BeforeOriginal then 0 else 1
    decreases |attempts|
  {
    if attempts != [] && !c.escaped {
      HandledOnce(Attempted(c, attempts[0]), attempts[1..]);
    }
  }

  /** For every handler, a dispatch that reads the replacement in the slot enters the original exactly once, and any
      other enters it not at all; the handler's own result is returned only if it called the original and finished. */
  lemma DispatchEntersOnce(site: Site, word: nat, gatesOpen: bool, handler: Handler)
    ensures var (entries, source) := Dispatched(site, word, gatesOpen, handler);
      && entries == (if Reads(site, word) then 1 else 0)
      && (source == HandlerResult ==> gatesOpen && !handler.panics && handler.attempts != [])
      && (!Reads(site, word) ==> source == Fallback)
      && (Reads(site, word) && !gatesOpen ==> source == Passthrough)
  {
    HandledOnce(Call(BeforeOriginal, 0, false), handler.attempts);
  }

  lemma {:induction false} HandledAfter(c: Call, attempts: seq<Attempt>)
    requires c.phase != BeforeOriginal
    ensures Handled(c, attempts) == c
    decreases |attempts|
  {
    if attempts != [] && !c.escaped {
      HandledAfter(c, attempts[1..]);
    }
  }

  /** Where the value returned to the game comes from, for every handler: its own result exactly when it got to call
      the original, no unwind of that call left it and it did not panic; the original's exactly when a gate is
      closed or the handler never called it; the fallback otherwise. Only the first attempt counts, since the
      guard grants no other. */
  lemma DispatchSource(site: Site, word: nat, gatesOpen: bool, handler: Handler)
    ensures var owned := site.published && site.active == Some(word) && site.originalAddr != 0;
      var called := handler.attempts != [];
      var left := called && handler.attempts[0].unwinds && !handler.attempts[0].caught;
      var source := Dispatched(site, word, gatesOpen, handler).1;
      && (source == HandlerResult <==> owned && gatesOpen && called && !left && !handler.panics)
      && (source == Passthrough <==> owned && (!gatesOpen || !called))
      && (source == Fallback <==> !owned || (gatesOpen && called && (left || handler.panics)))
  {
    if handler.attempts != [] {
      HandledAfter(Attempted(Call(BeforeOriginal, 0, false), handler.attempts[0]), handler.attempts[1..]);
    }
  }

  // Installation: publish first, swap last

  datatype Install = Install(site: Site, word: nat)

  /** The stores of an installation that bound `original` and swaps in `replacement`, `k` of them done. */
  function InstalledTo(s: Install, original: nat, replacement: nat, k: nat): Install
    requires k <= 3
  {
    if k == 0 then s
    else if k == 1 then s.(site := s.site.(originalAddr := original))
    else if k == 2 then s.(site := s.site.(originalAddr := original, active := Some(replacement)))
    else Install(s.site.(originalAddr := original, active := Some(replacement)), replacement)
  }

  /** A bound original is never null, so a site that is active always has an original to go on to. */
  predicate SiteOk(site: Site) { site.active.Some? ==> site.originalAddr != 0 && site.published }

  /** In every window of an installation, a dispatch enters the original once if the slot holds the replacement
      the site has recorded, and falls back otherwise: no call is lost between the stores. */
  lemma NoWindowLosesCalls(s: Install, original: nat, replacement: nat, k: nat, gatesOpen: bool, handler: Handler)
    requires s.site.published && s.site.active.None? && s.word == original != 0 && k <= 3
    ensures var t := InstalledTo(s, original, replacement, k);
      && SiteOk(t.site)
      && Dispatched(t.site, t.word, gatesOpen, handler).0 == (if t.site.active == Some(t.word) then 1 else 0)
      && (k == 3 ==> Dispatched(t.site, t.word, gatesOpen, handler).0 == 1)
      && (k < 3 && original != replacement ==> Dispatched(t.site, t.word, gatesOpen, handler) == (0, Fallback))
  {
    var t := InstalledTo(s, original, replacement, k);
    DispatchEntersOnce(t.site, t.word, gatesOpen, handler);
  }

  // A hook's whole life, store by store, with others writing the slot

  /** `stores` counts the installation's stores up to the flag, 5 is a lost swap and 6 a swap not read back;
      `restoring` is set before a swap back. */
  datatype Life = Life(site: Site, word: nat, bound: nat, stores: nat, installed: bool, restoring: bool)

  datatype Event =
    | Bind
    | NextStore
    | TakeFlag
    | SwapBack
    | Foreign(word: nat)

  function Stored(l: Life, replacement: nat): Life
  {
    if l.bound == 0 then l
    else if l.stores == 0 then l.(site := l.site.(originalAddr := l.bound), stores := 1)
    else if l.stores == 1 then l.(site := l.site.(active := Some(replacement)), stores := 2)
    else if l.stores == 2 then
      if l.word == l.bound then l.(word := replacement, stores := 3) else l.(stores := 5)
    else if l.stores == 3 then
      if l.word == replacement then l.(installed := true, stores := 4) else l.(restoring := true, stores := 6)
    else l
  }

  function Happened(l: Life, replacement: nat, e: Event): Life
  {
    match e
    case Bind => if l.bound == 0 then l.(bound := l.word) else l
    case NextStore => Stored(l, replacement)
    case TakeFlag => if l.installed then l.(installed := false, restoring := true) else l
    case SwapBack =>
      if l.restoring then l.(word := if l.word == replacement then l.bound else l.word, restoring := false) else l
    case Foreign(word) => l.(word := word)
  }

  function Lived(l: Life, replacement: nat, events: seq<Event>): Life
    decreases |events|
  {
    if events == [] then l else Happened(Lived(l, replacement, events[..|events| - 1]), replacement, events[|events| - 1])
  }

  predicate LifeOk(l: Life, replacement: nat)
  {
    && l.site.published && (l.site.active == if l.stores >= 2 then Some(replacement) else None)
    && (l.stores >= 1 ==> l.bound != 0 && l.site.originalAddr == l.bound)
    && (l.installed || l.restoring ==> l.stores >= 4)
  }

  lemma {:induction false} LivedOk(word: nat, replacement: nat, events: seq<Event>)
    ensures LifeOk(Lived(Life(Site(true, None, 0), word, 0, 0, false, false), replacement, events), replacement)
    decreases |events|
  {
    if events != [] {
      LivedOk(word, replacement, events[..|events| - 1]);
    }
  }

  /** Between any two stores of an installation or a restore, and whoever else writes the slot: a dispatch enters
      the original it was bound to once if the slot holds the replacement and the site has recorded it, whatever
      the flag says, and otherwise falls back. */
  lemma NoStoreLosesCalls(word: nat, replacement: nat, events: seq<Event>, gatesOpen: bool, handler: Handler)
    ensures var l := Lived(Life(Site(true, None, 0), word, 0, 0, false, false), replacement, events);
      var (entries, source) := Dispatched(l.site, l.word, gatesOpen, handler);
      && (entries == 1 <==> l.stores >= 2 && l.word == replacement) && (entries == 0 || entries == 1)
      && (entries == 1 ==> l.site.originalAddr == l.bound != 0)
      && (entries == 0 ==> source == Fallback)
      && (l.installed && l.word == replacement ==> entries == 1)
      && (l.restoring && l.word == replacement ==> entries == 1)
  {
    LivedOk(word, replacement, events);
    var l := Lived(Life(Site(true, None, 0), word, 0, 0, false, false), replacement, events);
    DispatchEntersOnce(l.site, l.word, gatesOpen, handler);
  }

  /** A restore's swap, when nobody else has written the slot, ends the hook and nothing before it does. */
  lemma RestoreEndsAtSwap(l: Life, replacement: nat, gatesOpen: bool, handler: Handler)
    requires LifeOk(l, replacement) && l.installed && l.word == replacement != l.bound
    ensures var taken := Happened(l, replacement, TakeFlag);
      var back := Happened(taken, replacement, SwapBack);
      && Dispatched(taken.site, taken.word, gatesOpen, handler) == Dispatched(l.site, l.word, gatesOpen, handler)
      && Dispatched(taken.site, taken.word, gatesOpen, handler).0 == 1
      && back.word == l.bound && Dispatched(back.site, back.word, gatesOpen, handler) == (0, Fallback)
  {
    DispatchEntersOnce(l.site, l.word, gatesOpen, handler);
  }

  /** The slot is written only over a word that is still its own: the captured original by the installation, the
      replacement by a restore. A word anyone else has put there stays. */
  lemma ForeignWordsStay(l: Life, replacement: nat, e: Event)
    ensures var l1 := Happened(l, replacement, e);
      && (e.Foreign? ==> l1 == l.(word := e.word))
      && (!e.Foreign? && l1.word != l.word ==>
            || (e.NextStore? && l.word == l.bound != 0 && l1.word == replacement)
            || (e.SwapBack? && l.word == replacement && l1.word == l.bound))
  {
  }

  /** A whole installation, with the slot holding `before` at the swap and `after` at the readback: it is installed
      if and only if the swap finds the captured word and the readback the replacement. A lost swap writes nothing
      and leaves nothing to restore; a swap not read back is restored, if the replacement is there again. */
  lemma InstallationExactly(word: nat, replacement: nat, before: nat, after: nat)
    requires word != 0
    ensures var l := Lived(Life(Site(true, None, 0), word, 0, 0, false, false), replacement,
                           [Bind, NextStore, NextStore, Foreign(before), NextStore, Foreign(after), NextStore]);
      && l.site == Site(true, Some(replacement), word) && l.word == after
      && (l.installed <==> before == word && after == replacement)
      && (l.restoring <==> before == word && after != replacement)
      && (l.restoring ==> forall now: nat :: Happened(Happened(l, replacement, Foreign(now)), replacement, SwapBack).word
                                        == if now == replacement then word else now)
      && (before != word ==> forall e: Event :: !e.Foreign? ==> Happened(l, replacement, e) == l)
  {
    hide Happened;
    var l := Life(Site(true, None, 0), word, 0, 0, false, false);
    var events := [Bind, NextStore, NextStore, Foreign(before), NextStore, Foreign(after), NextStore];
    forall k | 0 < k <= 7
      ensures Lived(l, replacement, events[..k]) == Happened(Lived(l, replacement, events[..k - 1]), replacement, events[k - 1])
    {
      assert events[..k][..k - 1] == events[..k - 1];
    }
    assert events[..0] == [] && events[..7] == events;
    SevenStores(l, replacement, before, after, Lived(l, replacement, events[..1]), Lived(l, replacement, events[..2]),
                Lived(l, replacement, events[..3]), Lived(l, replacement, events[..4]), Lived(l, replacement, events[..5]),
                Lived(l, replacement, events[..6]), Lived(l, replacement, events));
  }

  lemma SevenStores(l0: Life, replacement: nat, before: nat, after: nat,
    l1: Life, l2: Life, l3: Life, l4: Life, l5: Life, l6: Life, l: Life)
    requires l0 == Life(Site(true, None, 0), l0.word, 0, 0, false, false) && l0.word != 0
    requires l1 == Happened(l0, replacement, Bind) && l2 == Happened(l1, replacement, NextStore)
    requires l3 == Happened(l2, replacement, NextStore) && l4 == Happened(l3, replacement, Foreign(before))
    requires l5 == Happened(l4, replacement, NextStore) && l6 == Happened(l5, replacement, Foreign(after))
    requires l == Happened(l6, replacement, NextStore)
    ensures l.site == Site(true, Some(replacement), l0.word) && l.word == after
    ensures l.installed <==> before == l0.word && after == replacement
    ensures l.restoring <==> before == l0.word && after != replacement
    ensures l.restoring ==> forall now: nat :: Happened(Happened(l, replacement, Foreign(now)), replacement, SwapBack).word
                                               == if now == replacement then l0.word else now
    ensures before != l0.word ==> forall e: Event :: !e.Foreign? ==> Happened(l, replacement, e) == l
  {
  }

  // The objects

  class SlotWord {
    var word: nat

    constructor (word: nat)
      ensures this.word == word
    {
      this.word := word;
    }
  }

  class HookSite {
    const slot: SlotWord
    var published: bool
    var active: Option<nat>
    var originalAddr: nat

    constructor (slot: SlotWord)
      ensures this.slot == slot && View() == Site(false, None, 0)
    {
      this.slot := slot;
      published, active, originalAddr := false, None, 0;
    }

    function View(): Site
      reads this
    {
      Site(published, active, originalAddr)
    }

    method Publish() returns (ok: bool)
      modifies this`published
      ensures published && ok == !old(published)
    {
      ok := !published;
      published := true;
    }

    /** Binds, stores what dispatch needs, then swaps. A site is installed at most once. */
    method InstallHook(replacement: nat) returns (ok: bool)
      modifies this`active, this`originalAddr, slot
      ensures old(published && active.None? && slot.word != 0) <==> ok
      ensures ok ==>
        Install(View(), slot.word) == InstalledTo(Install(old(View()), old(slot.word)), old(slot.word), replacement, 3)
      ensures !ok ==> slot.word == old(slot.word) && active == old(active)
      ensures old(SiteOk(View())) ==> SiteOk(View())
    {
      if !published {
        return false;
      }
      var original := slot.word;
      if original == 0 {
        return false;
      }
      originalAddr := original;
      if active.Some? {
        return false;
      }
      active := Some(replacement);
      slot.word := replacement;
      return true;
    }

    /** `entries` is how often the original was entered before the call returned or unwound. */
    method Dispatch(runtimeOpen: bool, pluginOpen: bool, handler: Handler) returns (entries: nat, source: Source)
      ensures (entries, source) == Dispatched(View(), slot.word, runtimeOpen && pluginOpen, handler)
      ensures entries == if published && active == Some(slot.word) && originalAddr != 0 then 1 else 0
    {
      ghost var open := runtimeOpen && pluginOpen;
      DispatchEntersOnce(View(), slot.word, open, handler);
      if !published || active.None? || slot.word != active.value || originalAddr == 0 {
        return 0, Fallback;
      }
      if !runtimeOpen || !pluginOpen {
        return 1, Passthrough;
      }
      var guard := new OriginalGuard();
      entries := 0;
      var escaped := false;
      var k := 0;
      while k < |handler.attempts| && !escaped
        invariant k <= |handler.attempts|
        invariant Handled(Call(guard.phase, entries, escaped), handler.attempts[k..])
                  == Handled(Call(BeforeOriginal, 0, false), handler.attempts)
      {
        assert handler.attempts[k..][1..] == handler.attempts[k + 1..];
        var a := handler.attempts[k];
        var granted := guard.BeginCall();
        if granted {
          entries := entries + 1;
          if a.unwinds {
            escaped := !a.caught;
          } else {
            guard.EndCall();
          }
        }
        k := k + 1;
      }
      if guard.NeedsOriginal() {
        return entries + 1, Passthrough;
      }
      return entries, if escaped || handler.panics then Fallback else HandlerResult;
    }
  }
}
