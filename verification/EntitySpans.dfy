/** Choosing which stretches of a text become entities. */
module EntitySpans {
  import opened Options
  import opened Templates

  predicate Overlap(a: Span, b: Span) { a.start < b.end && b.start < a.end }

  predicate Overlaps(span: Span, spans: seq<Span>) { exists other :: other in spans && Overlap(span, other) }

  predicate PairwiseDisjoint(spans: seq<Span>)
  {
    forall i, j :: 0 <= i < j < |spans| ==> !Overlap(spans[i], spans[j])
  }

  predicate InText(spans: seq<Span>, length: nat)
  {
    forall s :: s in spans ==> s.start < s.end <= length
  }

  /** The matches that touch nothing occupied. */
  function Unoccupied(matches: seq<Span>, occupied: seq<Span>): seq<Span>
  {
    if matches == [] then []
    else (if Overlaps(matches[0], occupied) then [] else [matches[0]]) + Unoccupied(matches[1..], occupied)
  }

  method AliasSpans(matches: seq<Span>, occupied: seq<Span>) returns (spans: seq<Span>)
    ensures spans == Unoccupied(matches, occupied)
  {
    hide Overlaps;
    spans := [];
    for k := 0 to |matches|
      invariant spans + Unoccupied(matches[k..], occupied) == Unoccupied(matches, occupied)
    {
      assert matches[k..][1..] == matches[k + 1..];
      var taken := !Overlaps(matches[k], occupied);
      ghost var rest := Unoccupied(matches[k + 1..], occupied);
      assert (spans + [matches[k]]) + rest == spans + ([matches[k]] + rest);
      if taken {
        spans := spans + [matches[k]];
      }
    }
  }

  /** Earlier start first, and of two with one start the shorter. */
  predicate NotAfter(a: Span, b: Span) { a.start < b.start || (a.start == b.start && a.end <= b.end) }

  function Insert(s: Span, sorted: seq<Span>): seq<Span>
  {
    if sorted == [] || NotAfter(s, sorted[0]) then [s] + sorted else [sorted[0]] + Insert(s, sorted[1..])
  }

  function Sorted(spans: seq<Span>): seq<Span>
    decreases |spans|
  {
    if spans == [] then [] else Insert(spans[0], Sorted(spans[1..]))
  }

  /** Takes each span in turn unless it touches something occupied or taken. */
  function Greedy(spans: seq<Span>, occupied: seq<Span>, selected: seq<Span>): seq<Span>
    decreases |spans|
  {
    if spans == [] then selected
    else if Overlaps(spans[0], occupied + selected) then Greedy(spans[1..], occupied, selected)
    else Greedy(spans[1..], occupied, selected + [spans[0]])
  }

  function SelectNonOverlapping(spans: seq<Span>, occupied: seq<Span>): seq<Span>
  {
    Greedy(Sorted(spans), occupied, [])
  }

  /** Cards first, then character names outside them, then events outside both; in text order. */
  function EntitySpansOf(cards: seq<Span>, names: seq<Span>, events: seq<Span>): seq<Span>
  {
    var occupied := cards + Unoccupied(names, cards);
    Sorted(occupied + SelectNonOverlapping(events, occupied))
  }

  // Sorting

  predicate InOrder(spans: seq<Span>) { forall i, j :: 0 <= i < j < |spans| ==> NotAfter(spans[i], spans[j]) }

  lemma {:induction false} InsertKeeps(s: Span, sorted: seq<Span>)
    requires InOrder(sorted)
    ensures InOrder(Insert(s, sorted)) && multiset(Insert(s, sorted)) == multiset(sorted) + multiset{s}
  {
    if sorted == [] {
    } else if NotAfter(s, sorted[0]) {
      HeadFirst(s, sorted);
    } else {
      var rest := Insert(s, sorted[1..]);
      assert sorted == [sorted[0]] + sorted[1..];
      InsertKeeps(s, sorted[1..]);
      forall i | 0 <= i < |rest| ensures NotAfter(sorted[0], rest[i]) {
        assert rest[i] in multiset(rest);
        assert rest[i] in sorted[1..] || rest[i] == s;
      }
      HeadFirst(sorted[0], rest);
    }
  }

  lemma HeadFirst(s: Span, rest: seq<Span>)
    requires InOrder(rest) && (rest != [] ==> NotAfter(s, rest[0]))
    ensures InOrder([s] + rest)
  {
    forall j | 0 <= j < |rest| ensures NotAfter(s, rest[j]) {
      assert j > 0 ==> NotAfter(rest[0], rest[j]);
    }
  }

  lemma {:induction false} SortKeeps(spans: seq<Span>)
    ensures InOrder(Sorted(spans)) && multiset(Sorted(spans)) == multiset(spans)
  {
    hide NotAfter, Insert;
    if spans != [] {
      SortKeeps(spans[1..]);
      InsertKeeps(spans[0], Sorted(spans[1..]));
      assert spans == [spans[0]] + spans[1..];
    }
  }

  /** Being apart is a property of the multiset. */
  predicate Apart(m: multiset<Span>)
  {
    forall a, b :: a in m && b in m && (a != b || m[a] > 1) ==> !Overlap(a, b)
  }

  lemma {:induction false} DisjointIsApart(spans: seq<Span>)
    ensures PairwiseDisjoint(spans) <==> Apart(multiset(spans))
  {
    if PairwiseDisjoint(spans) {
      forall a, b | a in multiset(spans) && b in multiset(spans) && (a != b || multiset(spans)[a] > 1) ensures !Overlap(a, b) {
        var i :| 0 <= i < |spans| && spans[i] == a;
        var j := if a != b then IndexOf(spans, b) else OtherIndex(spans, i);
        assert i < j || j < i;
      }
    } else {
      var i, j :| 0 <= i < j < |spans| && Overlap(spans[i], spans[j]);
      Twice(spans, i, j);
    }
  }

  function IndexOf(spans: seq<Span>, s: Span): (i: nat)
    requires s in spans
    ensures i < |spans| && spans[i] == s
  {
    if spans[0] == s then 0 else 1 + IndexOf(spans[1..], s)
  }

  /** Another place of an element that occurs twice. */
  function OtherIndex(spans: seq<Span>, i: nat): (j: nat)
    requires i < |spans| && multiset(spans)[spans[i]] > 1
    ensures j < |spans| && j != i && spans[j] == spans[i]
  {
    var rest := spans[..i] + spans[i + 1..];
    assert spans == spans[..i] + [spans[i]] + spans[i + 1..];
    assert multiset(spans) == multiset(rest) + multiset{spans[i]};
    assert spans[i] in multiset(rest);
    var k := IndexOf(rest, spans[i]);
    if k < i then k else k + 1
  }

  lemma Twice(spans: seq<Span>, i: nat, j: nat)
    requires i < j < |spans|
    ensures spans[i] in multiset(spans) && spans[j] in multiset(spans)
    ensures spans[i] == spans[j] ==> multiset(spans)[spans[i]] > 1
  {
    assert spans == spans[..j] + [spans[j]] + spans[j + 1..];
    assert spans[i] in spans[..j];
  }

  /** Non-empty spans in order and apart follow one another without overlap. */
  lemma {:induction false} InOrderIsOrdered(spans: seq<Span>, cursor: nat, length: nat)
    requires InOrder(spans) && PairwiseDisjoint(spans) && InText(spans, length) && cursor <= length
    requires spans != [] ==> cursor <= spans[0].start
    ensures Ordered(spans, cursor, length)
    decreases |spans|
  {
    if spans != [] {
      var rest := spans[1..];
      assert spans[0] in spans && forall s :: s in rest ==> s in spans;
      if rest != [] {
        assert NotAfter(spans[0], spans[1]) && !Overlap(spans[0], spans[1]) && spans[1] in spans;
      }
      InOrderIsOrdered(rest, spans[0].end, length);
    }
  }

  lemma {:induction false} OrderedIsDisjoint(spans: seq<Span>, cursor: nat, length: nat)
    requires Ordered(spans, cursor, length)
    ensures PairwiseDisjoint(spans) && InText(spans, length)
    ensures forall s :: s in spans ==> cursor <= s.start
    decreases |spans|
  {
    if spans != [] {
      OrderedIsDisjoint(spans[1..], spans[0].end, length);
      assert spans == [spans[0]] + spans[1..];
      forall i, j | 0 <= i < j < |spans| ensures !Overlap(spans[i], spans[j]) {
        assert spans[j] in spans[1..];
        if i > 0 {
          assert !Overlap(spans[1..][i - 1], spans[1..][j - 1]);
        }
      }
    }
  }

  // Selecting

  lemma {:induction false} UnoccupiedKeeps(matches: seq<Span>, occupied: seq<Span>)
    ensures var kept := Unoccupied(matches, occupied);
      && (forall s :: s in kept <==> s in matches && !Overlaps(s, occupied))
      && (PairwiseDisjoint(matches) ==> PairwiseDisjoint(kept))
    decreases |matches|
  {
    if matches != [] {
      UnoccupiedKeeps(matches[1..], occupied);
      var kept, rest := Unoccupied(matches, occupied), Unoccupied(matches[1..], occupied);
      assert matches == [matches[0]] + matches[1..];
      if PairwiseDisjoint(matches) {
        assert PairwiseDisjoint(matches[1..]) by {
          forall i, j | 0 <= i < j < |matches[1..]| ensures !Overlap(matches[1..][i], matches[1..][j]) {
            assert !Overlap(matches[i + 1], matches[j + 1]);
          }
        }
        forall j | 0 <= j < |rest| ensures !Overlap(matches[0], rest[j]) {
          assert rest[j] in matches[1..];
          var k := IndexOf(matches[1..], rest[j]);
          assert !Overlap(matches[0], matches[k + 1]);
        }
      }
    }
  }

  predicate AllApart(spans: seq<Span>, occupied: seq<Span>)
  {
    forall s :: s in spans ==> !Overlaps(s, occupied)
  }

  lemma {:induction false} GreedyKeeps(spans: seq<Span>, occupied: seq<Span>, selected: seq<Span>)
    requires PairwiseDisjoint(selected) && AllApart(selected, occupied)
    ensures var r := Greedy(spans, occupied, selected);
      && PairwiseDisjoint(r) && AllApart(r, occupied) && selected <= r
      && (forall s :: s in r ==> s in selected || s in spans)
      && (forall s :: s in spans ==> s in r || Overlaps(s, occupied + r))
    decreases |spans|
  {
    if spans != [] {
      var s, r := spans[0], Greedy(spans, occupied, selected);
      if Overlaps(s, occupied + selected) {
        GreedyKeeps(spans[1..], occupied, selected);
        var other :| other in occupied + selected && Overlap(s, other);
        assert other in occupied + r;
      } else {
        forall other | other in occupied ensures !Overlap(s, other) {
          assert other in occupied + selected;
        }
        forall i | 0 <= i < |selected| ensures !Overlap(selected[i], s) {
          assert selected[i] in occupied + selected && !Overlap(s, selected[i]);
        }
        GreedyKeeps(spans[1..], occupied, selected + [s]);
        assert s in selected + [s];
      }
    }
  }

  /** What greedy choice leaves out touches something occupied, or a chosen span that is not after it. */
  lemma {:induction false} GreedyPrefersEarlier(spans: seq<Span>, occupied: seq<Span>, selected: seq<Span>)
    requires InOrder(spans) && forall a, b :: a in selected && b in spans ==> NotAfter(a, b)
    ensures var r := Greedy(spans, occupied, selected);
      && (forall a :: a in selected ==> a in r)
      && forall s :: s in spans ==> s in r || Overlaps(s, occupied) || exists o :: o in r && Overlap(s, o) && NotAfter(o, s)
    decreases |spans|
  {
    hide NotAfter;
    if spans != [] {
      var s, r := spans[0], Greedy(spans, occupied, selected);
      assert spans == [s] + spans[1..];
      forall b | b in spans[1..] ensures NotAfter(s, b) {
        var k := IndexOf(spans[1..], b);
        assert NotAfter(spans[0], spans[k + 1]);
      }
      if Overlaps(s, occupied + selected) {
        GreedyPrefersEarlier(spans[1..], occupied, selected);
        var other :| other in occupied + selected && Overlap(s, other);
        assert other in occupied || other in r;
      } else {
        GreedyPrefersEarlier(spans[1..], occupied, selected + [s]);
        assert s in selected + [s];
      }
    }
  }

  lemma JoinDisjoint(a: seq<Span>, b: seq<Span>)
    requires PairwiseDisjoint(a) && PairwiseDisjoint(b) && AllApart(b, a)
    ensures PairwiseDisjoint(a + b)
  {
    forall i, j | 0 <= i < j < |a + b| ensures !Overlap((a + b)[i], (a + b)[j]) {
      if i < |a| <= j {
        assert a[i] in a && b[j - |a|] in b && !Overlap(b[j - |a|], a[i]);
      }
    }
  }

  /** The parts the chosen spans are made of, and that they are apart. */
  lemma PartsApart(cards: seq<Span>, names: seq<Span>, events: seq<Span>, length: nat)
    requires Ordered(cards, 0, length) && Ordered(names, 0, length)
    ensures var occupied := cards + Unoccupied(names, cards);
      var chosen := SelectNonOverlapping(events, occupied);
      && PairwiseDisjoint(occupied + chosen)
      && (forall s :: s in chosen ==> s in events)
      && forall s :: s in EntitySpansOf(cards, names, events) <==> s in occupied || s in chosen
  {
    hide Greedy, Unoccupied, Sorted, NotAfter;
    var kept := Unoccupied(names, cards);
    var occupied := cards + kept;
    var chosen := SelectNonOverlapping(events, occupied);
    OrderedIsDisjoint(cards, 0, length);
    OrderedIsDisjoint(names, 0, length);
    UnoccupiedKeeps(names, cards);
    JoinDisjoint(cards, kept);
    SortKeeps(events);
    SameMembers(Sorted(events), events);
    GreedyKeeps(Sorted(events), occupied, []);
    JoinDisjoint(occupied, chosen);
    SortKeeps(occupied + chosen);
    SameMembers(Sorted(occupied + chosen), occupied + chosen);
  }

  /** The chosen spans are in text order and apart, all of them found by a matcher. */
  lemma EntitySpansOrdered(cards: seq<Span>, names: seq<Span>, events: seq<Span>, length: nat)
    requires Ordered(cards, 0, length) && Ordered(names, 0, length) && InText(events, length)
    ensures var r := EntitySpansOf(cards, names, events);
      Ordered(r, 0, length) && forall s :: s in r ==> s in cards || s in names || s in events
  {
    hide SelectNonOverlapping, Unoccupied, Sorted, NotAfter;
    var occupied := cards + Unoccupied(names, cards);
    var all := occupied + SelectNonOverlapping(events, occupied);
    OrderedIsDisjoint(cards, 0, length);
    OrderedIsDisjoint(names, 0, length);
    UnoccupiedKeeps(names, cards);
    PartsApart(cards, names, events, length);
    SortKeeps(all);
    DisjointIsApart(all);
    DisjointIsApart(Sorted(all));
    InOrderIsOrdered(Sorted(all), 0, length);
  }

  /** Every card is chosen. A name is left out only where it touches a card, an event only where it touches a card,
      a chosen name, or a chosen event that is not after it. */
  lemma EntitySpansComplete(cards: seq<Span>, names: seq<Span>, events: seq<Span>, length: nat)
    requires Ordered(cards, 0, length) && Ordered(names, 0, length) && InText(events, length)
    ensures var r := EntitySpansOf(cards, names, events);
      && (forall s :: s in cards ==> s in r)
      && (forall s :: s in names ==> s in r || Overlaps(s, cards))
      && (forall s :: s in events ==>
            s in r || Overlaps(s, cards + Unoccupied(names, cards))
            || exists o :: o in r && o in events && Overlap(s, o) && (o.start < s.start || (o.start == s.start && o.end <= s.end)))
  {
    hide Greedy, Unoccupied, Sorted, EntitySpansOf, PairwiseDisjoint;
    var r := EntitySpansOf(cards, names, events);
    var occupied := cards + Unoccupied(names, cards);
    var chosen := SelectNonOverlapping(events, occupied);
    PartsApart(cards, names, events, length);
    UnoccupiedKeeps(names, cards);
    SortKeeps(events);
    SameMembers(Sorted(events), events);
    GreedyPrefersEarlier(Sorted(events), occupied, []);
    forall s | s in events && s !in r && !Overlaps(s, occupied)
      ensures exists o :: o in r && o in events && Overlap(s, o) && NotAfter(o, s)
    {
      assert s in Sorted(events);
      var o :| o in chosen && Overlap(s, o) && NotAfter(o, s);
      assert o in r && o in events;
    }
  }

  lemma SameMembers(a: seq<Span>, b: seq<Span>)
    requires multiset(a) == multiset(b)
    ensures forall s :: s in a <==> s in b
  {
    forall s ensures s in a <==> s in b {
      assert s in a <==> s in multiset(a);
      assert s in b <==> s in multiset(b);
    }
  }
}
