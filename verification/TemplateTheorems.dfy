/** From a text to its template and back, through the whole pipeline. */
module TemplateTheorems {
  import opened Options
  import opened Templates
  import opened TemplateRoundTrip
  import opened EntitySpans

  // The candidate of a text

  function EntityText(text: string, entities: seq<Span>): string
    requires Ordered(entities, 0, |text|)
  {
    Cut(text, entities, 0, map[])
  }

  function Template(text: string, entities: seq<Span>, scalars: seq<Span>): string
    requires Ordered(entities, 0, |text|) && Ordered(scalars, 0, |EntityText(text, entities)|)
  {
    Cut(EntityText(text, entities), scalars, 0, CutCounters(entities, map[]))
  }

  function Arguments(text: string, entities: seq<Span>, scalars: seq<Span>): map<string, Piece>
    requires Ordered(entities, 0, |text|) && Ordered(scalars, 0, |EntityText(text, entities)|)
  {
    CutArgs(EntityText(text, entities), scalars, 0, CutCounters(entities, map[]),
            CutArgs(text, entities, 0, map[], map[], true), false)
  }

  ghost predicate SpansOk(text: string, entities: seq<Span>, scalars: seq<Span>)
  {
    && Ordered(entities, 0, |text|)
    && Ordered(scalars, 0, |EntityText(text, entities)|) && AvoidsTokens(EntityText(text, entities), scalars)
  }

  /** The bindings give every token's argument. */
  predicate Binds(arguments: map<string, Piece>, index: Index, args: map<string, Arg>)
  {
    forall p :: p in arguments ==> p in args && ReplacementValue(index, args[p]) == Ok(arguments[p].source)
  }

  /** The template as items: what it is written as, what it means, and the argument of each token. */
  lemma TemplateItems(text: string, entities: seq<Span>, scalars: seq<Span>) returns (items: seq<Item>)
    requires SpansOk(text, entities, scalars)
    ensures Render(items) == Template(text, entities, scalars) && Plain(items) == text
    ensures TemplateRoundTrip.Bound(items, Arguments(text, entities, scalars))
    ensures |Tokens(items)| == |entities| + |scalars|
  {
    hide Render, Plain, Token, Offset, Cut, CutArgs, CutCounters, Mark;
    var chars := Chars(text);
    CharsOf(text);
    CharsPlaced(text, entities);
    CutIsMark(chars, entities, 0, map[]);
    MarkIsBound(chars, entities, 0, map[], map[], true);
    AtStart(chars);
    var first := Mark(chars, entities, 0, map[]);
    assert Render(first) == EntityText(text, entities);
    AtStart(first);
    var its := AvoidingSpansCoverChars(first, scalars, 0);
    var counters, args := CutCounters(entities, map[]), CutArgs(text, entities, 0, map[], map[], true);
    CutIsMark(first, its, 0, counters);
    MarkIsBound(first, its, 0, counters, args, false);
    items := Mark(first, its, 0, counters);
    assert first[0..] == first && chars[0..] == chars;
    MarkAddsTokens(chars, entities, 0, map[]);
    NoTokens(chars);
    MarkAddsTokens(first, its, 0, counters);
  }

  lemma AtStart(items: seq<Item>)
    ensures Offset(items, 0) == 0
  {
    assert items[..0] == [];
    NothingWritten();
  }

  /** In a text without tokens, item positions are character positions. */
  lemma CharsPlaced(text: string, spans: seq<Span>)
    requires Ordered(spans, 0, |text|)
    ensures CoverChars(Chars(text), spans) && Placed(Chars(text), spans) == spans
  {
    hide Render;
    OrderedIsDisjoint(spans, 0, |text|);
    forall j | 0 <= j <= |text| ensures Offset(Chars(text), j) == j {
      CharsRender(Chars(text)[..j]);
    }
    forall k | 0 <= k < |spans| ensures spans[k].start <= spans[k].end <= |text| {
      assert spans[k] in spans;
    }
    assert CoverChars(Chars(text), spans);
    forall k | 0 <= k < |spans| ensures Placed(Chars(text), spans)[k] == spans[k] {
    }
  }

  /** Replacing the template's placeholders by any arguments that resolve to what was cut out gives the text back. */
  lemma BoundRoundTrips(text: string, entities: seq<Span>, scalars: seq<Span>, order: seq<string>,
    index: Index, args: map<string, Arg>)
    requires Clean(text) && SpansOk(text, entities, scalars)
    requires Binds(Arguments(text, entities, scalars), index, args)
    requires forall i :: 0 <= i < |order| ==> order[i] != []
    requires forall p :: p in order <==> p in CustomPlaceholders(Template(text, entities, scalars))
    ensures ExpandUnit(index, Template(text, entities, scalars), order, args) == Ok(text)
  {
    hide Render, Plain, Token, Cut, CutArgs, AvoidsTokens, Clean, CustomPlaceholders, ReplaceAll;
    var items := TemplateItems(text, entities, scalars);
    PlaceholdersAreTokens(items);
    OrderCovers(items, order);
    BoundResolves(items, Arguments(text, entities, scalars), index, args);
    ExpandGivesPlain(items, order, index, args, items);
  }

  // What is stored

  /** The hashes that name entities and units in the catalog. */
  datatype Ids = Ids(entity: (Kind, string) -> string, unit: string -> string)

  /** The arguments as they are stored: an entity by its id, a literal as it is. */
  function StoredArgs(pieces: map<string, Piece>, ids: Ids): map<string, Arg>
  {
    map p | p in pieces ::
      match pieces[p]
      case EntityPiece(kind, source) => Entity(ids.entity(kind, source))
      case LiteralPiece(source) => Literal(source)
  }

  /** The catalog's index finds every entity cut out under its id. */
  predicate Catalogued(pieces: map<string, Piece>, index: Index, ids: Ids)
  {
    forall p :: p in pieces && pieces[p].EntityPiece? ==>
      var id := ids.entity(pieces[p].kind, pieces[p].source);
      id in index && index[id] == EntityEntry(id, pieces[p].kind, pieces[p].source)
  }

  lemma StoredBinds(pieces: map<string, Piece>, index: Index, ids: Ids)
    requires Catalogued(pieces, index, ids)
    ensures Binds(pieces, index, StoredArgs(pieces, ids))
  {
  }

  /** For every text without the reserved prefix, and every choice of entity spans and of scalar spans that avoid
      the tokens: replacing the template's placeholders, in any order and however often, by the stored arguments
      gives the text back exactly, as long as the index knows the entities. */
  lemma TemplateRoundTrips(text: string, entities: seq<Span>, scalars: seq<Span>, order: seq<string>, index: Index, ids: Ids)
    requires Clean(text) && SpansOk(text, entities, scalars)
    requires Catalogued(Arguments(text, entities, scalars), index, ids)
    requires forall i :: 0 <= i < |order| ==> order[i] != []
    requires forall p :: p in order <==> p in CustomPlaceholders(Template(text, entities, scalars))
    ensures ExpandUnit(index, Template(text, entities, scalars), order, StoredArgs(Arguments(text, entities, scalars), ids))
            == Ok(text)
  {
    hide Cut, CutArgs, CutCounters, Clean, AvoidsTokens, CustomPlaceholders, Catalogued, StoredArgs, Binds, ExpandUnit;
    StoredBinds(Arguments(text, entities, scalars), index, ids);
    BoundRoundTrips(text, entities, scalars, order, index, StoredArgs(Arguments(text, entities, scalars), ids));
  }

  /** A text in which only literals were found needs no catalog at all. */
  lemma LiteralsRoundTrip(text: string, scalars: seq<Span>, order: seq<string>, ids: Ids)
    requires Clean(text) && SpansOk(text, [], scalars)
    requires forall i :: 0 <= i < |order| ==> order[i] != []
    requires forall p :: p in order <==> p in CustomPlaceholders(Template(text, [], scalars))
    ensures var args := map p | p in Arguments(text, [], scalars) :: Literal(Arguments(text, [], scalars)[p].source);
      ExpandUnit(map[], Template(text, [], scalars), order, args) == Ok(text)
  {
    hide Clean, CustomPlaceholders, ExpandUnit, Template, AvoidsTokens;
    var args := map p | p in Arguments(text, [], scalars) :: Literal(Arguments(text, [], scalars)[p].source);
    assert Binds(Arguments(text, [], scalars), map[], args);
    BoundRoundTrips(text, [], scalars, order, map[], args);
  }

  // What is cut out

  function Count(spans: seq<Span>, kind: Kind): nat
  {
    if spans == [] then 0 else Count(spans[..|spans| - 1], kind) + (if spans[|spans| - 1].kind == kind then 1 else 0)
  }

  lemma {:induction false} CountFirst(spans: seq<Span>, kind: Kind)
    requires spans != []
    ensures Count(spans, kind) == (if spans[0].kind == kind then 1 else 0) + Count(spans[1..], kind)
    decreases |spans|
  {
    var n := |spans| - 1;
    if n > 0 {
      CountFirst(spans[..n], kind);
      assert spans[..n][1..] == spans[1..][..n - 1];
    }
  }

  lemma {:induction false} CountersCount(spans: seq<Span>, counters: Counters, kind: Kind)
    ensures Next(CutCounters(spans, counters), kind) == Next(counters, kind) + Count(spans, kind)
    decreases |spans|
  {
    if spans != [] {
      CountFirst(spans, kind);
      CountersCount(spans[1..], Bumped(counters, spans[0].kind), kind);
    }
  }

  /** The token of span `k`: its index counts the spans of its kind before it, here and in `before`. */
  function OwnToken(before: seq<Span>, spans: seq<Span>, k: nat): string
    requires k < |spans|
  {
    Token(spans[k].kind, Count(before, spans[k].kind) + Count(spans[..k], spans[k].kind))
  }

  ghost predicate Counts(counters: Counters, before: seq<Span>)
  {
    forall kind :: Next(counters, kind) == Count(before, kind)
  }

  lemma CountsOn(counters: Counters, before: seq<Span>, s: Span)
    requires Counts(counters, before)
    ensures Counts(Bumped(counters, s.kind), before + [s])
  {
    assert (before + [s])[..|before|] == before;
  }

  lemma OwnTokenShifts(before: seq<Span>, spans: seq<Span>, k: nat)
    requires k < |spans| - 1
    ensures OwnToken(before + [spans[0]], spans[1..], k) == OwnToken(before, spans, k + 1)
  {
    var kind := spans[k + 1].kind;
    assert (before + [spans[0]])[..|before|] == before;
    assert spans[..k + 1][1..] == spans[1..][..k];
    CountFirst(spans[..k + 1], kind);
  }

  /** Every span is kept under its token, with the text it covers. */
  lemma {:induction false} PieceOfSpan(text: string, spans: seq<Span>, cursor: nat, counters: Counters,
    args: map<string, Piece>, entity: bool, before: seq<Span>, k: nat)
    requires Ordered(spans, cursor, |text|) && k < |spans| && Counts(counters, before)
    ensures spans[k].start < spans[k].end <= |text|
    ensures var s, token, all := spans[k], OwnToken(before, spans, k), CutArgs(text, spans, cursor, counters, args, entity);
      token in all && all[token] == PieceOf(s.kind, text[s.start..s.end], entity)
    decreases |spans|
  {
    hide Token, Count;
    var s := spans[0];
    var c1 := Bumped(counters, s.kind);
    var args1 := args[Token(s.kind, Next(counters, s.kind)) := PieceOf(s.kind, text[s.start..s.end], entity)];
    if k == 0 {
      NoneBefore(spans, s.kind);
      EarlierArgsStay(text, spans[1..], s.end, c1, args1, entity, s.kind, Next(counters, s.kind));
    } else {
      CountsOn(counters, before, s);
      PieceOfSpan(text, spans[1..], s.end, c1, args1, entity, before + [s], k - 1);
      OwnTokenShifts(before, spans, k - 1);
    }
  }

  lemma NoneBefore(spans: seq<Span>, kind: Kind)
    ensures Count(spans[..0], kind) == 0
  {
  }

  ghost predicate OwnsToken(before: seq<Span>, spans: seq<Span>, p: string)
  {
    exists k: nat :: k < |spans| && p == OwnToken(before, spans, k)
  }

  /** Nothing else is kept. */
  lemma {:induction false} PiecesOnly(text: string, spans: seq<Span>, cursor: nat, counters: Counters,
    args: map<string, Piece>, entity: bool, before: seq<Span>)
    requires Ordered(spans, cursor, |text|) && Counts(counters, before)
    ensures forall p :: p in CutArgs(text, spans, cursor, counters, args, entity) ==> p in args || OwnsToken(before, spans, p)
    decreases |spans|
  {
    hide Token, Count, OwnToken, Counts;
    if spans != [] {
      var s := spans[0];
      var first := Token(s.kind, Next(counters, s.kind));
      var args1 := args[first := PieceOf(s.kind, text[s.start..s.end], entity)];
      CountsOn(counters, before, s);
      PiecesOnly(text, spans[1..], s.end, Bumped(counters, s.kind), args1, entity, before + [s]);
      OpeningToken(before, spans, counters);
      forall p | p in CutArgs(text, spans, cursor, counters, args, entity) && p !in args ensures OwnsToken(before, spans, p) {
        if p != first {
          assert p !in args1 && OwnsToken(before + [s], spans[1..], p);
          var j: nat :| j < |spans[1..]| && p == OwnToken(before + [s], spans[1..], j);
          OwnTokenShifts(before, spans, j);
          assert p == OwnToken(before, spans, j + 1);
        }
      }
    }
  }

  lemma OpeningToken(before: seq<Span>, spans: seq<Span>, counters: Counters)
    requires spans != [] && Counts(counters, before)
    ensures OwnToken(before, spans, 0) == Token(spans[0].kind, Next(counters, spans[0].kind))
  {
    hide Token;
    NoneBefore(spans, spans[0].kind);
  }

  lemma EntitiesCounted(entities: seq<Span>)
    ensures Counts(map[], []) && Counts(CutCounters(entities, map[]), entities)
  {
    forall kind ensures Next(CutCounters(entities, map[]), kind) == Count(entities, kind) {
      CountersCount(entities, map[], kind);
    }
  }

  /** The arguments are the spans: entities under tokens counted per kind from zero, scalars counting on, each with
      the text it covered, and nothing else. */
  lemma ArgumentsAreSpans(text: string, entities: seq<Span>, scalars: seq<Span>)
    requires Ordered(entities, 0, |text|) && Ordered(scalars, 0, |EntityText(text, entities)|)
    ensures forall k: nat :: k < |entities| ==> EntityKept(text, entities, scalars, k)
    ensures forall k: nat :: k < |scalars| ==> ScalarKept(text, entities, scalars, k)
    ensures forall p :: p in Arguments(text, entities, scalars) ==> OwnsToken([], entities, p) || OwnsToken(entities, scalars, p)
  {
    hide Token, Cut, CutArgs, OwnToken, Counts;
    var marked, counters := EntityText(text, entities), CutCounters(entities, map[]);
    var args := CutArgs(text, entities, 0, map[], map[], true);
    EntitiesCounted(entities);
    forall k: nat | k < |entities| ensures EntityKept(text, entities, scalars, k) {
      PieceOfSpan(text, entities, 0, map[], map[], true, [], k);
      EntityTokenStays(marked, entities, scalars, args, k);
    }
    forall k: nat | k < |scalars| ensures ScalarKept(text, entities, scalars, k) {
      PieceOfSpan(marked, scalars, 0, counters, args, false, entities, k);
    }
    PiecesOnly(text, entities, 0, map[], map[], true, []);
    PiecesOnly(marked, scalars, 0, counters, args, false, entities);
  }

  predicate EntityKept(text: string, entities: seq<Span>, scalars: seq<Span>, k: nat)
    requires Ordered(entities, 0, |text|) && Ordered(scalars, 0, |EntityText(text, entities)|) && k < |entities|
  {
    var s, token, all := entities[k], OwnToken([], entities, k), Arguments(text, entities, scalars);
    && s.start < s.end <= |text|
    && token in all && all[token] == EntityPiece(s.kind, text[s.start..s.end])
  }

  predicate ScalarKept(text: string, entities: seq<Span>, scalars: seq<Span>, k: nat)
    requires Ordered(entities, 0, |text|) && Ordered(scalars, 0, |EntityText(text, entities)|) && k < |scalars|
  {
    var s, token, all := scalars[k], OwnToken(entities, scalars, k), Arguments(text, entities, scalars);
    && s.start < s.end <= |EntityText(text, entities)|
    && token in all && all[token] == LiteralPiece(EntityText(text, entities)[s.start..s.end])
  }

  lemma EntityTokenStays(marked: string, entities: seq<Span>, scalars: seq<Span>, args: map<string, Piece>, k: nat)
    requires Ordered(scalars, 0, |marked|) && k < |entities| && OwnToken([], entities, k) in args
    ensures var token, all := OwnToken([], entities, k), CutArgs(marked, scalars, 0, CutCounters(entities, map[]), args, false);
      token in all && all[token] == args[token]
  {
    hide Token, CutArgs;
    var kind := entities[k].kind;
    CountersCount(entities, map[], kind);
    CountMonotone(entities, k, kind);
    EarlierArgsStay(marked, scalars, 0, CutCounters(entities, map[]), args, false, kind, Count(entities[..k], kind));
  }

  lemma {:induction false} CountMonotone(spans: seq<Span>, k: nat, kind: Kind)
    requires k < |spans| && spans[k].kind == kind
    ensures Count(spans[..k], kind) < Count(spans, kind)
    decreases |spans|
  {
    var n := |spans| - 1;
    if k < n {
      CountMonotone(spans[..n], k, kind);
      assert spans[..n][..k] == spans[..k];
    }
  }

  lemma {:induction false} TokensAppend(a: seq<Item>, b: seq<Item>)
    ensures Tokens(a + b) == Tokens(a) + Tokens(b)
    decreases |a|
  {
    hide Token;
    if a == [] {
      assert a + b == b;
    } else {
      TokensAppend(a[1..], b);
      assert (a + b)[1..] == a[1..] + b;
    }
  }

  /** Marking adds one token for each span of characters. */
  lemma {:induction false} MarkAddsTokens(items: seq<Item>, spans: seq<Span>, cursor: nat, counters: Counters)
    requires Ordered(spans, cursor, |items|) && CoverChars(items, spans)
    ensures |Tokens(Mark(items, spans, cursor, counters))| == |Tokens(items[cursor..])| + |spans|
    decreases |spans|
  {
    hide Token, Plain;
    if spans != [] {
      var s, rest := spans[0], Mark(items, spans[1..], spans[0].end, Bumped(counters, spans[0].kind));
      MarkAddsTokens(items, spans[1..], s.end, Bumped(counters, s.kind));
      var token := T(s.kind, Next(counters, s.kind), Plain(items[s.start..s.end]));
      TokensAppend(items[cursor..s.start] + [token], rest);
      TokensAppend(items[cursor..s.start], [token]);
      assert [token][1..] == [];
      assert items[cursor..] == items[cursor..s.start] + (items[s.start..s.end] + items[s.end..]);
      TokensAppend(items[cursor..s.start], items[s.start..s.end] + items[s.end..]);
      TokensAppend(items[s.start..s.end], items[s.end..]);
      NoTokens(items[s.start..s.end]);
    }
  }

  lemma BoundResolves(items: seq<Item>, arguments: map<string, Piece>, index: Index, args: map<string, Arg>)
    requires TemplateRoundTrip.Bound(items, arguments) && Binds(arguments, index, args)
    ensures Resolves(items, index, args)
  {
    hide Token;
    forall item | item in items && item.T?
      ensures Written(item) in args && ReplacementValue(index, args[Written(item)]) == Ok(item.value)
    {
      var i :| 0 <= i < |items| && items[i] == item;
      assert Written(items[i]) in arguments;
    }
  }

  lemma OrderCovers(items: seq<Item>, order: seq<string>)
    requires forall p :: p in order <==> p in Tokens(items)
    ensures AreTokens(order, items) && forall item | item in items && item.T? :: Written(item) in order
  {
    hide Token;
    TokensListed(items);
    forall item | item in items && item.T? ensures Written(item) in order {
      assert Written(item) in Tokens(items);
    }
  }

  lemma {:induction false} TokensListed(items: seq<Item>)
    ensures forall p :: p in Tokens(items) <==> exists item :: item in items && item.T? && Written(item) == p
  {
    hide Token;
    if items != [] {
      TokensListed(items[1..]);
      forall item | item in items && item.T? ensures Written(item) in Tokens(items) {
        assert item == items[0] || (item in items[1..] && Written(item) in Tokens(items[1..]));
      }
      forall p | p in Tokens(items) ensures exists item :: item in items && item.T? && Written(item) == p {
        if p in Tokens(items[1..]) {
          var item :| item in items[1..] && item.T? && Written(item) == p;
          assert item in items;
        } else {
          assert items[0] in items;
        }
      }
    }
  }

  // A record and its rebuilding

  /** A unit's source and arguments, as a record is stored: a template nobody else shares is not used. */
  datatype Stored = Stored(source: string, args: map<string, Arg>)

  function MaterialRecord(text: string, entities: seq<Span>, scalars: seq<Span>, ids: Ids, qualified: bool): Stored
    requires Ordered(entities, 0, |text|) && Ordered(scalars, 0, |EntityText(text, entities)|)
  {
    if qualified then Stored(Template(text, entities, scalars), StoredArgs(Arguments(text, entities, scalars), ids))
    else Stored(text, map[])
  }

  /** What validation checks of every slot: the stored unit expands to the text it came from. A qualified record
      is stored as its template, with a placeholder for every span and an argument for every placeholder; any
      other as its text, with none. */
  lemma RecordRebuilds(text: string, entities: seq<Span>, scalars: seq<Span>, index: Index, ids: Ids, qualified: bool)
    requires Clean(text) && SpansOk(text, entities, scalars)
    requires qualified ==> Catalogued(Arguments(text, entities, scalars), index, ids)
    ensures var stored := MaterialRecord(text, entities, scalars, ids, qualified);
      var placeholders := CustomPlaceholders(stored.source);
      && ExpandUnit(index, stored.source, placeholders, stored.args) == Ok(text)
      && stored.source == (if qualified then Template(text, entities, scalars) else text)
      && |placeholders| == (if qualified then |entities| + |scalars| else 0)
      && forall p :: p in placeholders ==> p in stored.args
  {
    hide Clean, CustomPlaceholders, Cut, CutArgs, CutCounters, AvoidsTokens, Catalogued, ReplacementValue, ReplaceAll;
    if qualified {
      TemplateRoundTrips(text, entities, scalars, CustomPlaceholders(Template(text, entities, scalars)), index, ids);
      TemplatePlaceholders(text, entities, scalars);
    } else {
      CharsOf(text);
      PlaceholdersAreTokens(Chars(text));
      NoTokens(Chars(text));
    }
  }

  /** A template has one placeholder for each span, and each has its argument. */
  lemma TemplatePlaceholders(text: string, entities: seq<Span>, scalars: seq<Span>)
    requires Clean(text) && SpansOk(text, entities, scalars)
    ensures var placeholders := CustomPlaceholders(Template(text, entities, scalars));
      |placeholders| == |entities| + |scalars| && forall p :: p in placeholders ==> p in Arguments(text, entities, scalars)
  {
    hide Render, Plain, Token, Offset, Cut, CutArgs, CutCounters, Mark, CustomPlaceholders, Clean;
    var items := TemplateItems(text, entities, scalars);
    PlaceholdersAreTokens(items);
    TokensListed(items);
    forall p | p in Tokens(items) ensures p in Arguments(text, entities, scalars) {
      var item :| item in items && item.T? && Written(item) == p;
      var i :| 0 <= i < |items| && items[i] == item;
      assert Written(items[i]) in Arguments(text, entities, scalars);
    }
  }

  lemma {:induction false} NoTokens(items: seq<Item>)
    requires AllChars(items)
    ensures Tokens(items) == []
  {
    if items != [] {
      NoTokens(items[1..]);
    }
  }

  /** The binding has an argument for the placeholder, and an entity it names is an entity of the catalog. */
  predicate Answered(index: Index, args: map<string, Arg>, placeholder: string)
  {
    placeholder in args
    && (args[placeholder].Literal? || (args[placeholder].id in index && index[args[placeholder].id].EntityEntry?))
  }

  predicate AnsweredUpTo(index: Index, args: map<string, Arg>, placeholders: seq<string>, k: nat)
    requires k <= |placeholders|
  {
    forall i :: 0 <= i < k ==> Answered(index, args, placeholders[i])
  }

  /** Expanding succeeds if and only if every placeholder is answered; otherwise it is the error of the first that is
      not, never a text. */
  lemma {:induction false} ExpandFailsExactly(index: Index, text: string, placeholders: seq<string>, args: map<string, Arg>)
    returns (k: nat)
    requires forall i :: 0 <= i < |placeholders| ==> placeholders[i] != []
    ensures k <= |placeholders| && AnsweredUpTo(index, args, placeholders, k)
    ensures k < |placeholders| ==> !Answered(index, args, placeholders[k])
    ensures ExpandUnit(index, text, placeholders, args).Ok? <==> AnsweredUpTo(index, args, placeholders, |placeholders|)
    ensures k < |placeholders| ==>
      ExpandUnit(index, text, placeholders, args)
      == Err(if placeholders[k] !in args then MissingArgument(placeholders[k]) else NotAnEntity(args[placeholders[k]].id))
    decreases |placeholders|
  {
    hide ReplaceAll;
    k := 0;
    if placeholders != [] && Answered(index, args, placeholders[0]) {
      var p, rest := placeholders[0], placeholders[1..];
      var j := ExpandFailsExactly(index, ReplaceAll(text, p, ReplacementValue(index, args[p]).text), rest, args);
      k := j + 1;
      forall i | 0 <= i < k ensures Answered(index, args, placeholders[i]) {
        assert i > 0 ==> Answered(index, args, rest[i - 1]);
      }
    }
  }

  // The loops over protected matches

  lemma {:induction false} ShiftedOrdered(spans: seq<Span>, cursor: nat, length: nat, d: nat)
    requires Ordered(spans, cursor, length)
    ensures Ordered(Shifted(spans, d), cursor + d, length + d)
    decreases |spans|
  {
    if spans != [] {
      ShiftedOrdered(spans[1..], spans[0].end, length, d);
      assert Shifted(spans, d)[1..] == Shifted(spans[1..], d);
    }
  }

  lemma {:induction false} OrderedJoin(a: seq<Span>, b: seq<Span>, cursor: nat, mid: nat, length: nat)
    requires Ordered(a, cursor, mid) && Ordered(b, mid, length)
    ensures Ordered(a + b, cursor, length)
    decreases |a|
  {
    if a == [] {
      assert a + b == b;
      OrderedFrom(b, cursor, mid, length);
    } else {
      OrderedJoin(a[1..], b, a[0].end, mid, length);
      assert (a + b)[1..] == a[1..] + b;
    }
  }

  lemma OrderedFrom(b: seq<Span>, cursor: nat, mid: nat, length: nat)
    requires Ordered(b, mid, length) && cursor <= mid
    ensures Ordered(b, cursor, length)
  {
  }

  lemma {:induction false} OutsideOrdered(text: string, protected: seq<Span>, cursor: nat, matches: string -> seq<Span>)
    requires Ordered(protected, cursor, |text|) && IsMatcher(matches)
    ensures Ordered(Outside(text, protected, cursor, matches), cursor, |text|)
    decreases |protected|
  {
    if protected == [] {
      ShiftedOrdered(matches(text[cursor..]), 0, |text| - cursor, cursor);
    } else {
      hide Ordered, Shifted;
      var p := protected[0];
      OrderedEnds(protected, cursor, |text|);
      var own := Shifted(matches(text[cursor..p.start]), cursor);
      ShiftedOrdered(matches(text[cursor..p.start]), 0, p.start - cursor, cursor);
      OutsideOrdered(text, protected[1..], p.end, matches);
      var rest := Outside(text, protected[1..], p.end, matches);
      OrderedFrom(rest, p.start, p.end, |text|);
      OrderedJoin(own, rest, cursor, p.start, |text|);
    }
  }

  lemma StretchHead(text: string, a: nat, b: nat, spans: seq<Span>, r: nat, rest: seq<Span>)
    requires a <= b <= |text| && Ordered(spans, r, b - a) && Ordered(rest, b, |text|)
    ensures Ordered(Shifted(spans, a) + rest, a + r, |text|)
    ensures spans == [] ==> Shifted(spans, a) + rest == rest
    ensures spans != [] ==>
      var s, whole := spans[0], Shifted(spans, a) + rest;
      && whole != [] && whole[0] == Span(s.start + a, s.end + a, s.kind)
      && whole[1..] == Shifted(spans[1..], a) + rest
      && text[a..b][s.start..s.end] == text[s.start + a..s.end + a]
      && text[a..b][r..s.start] == text[a + r..s.start + a]
  {
    hide Ordered;
    ShiftedOrdered(spans, r, b - a, a);
    OrderedJoin(Shifted(spans, a), rest, a + r, b, |text|);
    if spans == [] {
      assert Shifted(spans, a) + rest == rest;
    } else {
      var s, whole := spans[0], Shifted(spans, a) + rest;
      assert whole[1..] == Shifted(spans[1..], a) + rest;
      OrderedEnds(spans, r, b - a);
      SliceOfSlice(text, a, b, s.start, s.end);
      SliceOfSlice(text, a, b, r, s.start);
    }
  }

  lemma OrderedEnds(spans: seq<Span>, cursor: nat, length: nat)
    requires spans != [] && Ordered(spans, cursor, length)
    ensures cursor <= spans[0].start < spans[0].end <= length && Ordered(spans[1..], spans[0].end, length)
  {
  }

  lemma OrderedCursor(spans: seq<Span>, cursor: nat, length: nat)
    requires Ordered(spans, cursor, length)
    ensures cursor <= length
  {
  }

  lemma SliceOfSlice(text: string, a: nat, b: nat, i: nat, j: nat)
    requires a <= b <= |text| && i <= j <= b - a
    ensures text[a..b][i..j] == text[a + i..a + j]
  {
    forall k | 0 <= k < j - i ensures text[a..b][i..j][k] == text[a + i..a + j][k] {
      assert text[a..b][i + k] == text[a + i + k];
    }
  }

  lemma CutOpens(text: string, spans: seq<Span>, cursor: nat, counters: Counters)
    requires spans != [] && Ordered(spans, cursor, |text|)
    ensures var s := spans[0];
      Cut(text, spans, cursor, counters)
      == text[cursor..s.start] + Token(s.kind, Next(counters, s.kind)) + Cut(text, spans[1..], s.end, Bumped(counters, s.kind))
  {
  }

  lemma CutNothing(text: string, cursor: nat, counters: Counters, args: map<string, Piece>)
    requires cursor <= |text|
    ensures Cut(text, [], cursor, counters) == text[cursor..] && CutArgs(text, [], cursor, counters, args, false) == args
  {
  }

  /** Cutting a text stretch by stretch is cutting it with all the spans at their place in the whole. */
  lemma {:induction false} CutStretch(text: string, a: nat, b: nat, spans: seq<Span>, r: nat, rest: seq<Span>, counters: Counters)
    requires a <= b <= |text| && Ordered(spans, r, b - a) && Ordered(rest, b, |text|)
    ensures Ordered(Shifted(spans, a) + rest, a + r, |text|)
    ensures Cut(text, Shifted(spans, a) + rest, a + r, counters)
            == Cut(text[a..b], spans, r, counters) + Cut(text, rest, b, CutCounters(spans, counters))
    decreases |spans|
  {
    hide Token, Next, Bumped, Shifted, Cut;
    StretchHead(text, a, b, spans, r, rest);
    if spans == [] {
      CutFrom(text, rest, a + r, b, counters, map[]);
      CutNothing(text[a..b], r, counters, map[]);
      SliceOfSlice(text, a, b, r, b - a);
    } else {
      var s := spans[0];
      var token, counters1 := Token(s.kind, Next(counters, s.kind)), Bumped(counters, s.kind);
      CutStretch(text, a, b, spans[1..], s.end, rest, counters1);
      CutOpens(text[a..b], spans, r, counters);
      CutOpens(text, Shifted(spans, a) + rest, a + r, counters);
      var own, tail := Cut(text[a..b], spans[1..], s.end, counters1), Cut(text, rest, b, CutCounters(spans, counters));
      var gap := text[a + r..s.start + a];
      assert gap + token + (own + tail) == (gap + token + own) + tail;
    }
  }

  lemma {:induction false} ArgsStretch(text: string, a: nat, b: nat, spans: seq<Span>, r: nat, rest: seq<Span>,
    counters: Counters, args: map<string, Piece>)
    requires a <= b <= |text| && Ordered(spans, r, b - a) && Ordered(rest, b, |text|)
    ensures Ordered(Shifted(spans, a) + rest, a + r, |text|)
    ensures CutArgs(text, Shifted(spans, a) + rest, a + r, counters, args, false)
            == CutArgs(text, rest, b, CutCounters(spans, counters), CutArgs(text[a..b], spans, r, counters, args, false), false)
    decreases |spans|
  {
    hide Token, Next, Bumped, Shifted;
    StretchHead(text, a, b, spans, r, rest);
    if spans == [] {
      CutFrom(text, rest, a + r, b, counters, args);
    } else {
      var s := spans[0];
      ArgsStretch(text, a, b, spans[1..], s.end, rest, Bumped(counters, s.kind),
                  args[Token(s.kind, Next(counters, s.kind)) := LiteralPiece(text[s.start + a..s.end + a])]);
    }
  }

  /** Nothing to cut before `b`: the text up to it is copied. */
  lemma CutFrom(text: string, spans: seq<Span>, a: nat, b: nat, counters: Counters, args: map<string, Piece>)
    requires a <= b && Ordered(spans, b, |text|)
    ensures Ordered(spans, a, |text|)
    ensures Cut(text, spans, a, counters) == text[a..b] + Cut(text, spans, b, counters)
    ensures CutArgs(text, spans, a, counters, args, false) == CutArgs(text, spans, b, counters, args, false)
  {
    hide Token, Next, Bumped, Cut;
    if spans == [] {
      CutNothing(text, a, counters, args);
      CutNothing(text, b, counters, args);
      assert text[a..] == text[a..b] + text[b..];
    } else {
      var s := spans[0];
      CutOpens(text, spans, a, counters);
      CutOpens(text, spans, b, counters);
      var token, rest := Token(s.kind, Next(counters, s.kind)), Cut(text, spans[1..], s.end, Bumped(counters, s.kind));
      assert text[a..s.start] == text[a..b] + text[b..s.start];
      Regroup(text[a..b], text[b..s.start], token, rest);
    }
  }

  lemma Regroup(w: string, x: string, y: string, z: string)
    ensures (w + x) + y + z == w + (x + y + z)
  {
  }

  /** Scalars are cut out of the stretches between protected matches, which are copied as they are. */
  method NormalizeScalars(text: string, protected: seq<Span>, matches: string -> seq<Span>,
    counters: Counters, args: map<string, Piece>)
    returns (template: string, args1: map<string, Piece>)
    requires Ordered(protected, 0, |text|) && IsMatcher(matches)
    ensures Ordered(Outside(text, protected, 0, matches), 0, |text|)
    ensures template == Cut(text, Outside(text, protected, 0, matches), 0, counters)
    ensures args1 == CutArgs(text, Outside(text, protected, 0, matches), 0, counters, args, false)
  {
    hide Cut, CutArgs, CutCounters, Outside, Ordered;
    OutsideOrdered(text, protected, 0, matches);
    OrderedCursor(protected, 0, |text|);
    template, args1 := "", args;
    var counters1, cursor: nat := counters, 0;
    ghost var whole := Outside(text, protected, 0, matches);
    for k := 0 to |protected|
      invariant Ordered(protected[k..], cursor, |text|) && cursor <= |text|
      invariant Ordered(Outside(text, protected[k..], cursor, matches), cursor, |text|)
      invariant template + Cut(text, Outside(text, protected[k..], cursor, matches), cursor, counters1)
                == Cut(text, whole, 0, counters)
      invariant CutArgs(text, Outside(text, protected[k..], cursor, matches), cursor, counters1, args1, false)
                == CutArgs(text, whole, 0, counters, args, false)
    {
      var p := protected[k];
      assert protected[k..][1..] == protected[k + 1..];
      OrderedEnds(protected[k..], cursor, |text|);
      var stretch := text[cursor..p.start];
      ghost var before, rest := template, Outside(text, protected[k + 1..], p.end, matches);
      StretchAndRest(text, protected[k..], cursor, matches, counters1, args1);
      var plain, counters2, args2 := ReplaceSpans(stretch, matches(stretch), counters1, args1, false);
      template := template + plain + text[p.start..p.end];
      ghost var tail := Cut(text, rest, p.end, counters2);
      Regroup(before, plain, text[p.start..p.end], tail);
      assert plain + (text[p.start..p.end] + tail) == plain + text[p.start..p.end] + tail;
      counters1, args1 := counters2, args2;
      cursor := p.end;
    }
    assert protected[|protected|..] == [];
    LastStretch(text, cursor, matches, counters1, args1);
    var stretch := text[cursor..];
    var plain, counters2, args2 := ReplaceSpans(stretch, matches(stretch), counters1, args1, false);
    template, args1 := template + plain, args2;
  }

  lemma StretchAndRest(text: string, protected: seq<Span>, cursor: nat, matches: string -> seq<Span>,
    counters: Counters, args: map<string, Piece>)
    requires protected != [] && Ordered(protected, cursor, |text|) && IsMatcher(matches)
    ensures var p := protected[0];
      var own, rest := matches(text[cursor..p.start]), Outside(text, protected[1..], p.end, matches);
      var all := Outside(text, protected, cursor, matches);
      && Ordered(own, 0, p.start - cursor) && Ordered(rest, p.end, |text|) && Ordered(all, cursor, |text|)
      && Cut(text, all, cursor, counters)
         == Cut(text[cursor..p.start], own, 0, counters)
            + (text[p.start..p.end] + Cut(text, rest, p.end, CutCounters(own, counters)))
      && CutArgs(text, all, cursor, counters, args, false)
         == CutArgs(text, rest, p.end, CutCounters(own, counters), CutArgs(text[cursor..p.start], own, 0, counters, args, false), false)
  {
    hide Cut, CutArgs, CutCounters, Ordered, Shifted;
    var p := protected[0];
    OrderedEnds(protected, cursor, |text|);
    var own, rest := matches(text[cursor..p.start]), Outside(text, protected[1..], p.end, matches);
    OutsideOrdered(text, protected[1..], p.end, matches);
    OrderedFrom(rest, p.start, p.end, |text|);
    var counters1, args1 := CutCounters(own, counters), CutArgs(text[cursor..p.start], own, 0, counters, args, false);
    CutStretch(text, cursor, p.start, own, 0, rest, counters);
    ArgsStretch(text, cursor, p.start, own, 0, rest, counters, args);
    CutFrom(text, rest, p.start, p.end, counters1, args1);
  }

  lemma LastStretch(text: string, cursor: nat, matches: string -> seq<Span>, counters: Counters, args: map<string, Piece>)
    requires cursor <= |text| && IsMatcher(matches)
    ensures var own, all := matches(text[cursor..]), Outside(text, [], cursor, matches);
      && Ordered(own, 0, |text| - cursor) && Ordered(all, cursor, |text|)
      && Cut(text, all, cursor, counters) == Cut(text[cursor..], own, 0, counters)
      && CutArgs(text, all, cursor, counters, args, false) == CutArgs(text[cursor..], own, 0, counters, args, false)
  {
    hide Cut, CutArgs, CutCounters;
    var own := matches(text[cursor..]);
    assert text[cursor..|text|] == text[cursor..];
    CutNothing(text, |text|, CutCounters(own, counters), CutArgs(text[cursor..], own, 0, counters, args, false));
    CutStretch(text, cursor, |text|, own, 0, [], counters);
    ArgsStretch(text, cursor, |text|, own, 0, [], counters, args);
    assert Shifted(own, cursor) + [] == Shifted(own, cursor);
    assert text[|text|..] == [];
  }

  /** Where stretch `j` between the protected matches starts and ends, the first from `cursor`. */
  function StretchStart(protected: seq<Span>, cursor: nat, j: nat): nat
    requires j <= |protected|
  {
    if j == 0 then cursor else protected[j - 1].end
  }

  function StretchEnd(text: string, protected: seq<Span>, j: nat): nat
    requires j <= |protected|
  {
    if j == |protected| then |text| else protected[j].start
  }

  /** The span is a match of stretch `j`, at its place in the whole text. */
  ghost predicate MatchedIn(text: string, protected: seq<Span>, cursor: nat, matches: string -> seq<Span>, x: Span, j: nat)
  {
    && j <= |protected| && StretchStart(protected, cursor, j) <= StretchEnd(text, protected, j) <= |text|
    && exists m: Span :: m in matches(text[StretchStart(protected, cursor, j)..StretchEnd(text, protected, j)])
         && x == Moved(m, StretchStart(protected, cursor, j))
  }

  function Moved(m: Span, d: nat): Span { Span(m.start + d, m.end + d, m.kind) }

  lemma ShiftedAre(spans: seq<Span>, d: nat)
    ensures forall x: Span :: x in Shifted(spans, d) <==> exists m: Span :: m in spans && x == Moved(m, d)
  {
    forall x: Span | x in Shifted(spans, d) ensures exists m: Span :: m in spans && x == Moved(m, d) {
      var i :| 0 <= i < |spans| && Shifted(spans, d)[i] == x;
      assert spans[i] in spans && x == Moved(spans[i], d);
    }
    forall m: Span | m in spans ensures Moved(m, d) in Shifted(spans, d) {
      var i :| 0 <= i < |spans| && spans[i] == m;
      assert Shifted(spans, d)[i] == Moved(m, d);
    }
  }

  /** The scalars found are exactly the matches in the stretches between the protected matches, none left out. */
  lemma {:induction false} OutsideIsEveryMatch(text: string, protected: seq<Span>, cursor: nat, matches: string -> seq<Span>)
    requires Ordered(protected, cursor, |text|)
    ensures forall x: Span :: x in Outside(text, protected, cursor, matches) <==>
      exists j: nat :: MatchedIn(text, protected, cursor, matches, x, j)
    decreases |protected|
  {
    hide Ordered, Shifted;
    OrderedCursor(protected, cursor, |text|);
    if protected == [] {
      assert text[cursor..|text|] == text[cursor..];
      ShiftedAre(matches(text[cursor..]), cursor);
      forall x: Span | x in Outside(text, protected, cursor, matches) ensures MatchedIn(text, protected, cursor, matches, x, 0) {
      }
    } else {
      var p := protected[0];
      OrderedEnds(protected, cursor, |text|);
      OutsideIsEveryMatch(text, protected[1..], p.end, matches);
      ShiftedAre(matches(text[cursor..p.start]), cursor);
      forall x: Span, j: nat | j <= |protected[1..]|
        ensures MatchedIn(text, protected[1..], p.end, matches, x, j) == MatchedIn(text, protected, cursor, matches, x, j + 1)
      {
        assert j < |protected[1..]| ==> protected[1..][j] == protected[j + 1];
        assert j > 0 ==> protected[1..][j - 1] == protected[j];
      }
      forall x: Span
        ensures x in Outside(text, protected, cursor, matches) <==> exists j: nat :: MatchedIn(text, protected, cursor, matches, x, j)
      {
        if x in Shifted(matches(text[cursor..p.start]), cursor) {
          assert MatchedIn(text, protected, cursor, matches, x, 0);
        } else if x in Outside(text, protected[1..], p.end, matches) {
          var j: nat :| MatchedIn(text, protected[1..], p.end, matches, x, j);
          assert MatchedIn(text, protected, cursor, matches, x, j + 1);
        }
        if j: nat :| MatchedIn(text, protected, cursor, matches, x, j) {
          if j > 0 {
            assert MatchedIn(text, protected[1..], p.end, matches, x, j - 1);
          }
        }
      }
    }
  }

  /** Entity spans as the matchers' results are combined. */
  ghost function ChosenEntities(text: string, cards: seq<Span>, names: seq<Span>, events: seq<Span>): (r: seq<Span>)
    requires Ordered(cards, 0, |text|) && Ordered(names, 0, |text|) && InText(events, |text|)
    ensures Ordered(r, 0, |text|)
  {
    EntitySpansOrdered(cards, names, events, |text|);
    EntitySpansOf(cards, names, events)
  }

  /** Scalar spans as they are found between protected matches. */
  ghost function FoundScalars(text: string, protected: seq<Span>, matches: string -> seq<Span>): (r: seq<Span>)
    requires Ordered(protected, 0, |text|) && IsMatcher(matches)
    ensures Ordered(r, 0, |text|)
  {
    OutsideOrdered(text, protected, 0, matches);
    Outside(text, protected, 0, matches)
  }

  /** Every token in the text lies in a protected match, but perhaps for its closing braces: a brace pattern that
      starts before it can end at the first of them. */
  ghost predicate Protects(text: string, protected: seq<Span>)
  {
    forall at: nat, kind, index: nat :: at <= |text| && Token(kind, index) <= text[at..] ==>
      exists j :: 0 <= j < |protected| && protected[j].start <= at && at + |Token(kind, index)| - 2 <= protected[j].end
  }

  /** No match contains a closing brace. */
  ghost predicate Braceless(matches: string -> seq<Span>)
  {
    forall text: string, i: nat :: i < |matches(text)| ==> NoBrace(text, matches(text)[i])
  }

  predicate NoBrace(text: string, s: Span)
  {
    forall k :: s.start <= k < s.end && k < |text| ==> text[k] != '}'
  }

  predicate Apart(s: Span, protected: seq<Span>)
  {
    forall j :: 0 <= j < |protected| ==> s.end <= protected[j].start || protected[j].end <= s.start
  }

  lemma {:induction false} OutsideIsApart(text: string, protected: seq<Span>, cursor: nat, matches: string -> seq<Span>)
    requires Ordered(protected, cursor, |text|) && IsMatcher(matches) && Braceless(matches)
    ensures forall x :: x in Outside(text, protected, cursor, matches) ==>
      cursor <= x.start < x.end <= |text| && Apart(x, protected) && NoBrace(text, x)
    decreases |protected|
  {
    hide Braceless, Ordered;
    OrderedCursor(protected, cursor, |text|);
    if protected == [] {
      StretchIsApart(text, cursor, |text|, matches);
      assert text[cursor..|text|] == text[cursor..];
    } else {
      var p := protected[0];
      OrderedEnds(protected, cursor, |text|);
      StretchIsApart(text, cursor, p.start, matches);
      OutsideIsApart(text, protected[1..], p.end, matches);
      AllAfter(protected, cursor, |text|);
      forall x | x in Outside(text, protected, cursor, matches)
        ensures cursor <= x.start < x.end <= |text| && Apart(x, protected) && NoBrace(text, x)
      {
        if x in Outside(text, protected[1..], p.end, matches) {
          forall j | 0 <= j < |protected| ensures x.end <= protected[j].start || protected[j].end <= x.start {
            assert j > 0 ==> protected[j] == protected[1..][j - 1];
          }
        }
      }
    }
  }

  lemma {:induction false} AllAfter(spans: seq<Span>, cursor: nat, length: nat)
    requires spans != [] && Ordered(spans, cursor, length)
    ensures forall j :: 0 <= j < |spans| ==> spans[0].start <= spans[j].start
    decreases |spans|
  {
    if |spans| > 1 {
      AllAfter(spans[1..], spans[0].end, length);
      forall j | 0 <= j < |spans| ensures spans[0].start <= spans[j].start {
        assert j > 0 ==> spans[j] == spans[1..][j - 1];
      }
    }
  }

  lemma StretchIsApart(text: string, a: nat, b: nat, matches: string -> seq<Span>)
    requires a <= b <= |text| && IsMatcher(matches) && Braceless(matches)
    ensures forall x :: x in Shifted(matches(text[a..b]), a) ==> a <= x.start < x.end <= b && NoBrace(text, x)
  {
    var own := matches(text[a..b]);
    InsideOf(own, 0, b - a);
    forall x | x in Shifted(own, a) ensures a <= x.start < x.end <= b && NoBrace(text, x) {
      var i: nat :| i < |own| && x == Shifted(own, a)[i];
      assert x.start == own[i].start + a && x.end == own[i].end + a;
      assert NoBrace(text[a..b], own[i]);
      forall k | x.start <= k < x.end ensures text[k] != '}' {
        assert text[k] == text[a..b][k - a];
      }
    }
  }

  lemma {:induction false} InsideOf(spans: seq<Span>, cursor: nat, length: nat)
    requires Ordered(spans, cursor, length)
    ensures forall i :: 0 <= i < |spans| ==> cursor <= spans[i].start < spans[i].end <= length
    decreases |spans|
  {
    if spans != [] {
      InsideOf(spans[1..], spans[0].end, length);
      forall i | 0 <= i < |spans| ensures cursor <= spans[i].start < spans[i].end <= length {
        assert i > 0 ==> spans[i] == spans[1..][i - 1];
      }
    }
  }

  lemma TokenCloses(kind: Kind, index: nat)
    ensures |Token(kind, index)| > 2
    ensures Token(kind, index)[|Token(kind, index)| - 2] == Token(kind, index)[|Token(kind, index)| - 1] == '}'
  {
  }

  /** What the protected pattern is for: scalars found between its matches touch no token. */
  lemma ScalarsAvoidTokens(text: string, protected: seq<Span>, matches: string -> seq<Span>)
    requires Ordered(protected, 0, |text|) && IsMatcher(matches) && Braceless(matches) && Protects(text, protected)
    ensures AvoidsTokens(text, FoundScalars(text, protected, matches))
  {
    hide Token, Braceless, Ordered, Outside;
    OutsideIsApart(text, protected, 0, matches);
    var spans := FoundScalars(text, protected, matches);
    forall i, at: nat, kind, index: nat | 0 <= i < |spans| && at <= |text| && Token(kind, index) <= text[at..]
      ensures spans[i].end <= at || at + |Token(kind, index)| <= spans[i].start
    {
      var n, x := |Token(kind, index)|, spans[i];
      assert x in Outside(text, protected, 0, matches);
      var j :| 0 <= j < |protected| && protected[j].start <= at && at + n - 2 <= protected[j].end;
      TokenCloses(kind, index);
      assert text[at + n - 2] == text[at..][n - 2] && text[at + n - 1] == text[at..][n - 1];
    }
  }

  /** The whole way, for any matchers: a text without the reserved prefix is rebuilt from its stored record,
      when the protected matches cover the tokens and no scalar match contains a brace. */
  lemma PipelineRebuilds(text: string, cards: seq<Span>, names: seq<Span>, events: seq<Span>, protected: seq<Span>,
    matches: string -> seq<Span>, index: Index, ids: Ids, qualified: bool)
    requires Clean(text) && IsMatcher(matches) && Braceless(matches)
    requires Ordered(cards, 0, |text|) && Ordered(names, 0, |text|) && InText(events, |text|)
    requires var entities := ChosenEntities(text, cards, names, events);
      var marked := EntityText(text, entities);
      && Ordered(protected, 0, |marked|) && Protects(marked, protected)
      && (qualified ==> Catalogued(Arguments(text, entities, FoundScalars(marked, protected, matches)), index, ids))
    ensures var entities := ChosenEntities(text, cards, names, events);
      var scalars := FoundScalars(EntityText(text, entities), protected, matches);
      var stored := MaterialRecord(text, entities, scalars, ids, qualified);
      ExpandUnit(index, stored.source, CustomPlaceholders(stored.source), stored.args) == Ok(text)
  {
    hide ExpandUnit, CustomPlaceholders, MaterialRecord, EntityText, Clean, AvoidsTokens, Protects, Braceless, Catalogued;
    var entities := ChosenEntities(text, cards, names, events);
    var marked := EntityText(text, entities);
    ScalarsAvoidTokens(marked, protected, matches);
    RecordRebuilds(text, entities, FoundScalars(marked, protected, matches), index, ids, qualified);
  }
}
