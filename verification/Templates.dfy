/** Translation templates: tokens, cutting spans out of a text, and putting the arguments back. */
module Templates {
  import opened Options

  datatype Kind = Number | Attribute | Rarity | Character | Event | Card

  function KindName(kind: Kind): string
  {
    match kind
    case Number => "number"
    case Attribute => "attribute"
    case Rarity => "rarity"
    case Character => "character"
    case Event => "event"
    case Card => "card"
  }

  const RESERVED := "{{sst:"

  function Digit(d: nat): char
    requires d < 10
  {
    "0123456789"[d]
  }

  function Decimal(n: nat): (digits: string)
    ensures digits != []
  {
    if n < 10 then [Digit(n)] else Decimal(n / 10) + [Digit(n % 10)]
  }

  function Token(kind: Kind, index: nat): string { RESERVED + KindName(kind) + ":" + Decimal(index) + "}}" }

  /** `[start, end)` of a text, with the kind of token that is to stand for it. */
  datatype Span = Span(start: nat, end: nat, kind: Kind)

  /** Non-empty, in order, not overlapping, inside a text of this length from `cursor` on. */
  predicate Ordered(spans: seq<Span>, cursor: nat, length: nat)
    decreases |spans|
  {
    cursor <= length &&
    (spans != [] ==> cursor <= spans[0].start < spans[0].end <= length && Ordered(spans[1..], spans[0].end, length))
  }

  type Counters = map<Kind, nat>

  function Next(counters: Counters, kind: Kind): nat { if kind in counters then counters[kind] else 0 }

  function Bumped(counters: Counters, kind: Kind): Counters { counters[kind := Next(counters, kind) + 1] }

  /** The text from `cursor` on with each span replaced by its token. */
  function Cut(text: string, spans: seq<Span>, cursor: nat, counters: Counters): string
    requires Ordered(spans, cursor, |text|)
    decreases |spans|
  {
    if spans == [] then text[cursor..]
    else
      var s := spans[0];
      text[cursor..s.start] + Token(s.kind, Next(counters, s.kind)) + Cut(text, spans[1..], s.end, Bumped(counters, s.kind))
  }

  function CutCounters(spans: seq<Span>, counters: Counters): Counters
    decreases |spans|
  {
    if spans == [] then counters else CutCounters(spans[1..], Bumped(counters, spans[0].kind))
  }

  /** What a token was cut out for: an entity, to be translated on its own, or a literal. */
  datatype Piece = EntityPiece(kind: Kind, source: string) | LiteralPiece(source: string)

  function PieceOf(kind: Kind, source: string, entity: bool): Piece
  {
    if entity then EntityPiece(kind, source) else LiteralPiece(source)
  }

  /** The argument of every token: the text its span covered. */
  function CutArgs(text: string, spans: seq<Span>, cursor: nat, counters: Counters, args: map<string, Piece>, entity: bool)
    : map<string, Piece>
    requires Ordered(spans, cursor, |text|)
    decreases |spans|
  {
    if spans == [] then args
    else
      var s := spans[0];
      CutArgs(text, spans[1..], s.end, Bumped(counters, s.kind),
              args[Token(s.kind, Next(counters, s.kind)) := PieceOf(s.kind, text[s.start..s.end], entity)], entity)
  }

  /** The cutting loop: entities are cut out of a text with it, and scalars out of a stretch of plain text. */
  method ReplaceSpans(text: string, spans: seq<Span>, counters: Counters, args: map<string, Piece>, entity: bool)
    returns (out: string, counters1: Counters, args1: map<string, Piece>)
    requires Ordered(spans, 0, |text|)
    ensures out == Cut(text, spans, 0, counters)
    ensures counters1 == CutCounters(spans, counters)
    ensures args1 == CutArgs(text, spans, 0, counters, args, entity)
  {
    hide Token, Next, Bumped;
    out, counters1, args1 := "", counters, args;
    var cursor: nat := 0;
    for k := 0 to |spans|
      invariant Ordered(spans[k..], cursor, |text|)
      invariant out + Cut(text, spans[k..], cursor, counters1) == Cut(text, spans, 0, counters)
      invariant CutCounters(spans[k..], counters1) == CutCounters(spans, counters)
      invariant CutArgs(text, spans[k..], cursor, counters1, args1, entity) == CutArgs(text, spans, 0, counters, args, entity)
    {
      var s := spans[k];
      assert spans[k..][1..] == spans[k + 1..];
      var placeholder := Token(s.kind, Next(counters1, s.kind));
      ghost var rest := Cut(text, spans[k + 1..], s.end, Bumped(counters1, s.kind));
      assert (out + text[cursor..s.start] + placeholder) + rest == out + (text[cursor..s.start] + placeholder + rest);
      out := out + text[cursor..s.start] + placeholder;
      args1 := args1[placeholder := PieceOf(s.kind, text[s.start..s.end], entity)];
      counters1 := Bumped(counters1, s.kind);
      cursor := s.end;
    }
    out := out + text[cursor..];
  }

  // Scalars: the stretches between protected matches

  function Shifted(spans: seq<Span>, d: nat): (r: seq<Span>)
    ensures |r| == |spans|
  {
    seq(|spans|, i requires 0 <= i < |spans| => Span(spans[i].start + d, spans[i].end + d, spans[i].kind))
  }

  /** The spans a matcher finds in each stretch of the text outside `protected`, at their place in the whole. */
  function Outside(text: string, protected: seq<Span>, cursor: nat, matches: string -> seq<Span>): seq<Span>
    requires Ordered(protected, cursor, |text|)
    decreases |protected|
  {
    if protected == [] then Shifted(matches(text[cursor..]), cursor)
    else
      Shifted(matches(text[cursor..protected[0].start]), cursor)
        + Outside(text, protected[1..], protected[0].end, matches)
  }

  /** A matcher reports non-empty matches of its input, in order and without overlap. */
  ghost predicate IsMatcher(matches: string -> seq<Span>)
  {
    forall s: string :: Ordered(matches(s), 0, |s|)
  }

  // Putting the arguments back

  /** Every occurrence, from the left, none inside another. */
  function ReplaceAll(s: string, pattern: string, value: string): string
    requires pattern != []
    decreases |s|
  {
    if s == [] then []
    else if pattern <= s then value + ReplaceAll(s[|pattern|..], pattern, value)
    else [s[0]] + ReplaceAll(s[1..], pattern, value)
  }

  predicate Occurs(pattern: string, s: string)
  {
    exists k :: 0 <= k <= |s| && pattern <= s[k..]
  }

  /** An argument as `bindings.json` holds it. */
  datatype Arg = Literal(value: string) | Entity(id: string)

  /** An entry of the catalog, as its index holds it; a unit comes with its placeholders. */
  datatype Entry =
    | EntityEntry(id: string, kind: Kind, source: string)
    | UnitEntry(id: string, source: string, placeholders: seq<string>)

  type Index = map<string, Entry>

  datatype Error = MissingArgument(placeholder: string) | NotAnEntity(id: string) | NoUnit(id: string)

  datatype Result = Ok(text: string) | Err(error: Error)

  function ReplacementValue(index: Index, arg: Arg): Result
  {
    match arg
    case Literal(value) => Ok(value)
    case Entity(id) => if id in index && index[id].EntityEntry? then Ok(index[id].source) else Err(NotAnEntity(id))
  }

  /** Replaces the unit's placeholders one after the other. */
  function ExpandUnit(index: Index, text: string, placeholders: seq<string>, args: map<string, Arg>): Result
    requires forall i :: 0 <= i < |placeholders| ==> placeholders[i] != []
    decreases |placeholders|
  {
    if placeholders == [] then Ok(text)
    else if placeholders[0] !in args then Err(MissingArgument(placeholders[0]))
    else
      match ReplacementValue(index, args[placeholders[0]])
      case Err(e) => Err(e)
      case Ok(value) => ExpandUnit(index, ReplaceAll(text, placeholders[0], value), placeholders[1..], args)
  }

  // The placeholders of a text

  function DigitRun(s: string): (n: nat)
    ensures n <= |s|
  {
    if s != [] && '0' <= s[0] <= '9' then 1 + DigitRun(s[1..]) else 0
  }

  function KindAt(s: string): (kind: Option<Kind>)
    ensures kind.Some? ==> KindName(kind.value) + ":" <= s
  {
    if "number:" <= s then Some(Number)
    else if "attribute:" <= s then Some(Attribute)
    else if "rarity:" <= s then Some(Rarity)
    else if "character:" <= s then Some(Character)
    else if "event:" <= s then Some(Event)
    else if "card:" <= s then Some(Card)
    else None
  }

  /** The length of the placeholder at the start of `s`. */
  function PlaceholderAt(s: string): (n: Option<nat>)
    ensures n.Some? ==> 0 < n.value <= |s|
  {
    if !(RESERVED <= s) || KindAt(s[|RESERVED|..]).None? then None
    else
      var start := |RESERVED| + |KindName(KindAt(s[|RESERVED|..]).value)| + 1;
      var digits := DigitRun(s[start..]);
      if digits > 0 && "}}" <= s[start + digits..] then Some(start + digits + 2) else None
  }

  function CustomPlaceholders(s: string): (r: seq<string>)
    ensures forall i :: 0 <= i < |r| ==> r[i] != []
    decreases |s|
  {
    if s == [] then []
    else match PlaceholderAt(s)
      case Some(n) => [s[..n]] + CustomPlaceholders(s[n..])
      case None => CustomPlaceholders(s[1..])
  }
}
