/** Templates lose nothing: replacing the tokens by their arguments gives the text back. */
module TemplateRoundTrip {
  import opened Options
  import opened Templates

  /** A text in the making: characters, and tokens with the text they stand for. */
  datatype Item = C(c: char) | T(kind: Kind, index: nat, value: string)

  function Written(item: Item): (s: string)
    ensures s != []
  {
    match item
    case C(c) => [c]
    case T(kind, index, _) => Token(kind, index)
  }

  function Meant(item: Item): string { if item.C? then [item.c] else item.value }

  function Render(items: seq<Item>): string
  {
    if items == [] then [] else Written(items[0]) + Render(items[1..])
  }

  function Plain(items: seq<Item>): string
  {
    if items == [] then [] else Meant(items[0]) + Plain(items[1..])
  }

  function Chars(s: string): (items: seq<Item>)
    ensures |items| == |s|
    ensures forall i :: 0 <= i < |s| ==> items[i] == C(s[i])
  {
    seq(|s|, i requires 0 <= i < |s| => C(s[i]))
  }

  predicate AllChars(items: seq<Item>) { forall i :: 0 <= i < |items| ==> items[i].C? }

  lemma {:induction false} RenderAppend(a: seq<Item>, b: seq<Item>)
    ensures Render(a + b) == Render(a) + Render(b) && Plain(a + b) == Plain(a) + Plain(b)
    decreases |a|
  {
    hide Written, Meant;
    if a == [] {
      assert a + b == b;
    } else {
      RenderAppend(a[1..], b);
      assert (a + b)[1..] == a[1..] + b;
    }
  }

  lemma {:induction false} CharsRender(items: seq<Item>)
    requires AllChars(items)
    ensures Render(items) == Plain(items) && |Plain(items)| == |items|
    ensures forall i :: 0 <= i < |items| ==> Plain(items)[i] == items[i].c
  {
    if items != [] {
      CharsRender(items[1..]);
    }
  }

  lemma CharsOf(s: string)
    ensures Render(Chars(s)) == s && Plain(Chars(s)) == s
  {
    CharsRender(Chars(s));
  }

  // Tokens

  lemma {:induction false} DecimalDigits(n: nat)
    ensures forall i :: 0 <= i < |Decimal(n)| ==> '0' <= Decimal(n)[i] <= '9'
  {
    if n >= 10 {
      DecimalDigits(n / 10);
    }
  }

  lemma {:induction false} DecimalInjective(m: nat, n: nat)
    requires Decimal(m) == Decimal(n)
    ensures m == n
  {
    var a, b := Decimal(m), Decimal(n);
    DigitsDiffer(m % 10, n % 10);
    DecimalLength(m);
    DecimalLength(n);
    assert a[|a| - 1] == Digit(m % 10) && b[|b| - 1] == Digit(n % 10);
    if m >= 10 {
      assert a[..|a| - 1] == Decimal(m / 10) && b[..|b| - 1] == Decimal(n / 10);
      DecimalInjective(m / 10, n / 10);
    }
  }

  lemma DecimalLength(n: nat)
    ensures |Decimal(n)| == 1 <==> n < 10
  {
  }

  lemma DigitsDiffer(a: nat, b: nat)
    requires a < 10 && b < 10
    ensures Digit(a) == Digit(b) ==> a == b
  {
  }

  /** After its first two characters a token has no brace that opens. */
  lemma TokenShape(kind: Kind, index: nat)
    ensures var t := Token(kind, index);
      && |t| > 8 && t[0] == t[1] == '{' && t[2] == 's' && RESERVED <= t
      && forall i :: 2 <= i < |t| ==> t[i] != '{'
  {
    DecimalDigits(index);
    var t := Token(kind, index);
    var name, digits := KindName(kind), Decimal(index);
    assert t == RESERVED + name + ":" + digits + "}}";
    forall i | 2 <= i < |t| ensures t[i] != '{' {
      if i < 6 {
        assert t[i] == RESERVED[i];
      } else if i < 6 + |name| {
        assert t[i] == name[i - 6];
      } else if 7 + |name| <= i < 7 + |name| + |digits| {
        assert t[i] == digits[i - 7 - |name|];
      }
    }
  }

  lemma NameLetters(kind: Kind)
    ensures forall i :: 0 <= i < |KindName(kind)| ==> 'a' <= KindName(kind)[i] <= 'z'
  {
  }

  lemma NamesDiffer(a: Kind, b: Kind)
    requires KindName(a) == KindName(b)
    ensures a == b
  {
    assert |"number"| == 6 && |"attribute"| == 9 && |"rarity"| == 6 && |"character"| == 9 && |"event"| == 5 && |"card"| == 4;
    assert "number"[0] == 'n' && "rarity"[0] == 'r' && "attribute"[0] == 'a' && "character"[0] == 'c';
  }

  lemma StopsTogether(x: string, y: string, rest: string, more: string, stop: char)
    requires stop !in x && stop !in y && |x| != |y|
    ensures !(x + [stop] + rest <= y + [stop] + more)
  {
    var k := if |x| < |y| then |x| else |y|;
    if |x| + 1 + |rest| > k && |y| + 1 + |more| > k {
      Mismatch(x + [stop] + rest, y + [stop] + more, k);
    }
  }

  /** Two strings that end at the same first stop character are the same. */
  lemma SameUpToStop(x: string, y: string, rest: string, more: string, stop: char)
    requires stop !in x && stop !in y
    requires x + [stop] + rest <= y + [stop] + more
    ensures x == y && rest <= more
  {
    var a, b := x + [stop] + rest, y + [stop] + more;
    if |x| != |y| {
      StopsTogether(x, y, rest, more, stop);
    }
    assert x == a[..|x|] == b[..|x|] == y;
    assert rest == a[|x| + 1..] && more == b[|x| + 1..];
  }

  /** No token is the beginning of another. */
  lemma TokensPrefixFree(k1: Kind, i1: nat, k2: Kind, i2: nat, rest: string)
    requires Token(k1, i1) <= Token(k2, i2) + rest
    ensures k1 == k2 && i1 == i2
  {
    hide KindName, Decimal;
    NameLetters(k1);
    NameLetters(k2);
    DecimalDigits(i1);
    DecimalDigits(i2);
    var n1, n2, d1, d2 := KindName(k1), KindName(k2), Decimal(i1), Decimal(i2);
    assert Token(k1, i1) == RESERVED + (n1 + ":" + (d1 + "}}"));
    assert Token(k2, i2) + rest == RESERVED + (n2 + ":" + (d2 + "}}" + rest));
    DropPrefix(RESERVED, n1 + ":" + (d1 + "}}"), n2 + ":" + (d2 + "}}" + rest));
    SameUpToStop(n1, n2, d1 + "}}", d2 + "}}" + rest, ':');
    assert d1 + "}}" == d1 + "}" + "}" && d2 + "}}" + rest == d2 + "}" + ("}" + rest);
    SameUpToStop(d1, d2, "}", "}" + rest, '}');
    NamesDiffer(k1, k2);
    DecimalInjective(i1, i2);
  }

  lemma DropPrefix(p: string, a: string, b: string)
    requires p + a <= p + b
    ensures a <= b
  {
    assert a == (p + a)[|p|..] && b == (p + b)[|p|..];
  }

  // Where the reserved prefix can be

  predicate Clean(s: string) { !Occurs(RESERVED, s) }

  /** Nothing that starts in literal text can be, or run on into, a token. */
  lemma NoStraddle(items: seq<Item>)
    requires items != [] && items[0].C? && Clean(Plain(items))
    ensures !(RESERVED <= Render(items))
  {
    hide Token, Plain, Render;
    var j := FirstToken(items, 0);
    assert items[0..j] == items[..j];
    RenderUpTo(items, j);
    var s := Render(items);
    assert !(RESERVED <= Plain(items)[0..]);
    assert Plain(items)[0..] == Plain(items);
    if j < 6 && j < |items| {
      TokenAtFront(items, j);
      Mismatch(RESERVED, s, if j == 1 then 2 else j);
    } else if j < |items| {
      LongerText(RESERVED, s, j);
    }
  }

  lemma LongerText(p: string, s: string, j: nat)
    requires |p| <= j <= |s| && !(p <= s[..j])
    ensures !(p <= s)
  {
    assert s[..j][..|p|] == s[..|p|];
  }

  lemma Mismatch(p: string, s: string, k: nat)
    requires k < |p| && k < |s| && p[k] != s[k]
    ensures !(p <= s)
  {
  }

  /** The index of the first token at or after `from`, or the end. */
  lemma FirstToken(items: seq<Item>, from: nat) returns (j: nat)
    requires from <= |items|
    ensures from <= j <= |items| && AllChars(items[from..j]) && (j < |items| ==> items[j].T?)
  {
    j := from;
    while j < |items| && items[j].C?
      invariant from <= j <= |items| && AllChars(items[from..j])
    {
      assert items[from..j + 1] == items[from..j] + [items[j]];
      j := j + 1;
    }
  }

  /** Up to the first token, what is written is what is meant. */
  lemma RenderUpTo(items: seq<Item>, j: nat)
    requires j <= |items| && AllChars(items[..j])
    ensures |Render(items)| >= j && |Plain(items)| >= j && Render(items)[..j] == Plain(items)[..j]
    ensures j == |items| ==> Render(items) == Plain(items)
  {
    assert items == items[..j] + items[j..];
    RenderAppend(items[..j], items[j..]);
    CharsRender(items[..j]);
    if j == |items| {
      assert items[..j] == items;
    }
  }

  lemma TokenAtFront(items: seq<Item>, j: nat)
    requires j < |items| && AllChars(items[..j]) && items[j].T?
    ensures |Render(items)| > j + 2 && Render(items)[j] == '{' && Render(items)[j + 1] == '{'
  {
    assert items == items[..j] + items[j..];
    RenderAppend(items[..j], items[j..]);
    CharsRender(items[..j]);
    TokenShape(items[j].kind, items[j].index);
    assert items[j..][0] == items[j];
  }

  // Replacing one token everywhere

  /** The items with every occurrence of one token spelled out. */
  function Fill(items: seq<Item>, kind: Kind, index: nat): seq<Item>
  {
    if items == [] then []
    else
      var rest := Fill(items[1..], kind, index);
      if items[0].T? && items[0].kind == kind && items[0].index == index then Chars(items[0].value) + rest
      else [items[0]] + rest
  }

  /** Every occurrence of this token stands for `value`. */
  predicate Stands(items: seq<Item>, kind: Kind, index: nat, value: string)
  {
    forall i | 0 <= i < |items| :: items[i].T? && items[i].kind == kind && items[i].index == index ==> items[i].value == value
  }

  lemma CleanTail(items: seq<Item>)
    requires items != [] && Clean(Plain(items))
    ensures Clean(Plain(items[1..]))
  {
    var s, t := Plain(items), Plain(items[1..]);
    var n := |Meant(items[0])|;
    forall k | 0 <= k <= |t| ensures !(RESERVED <= t[k..]) {
      assert t[k..] == s[n + k..];
    }
  }

  lemma {:induction false} FillKeepsPlain(items: seq<Item>, kind: Kind, index: nat)
    ensures Plain(Fill(items, kind, index)) == Plain(items)
  {
    hide Token;
    if items != [] {
      FillKeepsPlain(items[1..], kind, index);
      var rest := Fill(items[1..], kind, index);
      if items[0].T? && items[0].kind == kind && items[0].index == index {
        RenderAppend(Chars(items[0].value), rest);
        CharsOf(items[0].value);
      } else {
        assert ([items[0]] + rest)[1..] == rest;
      }
    }
  }

  /** Text in which the pattern starts nowhere is left alone. */
  lemma {:induction false} ReplaceSkips(head: string, rest: string, pattern: string, value: string)
    requires pattern != []
    requires forall j :: 0 <= j < |head| ==> !(pattern <= (head + rest)[j..])
    ensures ReplaceAll(head + rest, pattern, value) == head + ReplaceAll(rest, pattern, value)
    decreases |head|
  {
    if head == [] {
      assert head + rest == rest;
    } else {
      var s := head + rest;
      assert s[0..] == s && s[1..] == head[1..] + rest;
      forall j | 0 <= j < |head[1..]| ensures !(pattern <= (head[1..] + rest)[j..]) {
        assert (head[1..] + rest)[j..] == s[j + 1..];
      }
      ReplaceSkips(head[1..], rest, pattern, value);
    }
  }

  /** A token starts at another only if it is that one, and nowhere inside it. */
  lemma TokenElsewhere(k1: Kind, i1: nat, k2: Kind, i2: nat, rest: string)
    requires k1 != k2 || i1 != i2
    ensures forall j :: 0 <= j < |Token(k2, i2)| ==> !(Token(k1, i1) <= (Token(k2, i2) + rest)[j..])
  {
    TokenShape(k1, i1);
    TokenShape(k2, i2);
    hide Token;
    var p, t := Token(k1, i1), Token(k2, i2);
    var s := t + rest;
    forall j | 0 <= j < |t| ensures !(p <= s[j..]) {
      if j == 0 {
        assert s[0..] == s;
        if p <= s {
          TokensPrefixFree(k1, i1, k2, i2, rest);
        }
      } else {
        Mismatch(p, s[j..], if j == 1 then 1 else 0);
      }
    }
  }

  lemma {:induction false} ReplaceFills(items: seq<Item>, kind: Kind, index: nat, value: string)
    requires Clean(Plain(items)) && Stands(items, kind, index, value)
    ensures ReplaceAll(Render(items), Token(kind, index), value) == Render(Fill(items, kind, index))
    decreases |items|
  {
    TokenShape(kind, index);
    hide Token, Clean;
    if items != [] {
      var p, rest := Token(kind, index), Render(items[1..]);
      CleanTail(items);
      ReplaceFills(items[1..], kind, index, value);
      ReplaceFirst(items, kind, index, value);
    }
  }

  lemma ReplaceFirst(items: seq<Item>, kind: Kind, index: nat, value: string)
    requires items != [] && Clean(Plain(items)) && Stands(items, kind, index, value)
    requires ReplaceAll(Render(items[1..]), Token(kind, index), value) == Render(Fill(items[1..], kind, index))
    ensures Token(kind, index) != []
    ensures ReplaceAll(Render(items), Token(kind, index), value) == Render(Fill(items, kind, index))
  {
    TokenShape(kind, index);
    hide Token, Clean;
    var p, rest := Token(kind, index), Render(items[1..]);
    var filled := Fill(items[1..], kind, index);
    var s := Written(items[0]) + rest;
    if items[0].C? {
      NoStraddle(items);
      NotThere(p, s);
      assert ([items[0]] + filled)[1..] == filled;
      assert s[1..] == rest;
    } else if items[0].kind == kind && items[0].index == index {
      assert p <= s && s[|p|..] == rest;
      RenderAppend(Chars(value), filled);
      CharsOf(value);
    } else {
      TokenElsewhere(kind, index, items[0].kind, items[0].index, rest);
      ReplaceSkips(Written(items[0]), rest, p, value);
      assert ([items[0]] + filled)[1..] == filled;
    }
  }

  lemma NotThere(p: string, s: string)
    requires RESERVED <= p && !(RESERVED <= s)
    ensures !(p <= s)
  {
    assert p[..|RESERVED|] == RESERVED;
    assert |p| <= |s| ==> s[..|p|][..|RESERVED|] == s[..|RESERVED|];
  }

  // Cutting spans out of items

  /** Where item `j` is written. */
  function Offset(items: seq<Item>, j: nat): nat
    requires j <= |items|
  {
    |Render(items[..j])|
  }

  /** The items from `cursor` on with each span of characters replaced by a token that stands for them. */
  function Mark(items: seq<Item>, spans: seq<Span>, cursor: nat, counters: Counters): seq<Item>
    requires Ordered(spans, cursor, |items|)
    decreases |spans|
  {
    if spans == [] then items[cursor..]
    else
      var s := spans[0];
      items[cursor..s.start] + [T(s.kind, Next(counters, s.kind), Plain(items[s.start..s.end]))]
        + Mark(items, spans[1..], s.end, Bumped(counters, s.kind))
  }

  predicate CoverChars(items: seq<Item>, spans: seq<Span>)
  {
    forall k :: 0 <= k < |spans| ==> spans[k].start <= spans[k].end <= |items| && AllChars(items[spans[k].start..spans[k].end])
  }

  /** The same spans as positions of the written text. */
  function Placed(items: seq<Item>, spans: seq<Span>): (r: seq<Span>)
    requires CoverChars(items, spans)
    ensures |r| == |spans|
  {
    seq(|spans|, k requires 0 <= k < |spans| =>
      Span(Offset(items, spans[k].start), Offset(items, spans[k].end), spans[k].kind))
  }

  lemma RenderSlice(items: seq<Item>, i: nat, j: nat)
    requires i <= j <= |items|
    ensures Offset(items, i) <= Offset(items, j) <= |Render(items)|
    ensures Render(items)[Offset(items, i)..Offset(items, j)] == Render(items[i..j])
    ensures Offset(items, |items|) == |Render(items)| && (i < j ==> Offset(items, i) < Offset(items, j))
  {
    hide Render;
    assert items[..|items|] == items;
    assert items[..j] == items[..i] + items[i..j] && items == items[..j] + items[j..];
    RenderAppend(items[..i], items[i..j]);
    RenderAppend(items[..j], items[j..]);
    if i < j {
      NonEmpty(items[i..j]);
    }
  }

  lemma NonEmpty(items: seq<Item>)
    requires items != []
    ensures Render(items) != []
  {
  }

  lemma PlainSlices(items: seq<Item>, i: nat, j: nat)
    requires i <= j <= |items|
    ensures Plain(items[i..]) == Plain(items[i..j]) + Plain(items[j..])
  {
    assert items[i..] == items[i..j] + items[j..];
    RenderAppend(items[i..j], items[j..]);
  }

  /** Cutting the written text is writing the marked items, and both mean what the items meant. */
  lemma {:induction false} CutIsMark(items: seq<Item>, spans: seq<Span>, cursor: nat, counters: Counters)
    requires Ordered(spans, cursor, |items|) && CoverChars(items, spans)
    ensures Ordered(Placed(items, spans), Offset(items, cursor), |Render(items)|)
    ensures Cut(Render(items), Placed(items, spans), Offset(items, cursor), counters)
            == Render(Mark(items, spans, cursor, counters))
    ensures Plain(Mark(items, spans, cursor, counters)) == Plain(items[cursor..])
    decreases |spans|
  {
    hide Render, Plain, Token, Next, Bumped, Offset, AllChars;
    RenderSlice(items, cursor, |items|);
    if spans == [] {
      assert items[cursor..|items|] == items[cursor..];
      assert Render(items)[Offset(items, cursor)..|Render(items)|] == Render(items)[Offset(items, cursor)..];
    } else {
      var s, rest := spans[0], spans[1..];
      CutIsMark(items, rest, s.end, Bumped(counters, s.kind));
      assert Placed(items, spans)[1..] == Placed(items, rest);
      RenderSlice(items, cursor, s.start);
      RenderSlice(items, s.start, s.end);
      MarkedOnce(items[cursor..s.start], s.kind, Next(counters, s.kind), Plain(items[s.start..s.end]),
                 Mark(items, rest, s.end, Bumped(counters, s.kind)));
      PlainSlices(items, cursor, s.start);
      PlainSlices(items, s.start, s.end);
    }
  }

  lemma MarkedOnce(before: seq<Item>, kind: Kind, index: nat, value: string, rest: seq<Item>)
    ensures Render(before + [T(kind, index, value)] + rest) == Render(before) + Token(kind, index) + Render(rest)
    ensures Plain(before + [T(kind, index, value)] + rest) == Plain(before) + (value + Plain(rest))
  {
    hide Render, Plain, Token;
    var t := T(kind, index, value);
    RenderAppend(before + [t], rest);
    RenderAppend(before, [t]);
    OneItem(t);
    assert Plain(before) + value + Plain(rest) == Plain(before) + (value + Plain(rest));
  }

  lemma OneItem(item: Item)
    ensures Render([item]) == Written(item) && Plain([item]) == Meant(item)
  {
    hide Token;
    assert [item][1..] == [];
  }

  // Arguments

  predicate Below(items: seq<Item>, counters: Counters)
  {
    forall i | 0 <= i < |items| && items[i].T? :: items[i].index < Next(counters, items[i].kind)
  }

  /** Every token's argument is what it stands for. */
  predicate Bound(items: seq<Item>, args: map<string, Piece>)
  {
    forall i | 0 <= i < |items| && items[i].T? ::
      Written(items[i]) in args && args[Written(items[i])].source == items[i].value
  }

  lemma TokensDiffer(k1: Kind, i1: nat, k2: Kind, i2: nat)
    requires k1 != k2 || i1 != i2
    ensures Token(k1, i1) != Token(k2, i2)
  {
    hide Token;
    if Token(k1, i1) == Token(k2, i2) {
      assert Token(k2, i2) + "" == Token(k2, i2);
      TokensPrefixFree(k1, i1, k2, i2, "");
    }
  }

  lemma BoundWithNew(items: seq<Item>, counters: Counters, args: map<string, Piece>, kind: Kind, piece: Piece)
    requires Below(items, counters) && Bound(items, args)
    ensures Below(items, Bumped(counters, kind))
    ensures Bound(items, args[Token(kind, Next(counters, kind)) := piece])
  {
    hide Token;
    forall i | 0 <= i < |items| && items[i].T? ensures Written(items[i]) != Token(kind, Next(counters, kind)) {
      TokensDiffer(items[i].kind, items[i].index, kind, Next(counters, kind));
    }
  }

  /** Cutting on never touches the argument of a token handed out before. */
  lemma {:induction false} EarlierArgsStay(text: string, spans: seq<Span>, cursor: nat, counters: Counters,
    args: map<string, Piece>, entity: bool, kind: Kind, index: nat)
    requires Ordered(spans, cursor, |text|) && index < Next(counters, kind) && Token(kind, index) in args
    ensures var args1 := CutArgs(text, spans, cursor, counters, args, entity);
      Token(kind, index) in args1 && args1[Token(kind, index)] == args[Token(kind, index)]
    decreases |spans|
  {
    hide Token;
    if spans != [] {
      var s := spans[0];
      TokensDiffer(kind, index, s.kind, Next(counters, s.kind));
      EarlierArgsStay(text, spans[1..], s.end, Bumped(counters, s.kind),
                      args[Token(s.kind, Next(counters, s.kind)) := PieceOf(s.kind, text[s.start..s.end], entity)],
                      entity, kind, index);
    }
  }

  lemma {:induction false} MarkIsBound(items: seq<Item>, spans: seq<Span>, cursor: nat, counters: Counters,
    args: map<string, Piece>, entity: bool)
    requires Ordered(spans, cursor, |items|) && CoverChars(items, spans)
    requires Below(items, counters) && Bound(items, args)
    ensures Ordered(Placed(items, spans), Offset(items, cursor), |Render(items)|)
    ensures Bound(Mark(items, spans, cursor, counters),
                  CutArgs(Render(items), Placed(items, spans), Offset(items, cursor), counters, args, entity))
    ensures Below(Mark(items, spans, cursor, counters), CutCounters(Placed(items, spans), counters))
    decreases |spans|
  {
    hide Render, Plain, Token, Offset, Placed;
    CutIsMark(items, spans, cursor, counters);
    if spans == [] {
      PlacedParts(items, spans);
    } else {
      var s, rest := spans[0], spans[1..];
      var value, c1 := Plain(items[s.start..s.end]), Bumped(counters, s.kind);
      var index := Next(counters, s.kind);
      var piece := PieceOf(s.kind, value, entity);
      var args1 := args[Token(s.kind, index) := piece];
      PlacedParts(items, spans);
      CoveredText(items, s);
      BoundWithNew(items, counters, args, s.kind, piece);
      MarkIsBound(items, rest, s.end, c1, args1, entity);
      EarlierArgsStay(Render(items), Placed(items, rest), Offset(items, s.end), c1, args1, entity, s.kind, index);
      CountersGrow(Placed(items, rest), c1);
      var all := CutArgs(Render(items), Placed(items, rest), Offset(items, s.end), c1, args1, entity);
      forall i | cursor <= i < s.start && items[i].T?
        ensures Written(items[i]) in all && all[Written(items[i])].source == items[i].value
      {
        EarlierArgsStay(Render(items), Placed(items, rest), Offset(items, s.end), c1, args1, entity, items[i].kind, items[i].index);
      }
      MarkParts(items, spans, cursor, counters, all);
    }
  }

  lemma PlacedParts(items: seq<Item>, spans: seq<Span>)
    requires CoverChars(items, spans)
    ensures spans == [] ==> Placed(items, spans) == []
    ensures spans != [] ==>
      && CoverChars(items, spans[1..])
      && Placed(items, spans) == [Span(Offset(items, spans[0].start), Offset(items, spans[0].end), spans[0].kind)]
                                 + Placed(items, spans[1..])
      && Placed(items, spans)[1..] == Placed(items, spans[1..])
  {
  }

  lemma CoveredText(items: seq<Item>, s: Span)
    requires s.start <= s.end <= |items| && AllChars(items[s.start..s.end])
    ensures Offset(items, s.start) <= Offset(items, s.end) <= |Render(items)|
    ensures Render(items)[Offset(items, s.start)..Offset(items, s.end)] == Plain(items[s.start..s.end])
  {
    RenderSlice(items, s.start, s.end);
    CharsRender(items[s.start..s.end]);
  }

  lemma {:induction false} CountersGrow(spans: seq<Span>, counters: Counters)
    ensures forall kind :: Next(counters, kind) <= Next(CutCounters(spans, counters), kind)
    decreases |spans|
  {
    if spans != [] {
      CountersGrow(spans[1..], Bumped(counters, spans[0].kind));
      forall kind ensures Next(counters, kind) <= Next(CutCounters(spans, counters), kind) {
        assert Next(counters, kind) <= Next(Bumped(counters, spans[0].kind), kind);
      }
    }
  }

  /** One marking step: the parts of the result are bound and below, so the result is. */
  lemma MarkParts(items: seq<Item>, spans: seq<Span>, cursor: nat, counters: Counters, args: map<string, Piece>)
    requires spans != [] && Ordered(spans, cursor, |items|) && CoverChars(items, spans)
    requires var s, c1 := spans[0], Bumped(counters, spans[0].kind);
      var token, rest := Token(s.kind, Next(counters, s.kind)), Mark(items, spans[1..], s.end, c1);
      && Bound(rest, args) && Below(rest, CutCounters(Placed(items, spans), counters))
      && token in args && args[token].source == Plain(items[s.start..s.end])
    requires Below(items, counters)
    requires forall i | cursor <= i < spans[0].start && items[i].T? ::
      Written(items[i]) in args && args[Written(items[i])].source == items[i].value
    ensures Bound(Mark(items, spans, cursor, counters), args)
    ensures Below(Mark(items, spans, cursor, counters), CutCounters(Placed(items, spans), counters))
  {
    hide Render, Plain, Token, Offset, Placed, CutCounters;
    var s, c1 := spans[0], Bumped(counters, spans[0].kind);
    var rest := Mark(items, spans[1..], s.end, c1);
    var new_ := T(s.kind, Next(counters, s.kind), Plain(items[s.start..s.end]));
    var all := Mark(items, spans, cursor, counters);
    PlacedParts(items, spans);
    FinalCounters(Placed(items, spans), s.kind, counters);
    var n := s.start - cursor;
    forall i | 0 <= i < |all|
      ensures all[i] == (if i < n then items[cursor + i] else if i == n then new_ else rest[i - n - 1])
    {
    }
  }

  lemma FinalCounters(spans: seq<Span>, kind: Kind, counters: Counters)
    requires spans != [] && spans[0].kind == kind
    ensures Next(counters, kind) < Next(CutCounters(spans, counters), kind)
    ensures forall k :: Next(counters, k) <= Next(CutCounters(spans, counters), k)
  {
    CountersGrow(spans, counters);
    CountersGrow(spans[1..], Bumped(counters, kind));
  }

  // Spans that avoid the tokens of a text

  /** No span overlaps any occurrence of a token. */
  ghost predicate AvoidsTokens(text: string, spans: seq<Span>)
  {
    forall i, at: nat, kind, index: nat ::
      0 <= i < |spans| && at <= |text| && Token(kind, index) <= text[at..] ==>
        spans[i].end <= at || at + |Token(kind, index)| <= spans[i].start
  }

  /** A position not strictly inside a token is where some item begins. */
  lemma ItemAt(items: seq<Item>, a: nat) returns (j: nat)
    requires a <= |Render(items)|
    requires forall i :: 0 <= i < |items| && items[i].T? ==> !(Offset(items, i) < a < Offset(items, i + 1))
    ensures j <= |items| && Offset(items, j) == a
  {
    hide Render, Token;
    j := 0;
    RenderSlice(items, 0, |items|);
    assert items[..0] == [];
    NothingWritten();
    while Offset(items, j) != a
      invariant j <= |items| && Offset(items, j) <= a
      decreases |items| - j
    {
      RenderSlice(items, j, |items|);
      ItemWidth(items, j);
      j := j + 1;
    }
  }

  lemma NothingWritten()
    ensures Render([]) == "" && Plain([]) == ""
  {
  }

  lemma ItemWidth(items: seq<Item>, j: nat)
    requires j < |items|
    ensures Offset(items, j + 1) == Offset(items, j) + |Written(items[j])|
    ensures Offset(items, j + 1) <= |Render(items)|
    ensures Written(items[j]) <= Render(items)[Offset(items, j)..]
  {
    hide Render, Token;
    RenderSlice(items, j, j + 1);
    RenderSlice(items, j + 1, |items|);
    assert items[j..j + 1] == [items[j]];
    OneItem(items[j]);
    var s := Render(items);
    assert s[Offset(items, j)..][..|Written(items[j])|] == s[Offset(items, j)..Offset(items, j + 1)];
  }

  /** Spans of the written text that avoid its tokens are spans of characters. */
  lemma {:induction false} AvoidingSpansCoverChars(items: seq<Item>, spans: seq<Span>, cursor: nat) returns (its: seq<Span>)
    requires cursor <= |items| && Ordered(spans, Offset(items, cursor), |Render(items)|)
    requires AvoidsTokens(Render(items), spans)
    ensures Ordered(its, cursor, |items|) && CoverChars(items, its) && Placed(items, its) == spans
    decreases |spans|
  {
    hide Render, Token, Offset, Written;
    if spans == [] {
      its := [];
    } else {
      var s := spans[0];
      var i, j := CharsUnder(items, spans);
      RenderOrder(items, i, cursor);
      assert AvoidsTokens(Render(items), spans[1..]) by {
        AvoidRest(Render(items), spans);
      }
      var rest := AvoidingSpansCoverChars(items, spans[1..], j);
      its := [Span(i, j, s.kind)] + rest;
      assert its[1..] == rest;
      PlacedParts(items, its);
      assert [s] + spans[1..] == spans;
    }
  }

  lemma AvoidRest(text: string, spans: seq<Span>)
    requires spans != [] && AvoidsTokens(text, spans)
    ensures AvoidsTokens(text, spans[1..])
  {
    hide Token;
    forall i, at: nat, kind, index: nat |
      0 <= i < |spans[1..]| && at <= |text| && Token(kind, index) <= text[at..]
      ensures spans[1..][i].end <= at || at + |Token(kind, index)| <= spans[1..][i].start
    {
      assert spans[1..][i] == spans[i + 1];
    }
  }

  lemma RenderOrder(items: seq<Item>, i: nat, j: nat)
    requires i <= |items| && j <= |items|
    ensures i < j <==> Offset(items, i) < Offset(items, j)
  {
    hide Render;
    if i <= j {
      RenderSlice(items, i, j);
    } else {
      RenderSlice(items, j, i);
    }
  }

  /** The first of the spans, as item positions. */
  lemma CharsUnder(items: seq<Item>, spans: seq<Span>) returns (i: nat, j: nat)
    requires spans != [] && spans[0].start < spans[0].end <= |Render(items)|
    requires AvoidsTokens(Render(items), spans)
    ensures i < j <= |items| && Offset(items, i) == spans[0].start && Offset(items, j) == spans[0].end
    ensures AllChars(items[i..j])
  {
    hide Render, Token, Offset, Written;
    var s := spans[0];
    forall k | 0 <= k < |items| && items[k].T?
      ensures s.end <= Offset(items, k) || Offset(items, k + 1) <= s.start
      ensures Offset(items, k) < Offset(items, k + 1)
    {
      TokenKept(items, k, spans);
    }
    i := ItemAt(items, s.start);
    j := ItemAt(items, s.end);
    RenderOrder(items, i, j);
    forall k | i <= k < j ensures items[k].C? {
      if items[k].T? {
        RenderOrder(items, i, k);
        RenderOrder(items, k, i);
        RenderOrder(items, k + 1, j);
        RenderOrder(items, j, k + 1);
      }
    }
  }

  lemma TokenKept(items: seq<Item>, k: nat, spans: seq<Span>)
    requires k < |items| && items[k].T? && spans != [] && AvoidsTokens(Render(items), spans)
    ensures spans[0].end <= Offset(items, k) || Offset(items, k + 1) <= spans[0].start
    ensures Offset(items, k) < Offset(items, k + 1)
  {
    hide Render, Token, Offset;
    ItemWidth(items, k);
  }

  // The placeholders of a template

  function Tokens(items: seq<Item>): seq<string>
  {
    if items == [] then [] else (if items[0].T? then [Written(items[0])] else []) + Tokens(items[1..])
  }

  lemma {:induction false} DigitRunStops(digits: string, rest: string)
    requires forall i :: 0 <= i < |digits| ==> '0' <= digits[i] <= '9'
    requires rest != [] && !('0' <= rest[0] <= '9')
    ensures DigitRun(digits + rest) == |digits|
    decreases |digits|
  {
    if digits == [] {
      assert digits + rest == rest;
    } else {
      assert (digits + rest)[1..] == digits[1..] + rest;
      DigitRunStops(digits[1..], rest);
    }
  }

  lemma KindFound(kind: Kind, rest: string)
    ensures KindAt(KindName(kind) + ":" + rest) == Some(kind)
  {
    var s := KindName(kind) + ":" + rest;
    var found := KindAt(s);
    assert KindName(kind) + ":" <= s;
    match kind
    case Number => assert s[0] == 'n';
    case Attribute => assert s[0] == 'a';
    case Rarity => assert s[0] == 'r';
    case Character => assert s[0] == 'c' && s[1] == 'h';
    case Event => assert s[0] == 'e';
    case Card => assert s[0] == 'c' && s[1] == 'a';
  }

  lemma PlaceholderFound(kind: Kind, index: nat, rest: string)
    ensures PlaceholderAt(Token(kind, index) + rest) == Some(|Token(kind, index)|)
  {
    hide KindAt, DigitRun, KindName, Decimal;
    var name, digits := KindName(kind), Decimal(index);
    var s, tail := Token(kind, index) + rest, digits + ("}}" + rest);
    TokenParts(name, digits, rest);
    KindFound(kind, tail);
    DecimalDigits(index);
    DigitRunStops(digits, "}}" + rest);
    assert s == RESERVED + name + ":" + digits + "}}" + rest;
  }

  lemma TokenParts(name: string, digits: string, rest: string)
    ensures var s, tail, start := RESERVED + name + ":" + digits + "}}" + rest, digits + ("}}" + rest), |RESERVED| + |name| + 1;
      && RESERVED <= s && s[|RESERVED|..] == name + ":" + tail && |s| == start + |tail| && s[start..] == tail
      && s[start + |digits|..] == "}}" + rest
  {
    var s, tail := RESERVED + name + ":" + digits + "}}" + rest, digits + ("}}" + rest);
    assert s == RESERVED + (name + ":" + tail);
  }

  /** What a scan for placeholders finds in a template are its tokens, in order. */
  lemma {:induction false} PlaceholdersAreTokens(items: seq<Item>)
    requires Clean(Plain(items))
    ensures CustomPlaceholders(Render(items)) == Tokens(items)
    decreases |items|
  {
    hide Token, Clean, PlaceholderAt;
    if items != [] {
      CleanTail(items);
      PlaceholdersAreTokens(items[1..]);
      var s, rest := Render(items), Render(items[1..]);
      assert s == Written(items[0]) + rest;
      if items[0].C? {
        NoStraddle(items);
        NoPlaceholder(s);
        assert s[1..] == rest;
      } else {
        PlaceholderFound(items[0].kind, items[0].index, rest);
        var n := |Written(items[0])|;
        assert s[..n] == Written(items[0]) && s[n..] == rest;
      }
    }
  }

  lemma NoPlaceholder(s: string)
    requires !(RESERVED <= s)
    ensures PlaceholderAt(s) == None
  {
  }

  // Expanding a template

  lemma {:induction false} FillForgets(items: seq<Item>, kind: Kind, index: nat)
    ensures forall x :: x in Fill(items, kind, index) && x.T? ==> x in items && (x.kind != kind || x.index != index)
  {
    hide Token;
    if items != [] {
      FillForgets(items[1..], kind, index);
      var filled, rest := Fill(items, kind, index), Fill(items[1..], kind, index);
      forall x | x in filled && x.T? ensures x in items && (x.kind != kind || x.index != index) {
        if x in rest {
          assert x in items[1..];
        }
      }
    }
  }

  /** The arguments a binding resolves to are the values the tokens stand for. */
  ghost predicate Resolves(items: seq<Item>, index: Index, args: map<string, Arg>)
  {
    forall item | item in items && item.T? ::
      Written(item) in args && ReplacementValue(index, args[Written(item)]) == Ok(item.value)
  }

  ghost predicate AreTokens(order: seq<string>, items: seq<Item>)
  {
    forall p | p in order :: exists item :: item in items && item.T? && Written(item) == p
  }

  /** Replacing tokens in any order that covers them all gives back what the items mean. */
  lemma {:induction false} ExpandGivesPlain(items: seq<Item>, order: seq<string>, index: Index,
    args: map<string, Arg>, all: seq<Item>)
    requires Clean(Plain(items)) && Resolves(all, index, args) && AreTokens(order, all)
    requires forall item | item in items && item.T? :: item in all && Written(item) in order
    requires forall i :: 0 <= i < |order| ==> order[i] != []
    ensures ExpandUnit(index, Render(items), order, args) == Ok(Plain(items))
    decreases |order|
  {
    hide Token, Clean, ReplaceAll, Render, Plain;
    if order == [] {
      assert AllChars(items);
      CharsRender(items);
    } else {
      assert order[0] in order && forall p :: p in order[1..] ==> p in order;
      var item :| item in all && item.T? && Written(item) == order[0];
      var filled := Fill(items, item.kind, item.index);
      StandsFor(items, item, index, args, all);
      ReplaceFills(items, item.kind, item.index, item.value);
      FillKeepsPlain(items, item.kind, item.index);
      FillForgets(items, item.kind, item.index);
      forall x | x in filled && x.T? ensures x in all && Written(x) in order[1..] {
        TokensDiffer(x.kind, x.index, item.kind, item.index);
      }
      ExpandGivesPlain(filled, order[1..], index, args, all);
    }
  }

  lemma StandsFor(items: seq<Item>, item: Item, index: Index, args: map<string, Arg>, all: seq<Item>)
    requires item in all && item.T? && Resolves(all, index, args)
    requires forall x | x in items && x.T? :: x in all
    ensures Stands(items, item.kind, item.index, item.value)
  {
    hide Token;
    forall i | 0 <= i < |items| && items[i].T? && items[i].kind == item.kind && items[i].index == item.index
      ensures items[i].value == item.value
    {
      assert items[i] in items;
    }
  }
}
