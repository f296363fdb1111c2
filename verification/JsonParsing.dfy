/** The reader gives every text of RFC 8259 the value it stands for, and what else it takes. */
module JsonParsing {
  import opened Optional
  import opened JsonValue
  import opened JsonSyntax
  import opened JsonGrammar
  import opened JsonTokens
  import opened JsonLoose

  // ------------------------------------------ conforming texts among all that is read

  /** A conforming value among the ones the reader accepts: no comments, commas between, closed at the end. */
  function Embed(c: Syntax): Loose
    decreases c, 0
  {
    match c
    case ArrayOf(items) => if items == [] then EmptyArray([]) else FullArray([], EmbedItems(items))
    case ObjectOf(es) => if es == [] then Object([], [], Some([])) else Object([], EmbedEntries(es), None)
    case _ => Atom([], c)
  }

  function EmbedItems(items: seq<Syntax>): (r: seq<Item>)
    ensures |r| == |items|
    decreases items, 1
  {
    if items == [] then [] else
      [Item(Embed(items[0]), [], if |items| == 1 then CLOSE_ARRAY else COMMA)] + EmbedItems(items[1..])
  }

  function EmbedEntries(es: seq<Entry>): (r: seq<LooseEntry>)
    ensures |r| == |es|
    decreases es, 1
  {
    if es == [] then [] else
      [LooseEntry([], es[0].name, Embed(es[0].value), [], if |es| == 1 then CLOSE_OBJECT else COMMA)] + EmbedEntries(es[1..])
  }

  lemma {:induction false} NothingBefore(ts: seq<Token>)
    ensures [] + ts == ts
  {}

  lemma {:induction false} EmbedIs(o: Options, c: Syntax)
    requires Conforms(o.scan, c)
    ensures Fine(o, Embed(c)) && LooseTokens(Embed(c)) == Tokens(c) && LooseMeaning(o, Embed(c)) == Meaning(o.scan, c)
    decreases c, 0
  {
    NothingBefore(Tokens(c));
    match c
    case ArrayOf(items) => if items != [] { EmbedItemsIs(o, items); }
    case ObjectOf(es) =>
      if es == [] {
        assert [] + [CLOSE_OBJECT] == [CLOSE_OBJECT];
      } else {
        EmbedEntriesIs(o, es, []);
      }
    case _ =>
  }

  lemma {:induction false} EmbedItemsIs(o: Options, items: seq<Syntax>)
    requires items != [] && forall i :: 0 <= i < |items| ==> Conforms(o.scan, items[i])
    ensures var xs := EmbedItems(items);
            FineItems(o, xs) && LooseItemTokens(xs) == ItemTokens(items) && LooseMeanings(o, xs) == Meanings(o.scan, items)
    decreases items, 1
  {
    var xs := EmbedItems(items);
    assert xs[1..] == EmbedItems(items[1..]);
    EmbedIs(o, items[0]);
    NothingBefore([xs[0].end] + LooseItemTokens(xs[1..]));
    if |items| == 1 {
      assert [CLOSE_ARRAY] + [] == [CLOSE_ARRAY];
    } else {
      EmbedItemsIs(o, items[1..]);
    }
  }

  lemma {:induction false} EmbedEntriesIs(o: Options, es: seq<Entry>, ms: seq<Member>)
    requires es != [] && forall i :: 0 <= i < |es| ==> ValidString(es[i].name) && Conforms(o.scan, es[i].value)
    ensures var xs := EmbedEntries(es);
            FineMembers(o, xs, None) && LooseEntryTokens(xs, None) == EntryTokens(es) &&
            LooseMembers(o, xs, ms) == MembersOf(o.scan, es, ms)
    decreases es, 1
  {
    var xs := EmbedEntries(es);
    assert xs[1..] == EmbedEntries(es[1..]);
    EmbedIs(o, es[0].value);
    NothingBefore([xs[0].end] + LooseEntryTokens(xs[1..], None));
    NothingBefore(OneEntry(es[0], AfterTokens(xs, None)));
    if |es| == 1 {
      assert [CLOSE_OBJECT] + [] == [CLOSE_OBJECT];
    } else {
      EmbedEntriesIs(o, es[1..], Put(ms, SenseAll(es[0].name), Meaning(o.scan, es[0].value)));
    }
  }

  /** No comments, every separator a comma, and objects closed after their last member. */
  predicate Strict(c: Loose)
    decreases c, 0
  {
    c.lead == [] &&
    match c
    case FullArray(_, items) => StrictItems(items)
    case Object(_, es, closed) => StrictEntries(es) && closed == if es == [] then Some([]) else None
    case _ => true
  }

  predicate StrictItems(items: seq<Item>)
    decreases items, 1
  {
    items == [] || (items[0].trail == [] && Strict(items[0].value) && StrictItems(items[1..])
                    && items[0].end == if |items| == 1 then CLOSE_ARRAY else COMMA)
  }

  predicate StrictEntries(es: seq<LooseEntry>)
    decreases es, 1
  {
    es == [] || (es[0].lead == [] && es[0].trail == [] && Strict(es[0].value) && StrictEntries(es[1..])
                 && es[0].end == if |es| == 1 then CLOSE_OBJECT else COMMA)
  }

  /** What the reader accepts without any of its leniencies is a value of the grammar. */
  lemma {:induction false} StrictConforms(o: Options, c: Loose) returns (d: Syntax)
    requires Fine(o, c) && Strict(c)
    ensures Conforms(o.scan, d) && Embed(d) == c
    decreases c, 0
  {
    match c {
      case Atom(_, l) => d := l;
      case EmptyArray(_) => d := ArrayOf([]);
      case FullArray(_, items) =>
        var ds := StrictItemsConform(o, items);
        d := ArrayOf(ds);
      case Object(_, es, closed) =>
        var ds := StrictEntriesConform(o, es, closed, "");
        d := ObjectOf(ds);
    }
  }

  lemma {:induction false} EmbedMoreItems(d: Syntax, more: seq<Syntax>)
    ensures EmbedItems([d] + more) == [Item(Embed(d), [], if more == [] then CLOSE_ARRAY else COMMA)] + EmbedItems(more)
  {
    assert ([d] + more)[1..] == more;
  }

  lemma {:induction false} EmbedMoreEntries(d: Entry, more: seq<Entry>)
    ensures EmbedEntries([d] + more) ==
            [LooseEntry([], d.name, Embed(d.value), [], if more == [] then CLOSE_OBJECT else COMMA)] + EmbedEntries(more)
  {
    assert ([d] + more)[1..] == more;
  }

  lemma {:induction false} StrictItemsConform(o: Options, items: seq<Item>) returns (ds: seq<Syntax>)
    requires FineItems(o, items) && StrictItems(items)
    ensures (forall i :: 0 <= i < |ds| ==> Conforms(o.scan, ds[i])) && EmbedItems(ds) == items
    decreases items, 1
  {
    var d := StrictConforms(o, items[0].value);
    var more: seq<Syntax> := [];
    if |items| > 1 {
      more := StrictItemsConform(o, items[1..]);
    }
    ds := [d] + more;
    EmbedMoreItems(d, more);
    assert items == [items[0]] + items[1..];
  }

  lemma {:induction false} StrictEntriesConform(o: Options, es: seq<LooseEntry>, closed: Option<seq<Token>>, name: string)
    returns (ds: seq<Entry>)
    requires FineEntries(o, es, closed, name) && StrictEntries(es)
    ensures (forall i :: 0 <= i < |ds| ==> ValidString(ds[i].name) && Conforms(o.scan, ds[i].value)) && EmbedEntries(ds) == es
    decreases es, 1
  {
    if es == [] {
      ds := [];
    } else {
      var d := StrictConforms(o, es[0].value);
      var more: seq<Entry> := [];
      if es[0].end.kind != ObjectEnd {
        more := StrictEntriesConform(o, es[1..], closed, SenseAll(es[0].name));
      }
      ds := [Entry(es[0].name, d)] + more;
      EmbedMoreEntries(Entry(es[0].name, d), more);
      assert es == [es[0]] + es[1..];
    }
  }

  /** The reader gives every text of the grammar its meaning, and stops right after it. */
  lemma {:induction false} ParseConforming(o: Options, c: Syntax, s: string, rest: string)
    requires Conforms(o.scan, c) && Reads(s, Tokens(c), rest)
    ensures ParseValue(o, s) == Success(Meaning(o.scan, c), rest)
  {
    EmbedIs(o, c);
    ParseLoose(o, Embed(c), s, rest);
  }

  // ---------------------------------------------------- conforming texts, spelled out

  /** Tokens that keep apart and end in one that is no number, so anything may follow. */
  ghost predicate Ends(ts: seq<Token>) { Separate(ts) && ts != [] && ts[|ts| - 1].kind != Number }

  lemma {:induction false} EndsJoin(a: seq<Token>, b: seq<Token>)
    requires Separate(a) && a != [] && Ends(b) && (a[|a| - 1].kind == Number ==> Delimits(b[0].text))
    ensures Ends(a + b)
  {}

  lemma {:induction false} EndsAfter(t: Token, b: seq<Token>)
    requires Proper(t) && t.kind != Number && Ends(b)
    ensures Ends([t] + b)
  {
    EndsJoin([t], b);
  }

  lemma {:induction false} OneEnds(t: Token)
    requires Proper(t) && t.kind != Number
    ensures Ends([t])
  {}

  lemma {:induction false} NameIsProper(ps: seq<Piece>)
    requires ValidString(ps)
    ensures Proper(Token(String, Quote(ps)))
  {}

  lemma {:induction false} LiteralIsSeparate(scan: string -> Option<real>, c: Syntax)
    requires IsLiteral(c) && Conforms(scan, c)
    ensures Separate(Tokens(c)) && Tokens(c) != []
    ensures !c.NumberLiteral? ==> Ends(Tokens(c))
  {
    if c.StringLiteral? {
      NameIsProper(c.pieces);
    }
  }

  /** The tokens of a value keep apart. */
  lemma {:induction false} TokensSeparate(scan: string -> Option<real>, c: Syntax)
    requires Conforms(scan, c)
    ensures Separate(Tokens(c)) && Tokens(c) != []
    ensures !c.NumberLiteral? ==> Ends(Tokens(c))
    decreases c, 0
  {
    match c
    case ArrayOf(items) =>
      ItemsEnd(scan, items);
      EndsAfter(OPEN_ARRAY, ItemTokens(items));
    case ObjectOf(es) =>
      EntriesEnd(scan, es);
      EndsAfter(OPEN_OBJECT, EntryTokens(es));
    case _ => LiteralIsSeparate(scan, c);
  }

  lemma {:induction false} ItemsEnd(scan: string -> Option<real>, items: seq<Syntax>)
    requires forall i :: 0 <= i < |items| ==> Conforms(scan, items[i])
    ensures Ends(ItemTokens(items))
    decreases items, 2
  {
    OneEnds(CLOSE_ARRAY);
    if items != [] {
      TokensSeparate(scan, items[0]);
      MoreItemsEnd(scan, items[1..]);
      EndsJoin(Tokens(items[0]), MoreItems(items[1..]));
    }
  }

  lemma {:induction false} MoreItemsEnd(scan: string -> Option<real>, items: seq<Syntax>)
    requires forall i :: 0 <= i < |items| ==> Conforms(scan, items[i])
    ensures Ends(MoreItems(items)) && Delimits(MoreItems(items)[0].text)
    decreases items, 1
  {
    OneEnds(CLOSE_ARRAY);
    if items != [] {
      TokensSeparate(scan, items[0]);
      MoreItemsEnd(scan, items[1..]);
      EndsJoin(Tokens(items[0]), MoreItems(items[1..]));
      EndsAfter(COMMA, Tokens(items[0]) + MoreItems(items[1..]));
    }
  }

  lemma {:induction false} EntriesEnd(scan: string -> Option<real>, es: seq<Entry>)
    requires forall i :: 0 <= i < |es| ==> ValidString(es[i].name) && Conforms(scan, es[i].value)
    ensures Ends(EntryTokens(es))
    decreases es, 2
  {
    OneEnds(CLOSE_OBJECT);
    if es != [] {
      MoreEntriesEnd(scan, es[1..]);
      OneEntryEnds(scan, es[0], MoreEntries(es[1..]));
    }
  }

  lemma {:induction false} MoreEntriesEnd(scan: string -> Option<real>, es: seq<Entry>)
    requires forall i :: 0 <= i < |es| ==> ValidString(es[i].name) && Conforms(scan, es[i].value)
    ensures Ends(MoreEntries(es)) && Delimits(MoreEntries(es)[0].text)
    decreases es, 1
  {
    OneEnds(CLOSE_OBJECT);
    if es != [] {
      MoreEntriesEnd(scan, es[1..]);
      OneEntryEnds(scan, es[0], MoreEntries(es[1..]));
      EndsAfter(COMMA, OneEntry(es[0], MoreEntries(es[1..])));
    }
  }

  lemma {:induction false} OneEntryEnds(scan: string -> Option<real>, e: Entry, more: seq<Token>)
    requires ValidString(e.name) && Conforms(scan, e.value) && Ends(more) && Delimits(more[0].text)
    ensures Ends(OneEntry(e, more))
    decreases e, 1
  {
    TokensSeparate(scan, e.value);
    EndsJoin(Tokens(e.value), more);
    NamedEnds(e.name, Tokens(e.value) + more);
  }

  lemma {:induction false} NamedEnds(name: seq<Piece>, value: seq<Token>)
    requires ValidString(name) && Ends(value)
    ensures Ends([Token(String, Quote(name))] + ([COLON] + value))
  {
    NameIsProper(name);
    EndsAfter(COLON, value);
    EndsAfter(Token(String, Quote(name)), [COLON] + value);
  }

  /** The tokens of a value, with any white space between them, are read as its meaning. */
  lemma {:induction false} ParseSpaced(o: Options, c: Syntax, gaps: seq<string>, rest: string)
    requires Conforms(o.scan, c) && |gaps| == |Tokens(c)| && AllGaps(gaps) && (c.NumberLiteral? ==> Delimits(rest))
    ensures ParseValue(o, Laid(Tokens(c), gaps) + rest) == Success(Meaning(o.scan, c), rest)
  {
    TokensSeparate(o.scan, c);
    LaidIsRead(Tokens(c), gaps, rest);
    ParseConforming(o, c, Laid(Tokens(c), gaps) + rest, rest);
  }

  /** Whatever text is read is the tokens of what it spells, with white space between them. */
  lemma {:induction false} ReadIsLaid(o: Options, s: string) returns (c: Loose, gaps: seq<string>)
    requires ParseValue(o, s).Success?
    ensures Fine(o, c) && LooseMeaning(o, c) == ParseValue(o, s).value
    ensures |gaps| == |LooseTokens(c)| && AllGaps(gaps) && s == Laid(LooseTokens(c), gaps) + ParseValue(o, s).rest
  {
    c := LooseOf(o, s);
    gaps := ReadsAreLaid(s, LooseTokens(c), ParseValue(o, s).rest);
  }

  // ------------------------------------------------- whatever the text is

  lemma {:induction false} ParsedStaysOrdered(o: Options, s: string)
    ensures ParseValue(o, s).Success? ==> Ordered(ParseValue(o, s).value)
    decreases |s|, 1
  {
    var l := NextSignificant(o, s);
    match l.token.kind
    case ObjectBegin => MembersAreOrdered(o, l.rest, "", []);
    case ArrayBegin => ItemsAreOrdered(o, l.rest, []);
    case _ =>
  }

  predicate GoodSoFar(ms: seq<Member>) { Ordered(Obj(ms)) }

  lemma {:induction false} PutKeepsGood(ms: seq<Member>, name: string, v: Json)
    requires GoodSoFar(ms) && Ordered(v)
    ensures GoodSoFar(Put(ms, name, v))
  {
    PutKeepsSorted(ms, name, v);
    forall i | 0 <= i < |Put(ms, name, v)| ensures Ordered(Put(ms, name, v)[i].value) { PutNames(ms, name, v, i); }
  }

  lemma {:induction false} MembersAreOrdered(o: Options, s: string, name: string, ms: seq<Member>)
    requires GoodSoFar(ms)
    ensures ParseMembers(o, s, name, ms).Success? ==> Ordered(ParseMembers(o, s, name, ms).value)
    decreases |s|, 0
  {
    var l := NextPlain(s);
    if l.token.kind == String && DecodeString(l.token.text).Some? {
      NamedIsOrdered(o, l.rest, DecodeString(l.token.text).value, ms);
    }
  }

  lemma {:induction false} NamedIsOrdered(o: Options, s: string, key: string, ms: seq<Member>)
    requires GoodSoFar(ms)
    ensures ParseNamed(o, s, key, ms).Success? ==> Ordered(ParseNamed(o, s, key, ms).value)
    decreases |s|, 0
  {
    var colon := NextToken(s);
    if colon.token.kind == MemberSeparator {
      ParsedStaysOrdered(o, colon.rest);
      match ParseValue(o, colon.rest)
      case Failure(r) =>
      case Success(v, r) =>
        PutKeepsGood(ms, key, v);
        AfterMemberIsOrdered(o, r, key, Put(ms, key, v));
    }
  }

  lemma {:induction false} AfterMemberIsOrdered(o: Options, s: string, name: string, ms: seq<Member>)
    requires GoodSoFar(ms)
    ensures AfterMember(o, s, name, ms).Success? ==> Ordered(AfterMember(o, s, name, ms).value)
    decreases |s|, 1
  {
    var first, last := NextToken(s), NextPlain(s);
    if (first.token.kind == ArraySeparator || first.token.kind == Comment) && last.token.kind != ObjectEnd {
      MembersAreOrdered(o, last.rest, name, ms);
    }
  }

  lemma {:induction false} ItemsAreOrdered(o: Options, s: string, items: seq<Json>)
    requires Ordered(Arr(items))
    ensures ParseItems(o, s, items).Success? ==> Ordered(ParseItems(o, s, items).value)
    decreases |s|, 2
  {
    ParsedStaysOrdered(o, s);
    match ParseValue(o, s)
    case Failure(r) =>
    case Success(v, r) =>
      var l := NextPlain(r);
      if l.token.kind != ArrayEnd {
        ItemsAreOrdered(o, l.rest, items + [v]);
      }
  }

  /** Every value the reader builds, from any text, has each object's members in the order of `strcmp`, none twice. */
  lemma {:induction false} ParsedIsOrdered(o: Options, s: string)
    ensures ParseValue(o, s).Success? ==> Ordered(ParseValue(o, s).value) && InOrder(ParseValue(o, s).value)
  {
    ParsedStaysOrdered(o, s);
    if ParseValue(o, s).Success? {
      OrderedIsInOrder(ParseValue(o, s).value);
    }
  }
}
