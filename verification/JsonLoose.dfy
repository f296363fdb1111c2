/**
 * Everything the reader accepts, as a grammar: values with the comments before and after them and
 * with the tokens that separate them. The texts of RFC 8259 are those without comments whose
 * separators are all commas.
 */
module JsonLoose {
  import opened Optional
  import opened JsonValue
  import opened JsonSyntax
  import opened JsonNumbers
  import opened JsonGrammar
  import opened JsonTokens

  datatype Loose =
    | Atom(lead: seq<Token>, literal: Syntax)
    | EmptyArray(lead: seq<Token>)
    | FullArray(lead: seq<Token>, items: seq<Item>)
    | Object(lead: seq<Token>, entries: seq<LooseEntry>, closed: Option<seq<Token>>)

  /** An item, the comments after it, and the token that ends it. */
  datatype Item = Item(value: Loose, trail: seq<Token>, end: Token)

  datatype LooseEntry = LooseEntry(lead: seq<Token>, name: seq<Piece>, value: Loose, trail: seq<Token>, end: Token)

  predicate Comments(ts: seq<Token>) { forall i :: 0 <= i < |ts| ==> ts[i].kind == Kind.Comment }

  /** Comments before a value are accepted only when the options say so; elsewhere they always are. */
  predicate Lead(o: Options, ts: seq<Token>) { Comments(ts) && (ts != [] ==> o.comments) }

  predicate IsLiteral(c: Syntax) { !c.ArrayOf? && !c.ObjectOf? }

  predicate Fine(o: Options, c: Loose)
    decreases c, 0
  {
    Lead(o, c.lead) &&
    match c
    case Atom(_, l) => IsLiteral(l) && Conforms(o.scan, l)
    case EmptyArray(_) => true
    case FullArray(_, items) => FineItems(o, items)
    case Object(_, es, closed) => FineEntries(o, es, closed, "")
  }

  /** Every item ends with some token, and the last one, and only the last, with a closing bracket. */
  predicate FineItems(o: Options, items: seq<Item>)
    decreases items, 1
  {
    && items != [] && Fine(o, items[0].value) && Comments(items[0].trail)
    && (if |items| == 1 then items[0].end == CLOSE_ARRAY
        else items[0].end.kind != ArrayEnd && items[0].end.kind != Kind.Comment && FineItems(o, items[1..]))
  }

  /** What may follow a member: a comma or a closing brace, or after comments any token at all. */
  predicate MayEnd(e: LooseEntry) {
    && Comments(e.trail)
    && (if e.trail == [] then e.end.kind == ObjectEnd || e.end.kind == ArraySeparator else e.end.kind != Kind.Comment)
  }

  /** An object is closed after its last member, or, where the last name read is empty, on its own. */
  predicate FineEntries(o: Options, es: seq<LooseEntry>, closed: Option<seq<Token>>, name: string)
    decreases es, 2
  {
    if es == [] then closed.Some? && Comments(closed.value) && name == "" else FineMembers(o, es, closed)
  }

  predicate FineMembers(o: Options, es: seq<LooseEntry>, closed: Option<seq<Token>>)
    requires es != []
    decreases es, 1
  {
    && Comments(es[0].lead) && ValidString(es[0].name) && Fine(o, es[0].value) && MayEnd(es[0])
    && (if es[0].end.kind == ObjectEnd then |es| == 1 && closed.None? && es[0].end == CLOSE_OBJECT
        else FineEntries(o, es[1..], closed, SenseAll(es[0].name)))
  }

  function LooseTokens(c: Loose): seq<Token>
    decreases c, 0
  {
    c.lead + match c
             case Atom(_, l) => Tokens(l)
             case EmptyArray(_) => [OPEN_ARRAY] + [CLOSE_ARRAY]
             case FullArray(_, items) => [OPEN_ARRAY] + LooseItemTokens(items)
             case Object(_, es, closed) => [OPEN_OBJECT] + LooseEntryTokens(es, closed)
  }

  function LooseItemTokens(items: seq<Item>): seq<Token>
    decreases items, 1
  {
    if items == [] then [] else
      LooseTokens(items[0].value) + (items[0].trail + ([items[0].end] + LooseItemTokens(items[1..])))
  }

  function LooseEntryTokens(es: seq<LooseEntry>, closed: Option<seq<Token>>): seq<Token>
    decreases es, 1
  {
    if es == [] then (if closed.Some? then closed.value + [CLOSE_OBJECT] else [])
    else es[0].lead + ([Token(String, Quote(es[0].name))] + ([COLON] + (LooseTokens(es[0].value) + AfterTokens(es, closed))))
  }

  /** The tokens after the first member's value. */
  function AfterTokens(es: seq<LooseEntry>, closed: Option<seq<Token>>): seq<Token>
    requires es != []
    decreases es, 0
  {
    es[0].trail + ([es[0].end] + LooseEntryTokens(es[1..], closed))
  }

  function NameOf(ps: seq<Piece>): string { if ValidString(ps) then SenseAll(ps) else "" }

  /** What the reader makes of it: comments and separating tokens leave no trace. */
  function LooseMeaning(o: Options, c: Loose): Json
    decreases c, 0
  {
    match c
    case Atom(_, l) => if Conforms(o.scan, l) then Meaning(o.scan, l) else Null
    case EmptyArray(_) => Arr([])
    case FullArray(_, items) => Arr(LooseMeanings(o, items))
    case Object(_, es, _) => Obj(LooseMembers(o, es, []))
  }

  function LooseMeanings(o: Options, items: seq<Item>): seq<Json>
    decreases items, 1
  {
    if items == [] then [] else [LooseMeaning(o, items[0].value)] + LooseMeanings(o, items[1..])
  }

  function LooseMembers(o: Options, es: seq<LooseEntry>, ms: seq<Member>): seq<Member>
    decreases es, 1
  {
    if es == [] then ms else LooseMembers(o, es[1..], Put(ms, NameOf(es[0].name), LooseMeaning(o, es[0].value)))
  }

  /** The text spells the value, up to `rest`. */
  predicate Spells(o: Options, c: Loose, s: string, rest: string) { Fine(o, c) && Reads(s, LooseTokens(c), rest) }

  // ------------------------------------------------------- what is spelled is read

  /** Comments, and then something else. */
  lemma {:induction false} CommentsRead(ts: seq<Token>, t: Token, more: seq<Token>, s: string, rest: string)
    requires Comments(ts) && t.kind != Kind.Comment && Reads(s, ts + ([t] + more), rest)
    ensures NextPlain(s).token == t && Reads(NextPlain(s).rest, more, rest)
    decreases |ts|
  {
    if ts == [] {
      assert ts + ([t] + more) == [t] + more;
      ReadsFirst(s, t, more, rest);
    } else {
      assert (ts + ([t] + more))[1..] == ts[1..] + ([t] + more);
      CommentsRead(ts[1..], t, more, NextToken(s).rest, rest);
    }
  }

  lemma {:induction false} LeadRead(o: Options, ts: seq<Token>, t: Token, more: seq<Token>, s: string, rest: string)
    requires Lead(o, ts) && t.kind != Kind.Comment && Reads(s, ts + ([t] + more), rest)
    ensures NextSignificant(o, s).token == t && Reads(NextSignificant(o, s).rest, more, rest)
  {
    if ts == [] {
      assert ts + ([t] + more) == [t] + more;
      ReadsFirst(s, t, more, rest);
    } else {
      CommentsRead(ts, t, more, s, rest);
    }
    if o.comments {
      CommentsRead(ts, t, more, s, rest);
    }
  }

  /** A literal is one token, and the reader gives it its meaning. */
  lemma {:induction false} LiteralIsRead(o: Options, l: Syntax)
    requires IsLiteral(l) && Conforms(o.scan, l)
    ensures |Tokens(l)| == 1 && Shaped(Tokens(l)[0]) && Scalar(o, Tokens(l)[0]) == Some(Meaning(o.scan, l))
    ensures Tokens(l)[0].kind != ObjectBegin && Tokens(l)[0].kind != ArrayBegin && Tokens(l)[0].kind != Kind.Comment
  {
    match l
    case NumberLiteral(text) => DecodesToSense(o.scan, text);
    case StringLiteral(ps) => DecodeQuoted(ps);
    case _ =>
  }

  lemma {:induction false} ParseAtom(o: Options, lead: seq<Token>, l: Syntax, s: string, rest: string)
    requires Lead(o, lead) && IsLiteral(l) && Conforms(o.scan, l) && Reads(s, lead + Tokens(l), rest)
    ensures ParseValue(o, s) == Success(Meaning(o.scan, l), rest)
  {
    LiteralIsRead(o, l);
    assert Tokens(l) == [Tokens(l)[0]] + [];
    LeadRead(o, lead, Tokens(l)[0], [], s, rest);
  }

  /** The reader gives everything that is spelled its meaning, and stops right after it. */
  lemma {:induction false} ParseLoose(o: Options, c: Loose, s: string, rest: string)
    requires Spells(o, c, s, rest)
    ensures ParseValue(o, s) == Success(LooseMeaning(o, c), rest)
    decreases c, 1
  {
    match c
    case Atom(lead, l) => ParseAtom(o, lead, l, s, rest);
    case EmptyArray(lead) =>
      LeadRead(o, lead, OPEN_ARRAY, [CLOSE_ARRAY], s, rest);
      ReadsOne(NextSignificant(o, s).rest, CLOSE_ARRAY, rest);
    case FullArray(lead, items) => ParseFullArray(o, lead, items, s, rest);
    case Object(lead, es, closed) =>
      LeadRead(o, lead, OPEN_OBJECT, LooseEntryTokens(es, closed), s, rest);
      ParseLooseEntries(o, es, closed, NextSignificant(o, s).rest, "", [], rest);
  }

  lemma {:induction false} ParseFullArray(o: Options, lead: seq<Token>, items: seq<Item>, s: string, rest: string)
    requires Lead(o, lead) && FineItems(o, items) && Reads(s, lead + ([OPEN_ARRAY] + LooseItemTokens(items)), rest)
    ensures ParseValue(o, s) == Success(Arr(LooseMeanings(o, items)), rest)
    decreases items, 2
  {
    LeadRead(o, lead, OPEN_ARRAY, LooseItemTokens(items), s, rest);
    var r := NextSignificant(o, s).rest;
    ParseLooseItems(o, items, r, [], rest);
    assert [] + LooseMeanings(o, items) == LooseMeanings(o, items);
    if NextToken(r).token.kind == ArrayEnd {
      BracketIsNoValue(o, r);
      assert false;
    }
  }

  /** No value starts with a closing bracket. */
  lemma {:induction false} BracketIsNoValue(o: Options, s: string)
    requires NextToken(s).token.kind == ArrayEnd
    ensures ParseItems(o, s, []).Failure?
  {}

  lemma {:induction false} ParseLooseItems(o: Options, items: seq<Item>, s: string, done: seq<Json>, rest: string)
    requires FineItems(o, items) && Reads(s, LooseItemTokens(items), rest)
    ensures ParseItems(o, s, done) == Success(Arr(done + LooseMeanings(o, items)), rest)
    decreases items, 1
  {
    var x, v := items[0], LooseMeaning(o, items[0].value);
    var ts, more := LooseTokens(x.value), LooseItemTokens(items[1..]);
    var m := Left(s, |ts|);
    ReadsSplit(s, ts, x.trail + ([x.end] + more), rest);
    ParseLoose(o, x.value, s, m);
    CommentsRead(x.trail, x.end, more, m, rest);
    Appended(done, v, LooseMeanings(o, items[1..]));
    if |items| == 1 {
      assert done + [v] + [] == done + [v];
    } else {
      ParseLooseItems(o, items[1..], NextPlain(m).rest, done + [v], rest);
    }
  }

  lemma {:induction false} ParseLooseEntries(o: Options, es: seq<LooseEntry>, closed: Option<seq<Token>>, s: string,
                                            name: string, ms: seq<Member>, rest: string)
    requires FineEntries(o, es, closed, name) && Reads(s, LooseEntryTokens(es, closed), rest)
    ensures ParseMembers(o, s, name, ms) == Success(Obj(LooseMembers(o, es, ms)), rest)
    decreases es, 2
  {
    if es == [] {
      assert closed.value + [CLOSE_OBJECT] == closed.value + ([CLOSE_OBJECT] + []);
      CommentsRead(closed.value, CLOSE_OBJECT, [], s, rest);
    } else {
      ParseLooseEntry(o, es, closed, s, name, ms, rest);
    }
  }

  lemma {:induction false} ParseLooseEntry(o: Options, es: seq<LooseEntry>, closed: Option<seq<Token>>, s: string, name: string,
                                          ms: seq<Member>, rest: string)
    requires es != [] && FineMembers(o, es, closed) && Reads(s, LooseEntryTokens(es, closed), rest)
    ensures ParseMembers(o, s, name, ms) == Success(Obj(LooseMembers(o, es, ms)), rest)
    decreases es, 1
  {
    var e := es[0];
    var ts, after := LooseTokens(e.value), AfterTokens(es, closed);
    var start := EntryStart(e, ts + after, s, rest);
    var m := Left(start, |ts|);
    ReadsSplit(start, ts, after, rest);
    ParseLoose(o, e.value, start, m);
    OneEntryIsRead(o, e, s, name, start, m, ms);
    AfterLooseEntry(o, es, closed, m, Put(ms, NameOf(e.name), LooseMeaning(o, e.value)), rest);
  }

  lemma {:induction false} OneEntryIsRead(o: Options, e: LooseEntry, s: string, name: string, start: string, m: string,
                                         ms: seq<Member>)
    requires ValidString(e.name) && NextPlain(s).token == Token(String, Quote(e.name))
    requires NextToken(NextPlain(s).rest) == Lexed(COLON, start) && ParseValue(o, start) == Success(LooseMeaning(o, e.value), m)
    ensures ParseMembers(o, s, name, ms) == AfterMember(o, m, NameOf(e.name), Put(ms, NameOf(e.name), LooseMeaning(o, e.value)))
  {
    DecodeQuoted(e.name);
  }

  /** The comments before a member, its name and its colon. */
  lemma {:induction false} EntryStart(e: LooseEntry, more: seq<Token>, s: string, rest: string) returns (start: string)
    requires Comments(e.lead) && Reads(s, e.lead + ([Token(String, Quote(e.name))] + ([COLON] + more)), rest)
    ensures NextPlain(s).token == Token(String, Quote(e.name)) && NextToken(NextPlain(s).rest) == Lexed(COLON, start)
    ensures Reads(start, more, rest)
  {
    CommentsRead(e.lead, Token(String, Quote(e.name)), [COLON] + more, s, rest);
    ReadsFirst(NextPlain(s).rest, COLON, more, rest);
    start := NextToken(NextPlain(s).rest).rest;
  }

  lemma {:induction false} AfterLooseEntry(o: Options, es: seq<LooseEntry>, closed: Option<seq<Token>>, m: string,
                                          ms: seq<Member>, rest: string)
    requires es != [] && FineMembers(o, es, closed) && Reads(m, AfterTokens(es, closed), rest)
    ensures AfterMember(o, m, NameOf(es[0].name), ms) == Success(Obj(LooseMembers(o, es[1..], ms)), rest)
    decreases es, 0
  {
    var e, more := es[0], LooseEntryTokens(es[1..], closed);
    CommentsRead(e.trail, e.end, more, m, rest);
    FirstAfter(e.trail, e.end, more, m, rest);
    if e.end.kind != ObjectEnd {
      ParseLooseEntries(o, es[1..], closed, NextPlain(m).rest, NameOf(e.name), ms, rest);
    }
  }

  lemma {:induction false} FirstAfter(trail: seq<Token>, end: Token, more: seq<Token>, m: string, rest: string)
    requires Comments(trail) && Reads(m, trail + ([end] + more), rest)
    ensures if trail == [] then NextToken(m).token == end else NextToken(m).token.kind == Kind.Comment
  {
    if trail == [] {
      assert trail + ([end] + more) == [end] + more;
    } else {
      assert (trail + ([end] + more))[0] == trail[0];
    }
  }

  // ------------------------------------------------------- what is read is spelled

  lemma {:induction false} CommentsOf(s: string) returns (ts: seq<Token>, m: string)
    ensures Comments(ts) && Reads(s, ts, m) && NextToken(m) == NextPlain(s)
    ensures ts == [] <==> NextToken(s).token.kind != Kind.Comment
    decreases |s|
  {
    var l := NextToken(s);
    if l.token.kind == Kind.Comment {
      ts, m := CommentsOf(l.rest);
      ReadsFirst(s, l.token, ts, m);
      ts := [l.token] + ts;
    } else {
      ts, m := [], s;
    }
  }

  lemma {:induction false} LeadOf(o: Options, s: string) returns (ts: seq<Token>, m: string)
    ensures Lead(o, ts) && Reads(s, ts, m) && NextToken(m) == NextSignificant(o, s)
  {
    if o.comments {
      ts, m := CommentsOf(s);
    } else {
      ts, m := [], s;
    }
  }

  /** The text of a token in one character. */
  lemma {:induction false} OneCharacter(s: string)
    ensures var t := NextToken(s).token;
            && (t.kind == ArrayBegin ==> t == OPEN_ARRAY) && (t.kind == ArrayEnd ==> t == CLOSE_ARRAY)
            && (t.kind == ObjectBegin ==> t == OPEN_OBJECT) && (t.kind == ObjectEnd ==> t == CLOSE_OBJECT)
            && (t.kind == ArraySeparator ==> t == COMMA) && (t.kind == MemberSeparator ==> t == COLON)
  {
    var s' := SkipSpaces(s);
    if s' != "" {
      assert s'[..1] == [s'[0]];
    }
  }

  lemma {:induction false} WordToken(s: string)
    ensures var t := NextToken(s).token;
            && (t.kind == True ==> t.text == "true") && (t.kind == False ==> t.text == "false")
            && (t.kind == NullWord ==> t.text == "null")
  {
    var s' := SkipSpaces(s);
    var k := NextToken(s).token.kind;
    if k == True {
      assert s'[..4] == [s'[0]] + s'[1..][..3];
    } else if k == False {
      assert s'[..5] == [s'[0]] + s'[1..][..4];
    } else if k == NullWord {
      assert s'[..4] == [s'[0]] + s'[1..][..3];
    }
  }

  lemma {:induction false} NumberTaken(s: string)
    ensures forall i :: 0 <= i < |s| - |NumberRest(s)| ==> IsNumberChar(s[i])
  {
    if s != "" && IsNumberChar(s[0]) {
      NumberTaken(s[1..]);
      forall i | 0 <= i < |s| - |NumberRest(s)| ensures IsNumberChar(s[i]) {
        assert i > 0 ==> s[i] == s[1..][i - 1];
      }
    }
  }

  lemma {:induction false} NumberToken(s: string)
    requires NextToken(s).token.kind == Number
    ensures IsNumberText(NextToken(s).token.text)
  {
    var s' := SkipSpaces(s);
    NumberTaken(s'[1..]);
    forall i | 0 <= i < |NextToken(s).token.text| ensures IsNumberChar(NextToken(s).token.text[i]) {
      assert i > 0 ==> s'[i] == s'[1..][i - 1];
    }
  }

  lemma {:induction false} StringTaken(s: string)
    requires StringRest(s).ok
    ensures var n := |s| - |StringRest(s).rest|; n > 0 && s[n - 1] == '"' && s[n..] == StringRest(s).rest
    decreases |s|
  {
    StringSuffix(s);
    if s[0] != '"' {
      StringTaken(s[if s[0] == '\\' then 2 else 1..]);
    }
  }

  /** The characters between the quotes end nowhere before the closing one. */
  lemma {:induction false} NoEarlyQuote(ps: seq<Piece>, tail: string, k: string)
    requires AllValid(ps) && StringRest(SpellAll(ps) + tail + ['"'] + k) == Scan(true, k) && (tail != "" ==> tail[0] == '"')
    ensures tail == ""
  {
    if tail != "" {
      var after := tail[1..] + ['"'] + k;
      assert SpellAll(ps) + tail + ['"'] + k == SpellAll(ps) + ['"'] + after;
      StringEnds(ps, after);
      assert false;
    }
  }

  lemma {:induction false} QuoteCut(t: string, u: string, k: string) returns (inner: string)
    requires t == ['"'] + u && |k| < |u| && u[|u| - |k| - 1] == '"' && u[|u| - |k|..] == k
    ensures u == inner + ['"'] + k && t[..|t| - |k|] == ['"'] + inner + ['"']
  {
    inner := u[..|u| - |k| - 1];
    assert u == inner + ['"'] + k;
    assert t == ['"'] + inner + ['"'] + k;
  }

  /** A string token is two quotes and what is between them. */
  lemma {:induction false} StringBetween(s: string) returns (inner: string)
    requires NextToken(s).token.kind == String
    ensures NextToken(s).token.text == ['"'] + inner + ['"']
    ensures StringRest(inner + ['"'] + NextToken(s).rest) == Scan(true, NextToken(s).rest)
  {
    var t := SkipSpaces(s);
    StringTaken(t[1..]);
    inner := QuoteCut(t, t[1..], NextToken(s).rest);
  }

  /** A string token that is decoded is one of the grammar. */
  lemma {:induction false} StringToken(s: string) returns (ps: seq<Piece>)
    requires NextToken(s).token.kind == String && DecodeString(NextToken(s).token.text).Some?
    ensures ValidString(ps) && NextToken(s).token.text == Quote(ps)
  {
    var inner := StringBetween(s);
    var text := NextToken(s).token.text;
    assert text[1..|text| - 1] == inner;
    var tail;
    ps, tail := DecodedIsSpelled(inner);
    NoEarlyQuote(ps, tail, NextToken(s).rest);
    assert SpellAll(ps) + "" == SpellAll(ps);
  }

  lemma {:induction false} AtomOf(o: Options, s: string) returns (l: Syntax)
    requires Scalar(o, NextToken(s).token).Some?
    ensures IsLiteral(l) && Conforms(o.scan, l) && Tokens(l) == [NextToken(s).token]
    ensures Meaning(o.scan, l) == Scalar(o, NextToken(s).token).value
  {
    var t := NextToken(s).token;
    WordToken(s);
    match t.kind {
      case Number =>
        NumberToken(s);
        DecodesToSense(o.scan, t.text);
        l := NumberLiteral(t.text);
      case String =>
        var ps := StringToken(s);
        DecodeQuoted(ps);
        l := StringLiteral(ps);
      case True => l := BoolLiteral(true);
      case False => l := BoolLiteral(false);
      case _ => l := NullLiteral;
    }
  }

  /** Whatever the reader accepts is spelled by this grammar, and gets its meaning. */
  lemma {:induction false} LooseOf(o: Options, s: string) returns (c: Loose)
    requires ParseValue(o, s).Success?
    ensures Spells(o, c, s, ParseValue(o, s).rest) && LooseMeaning(o, c) == ParseValue(o, s).value
    decreases |s|, 2
  {
    var lead, m := LeadOf(o, s);
    var l := NextToken(m);
    OneCharacter(m);
    if l.token.kind == ObjectBegin {
      c := ObjectFrom(o, lead, s, m, l.rest);
    } else if l.token.kind == ArrayBegin {
      c := ArrayFrom(o, lead, s, m, l.rest);
    } else {
      var literal := AtomOf(o, m);
      c := Atom(lead, literal);
      ReadsOne(m, l.token, l.rest);
      ReadsJoin(s, lead, m, Tokens(literal), l.rest);
    }
  }

  lemma {:induction false} ObjectFrom(o: Options, lead: seq<Token>, s: string, m: string, r: string) returns (c: Loose)
    requires Lead(o, lead) && Reads(s, lead, m) && NextToken(m) == Lexed(OPEN_OBJECT, r) && |r| < |s|
    requires ParseMembers(o, r, "", []).Success?
    ensures var p := ParseMembers(o, r, "", []); Spells(o, c, s, p.rest) && LooseMeaning(o, c) == p.value
    decreases |s|, 1
  {
    var es, closed := EntriesFrom(o, r, "", []);
    c := Object(lead, es, closed);
    OpenJoined(s, lead, m, OPEN_OBJECT, r, LooseEntryTokens(es, closed), ParseMembers(o, r, "", []).rest);
  }

  lemma {:induction false} ArrayFrom(o: Options, lead: seq<Token>, s: string, m: string, r: string) returns (c: Loose)
    requires Lead(o, lead) && Reads(s, lead, m) && NextToken(m) == Lexed(OPEN_ARRAY, r) && |r| < |s|
    requires ParseArray(o, r).Success?
    ensures Spells(o, c, s, ParseArray(o, r).rest) && LooseMeaning(o, c) == ParseArray(o, r).value
    decreases |s|, 1
  {
    if NextToken(r).token.kind == ArrayEnd {
      c := EmptyArray(lead);
      EmptyJoined(s, lead, m, r);
    } else {
      var items := ItemsFrom(o, r, []);
      assert [] + LooseMeanings(o, items) == LooseMeanings(o, items);
      c := FullArray(lead, items);
      OpenJoined(s, lead, m, OPEN_ARRAY, r, LooseItemTokens(items), ParseItems(o, r, []).rest);
    }
  }

  lemma {:induction false} EmptyJoined(s: string, lead: seq<Token>, m: string, r: string)
    requires Reads(s, lead, m) && NextToken(m) == Lexed(OPEN_ARRAY, r) && NextToken(r).token.kind == ArrayEnd
    ensures Reads(s, lead + ([OPEN_ARRAY] + [CLOSE_ARRAY]), NextToken(r).rest)
  {
    OneCharacter(r);
    ReadsOne(r, CLOSE_ARRAY, NextToken(r).rest);
    OpenJoined(s, lead, m, OPEN_ARRAY, r, [CLOSE_ARRAY], NextToken(r).rest);
  }

  lemma {:induction false} OpenJoined(s: string, lead: seq<Token>, m: string, open: Token, r: string, ts: seq<Token>,
                                     rest: string)
    requires Reads(s, lead, m) && NextToken(m) == Lexed(open, r) && Reads(r, ts, rest)
    ensures Reads(s, lead + ([open] + ts), rest)
  {
    ReadsFirst(m, open, ts, rest);
    ReadsJoin(s, lead, m, [open] + ts, rest);
  }

  /** Tokens, then comments, then a token, then more. */
  lemma {:induction false} ReadsOn(s: string, a: seq<Token>, m: string, b: seq<Token>, n: string, t: Token, more: seq<Token>,
                                  rest: string)
    requires Reads(s, a, m) && Reads(m, b, n) && NextToken(n).token == t && Reads(NextToken(n).rest, more, rest)
    ensures Reads(s, a + (b + ([t] + more)), rest)
  {
    ReadsFirst(n, t, more, rest);
    ReadsJoin(m, b, n, [t] + more, rest);
    ReadsJoin(s, a, m, b + ([t] + more), rest);
  }

  lemma {:induction false} ItemsFrom(o: Options, s: string, done: seq<Json>) returns (items: seq<Item>)
    requires ParseItems(o, s, done).Success?
    ensures FineItems(o, items) && Reads(s, LooseItemTokens(items), ParseItems(o, s, done).rest)
    ensures ParseItems(o, s, done).value == Arr(done + LooseMeanings(o, items))
    decreases |s|, 3
  {
    var c := LooseOf(o, s);
    var v, m := ParseValue(o, s).value, ParseValue(o, s).rest;
    var trail, n := CommentsOf(m);
    var l := NextToken(n);
    OneCharacter(n);
    var more: seq<Item> := [];
    if l.token.kind != ArrayEnd {
      more := ItemsFrom(o, l.rest, done + [v]);
    } else {
      assert done + [v] + [] == done + [v];
    }
    items := [Item(c, trail, l.token)] + more;
    assert items[1..] == more;
    ReadsOn(s, LooseTokens(c), m, trail, n, l.token, LooseItemTokens(more), ParseItems(o, s, done).rest);
    Appended(done, v, LooseMeanings(o, more));
  }

  lemma {:induction false} EntriesFrom(o: Options, s: string, name: string, ms: seq<Member>)
    returns (es: seq<LooseEntry>, closed: Option<seq<Token>>)
    requires ParseMembers(o, s, name, ms).Success?
    ensures FineEntries(o, es, closed, name) && Reads(s, LooseEntryTokens(es, closed), ParseMembers(o, s, name, ms).rest)
    ensures ParseMembers(o, s, name, ms).value == Obj(LooseMembers(o, es, ms))
    decreases |s|, 1
  {
    var lead, m := CommentsOf(s);
    var l := NextToken(m);
    OneCharacter(m);
    if l.token.kind == ObjectEnd && name == "" {
      es, closed := [], Some(lead);
      ReadsOne(m, CLOSE_OBJECT, l.rest);
      ReadsJoin(s, lead, m, [CLOSE_OBJECT], l.rest);
    } else {
      var ps := StringToken(m);
      DecodeQuoted(ps);
      es, closed := MoreEntriesFrom(o, s, lead, m, ps, l.rest, ms);
    }
  }

  /** A member from its colon on, and the members after it. */
  lemma {:induction false} MoreEntriesFrom(o: Options, s: string, lead: seq<Token>, m: string, ps: seq<Piece>, r: string,
                                          ms: seq<Member>)
    returns (es: seq<LooseEntry>, closed: Option<seq<Token>>)
    requires Comments(lead) && Reads(s, lead, m) && ValidString(ps) && NextToken(m) == Lexed(Token(String, Quote(ps)), r)
    requires |r| < |s| && ParseNamed(o, r, SenseAll(ps), ms).Success?
    ensures es != [] && FineMembers(o, es, closed)
    ensures Reads(s, LooseEntryTokens(es, closed), ParseNamed(o, r, SenseAll(ps), ms).rest)
    ensures ParseNamed(o, r, SenseAll(ps), ms).value == Obj(LooseMembers(o, es, ms))
    decreases |s|, 0
  {
    OneCharacter(r);
    var start := NextToken(r).rest;
    var c := LooseOf(o, start);
    var v, a := ParseValue(o, start).value, ParseValue(o, start).rest;
    var trail, n := CommentsOf(a);
    var end := NextToken(n);
    OneCharacter(n);
    var more: seq<LooseEntry>;
    more, closed := [], None;
    if end.token.kind != ObjectEnd {
      more, closed := EntriesFrom(o, end.rest, SenseAll(ps), Put(ms, SenseAll(ps), v));
    }
    es := [LooseEntry(lead, ps, c, trail, end.token)] + more;
    assert es[1..] == more;
    var rest := ParseNamed(o, r, SenseAll(ps), ms).rest;
    ReadsOn(start, LooseTokens(c), a, trail, n, end.token, LooseEntryTokens(more, closed), rest);
    EntryJoined(s, lead, m, ps, r, start, LooseTokens(c) + AfterTokens(es, closed), rest);
  }

  lemma {:induction false} EntryJoined(s: string, lead: seq<Token>, m: string, ps: seq<Piece>, r: string, start: string,
                                      more: seq<Token>, rest: string)
    requires Reads(s, lead, m) && NextToken(m) == Lexed(Token(String, Quote(ps)), r) && NextToken(r) == Lexed(COLON, start)
    requires Reads(start, more, rest)
    ensures Reads(s, lead + ([Token(String, Quote(ps))] + ([COLON] + more)), rest)
  {
    ReadsFirst(r, COLON, more, rest);
    ReadsFirst(m, Token(String, Quote(ps)), [COLON] + more, rest);
    ReadsJoin(s, lead, m, [Token(String, Quote(ps))] + ([COLON] + more), rest);
  }

  // ------------------------------------------------------------------- exactly

  /** The reader accepts exactly what this grammar spells, with exactly its meaning, and stops right after it. */
  lemma {:induction false} ParseIff(o: Options, s: string, v: Json, rest: string)
    ensures ParseValue(o, s) == Success(v, rest) <==> exists c :: Spells(o, c, s, rest) && LooseMeaning(o, c) == v
  {
    if ParseValue(o, s) == Success(v, rest) {
      var c := LooseOf(o, s);
      assert Spells(o, c, s, rest);
    }
    forall c | Spells(o, c, s, rest) ensures ParseValue(o, s) == Success(LooseMeaning(o, c), rest) {
      ParseLoose(o, c, s, rest);
    }
  }

  /** The items of an array, from after its opening bracket, with their separating tokens. */
  lemma {:induction false} ItemsIff(o: Options, s: string, vs: seq<Json>, rest: string)
    ensures ParseItems(o, s, []) == Success(Arr(vs), rest) <==>
            exists items :: FineItems(o, items) && Reads(s, LooseItemTokens(items), rest) && LooseMeanings(o, items) == vs
  {
    if ParseItems(o, s, []) == Success(Arr(vs), rest) {
      var items := ItemsFrom(o, s, []);
      assert [] + LooseMeanings(o, items) == LooseMeanings(o, items);
      assert FineItems(o, items);
    }
    forall items | FineItems(o, items) && Reads(s, LooseItemTokens(items), rest)
      ensures ParseItems(o, s, []) == Success(Arr(LooseMeanings(o, items)), rest)
    {
      ParseLooseItems(o, items, s, [], rest);
      assert [] + LooseMeanings(o, items) == LooseMeanings(o, items);
    }
  }

  /** Between the items of an array any other token but a comment or a closing bracket does as well, and is lost. */
  lemma {:induction false} AnySeparator(o: Options, items: seq<Item>, i: nat, t: Token)
    requires FineItems(o, items) && i < |items| - 1 && t.kind != ArrayEnd && t.kind != Kind.Comment
    ensures var items' := items[i := items[i].(end := t)];
            FineItems(o, items') && LooseMeanings(o, items') == LooseMeanings(o, items)
    decreases |items|
  {
    var items' := items[i := items[i].(end := t)];
    if i == 0 {
      assert items'[1..] == items[1..];
    } else {
      AnySeparator(o, items[1..], i - 1, t);
      assert items'[1..] == items[1..][i - 1 := items[i].(end := t)];
    }
  }
}
