/** Three texts that are no JSON and that the reader accepts. */
module JsonLeniencies {
  import opened Optional
  import opened JsonValue
  import opened JsonSyntax
  import opened JsonNumbers
  import opened JsonGrammar
  import opened JsonTokens

  lemma {:induction false} DigitTextRead(w: string, c: char, k: string)
    requires AllSpaces(w) && IsDigit(c) && Delimits(k)
    ensures NextToken(w + ([c] + k)) == Lexed(Token(Number, [c]), k)
  {
    ReadNumber([c], k);
    SpacesSkipped(w, [c] + k);
  }

  lemma {:induction false} DigitValueRead(o: Options, w: string, c: char, k: string)
    requires AllSpaces(w) && IsDigit(c) && Delimits(k)
    ensures ParseValue(o, w + ([c] + k)) == Success(Int(DigitValue(c)), k)
  {
    DigitTextRead(w, c, k);
    assert [c][1..] == "" && Folded(0, [c]) == DigitValue(c);
    UnsignedExact(o.scan, [c]);
  }

  lemma {:induction false} ItemStep(o: Options, s: string, items: seq<Json>, v: Json, r: string)
    requires ParseValue(o, s) == Success(v, r)
    ensures ParseItems(o, s, items) == AfterItem(o, r, items + [v])
  {}

  lemma {:induction false} SeparatorStep(o: Options, r: string, items: seq<Json>, t: string)
    requires NextToken(r).token.kind != ArrayEnd && NextToken(r).token.kind != Kind.Comment && NextToken(r).rest == t
    ensures AfterItem(o, r, items) == ParseItems(o, t, items)
  {}

  lemma {:induction false} BracketStep(o: Options, u: string, items: seq<Json>, rest: string)
    requires NextToken(u) == Lexed(CLOSE_ARRAY, rest)
    ensures AfterItem(o, u, items) == Success(Arr(items), rest)
  {}

  lemma {:induction false} ArrayStep(o: Options, s: string)
    requires NextToken(s).token.kind != ArrayEnd
    ensures ParseArray(o, s) == ParseItems(o, s, [])
  {}

  /** Two values and some token between them, up to a closing bracket. */
  lemma {:induction false} TwoItems(o: Options, s: string, v: Json, r: string, t: string, w: Json, u: string, rest: string)
    requires ParseValue(o, s) == Success(v, r) && NextToken(s).token.kind != ArrayEnd
    requires NextToken(r).token.kind != ArrayEnd && NextToken(r).token.kind != Kind.Comment && NextToken(r).rest == t
    requires ParseValue(o, t) == Success(w, u) && NextToken(u) == Lexed(CLOSE_ARRAY, rest)
    ensures ParseArray(o, s) == Success(Arr([v, w]), rest)
  {
    var none: seq<Json> := [];
    ArrayStep(o, s);
    ItemStep(o, s, none, v, r);
    SeparatorStep(o, r, none + [v], t);
    ItemStep(o, t, none + [v], w, u);
    BracketStep(o, u, none + [v] + [w], rest);
    assert none + [v] + [w] == [v, w];
  }

  lemma {:induction false} DigitSeparates(o: Options, s: string, w: string, a: string, b: string)
    requires s == "" + (['1'] + a) && a == w + (['2'] + b) && b == w + (['3'] + "]") && w == " "
    ensures ParseArray(o, s) == Success(Arr([Int(1), Int(3)]), "")
  {
    DigitValueRead(o, "", '1', a);
    DigitTextRead("", '1', a);
    DigitTextRead(w, '2', b);
    DigitValueRead(o, w, '3', "]");
    assert "]" == [']'] + "";
    ReadPunctuation(']', "");
    TwoItems(o, s, Int(1), a, b, Int(3), "]", "");
  }

  lemma {:induction false} ArrayDocument(o: Options, s: string, r: string, vs: seq<Json>)
    requires s == ['['] + r && ParseArray(o, r) == Success(Arr(vs), "")
    ensures ParseDocument(o, s) == Some(Arr(vs))
  {
    ReadPunctuation('[', r);
  }

  lemma {:induction false} ObjectDocument(o: Options, s: string, r: string, ms: seq<Member>)
    requires s == ['{'] + r && ParseMembers(o, r, "", []) == Success(Obj(ms), "")
    ensures ParseDocument(o, s) == Some(Obj(ms))
  {
    ReadPunctuation('{', r);
  }

  /** `[1 2 3]` is read as `[1,3]`: the number between is taken for a separator. */
  lemma {:induction false} NumberSeparates(o: Options)
    ensures ParseDocument(o, "[1 2 3]") == Some(Arr([Int(1), Int(3)]))
  {
    var doc, s, a, b := "[1 2 3]", "1 2 3]", " 2 3]", " 3]";
    assert doc == ['['] + s && s == "" + (['1'] + a) && a == " " + (['2'] + b) && b == " " + (['3'] + "]");
    DigitSeparates(o, s, " ", a, b);
    ArrayDocument(o, doc, s, [Int(1), Int(3)]);
  }

  lemma {:induction false} NameStep(o: Options, s: string, ps: seq<Piece>, r: string, name: string, ms: seq<Member>)
    requires ValidString(ps) && NextToken(s) == Lexed(Token(String, Quote(ps)), r)
    ensures ParseMembers(o, s, name, ms) == ParseNamed(o, r, SenseAll(ps), ms)
  {
    DecodeQuoted(ps);
  }

  lemma {:induction false} ColonStep(o: Options, r: string, t: string, key: string, v: Json, k: string, ms: seq<Member>)
    requires NextToken(r) == Lexed(COLON, t) && ParseValue(o, t) == Success(v, k)
    ensures ParseNamed(o, r, key, ms) == AfterMember(o, k, key, Put(ms, key, v))
  {}

  lemma {:induction false} CommaStep(o: Options, k: string, b: string, name: string, ms: seq<Member>)
    requires NextToken(k).token.kind == ArraySeparator || NextToken(k).token.kind == Kind.Comment
    requires NextPlain(k).token.kind != ObjectEnd && NextPlain(k).rest == b
    ensures AfterMember(o, k, name, ms) == ParseMembers(o, b, name, ms)
  {}

  lemma {:induction false} BraceStep(o: Options, b: string, ms: seq<Member>, rest: string)
    requires NextToken(b) == Lexed(CLOSE_OBJECT, rest)
    ensures ParseMembers(o, b, "", ms) == Success(Obj(ms), rest)
  {}

  lemma {:induction false} MemberStep(o: Options, s: string, ps: seq<Piece>, a: string, t: string, v: Json, k: string,
                                     name: string, ms: seq<Member>)
    requires ValidString(ps) && NextToken(s) == Lexed(Token(String, Quote(ps)), a)
    requires NextToken(a) == Lexed(COLON, t) && ParseValue(o, t) == Success(v, k)
    ensures ParseMembers(o, s, name, ms) == AfterMember(o, k, SenseAll(ps), Put(ms, SenseAll(ps), v))
  {
    NameStep(o, s, ps, a, name, ms);
    ColonStep(o, a, t, SenseAll(ps), v, k, ms);
  }

  /** A member with an empty name, a comma or a comment and whatever follows it, and a brace by itself. */
  lemma {:induction false} BraceByItself(o: Options, s: string, ps: seq<Piece>, a: string, t: string, v: Json, k: string,
                                        b: string, rest: string, ms: seq<Member>)
    requires ps == [] && NextToken(s) == Lexed(Token(String, Quote(ps)), a)
    requires NextToken(a) == Lexed(COLON, t) && ParseValue(o, t) == Success(v, k)
    requires NextToken(k).token.kind == ArraySeparator || NextToken(k).token.kind == Kind.Comment
    requires NextPlain(k).token.kind != ObjectEnd && NextPlain(k).rest == b && NextToken(b) == Lexed(CLOSE_OBJECT, rest)
    ensures ParseMembers(o, s, "", ms) == Success(Obj(Put(ms, "", v)), rest)
  {
    MemberStep(o, s, ps, a, t, v, k, "", ms);
    CommaStep(o, k, b, SenseAll(ps), Put(ms, SenseAll(ps), v));
    BraceStep(o, b, Put(ms, SenseAll(ps), v), rest);
  }

  lemma {:induction false} QuoteFirst(s: string, ps: seq<Piece>, a: string)
    requires AllValid(ps) && s == Quote(ps) + a
    ensures NextToken(s) == Lexed(Token(String, Quote(ps)), a)
  {
    ReadQuote(ps, a);
  }

  lemma {:induction false} ColonFirst(s: string, t: string)
    requires s == [':'] + t
    ensures NextToken(s) == Lexed(COLON, t)
  {
    ReadPunctuation(':', t);
  }

  lemma {:induction false} CommaFirst(s: string, t: string)
    requires s == [','] + t
    ensures NextToken(s) == Lexed(COMMA, t) && NextPlain(s) == Lexed(COMMA, t)
  {
    ReadPunctuation(',', t);
  }

  lemma {:induction false} BraceFirst(s: string, t: string)
    requires s == ['}'] + t
    ensures NextToken(s) == Lexed(CLOSE_OBJECT, t)
  {
    ReadPunctuation('}', t);
  }

  /** The quotes, the colon and the digit of a member, and what follows it. */
  lemma {:induction false} EmptyNamed(o: Options, s: string, ps: seq<Piece>, a: string, t: string, k: string)
    requires ps == [] && s == Quote(ps) + a && a == [':'] + t && t == "" + (['1'] + k) && Delimits(k)
    ensures NextToken(s) == Lexed(Token(String, Quote(ps)), a) && NextToken(a) == Lexed(COLON, t)
    ensures ParseValue(o, t) == Success(Int(1), k)
  {
    QuoteFirst(s, ps, a);
    ColonFirst(a, t);
    DigitValueRead(o, "", '1', k);
  }

  lemma {:induction false} CommaThenBrace(o: Options, s: string, ps: seq<Piece>, a: string, t: string, k: string, b: string,
                                         ms: seq<Member>)
    requires ps == [] && s == Quote(ps) + a && a == [':'] + t && t == "" + (['1'] + k) && k == [','] + b && b == ['}'] + ""
    ensures ParseMembers(o, s, "", ms) == Success(Obj(Put(ms, "", Int(1))), "")
  {
    EmptyNamed(o, s, ps, a, t, k);
    CommaFirst(k, b);
    BraceFirst(b, "");
    BraceByItself(o, s, ps, a, t, Int(1), k, b, "", ms);
  }

  /** `{"":1,}` is accepted: after an empty name the brace may follow a comma. */
  lemma {:induction false} CommaBeforeBrace(o: Options)
    ensures ParseDocument(o, "{\"\":1,}") == Some(Obj([Member("", Int(1))]))
  {
    var doc, s, a, t, k, b := "{\"\":1,}", "\"\":1,}", ":1,}", "1,}", ",}", "}";
    assert doc == ['{'] + s && s == Quote([]) + a && a == [':'] + t;
    assert t == "" + (['1'] + k) && k == [','] + b && b == ['}'] + "";
    CommaThenBrace(o, s, [], a, t, k, b, []);
    PutFirst("", Int(1));
    ObjectDocument(o, doc, s, [Member("", Int(1))]);
  }

  lemma {:induction false} PutFirst(name: string, v: Json)
    ensures Put([], name, v) == [Member(name, v)]
  {
    assert [Member(name, v)] + [] == [Member(name, v)];
  }

  lemma {:induction false} CommentFirst(k: string, c: string, b: string)
    requires k == "//\n" + c && c == [':'] + b
    ensures NextToken(k).token.kind == Kind.Comment && NextPlain(k) == Lexed(COLON, b) && Delimits(k)
  {
    LineCommentRead(c, k);
    ColonFirst(c, b);
    assert k[0] == '/';
  }

  lemma {:induction false} CommentThenColon(o: Options, s: string, ps: seq<Piece>, a: string, t: string, k: string, c: string,
                                           b: string, ms: seq<Member>)
    requires ps == [] && s == Quote(ps) + a && a == [':'] + t && t == "" + (['1'] + k)
    requires k == "//\n" + c && c == [':'] + b && b == ['}'] + ""
    ensures ParseMembers(o, s, "", ms) == Success(Obj(Put(ms, "", Int(1))), "")
  {
    CommentFirst(k, c, b);
    EmptyNamed(o, s, ps, a, t, k);
    BraceFirst(b, "");
    BraceByItself(o, s, ps, a, t, Int(1), k, b, "", ms);
  }

  /** After a comment any token at all is swallowed where a comma belongs. */
  lemma {:induction false} CommentHidesToken(o: Options)
    ensures ParseDocument(o, "{\"\":1//\n:}") == Some(Obj([Member("", Int(1))]))
  {
    var doc, s, a, t, k, c, b := "{\"\":1//\n:}", "\"\":1//\n:}", ":1//\n:}", "1//\n:}", "//\n:}", ":}", "}";
    assert doc == ['{'] + s && s == Quote([]) + a && a == [':'] + t && t == "" + (['1'] + k);
    assert k == "//\n" + c && c == [':'] + b && b == ['}'] + "";
    CommentThenColon(o, s, [], a, t, k, c, b, []);
    PutFirst("", Int(1));
    ObjectDocument(o, doc, s, [Member("", Int(1))]);
  }

  lemma {:induction false} LineCommentRead(c: string, s: string)
    requires s == "//\n" + c
    ensures NextToken(s) == Lexed(Token(Kind.Comment, "//\n"), c)
  {
    assert s[1..] == "/\n" + c && s[1..][1..] == "\n" + c && ("\n" + c)[1..] == c;
    assert s[..|s| - |c|] == "//\n";
  }
}
