/** The layout of both writers: of the styled one without reference to the document written so far, and of the fast one. */
module JsonLayout {
  import opened JsonValue
  import opened JsonSyntax
  import opened JsonGrammar
  import opened JsonNumbers
  import opened JsonText
  import opened JsonWriting
  import opened JsonFast
  import opened JsonStyled

  /** A new line at depth `d`: three spaces for each open bracket. */
  function NewLine(d: nat): string { "\n" + seq(3 * d, _ => ' ') }

  function Join(texts: seq<string>, between: string): string {
    if texts == [] then "" else if |texts| == 1 then texts[0] else texts[0] + (between + Join(texts[1..], between))
  }

  /** The single line of a short array. */
  function OneLine(show: Show, items: seq<Json>): string
    requires AllFlat(items)
  {
    "[ " + Join(FlatTexts(show, items), ", ") + " ]"
  }

  /** The layout of a value at depth `d`: short arrays of simple values on one line, everything else one line for each entry. */
  function Pretty(show: Show, v: Json, d: nat): string
    decreases v, 0
  {
    match v
    case Arr(items) =>
      if items == [] then "[]"
      else if AllFlat(items) && |OneLine(show, items)| < 74 then OneLine(show, items)
      else "[" + NewLine(d + 1) + Join(PrettyItems(show, items, d + 1), "," + NewLine(d + 1)) + NewLine(d) + "]"
    case Obj(ms) =>
      if ms == [] then "{}"
      else "{" + NewLine(d + 1) + Join(PrettyMembers(show, ms, d + 1), "," + NewLine(d + 1)) + NewLine(d) + "}"
    case _ => FlatText(show, v)
  }

  function PrettyItems(show: Show, items: seq<Json>, d: nat): (r: seq<string>)
    ensures |r| == |items|
    decreases items, 1
  {
    if items == [] then [] else [Pretty(show, items[0], d)] + PrettyItems(show, items[1..], d)
  }

  function PrettyMembers(show: Show, ms: seq<Member>, d: nat): (r: seq<string>)
    ensures |r| == |ms|
    decreases ms, 1
  {
    if ms == [] then [] else
      [PrettyMember(show, ms[0], d)] + PrettyMembers(show, ms[1..], d)
  }

  function PrettyMember(show: Show, m: Member, d: nat): string
    decreases m, 1
  {
    Quoted(m.name) + " : " + Pretty(show, m.value, d)
  }

  /** Some text, at whose end a new line is started before the next indented text. */
  predicate Settled(doc: string) { doc != "" && doc[|doc| - 1] != ' ' && doc[|doc| - 1] != '\n' }

  /** Nothing yet, or a text that ends in a space: what comes next stays on the line. */
  predicate Inline(doc: string, d: nat) { if doc == "" then d == 0 else doc[|doc| - 1] == ' ' }

  lemma {:induction false} SettledLead(doc: string, d: nat)
    requires Settled(doc)
    ensures Lead(doc, 3 * d) == NewLine(d) && Settled(doc + ",")
    ensures d > 0 ==> Inline(doc + NewLine(d), d)
  {}

  lemma {:induction false} InlineLead(doc: string, d: nat)
    requires Inline(doc, d)
    ensures Lead(doc, 3 * d) == ""
  {}

  lemma {:induction false} SettledEnd(doc: string, text: string)
    requires Settled(text)
    ensures Settled(doc + text)
  {}

  lemma {:induction false} DecimalEnds(n: nat)
    ensures Settled(Decimal(n))
  {}

  lemma {:induction false} FlatEnds(show: Show, v: Json)
    requires Flat(v) && NumbersShown(show, v)
    ensures Settled(FlatText(show, v))
  {
    match v
    case Int(n) => DecimalEnds(if n < 0 then -n else n);
    case UInt(n) => DecimalEnds(n);
    case Str(s) => SettledEnd(['"'] + SpellAll(PiecesOf(CString(s))), ['"']);
    case _ =>
  }

  lemma {:induction false} PrettyEnds(show: Show, v: Json, d: nat)
    requires NumbersShown(show, v)
    ensures Settled(Pretty(show, v, d))
  {
    if Flat(v) {
      FlatEnds(show, v);
    }
  }

  // ------------------------------------------------------------ one line or many

  lemma {:induction false} LineIsJoined(show: Show, items: seq<Json>)
    requires items != [] && AllFlat(items)
    ensures LineItems(show, items) == Join(FlatTexts(show, items), ", ") + " ]"
  {
    if |items| > 1 {
      LineIsJoined(show, items[1..]);
      CommaAndSpace(FlatText(show, items[0]), Join(FlatTexts(show, items[1..]), ", "));
    }
  }

  lemma {:induction false} CommaAndSpace(text: string, line: string)
    ensures text + ("," + (" " + (line + " ]"))) == text + (", " + line) + " ]"
  {}

  lemma {:induction false} JoinedLength(show: Show, items: seq<Json>)
    requires items != [] && AllFlat(items) && AllShown(show, items)
    ensures |Join(FlatTexts(show, items), ", ")| == LengthsOf(show, items) + 2 * (|items| - 1)
    ensures LengthsOf(show, items) >= |items|
  {
    FlatEnds(show, items[0]);
    if |items| > 1 {
      JoinedLength(show, items[1..]);
    } else {
      assert LengthsOf(show, items[1..]) == 0;
    }
  }

  /** An array takes one line exactly when its items are simple and the line is shorter than 74 characters. */
  lemma {:induction false} OneLineIff(show: Show, items: seq<Json>)
    requires items != [] && AllShown(show, items)
    ensures !Multiline(show, items) <==> AllFlat(items) && |OneLine(show, items)| < 74
  {
    if AllFlat(items) {
      JoinedLength(show, items);
    }
  }

  // ----------------------------------------------------------------- the layout

  /** Where nothing but a space or the start comes before, the styled writer lays a value out like that. */
  lemma {:induction false} StyledIsPretty(show: Show, doc: string, d: nat, v: Json)
    requires NumbersShown(show, v) && Inline(doc, d)
    ensures StyledText(show, doc, 3 * d, v) == Pretty(show, v, d)
    decreases v, 0
  {
    InlineLead(doc, d);
    if Flat(v) {
    } else if v.Arr? {
      ArrayIsPretty(show, doc, d, v.items);
    } else {
      ObjectIsPretty(show, doc, d, v.members);
    }
  }

  lemma {:induction false} StyledBlock(show: Show, doc: string, d: nat, items: seq<Json>)
    requires items != [] && Multiline(show, items) && Lead(doc, 3 * d) == ""
    ensures StyledText(show, doc, 3 * d, Arr(items)) == "[" + StyledItems(show, doc + "[", 3 * (d + 1), items)
  {
    assert "" + "[" == "[";
  }

  lemma {:induction false} StyledLine(show: Show, doc: string, d: nat, items: seq<Json>)
    requires items != [] && !Multiline(show, items)
    ensures StyledText(show, doc, 3 * d, Arr(items)) == OneLine(show, items)
  {
    LineIsJoined(show, items);
    var line := Join(FlatTexts(show, items), ", ");
    assert "[" + (" " + (line + " ]")) == "[ " + line + " ]";
  }

  lemma {:induction false} StyledObject(show: Show, doc: string, d: nat, ms: seq<Member>)
    requires ms != [] && Lead(doc, 3 * d) == ""
    ensures StyledText(show, doc, 3 * d, Obj(ms)) == "{" + StyledMembers(show, doc + "{", 3 * (d + 1), ms)
  {
    assert "" + "{" == "{";
  }

  lemma {:induction false} FourParts(a: string, b: string, c: string, d: string, e: string)
    ensures a + (b + (c + (d + e))) == a + b + c + d + e
  {}

  lemma {:induction false} ArrayIsPretty(show: Show, doc: string, d: nat, items: seq<Json>)
    requires items != [] && AllShown(show, items) && Lead(doc, 3 * d) == ""
    ensures StyledText(show, doc, 3 * d, Arr(items)) == Pretty(show, Arr(items), d)
    decreases items, 4
  {
    OneLineIff(show, items);
    if Multiline(show, items) {
      StyledBlock(show, doc, d, items);
      SettledEnd(doc, "[");
      ItemsArePretty(show, doc + "[", d, items);
      FourParts("[", NewLine(d + 1), Join(PrettyItems(show, items, d + 1), "," + NewLine(d + 1)), NewLine(d), "]");
    } else {
      StyledLine(show, doc, d, items);
    }
  }

  lemma {:induction false} ObjectIsPretty(show: Show, doc: string, d: nat, ms: seq<Member>)
    requires ms != [] && AllMembersShown(show, ms) && Lead(doc, 3 * d) == ""
    ensures StyledText(show, doc, 3 * d, Obj(ms)) == Pretty(show, Obj(ms), d)
    decreases ms, 4
  {
    StyledObject(show, doc, d, ms);
    SettledEnd(doc, "{");
    MembersArePretty(show, doc + "{", d, ms);
    FourParts("{", NewLine(d + 1), Join(PrettyMembers(show, ms, d + 1), "," + NewLine(d + 1)), NewLine(d), "}");
  }

  /** The first entry and what comes after it. */
  predicate Entries(whole: string, lead: string, text: string, more: seq<string>, close: string) {
    whole == lead + (Join([text] + more, "," + lead) + close)
  }

  lemma {:induction false} LastEntry(lead: string, text: string, close: string)
    ensures Entries(lead + (text + close), lead, text, [], close)
  {
    assert [text] + [] == [text];
  }

  lemma {:induction false} NextEntry(rest: string, lead: string, text: string, next: string, more: seq<string>, close: string)
    requires Entries(rest, lead, next, more, close)
    ensures Entries(lead + (text + ("," + rest)), lead, text, [next] + more, close)
  {
    var tail := Join([next] + more, "," + lead);
    assert ([text] + ([next] + more))[1..] == [next] + more;
    assert text + (("," + lead) + tail) + close == text + ("," + (lead + (tail + close)));
  }

  lemma {:induction false} ItemsArePretty(show: Show, doc: string, d: nat, items: seq<Json>)
    requires items != [] && AllShown(show, items) && Settled(doc)
    ensures Entries(StyledItems(show, doc, 3 * (d + 1), items), NewLine(d + 1), Pretty(show, items[0], d + 1),
                    PrettyItems(show, items[1..], d + 1), NewLine(d) + "]")
    ensures StyledItems(show, doc, 3 * (d + 1), items) ==
            NewLine(d + 1) + (Join(PrettyItems(show, items, d + 1), "," + NewLine(d + 1)) + (NewLine(d) + "]"))
    decreases items, 3
  {
    var lead, rest, text, close := NewLine(d + 1), items[1..], Pretty(show, items[0], d + 1), NewLine(d) + "]";
    SettledLead(doc, d + 1);
    StyledIsPretty(show, doc + lead, d + 1, items[0]);
    PrettyEnds(show, items[0], d + 1);
    SettledEnd(doc + lead, text);
    var after := doc + lead + text;
    SettledLead(after, d);
    FirstItem(show, doc, d, items, lead, text);
    if rest == [] {
      LastEntry(lead, text, close);
    } else {
      ItemsArePretty(show, after + ",", d, rest);
      NextEntry(StyledItems(show, after + ",", 3 * (d + 1), rest), lead, text, Pretty(show, rest[0], d + 1),
                PrettyItems(show, rest[1..], d + 1), close);
    }
  }

  lemma {:induction false} FirstItem(show: Show, doc: string, d: nat, items: seq<Json>, lead: string, text: string)
    requires items != [] && lead == Lead(doc, 3 * (d + 1)) && text == StyledText(show, doc + lead, 3 * (d + 1), items[0])
    ensures StyledItems(show, doc, 3 * (d + 1), items) ==
            lead + (text + MoreStyledItems(show, doc + lead + text, 3 * (d + 1), items[1..]))
    ensures MoreStyledItems(show, doc + lead + text, 3 * (d + 1), items[1..]) ==
            if items[1..] == [] then Lead(doc + lead + text, 3 * d) + "]"
            else "," + StyledItems(show, doc + lead + text + ",", 3 * (d + 1), items[1..])
  {}

  lemma {:induction false} MembersArePretty(show: Show, doc: string, d: nat, ms: seq<Member>)
    requires ms != [] && AllMembersShown(show, ms) && Settled(doc)
    ensures Entries(StyledMembers(show, doc, 3 * (d + 1), ms), NewLine(d + 1), PrettyMember(show, ms[0], d + 1),
                    PrettyMembers(show, ms[1..], d + 1), NewLine(d) + "}")
    ensures StyledMembers(show, doc, 3 * (d + 1), ms) ==
            NewLine(d + 1) + (Join(PrettyMembers(show, ms, d + 1), "," + NewLine(d + 1)) + (NewLine(d) + "}"))
    decreases ms, 3
  {
    var lead, rest, close := NewLine(d + 1), ms[1..], NewLine(d) + "}";
    var before := doc + lead + Quoted(ms[0].name) + " : ";
    var text := Pretty(show, ms[0].value, d + 1);
    SettledLead(doc, d + 1);
    StyledIsPretty(show, before, d + 1, ms[0].value);
    PrettyEnds(show, ms[0].value, d + 1);
    SettledEnd(before, text);
    var after := before + text;
    SettledLead(after, d);
    FirstMember(show, doc, d, ms, lead, text);
    if rest == [] {
      LastEntry(lead, PrettyMember(show, ms[0], d + 1), close);
    } else {
      MembersArePretty(show, after + ",", d, rest);
      NextEntry(StyledMembers(show, after + ",", 3 * (d + 1), rest), lead, PrettyMember(show, ms[0], d + 1),
                PrettyMember(show, rest[0], d + 1), PrettyMembers(show, rest[1..], d + 1), close);
    }
  }

  lemma {:induction false} FirstMember(show: Show, doc: string, d: nat, ms: seq<Member>, lead: string, text: string)
    requires ms != [] && lead == Lead(doc, 3 * (d + 1))
    requires text == StyledText(show, doc + lead + Quoted(ms[0].name) + " : ", 3 * (d + 1), ms[0].value)
    ensures var after := doc + lead + Quoted(ms[0].name) + " : " + text;
            StyledMembers(show, doc, 3 * (d + 1), ms) ==
            lead + ((Quoted(ms[0].name) + " : " + text) +
                    if ms[1..] == [] then Lead(after, 3 * d) + "}" else "," + StyledMembers(show, after + ",", 3 * (d + 1), ms[1..]))
  {
    var name := Quoted(ms[0].name);
    var more := MoreStyledMembers(show, doc + lead + name + " : " + text, 3 * (d + 1), ms[1..]);
    assert name + (" : " + (text + more)) == (name + " : " + text) + more;
  }

  /** So the whole document of the styled writer is the layout of its value and a new line. */
  lemma {:induction false} DocumentIsPretty(show: Show, v: Json)
    requires NumbersShown(show, v)
    ensures StyledText(show, "", 0, v) + "\n" == Pretty(show, v, 0) + "\n"
  {
    StyledIsPretty(show, "", 0, v);
  }

  // ------------------------------------------------------------ the fast writer

  /** The texts of tokens with nothing between them, but for what is written for a colon. */
  function Glued(ts: seq<Token>, colon: string): string {
    if ts == [] then "" else (if ts[0] == COLON then colon else ts[0].text) + Glued(ts[1..], colon)
  }

  lemma {:induction false} GluedFirst(t: Token, ts: seq<Token>, colon: string)
    ensures Glued([t] + ts, colon) == (if t == COLON then colon else t.text) + Glued(ts, colon)
  {
    assert ([t] + ts)[1..] == ts;
  }

  lemma {:induction false} GluedBoth(a: seq<Token>, b: seq<Token>, colon: string)
    ensures Glued(a + b, colon) == Glued(a, colon) + Glued(b, colon)
  {
    if a == [] {
      assert a + b == b;
    } else {
      assert (a + b)[1..] == a[1..] + b;
      GluedBoth(a[1..], b, colon);
    }
  }

  lemma {:induction false} GluedOne(t: Token, colon: string)
    ensures Glued([t], colon) == if t == COLON then colon else t.text
  {
    assert [t][1..] == [];
  }

  /** The fast writer puts nothing between the tokens of a value, and a space after a colon for YAML only. */
  lemma {:induction false} FastIsGlued(st: Style, v: Json)
    ensures FastText(st, v) == Glued(Tokens(SyntaxOf(st.show, v)), if st.yaml then ": " else ":")
    decreases v, 0
  {
    var colon := if st.yaml then ": " else ":";
    match v
    case Arr(items) =>
      GluedFirst(OPEN_ARRAY, ItemTokens(SyntaxesOf(st.show, items)), colon);
      ItemsAreGlued(st, items, colon);
    case Obj(ms) =>
      GluedFirst(OPEN_OBJECT, EntryTokens(EntriesOf(st.show, ms)), colon);
      MembersAreGlued(st, ms, colon);
    case _ => GluedOne(Tokens(SyntaxOf(st.show, v))[0], colon);
  }

  lemma {:induction false} ItemsAreGlued(st: Style, items: seq<Json>, colon: string)
    requires colon == if st.yaml then ": " else ":"
    ensures FastItems(st, items) == Glued(ItemTokens(SyntaxesOf(st.show, items)), colon)
    ensures MoreFastItems(st, items) == Glued(MoreItems(SyntaxesOf(st.show, items)), colon)
    decreases items, 1
  {
    if items == [] {
      GluedOne(CLOSE_ARRAY, colon);
    } else {
      var first, more := Tokens(SyntaxOf(st.show, items[0])), MoreItems(SyntaxesOf(st.show, items[1..]));
      FastIsGlued(st, items[0]);
      ItemsAreGlued(st, items[1..], colon);
      GluedBoth(first, more, colon);
      GluedFirst(COMMA, first + more, colon);
    }
  }

  lemma {:induction false} MembersAreGlued(st: Style, ms: seq<Member>, colon: string)
    requires colon == if st.yaml then ": " else ":"
    ensures FastMembers(st, ms) == Glued(EntryTokens(EntriesOf(st.show, ms)), colon)
    ensures MoreFastMembers(st, ms) == Glued(MoreEntries(EntriesOf(st.show, ms)), colon)
    decreases ms, 1
  {
    if ms == [] {
      GluedOne(CLOSE_OBJECT, colon);
    } else {
      var e, more := EntriesOf(st.show, ms)[0], MoreEntries(EntriesOf(st.show, ms[1..]));
      FastIsGlued(st, ms[0].value);
      MembersAreGlued(st, ms[1..], colon);
      MemberIsGlued(st, ms[0], MoreFastMembers(st, ms[1..]), more, colon);
      GluedFirst(COMMA, OneEntry(e, more), colon);
    }
  }

  lemma {:induction false} MemberIsGlued(st: Style, m: Member, text: string, more: seq<Token>, colon: string)
    requires colon == (if st.yaml then ": " else ":") && text == Glued(more, colon)
    requires FastText(st, m.value) == Glued(Tokens(SyntaxOf(st.show, m.value)), colon)
    ensures FastMember(st, m, text) == Glued(OneEntry(Entry(PiecesOf(CString(m.name)), SyntaxOf(st.show, m.value)), more), colon)
  {
    var value := Tokens(SyntaxOf(st.show, m.value));
    GluedBoth(value, more, colon);
    GluedFirst(COLON, value + more, colon);
    GluedFirst(Token(String, Quoted(m.name)), [COLON] + (value + more), colon);
  }
}
