/** The styled writer: indented, with short arrays on one line. */
module JsonStyled {
  import opened Optional
  import opened JsonValue
  import opened JsonSyntax
  import opened JsonGrammar
  import opened JsonTokens
  import opened JsonParsing
  import opened JsonText
  import opened JsonWriting
  import opened JsonScalars
  import opened JsonFast

  const RIGHT_MARGIN := 74
  const INDENT := 3

  // ------------------------------------------------------- what is printed

  function Spaces(n: nat): (s: string)
    ensures |s| == n
  {
    seq(n, _ => ' ')
  }

  /** What comes before an indented text: nothing after a space, else a new line if needed and the indentation. */
  function Lead(doc: string, indent: nat): string {
    if doc == "" then Spaces(indent)
    else if doc[|doc| - 1] == ' ' then ""
    else if doc[|doc| - 1] != '\n' then ['\n'] + Spaces(indent)
    else Spaces(indent)
  }

  lemma {:induction false} LeadIsSpaces(doc: string, indent: nat)
    ensures AllSpaces(Lead(doc, indent))
  {}

  function LengthsOf(show: Show, items: seq<Json>): nat
    requires forall i :: 0 <= i < |items| ==> Flat(items[i])
  {
    if items == [] then 0 else |FlatText(show, items[0])| + LengthsOf(show, items[1..])
  }

  predicate AllFlat(items: seq<Json>) { forall i :: 0 <= i < |items| ==> Flat(items[i]) }

  /** Whether an array takes a line for each item. */
  predicate Multiline(show: Show, items: seq<Json>) {
    |items| * 3 >= RIGHT_MARGIN || !AllFlat(items) || 4 + (|items| - 1) * 2 + LengthsOf(show, items) >= RIGHT_MARGIN
  }

  /** What is printed for a value after the document `doc`. */
  function StyledText(show: Show, doc: string, indent: nat, v: Json): string
    decreases v, 0
  {
    if Flat(v) then FlatText(show, v)
    else match v
      case Arr(items) =>
        if Multiline(show, items) then
          var open := Lead(doc, indent) + "[";
          open + StyledItems(show, doc + open, indent + INDENT, items)
        else "[" + (" " + LineItems(show, items))
      case Obj(ms) =>
        var open := Lead(doc, indent) + "{";
        open + StyledMembers(show, doc + open, indent + INDENT, ms)
  }

  function LineItems(show: Show, items: seq<Json>): string
    requires items != [] && AllFlat(items)
    decreases |items|, 0
  {
    FlatText(show, items[0]) + MoreLineItems(show, items[1..])
  }

  function MoreLineItems(show: Show, items: seq<Json>): string
    requires AllFlat(items)
    decreases |items|, 1
  {
    if items == [] then " ]" else "," + (" " + LineItems(show, items))
  }

  function StyledItems(show: Show, doc: string, indent: nat, items: seq<Json>): string
    requires items != [] && indent >= INDENT
    decreases items, 1
  {
    var lead := Lead(doc, indent);
    var text := StyledText(show, doc + lead, indent, items[0]);
    lead + (text + MoreStyledItems(show, doc + lead + text, indent, items[1..]))
  }

  function MoreStyledItems(show: Show, doc: string, indent: nat, items: seq<Json>): string
    requires indent >= INDENT
    decreases items, 2
  {
    if items == [] then Lead(doc, indent - INDENT) + "]"
    else "," + StyledItems(show, doc + ",", indent, items)
  }

  function StyledMembers(show: Show, doc: string, indent: nat, ms: seq<Member>): string
    requires ms != [] && indent >= INDENT
    decreases ms, 1
  {
    var lead := Lead(doc, indent);
    var name := Quoted(ms[0].name);
    var text := StyledText(show, doc + lead + name + " : ", indent, ms[0].value);
    lead + (name + (" : " + (text + MoreStyledMembers(show, doc + lead + name + " : " + text, indent, ms[1..]))))
  }

  function MoreStyledMembers(show: Show, doc: string, indent: nat, ms: seq<Member>): string
    requires indent >= INDENT
    decreases ms, 2
  {
    if ms == [] then Lead(doc, indent - INDENT) + "}"
    else "," + StyledMembers(show, doc + ",", indent, ms)
  }

  // ----------------------------------------------------------- it reads back

  lemma {:induction false} MoreStyledDelimit(show: Show, doc: string, indent: nat, items: seq<Json>, k: string)
    requires indent >= INDENT
    ensures Delimits(MoreStyledItems(show, doc, indent, items) + k)
  {}

  lemma {:induction false} MoreStyledMembersDelimit(show: Show, doc: string, indent: nat, ms: seq<Member>, k: string)
    requires indent >= INDENT
    ensures Delimits(MoreStyledMembers(show, doc, indent, ms) + k)
  {}

  lemma {:induction false} LeadThenPunctuation(lead: string, c: char, s: string, t: Token, ts: seq<Token>, k: string)
    requires AllSpaces(lead) && IsPunctuation(c) && t == Token(FirstKind(c), [c]) && Reads(s, ts, k)
    ensures Reads(lead + [c] + s, [t] + ts, k)
  {
    AfterPunctuation(c, s, t, ts, k);
    ReadsAfterSpaces(lead, [c] + s, [t] + ts, k);
    Joined3(lead, [c], s);
  }

  lemma {:induction false} LeadThenClose(lead: string, c: char, t: Token, k: string)
    requires AllSpaces(lead) && IsPunctuation(c) && t == Token(FirstKind(c), [c])
    ensures Reads(lead + [c] + k, [t], k)
  {
    PunctuationReads(c, t, k);
    ReadsAfterSpaces(lead, [c] + k, [t], k);
    Joined3(lead, [c], k);
  }

  predicate AllShown(show: Show, items: seq<Json>) {
    forall i :: 0 <= i < |items| ==> NumbersShown(show, items[i])
  }

  predicate AllMembersShown(show: Show, ms: seq<Member>) {
    forall i :: 0 <= i < |ms| ==> NumbersShown(show, ms[i].value)
  }

  /** The text of the styled writer reads as the tokens of the value, the same as the fast writer's. */
  lemma {:induction false} StyledReads(show: Show, doc: string, indent: nat, v: Json, k: string)
    requires NumbersShown(show, v) && Delimits(k)
    ensures Reads(StyledText(show, doc, indent, v) + k, Tokens(SyntaxOf(show, v)), k)
    decreases v, 0
  {
    if Flat(v) {
      FlatReads(show, v, k);
    } else if v.Arr? {
      StyledArrayReads(show, doc, indent, v.items, k);
    } else {
      StyledObjectReads(show, doc, indent, v.members, k);
    }
  }

  lemma {:induction false} BlockReads(lead: string, c: char, inner: string, t: Token, ts: seq<Token>, k: string)
    requires AllSpaces(lead) && IsPunctuation(c) && t == Token(FirstKind(c), [c]) && Reads(inner + k, ts, k)
    ensures Reads(lead + [c] + inner + k, [t] + ts, k)
  {
    LeadThenPunctuation(lead, c, inner + k, t, ts, k);
    Joined3(lead + [c], inner, k);
  }

  lemma {:induction false} SpacedReads(c: char, inner: string, t: Token, ts: seq<Token>, k: string)
    requires IsPunctuation(c) && t == Token(FirstKind(c), [c]) && ts != [] && Reads(inner + k, ts, k)
    ensures Reads([c] + (" " + inner) + k, [t] + ts, k)
  {
    ReadsAfterSpaces([' '], inner + k, ts, k);
    AfterPunctuation(c, [' '] + (inner + k), t, ts, k);
    Joined3(" ", inner, k);
    Joined3([c], " " + inner, k);
  }

  lemma {:induction false} StyledArrayReads(show: Show, doc: string, indent: nat, items: seq<Json>, k: string)
    requires items != [] && AllShown(show, items) && Delimits(k)
    ensures Reads(StyledText(show, doc, indent, Arr(items)) + k, [OPEN_ARRAY] + ItemTokens(SyntaxesOf(show, items)), k)
    decreases items, 4
  {
    if Multiline(show, items) {
      MultilineReads(show, doc, indent, items, k);
    } else {
      LineItemsRead(show, items, k);
      SpacedReads('[', LineItems(show, items), OPEN_ARRAY, ItemTokens(SyntaxesOf(show, items)), k);
    }
  }

  lemma {:induction false} MultilineReads(show: Show, doc: string, indent: nat, items: seq<Json>, k: string)
    requires items != [] && AllShown(show, items) && Delimits(k)
    ensures var lead := Lead(doc, indent);
            Reads(lead + "[" + StyledItems(show, doc + (lead + "["), indent + INDENT, items) + k,
                  [OPEN_ARRAY] + ItemTokens(SyntaxesOf(show, items)), k)
    decreases items, 3
  {
    var lead := Lead(doc, indent);
    LeadIsSpaces(doc, indent);
    StyledItemsRead(show, doc + (lead + "["), indent + INDENT, items, k);
    BlockReads(lead, '[', StyledItems(show, doc + (lead + "["), indent + INDENT, items), OPEN_ARRAY,
               ItemTokens(SyntaxesOf(show, items)), k);
  }

  lemma {:induction false} StyledObjectReads(show: Show, doc: string, indent: nat, ms: seq<Member>, k: string)
    requires ms != [] && AllMembersShown(show, ms) && Delimits(k)
    ensures var lead := Lead(doc, indent);
            Reads(lead + "{" + StyledMembers(show, doc + (lead + "{"), indent + INDENT, ms) + k,
                  [OPEN_OBJECT] + EntryTokens(EntriesOf(show, ms)), k)
    decreases ms, 3
  {
    var lead := Lead(doc, indent);
    LeadIsSpaces(doc, indent);
    StyledMembersRead(show, doc + (lead + "{"), indent + INDENT, ms, k);
    BlockReads(lead, '{', StyledMembers(show, doc + (lead + "{"), indent + INDENT, ms), OPEN_OBJECT,
               EntryTokens(EntriesOf(show, ms)), k);
  }

  lemma {:induction false} LineItemsRead(show: Show, items: seq<Json>, k: string)
    requires items != [] && AllFlat(items) && AllShown(show, items)
    ensures Reads(LineItems(show, items) + k, Tokens(SyntaxOf(show, items[0])) + MoreItems(SyntaxesOf(show, items[1..])), k)
    decreases items, 1
  {
    var more := MoreLineItems(show, items[1..]) + k;
    FlatReads(show, items[0], more);
    MoreLineItemsRead(show, items[1..], k);
    Joined3(FlatText(show, items[0]), MoreLineItems(show, items[1..]), k);
    ReadsJoin(FlatText(show, items[0]) + more, Tokens(SyntaxOf(show, items[0])), more,
              MoreItems(SyntaxesOf(show, items[1..])), k);
  }

  lemma {:induction false} MoreLineItemsRead(show: Show, items: seq<Json>, k: string)
    requires AllFlat(items) && AllShown(show, items)
    ensures Reads(MoreLineItems(show, items) + k, MoreItems(SyntaxesOf(show, items)), k)
    decreases items, 2
  {
    if items == [] {
      LeadThenClose([' '], ']', CLOSE_ARRAY, k);
      assert " ]" == [' '] + [']'];
    } else {
      LineItemsRead(show, items, k);
      CommaReads(LineItems(show, items), Tokens(SyntaxOf(show, items[0])), MoreItems(SyntaxesOf(show, items[1..])), k);
    }
  }

  lemma {:induction false} CommaReads(inner: string, a: seq<Token>, b: seq<Token>, k: string)
    requires a != [] && Reads(inner + k, a + b, k)
    ensures Reads("," + (" " + inner) + k, [COMMA] + (a + b), k)
  {
    assert "," == [','];
    SpacedReads(',', inner, COMMA, a + b, k);
  }

  lemma {:induction false} StyledItemsRead(show: Show, doc: string, indent: nat, items: seq<Json>, k: string)
    requires items != [] && indent >= INDENT && AllShown(show, items)
    ensures Reads(StyledItems(show, doc, indent, items) + k,
                  Tokens(SyntaxOf(show, items[0])) + MoreItems(SyntaxesOf(show, items[1..])), k)
    decreases items, 1
  {
    var lead := Lead(doc, indent);
    LeadIsSpaces(doc, indent);
    var text := StyledText(show, doc + lead, indent, items[0]);
    var more := MoreStyledItems(show, doc + lead + text, indent, items[1..]);
    MoreStyledDelimit(show, doc + lead + text, indent, items[1..], k);
    StyledReads(show, doc + lead, indent, items[0], more + k);
    MoreStyledItemsRead(show, doc + lead + text, indent, items[1..], k);
    LeadTextMore(lead, text, more, Tokens(SyntaxOf(show, items[0])), MoreItems(SyntaxesOf(show, items[1..])), k);
  }

  lemma {:induction false} LeadTextMore(lead: string, text: string, more: string, a: seq<Token>, b: seq<Token>, k: string)
    requires AllSpaces(lead) && a != [] && Reads(text + (more + k), a, more + k) && Reads(more + k, b, k)
    ensures Reads(lead + (text + more) + k, a + b, k)
  {
    ReadsJoin(text + (more + k), a, more + k, b, k);
    ReadsAfterSpaces(lead, text + (more + k), a + b, k);
    Joined3(text, more, k);
    Joined3(lead, text + more, k);
  }

  lemma {:induction false} MoreStyledItemsRead(show: Show, doc: string, indent: nat, items: seq<Json>, k: string)
    requires indent >= INDENT && AllShown(show, items)
    ensures Reads(MoreStyledItems(show, doc, indent, items) + k, MoreItems(SyntaxesOf(show, items)), k)
    decreases items, 2
  {
    if items == [] {
      LeadIsSpaces(doc, indent - INDENT);
      LeadThenClose(Lead(doc, indent - INDENT), ']', CLOSE_ARRAY, k);
    } else {
      StyledItemsRead(show, doc + ",", indent, items, k);
      var inner := StyledItems(show, doc + ",", indent, items);
      Joined3(",", inner, k);
      AfterPunctuation(',', inner + k, COMMA, Tokens(SyntaxOf(show, items[0])) + MoreItems(SyntaxesOf(show, items[1..])), k);
    }
  }

  lemma {:induction false} StyledMembersRead(show: Show, doc: string, indent: nat, ms: seq<Member>, k: string)
    requires ms != [] && indent >= INDENT && AllMembersShown(show, ms)
    ensures Reads(StyledMembers(show, doc, indent, ms) + k,
                  OneEntry(EntriesOf(show, ms)[0], MoreEntries(EntriesOf(show, ms[1..]))), k)
    decreases ms, 1
  {
    var lead := Lead(doc, indent);
    LeadIsSpaces(doc, indent);
    var before := doc + lead + Quoted(ms[0].name) + " : ";
    var text := StyledText(show, before, indent, ms[0].value);
    var more := MoreStyledMembers(show, before + text, indent, ms[1..]);
    MoreStyledMembersDelimit(show, before + text, indent, ms[1..], k);
    StyledReads(show, before, indent, ms[0].value, more + k);
    MoreStyledMembersRead(show, before + text, indent, ms[1..], k);
    var ts := MoreEntries(EntriesOf(show, ms[1..]));
    ReadsJoin(text + (more + k), Tokens(SyntaxOf(show, ms[0].value)), more + k, ts, k);
    StyledMemberReads(lead, ms[0].name, text, more, SyntaxOf(show, ms[0].value), ts, k);
  }

  lemma {:induction false} StyledMemberReads(lead: string, name: string, text: string, more: string, c: Syntax, ts: seq<Token>,
                                            k: string)
    requires AllSpaces(lead) && Reads(text + (more + k), Tokens(c) + ts, k)
    ensures Reads(lead + (Quoted(name) + (" : " + (text + more))) + k, OneEntry(Entry(PiecesOf(CString(name)), c), ts), k)
  {
    var rest, tail := text + (more + k), Tokens(c) + ts;
    SpacedColon(rest, tail, k);
    ReadQuote(PiecesOf(CString(name)), " : " + rest);
    ReadsFirst(Quoted(name) + (" : " + rest), Token(String, Quoted(name)), [COLON] + tail, k);
    ReadsAfterSpaces(lead, Quoted(name) + (" : " + rest), [Token(String, Quoted(name))] + ([COLON] + tail), k);
    StyledMemberText(lead, Quoted(name), text, more, k);
  }

  lemma {:induction false} StyledMemberText(lead: string, quoted: string, text: string, more: string, k: string)
    ensures lead + (quoted + (" : " + (text + more))) + k == lead + (quoted + (" : " + (text + (more + k))))
  {}

  lemma {:induction false} SpacedColon(rest: string, tail: seq<Token>, k: string)
    requires tail != [] && Reads(rest, tail, k)
    ensures Reads(" : " + rest, [COLON] + tail, k)
  {
    ReadsAfterSpaces([' '], rest, tail, k);
    LeadThenPunctuation([' '], ':', [' '] + rest, COLON, tail, k);
    assert " : " + rest == [' '] + [':'] + ([' '] + rest);
  }

  lemma {:induction false} MoreStyledMembersRead(show: Show, doc: string, indent: nat, ms: seq<Member>, k: string)
    requires indent >= INDENT && AllMembersShown(show, ms)
    ensures Reads(MoreStyledMembers(show, doc, indent, ms) + k, MoreEntries(EntriesOf(show, ms)), k)
    decreases ms, 2
  {
    if ms == [] {
      LeadIsSpaces(doc, indent - INDENT);
      LeadThenClose(Lead(doc, indent - INDENT), '}', CLOSE_OBJECT, k);
    } else {
      StyledMembersRead(show, doc + ",", indent, ms, k);
      var inner := StyledMembers(show, doc + ",", indent, ms);
      Joined3(",", inner, k);
      AfterPunctuation(',', inner + k, COMMA, OneEntry(EntriesOf(show, ms)[0], MoreEntries(EntriesOf(show, ms[1..]))), k);
    }
  }

  /** What the styled writer prints, the reader reads back. */
  lemma {:induction false} StyledRoundTrip(o: Options, show: Show, v: Json)
    requires Printable(o.scan, show, v)
    ensures ParseDocument(o, StyledText(show, "", 0, v) + "\n") ==
            if o.strictRoot && !v.Arr? && !v.Obj? then None else Some(Norm(v))
  {
    PrintableNumbers(o.scan, show, v);
    StyledReads(show, "", 0, v, "\n");
    SpelledIsRead(o, show, v, StyledText(show, "", 0, v) + "\n", "\n");
  }

  /** Both writers' documents are read as the same value, also where numbers come back as doubles. */
  lemma {:induction false} WritersAgree(o: Options, st: Style, v: Json)
    requires NumbersShown(st.show, v) && Conforms(o.scan, SyntaxOf(st.show, v))
    ensures ParseDocument(o, StyledText(st.show, "", 0, v) + "\n") == ParseDocument(o, FastText(st, v) + "\n")
  {
    StyledReads(st.show, "", 0, v, "\n");
    FastReads(st, v, "\n");
    ParseConforming(o, SyntaxOf(st.show, v), StyledText(st.show, "", 0, v) + "\n", "\n");
    ParseConforming(o, SyntaxOf(st.show, v), FastText(st, v) + "\n", "\n");
  }

  // -------------------------------------------------------------- the writer

  /** The texts that measuring an array collects. */
  function FlatTexts(show: Show, items: seq<Json>): (r: seq<string>)
    requires AllFlat(items)
    ensures |r| == |items|
  {
    if items == [] then [] else [FlatText(show, items[0])] + FlatTexts(show, items[1..])
  }

  lemma {:induction false} FlatTextAt(show: Show, items: seq<Json>, i: nat)
    requires AllFlat(items) && i < |items|
    ensures FlatTexts(show, items)[i] == FlatText(show, items[i])
  {
    if i > 0 {
      FlatTextAt(show, items[1..], i - 1);
    }
  }

  predicate Collected(show: Show, texts: seq<string>, items: seq<Json>) {
    AllFlat(items) && texts == FlatTexts(show, items)
  }

  /** The length so far and what is left of the items make the length of the line. */
  predicate Measured(show: Show, items: seq<Json>, i: nat, length: int)
    requires AllFlat(items) && items != [] && i <= |items|
  {
    length + LengthsOf(show, items[i..]) == 4 + (|items| - 1) * 2 + LengthsOf(show, items)
  }

  lemma {:induction false} OneMoreLength(show: Show, items: seq<Json>, i: nat, length: int)
    requires AllFlat(items) && i < |items| && Measured(show, items, i, length)
    ensures FlatTexts(show, items)[i] == FlatText(show, items[i])
    ensures Measured(show, items, i + 1, length + |FlatTexts(show, items)[i]|)
  {
    FlatTextAt(show, items, i);
    assert items[i..][1..] == items[i + 1..];
  }

  class StyledWriter {
    const show: Show
    var document: string
    var childValues: seq<string>
    var indentString: string
    var addChildValues: bool

    constructor (show: Show)
      ensures this.show == show && document == "" && indentString == "" && !addChildValues
    {
      this.show := show;
      document, childValues, indentString, addChildValues := "", [], "", false;
    }

    method PushValue(value: string)
      modifies this`document, this`childValues
      ensures addChildValues ==> document == old(document) && childValues == old(childValues) + [value]
      ensures !addChildValues ==> document == old(document) + value && childValues == old(childValues)
    {
      if addChildValues {
        childValues := childValues + [value];
      } else {
        document := document + value;
      }
    }

    method WriteIndent()
      requires indentString == Spaces(|indentString|)
      modifies this`document
      ensures document == old(document) + Lead(old(document), |indentString|)
    {
      if document != "" {
        var last := document[|document| - 1];
        if last == ' ' {
          assert document + "" == document;
          return;
        }
        if last != '\n' {
          document := document + "\n";
        }
      }
      document := document + indentString;
    }

    method WriteWithIndent(value: string)
      requires indentString == Spaces(|indentString|)
      modifies this`document
      ensures document == old(document) + (Lead(old(document), |indentString|) + value)
    {
      WriteIndent();
      document := document + value;
    }

    method Indent()
      requires indentString == Spaces(|indentString|)
      modifies this`indentString
      ensures indentString == Spaces(|old(indentString)| + INDENT)
    {
      indentString := indentString + Spaces(INDENT);
    }

    method Unindent()
      requires |indentString| >= INDENT && indentString == Spaces(|indentString|)
      modifies this`indentString
      ensures indentString == Spaces(|old(indentString)| - INDENT)
    {
      indentString := indentString[..|indentString| - INDENT];
    }

    method OpenBlock(bracket: string)
      requires indentString == Spaces(|indentString|)
      modifies this`indentString, this`document
      ensures indentString == Spaces(|old(indentString)| + INDENT)
      ensures document == old(document) + (Lead(old(document), |old(indentString)|) + bracket)
    {
      WriteWithIndent(bracket);
      Indent();
    }

    method CloseBlock(bracket: string)
      requires |indentString| >= INDENT && indentString == Spaces(|indentString|)
      modifies this`indentString, this`document
      ensures indentString == Spaces(|old(indentString)| - INDENT)
      ensures document == old(document) + (Lead(old(document), |old(indentString)| - INDENT) + bracket)
    {
      Unindent();
      WriteWithIndent(bracket);
    }

    /** Whether an array takes more than one line; measures the items only when all are in one piece. */
    method IsMultilineArray(items: seq<Json>) returns (multi: bool)
      requires !addChildValues && items != [] && indentString == Spaces(|indentString|)
      requires forall i :: 0 <= i < |items| ==> InRange(items[i])
      modifies this
      ensures multi == Multiline(show, items)
      ensures document == old(document) && indentString == old(indentString) && !addChildValues
      ensures !multi || childValues != [] ==> Collected(show, childValues, items)
      decreases items, 2
    {
      multi := |items| * 3 >= RIGHT_MARGIN;
      childValues := [];
      var index := 0;
      while index < |items| && !multi
        invariant index <= |items| && !addChildValues && childValues == []
        invariant document == old(document) && indentString == old(indentString)
        invariant multi ==> Multiline(show, items)
        invariant !multi ==> |items| * 3 < RIGHT_MARGIN && forall i :: 0 <= i < index ==> Flat(items[i])
      {
        multi := !Flat(items[index]);
        index := index + 1;
      }
      if !multi {
        multi := MeasureLine(items);
      }
    }

    /** Collects the items' texts in measuring mode, which is off again afterwards. */
    method MeasureLine(items: seq<Json>) returns (tooLong: bool)
      requires !addChildValues && items != [] && childValues == [] && indentString == Spaces(|indentString|)
      requires AllFlat(items) && forall i :: 0 <= i < |items| ==> InRange(items[i])
      modifies this
      ensures tooLong <==> 4 + (|items| - 1) * 2 + LengthsOf(show, items) >= RIGHT_MARGIN
      ensures document == old(document) && indentString == old(indentString) && !addChildValues
      ensures childValues == FlatTexts(show, items)
      decreases items, 1
    {
      addChildValues := true;
      var lineLength := 4 + (|items| - 1) * 2;
      var index := 0;
      ghost var texts := FlatTexts(show, items);
      assert items[0..] == items;
      while index < |items|
        invariant index <= |items| && addChildValues
        invariant document == old(document) && indentString == old(indentString)
        invariant childValues == texts[..index]
        invariant Measured(show, items, index, lineLength)
      {
        OneMoreLength(show, items, index, lineLength);
        assert texts[..index] + [texts[index]] == texts[..index + 1];
        WriteValue(items[index]);
        lineLength := lineLength + |childValues[index]|;
        index := index + 1;
      }
      addChildValues := false;
      tooLong := lineLength >= RIGHT_MARGIN;
    }

    /** Appends a value to the document, or in measuring mode its text to the collected ones. */
    method WriteValue(v: Json)
      requires InRange(v) && indentString == Spaces(|indentString|)
      requires addChildValues ==> Flat(v)
      modifies this
      ensures addChildValues == old(addChildValues) && indentString == old(indentString)
      ensures addChildValues ==> document == old(document) && childValues == old(childValues) + [FlatText(show, v)]
      ensures !addChildValues ==> document == old(document) + StyledText(show, old(document), |indentString|, v)
      decreases v, 0
    {
      if Flat(v) {
        var text := FlatToString(show, v);
        PushValue(text);
      } else if v.Arr? {
        WriteArrayValue(v.items);
      } else {
        WriteObjectValue(v.members);
      }
    }

    method WriteArrayValue(items: seq<Json>)
      requires !addChildValues && items != [] && indentString == Spaces(|indentString|)
      requires forall i :: 0 <= i < |items| ==> InRange(items[i])
      modifies this
      ensures !addChildValues && indentString == old(indentString)
      ensures document == old(document) + StyledText(show, old(document), |indentString|, Arr(items))
      decreases items, 3
    {
      var multi := IsMultilineArray(items);
      if multi {
        WriteBlock(items);
        assert StyledText(show, old(document), |indentString|, Arr(items)) ==
               BlockText(show, old(document), |indentString|, items);
      } else {
        assert |childValues| == |items|;
        WriteLine(items);
      }
    }

    /** An array over several lines. */
    method WriteBlock(items: seq<Json>)
      requires !addChildValues && items != [] && indentString == Spaces(|indentString|)
      requires forall i :: 0 <= i < |items| ==> InRange(items[i])
      requires childValues != [] ==> Collected(show, childValues, items)
      modifies this
      ensures !addChildValues && indentString == old(indentString)
      ensures document == old(document) + BlockText(show, old(document), |indentString|, items)
      decreases items, 2, 2
    {
      ghost var before, indent := document, |indentString|;
      OpenBlock("[");
      WriteItems(items);
      assert |indentString| - INDENT == indent;
      BlockDone(show, before, document, indent, items);
      CloseBlock("]");
    }

    /** The items on one line, from the collected texts. */
    method WriteLine(items: seq<Json>)
      requires items != [] && AllFlat(items) && childValues == FlatTexts(show, items)
      modifies this`document
      ensures document == old(document) + ("[" + (" " + LineItems(show, items)))
    {
      ghost var line := LineItems(show, items);
      document := document + "[ ";
      ghost var whole := document + line;
      LineLoop(items, whole);
      LineEnds(show, document, items, whole);
      document := document + " ]";
      Joined3(old(document), "[ ", line);
      assert "[ " + line == "[" + (" " + line);
    }

    method LineLoop(items: seq<Json>, ghost whole: string)
      requires items != [] && AllFlat(items) && childValues == FlatTexts(show, items)
      requires LinePending(show, document, items, 0, whole)
      modifies this`document
      ensures LinePending(show, document, items, |items|, whole)
    {
      var index := 0;
      while index < |items|
        invariant index <= |items|
        invariant LinePending(show, document, items, index, whole)
      {
        LineStep(show, items, index, document, whole);
        AppendItem(index);
        index := index + 1;
      }
    }

    method AppendItem(index: nat)
      requires index < |childValues|
      modifies this`document
      ensures document == (if index > 0 then old(document) + ", " else old(document)) + childValues[index]
    {
      if index > 0 {
        document := document + ", ";
      }
      document := document + childValues[index];
    }

    /** One item on a line of its own: its collected text, or the item written anew. */
    method WriteItem(items: seq<Json>, index: nat, hasChildValue: bool)
      requires !addChildValues && indentString == Spaces(|indentString|) && index < |items| && InRange(items[index])
      requires hasChildValue ==> Collected(show, childValues, items)
      modifies this
      ensures !addChildValues && indentString == old(indentString)
      ensures hasChildValue ==> childValues == old(childValues)
      ensures document == AfterItemText(show, old(document), |indentString|, items[index])
      decreases items, 1
    {
      if hasChildValue {
        FlatTextAt(show, items, index);
        WriteWithIndent(childValues[index]);
        Joined3(old(document), Lead(old(document), |indentString|), childValues[index]);
      } else {
        WriteIndent();
        WriteValue(items[index]);
      }
    }

    method WriteMember(m: Member)
      requires !addChildValues && indentString == Spaces(|indentString|) && InRange(m.value)
      modifies this
      ensures !addChildValues && indentString == old(indentString)
      ensures document == AfterMemberText(show, old(document), |indentString|, m)
      decreases m, 1
    {
      var name := QuotedString(m.name);
      WriteWithIndent(name);
      document := document + " : ";
      WriteValue(m.value);
    }

    /** The items on lines of their own. */
    method WriteItems(items: seq<Json>)
      requires !addChildValues && items != [] && indentString == Spaces(|indentString|) && |indentString| >= INDENT
      requires forall i :: 0 <= i < |items| ==> InRange(items[i])
      requires childValues != [] ==> Collected(show, childValues, items)
      modifies this
      ensures !addChildValues && indentString == old(indentString)
      ensures ItemsDone(show, old(document), document, |indentString|, items)
      decreases items, 2, 1
    {
      ghost var before, whole := document, document + StyledItems(show, document, |indentString|, items);
      assert items[0..] == items;
      ItemLoop(items, whole);
      LastItem(show, before, document, |indentString|, items, whole);
    }

    method ItemLoop(items: seq<Json>, ghost whole: string)
      requires !addChildValues && items != [] && indentString == Spaces(|indentString|) && |indentString| >= INDENT
      requires forall i :: 0 <= i < |items| ==> InRange(items[i])
      requires childValues != [] ==> Collected(show, childValues, items)
      requires ItemsPending(show, document, |indentString|, items, 0, whole)
      modifies this
      ensures !addChildValues && indentString == old(indentString)
      ensures ItemsWritten(show, document, |indentString|, items, |items|, whole)
      decreases items, 2, 0
    {
      var hasChildValue := childValues != [];
      var index := 0;
      while true
        invariant index < |items| && !addChildValues && indentString == old(indentString)
        invariant hasChildValue ==> Collected(show, childValues, items)
        invariant ItemsPending(show, document, |indentString|, items, index, whole)
        decreases |items| - index
      {
        StyledStep(show, document, |indentString|, items, index, whole);
        WriteItem(items, index, hasChildValue);
        index := index + 1;
        if index == |items| {
          break;
        }
        CommaStep(show, document, |indentString|, items, index, whole);
        document := document + ",";
      }
    }

    method WriteObjectValue(ms: seq<Member>)
      requires !addChildValues && ms != [] && indentString == Spaces(|indentString|)
      requires forall i :: 0 <= i < |ms| ==> InRange(ms[i].value)
      modifies this
      ensures !addChildValues && indentString == old(indentString)
      ensures document == old(document) + StyledText(show, old(document), |indentString|, Obj(ms))
      decreases ms, 3
    {
      ghost var before, indent := document, |indentString|;
      OpenBlock("{");
      WriteMembers(ms);
      assert |indentString| - INDENT == indent;
      ObjectDone(show, before, document, indent, ms);
      CloseBlock("}");
    }

    /** The members on lines of their own. */
    method WriteMembers(ms: seq<Member>)
      requires !addChildValues && ms != [] && indentString == Spaces(|indentString|) && |indentString| >= INDENT
      requires forall i :: 0 <= i < |ms| ==> InRange(ms[i].value)
      modifies this
      ensures !addChildValues && indentString == old(indentString)
      ensures MembersDone(show, old(document), document, |indentString|, ms)
      decreases ms, 2, 1
    {
      ghost var before, whole := document, document + StyledMembers(show, document, |indentString|, ms);
      assert ms[0..] == ms;
      MemberLoop(ms, whole);
      LastMember(show, before, document, |indentString|, ms, whole);
    }

    method MemberLoop(ms: seq<Member>, ghost whole: string)
      requires !addChildValues && ms != [] && indentString == Spaces(|indentString|) && |indentString| >= INDENT
      requires forall i :: 0 <= i < |ms| ==> InRange(ms[i].value)
      requires MembersPending(show, document, |indentString|, ms, 0, whole)
      modifies this
      ensures !addChildValues && indentString == old(indentString)
      ensures MembersWritten(show, document, |indentString|, ms, |ms|, whole)
      decreases ms, 2, 0
    {
      var index := 0;
      while true
        invariant index < |ms| && !addChildValues && indentString == old(indentString)
        invariant MembersPending(show, document, |indentString|, ms, index, whole)
        decreases |ms| - index
      {
        StyledMemberStep(show, document, |indentString|, ms, index, whole);
        WriteMember(ms[index]);
        index := index + 1;
        if index == |ms| {
          break;
        }
        MemberCommaStep(show, document, |indentString|, ms, index, whole);
        document := document + ",";
      }
    }

    /** The document of one value, and the writer ready for another. */
    method Write(v: Json) returns (text: string)
      requires InRange(v)
      modifies this
      ensures text == document == StyledText(show, "", 0, v) + "\n"
      ensures indentString == "" && !addChildValues
    {
      document := "";
      addChildValues := false;
      indentString := "";
      WriteValue(v);
      assert "" + StyledText(show, "", 0, v) == StyledText(show, "", 0, v);
      document := document + "\n";
      text := document;
    }
  }

  function LineLeft(show: Show, items: seq<Json>, index: nat): string
    requires items != [] && AllFlat(items) && index <= |items|
  {
    if index == 0 then LineItems(show, items) else MoreLineItems(show, items[index..])
  }

  /** The document and what is left of the line make the whole. */
  predicate LinePending(show: Show, d: string, items: seq<Json>, index: nat, whole: string)
    requires items != [] && AllFlat(items) && index <= |items|
  {
    d + LineLeft(show, items, index) == whole
  }

  lemma {:induction false} LineLeftStep(show: Show, items: seq<Json>, index: nat)
    requires AllFlat(items) && index < |items|
    ensures LineLeft(show, items, index) ==
            (if index > 0 then ", " else "") + (FlatText(show, items[index]) + LineLeft(show, items, index + 1))
  {
    var left, rest := items[index..], FlatText(show, items[index]) + MoreLineItems(show, items[index + 1..]);
    LineFromFirst(show, left, items[index], items[index + 1..]);
    if index > 0 {
      assert "," + (" " + rest) == ", " + rest;
    } else {
      assert left == items && "" + rest == rest;
    }
  }

  lemma {:induction false} LineFromFirst(show: Show, left: seq<Json>, v: Json, more: seq<Json>)
    requires left == [v] + more && AllFlat(left) && Flat(v) && AllFlat(more)
    ensures LineItems(show, left) == FlatText(show, v) + MoreLineItems(show, more)
    ensures MoreLineItems(show, left) == "," + (" " + LineItems(show, left))
  {
    assert left[1..] == more;
  }

  lemma {:induction false} LineStep(show: Show, items: seq<Json>, index: nat, d: string, whole: string)
    requires AllFlat(items) && index < |items| && LinePending(show, d, items, index, whole)
    ensures LinePending(show, (if index > 0 then d + ", " else d) + FlatTexts(show, items)[index], items, index + 1, whole)
  {
    FlatTextAt(show, items, index);
    var gap, text, left := if index > 0 then ", " else "", FlatText(show, items[index]), LineLeft(show, items, index + 1);
    LineLeftStep(show, items, index);
    Joined3(d, gap, text + left);
    Joined3(d + gap, text, left);
    assert d + "" == d;
  }

  lemma {:induction false} LineEnds(show: Show, d: string, items: seq<Json>, whole: string)
    requires items != [] && AllFlat(items) && LinePending(show, d, items, |items|, whole)
    ensures d + " ]" == whole
  {}

  /** The document after one more item, and after one more member. */
  function AfterItemText(show: Show, d: string, indent: nat, v: Json): string {
    d + Lead(d, indent) + StyledText(show, d + Lead(d, indent), indent, v)
  }

  function AfterMemberText(show: Show, d: string, indent: nat, m: Member): string {
    var before := d + (Lead(d, indent) + Quoted(m.name)) + " : ";
    before + StyledText(show, before, indent, m.value)
  }

  /** What is still to be printed from an item on, and after it. */
  function ItemsFrom(show: Show, d: string, indent: nat, items: seq<Json>, index: nat): string
    requires index < |items| && indent >= INDENT
  {
    StyledItems(show, d, indent, items[index..])
  }

  function ItemsAfter(show: Show, d: string, indent: nat, items: seq<Json>, index: nat): string
    requires index <= |items| && indent >= INDENT
  {
    MoreStyledItems(show, d, indent, items[index..])
  }

  function MembersFrom(show: Show, d: string, indent: nat, ms: seq<Member>, index: nat): string
    requires index < |ms| && indent >= INDENT
  {
    StyledMembers(show, d, indent, ms[index..])
  }

  function MembersAfter(show: Show, d: string, indent: nat, ms: seq<Member>, index: nat): string
    requires index <= |ms| && indent >= INDENT
  {
    MoreStyledMembers(show, d, indent, ms[index..])
  }

  /** The document and the items from one on make the whole; and the same after an item. */
  predicate ItemsPending(show: Show, d: string, indent: nat, items: seq<Json>, index: nat, whole: string)
    requires index < |items| && indent >= INDENT
  {
    d + ItemsFrom(show, d, indent, items, index) == whole
  }

  predicate ItemsWritten(show: Show, d: string, indent: nat, items: seq<Json>, index: nat, whole: string)
    requires index <= |items| && indent >= INDENT
  {
    d + ItemsAfter(show, d, indent, items, index) == whole
  }

  predicate MembersPending(show: Show, d: string, indent: nat, ms: seq<Member>, index: nat, whole: string)
    requires index < |ms| && indent >= INDENT
  {
    d + MembersFrom(show, d, indent, ms, index) == whole
  }

  predicate MembersWritten(show: Show, d: string, indent: nat, ms: seq<Member>, index: nat, whole: string)
    requires index <= |ms| && indent >= INDENT
  {
    d + MembersAfter(show, d, indent, ms, index) == whole
  }

  lemma {:induction false} StyledStep(show: Show, d: string, indent: nat, items: seq<Json>, index: nat, whole: string)
    requires index < |items| && indent >= INDENT && ItemsPending(show, d, indent, items, index, whole)
    ensures ItemsWritten(show, AfterItemText(show, d, indent, items[index]), indent, items, index + 1, whole)
  {
    var lead := Lead(d, indent);
    var text := StyledText(show, d + lead, indent, items[index]);
    assert items[index..][1..] == items[index + 1..];
    var more := MoreStyledItems(show, d + lead + text, indent, items[index + 1..]);
    Joined3(d, lead, text + more);
    Joined3(d + lead, text, more);
  }

  lemma {:induction false} CommaStep(show: Show, d: string, indent: nat, items: seq<Json>, index: nat, whole: string)
    requires index < |items| && indent >= INDENT && ItemsWritten(show, d, indent, items, index, whole)
    ensures ItemsPending(show, d + ",", indent, items, index, whole)
  {
    Joined3(d, ",", ItemsFrom(show, d + ",", indent, items, index));
  }

  /** With its closing bracket the document is what it was and the items on their lines. */
  predicate ItemsDone(show: Show, before: string, d: string, indent: nat, items: seq<Json>)
    requires items != [] && indent >= INDENT
  {
    d + (Lead(d, indent - INDENT) + "]") == before + StyledItems(show, before, indent, items)
  }

  predicate MembersDone(show: Show, before: string, d: string, indent: nat, ms: seq<Member>)
    requires ms != [] && indent >= INDENT
  {
    d + (Lead(d, indent - INDENT) + "}") == before + StyledMembers(show, before, indent, ms)
  }

  function BlockText(show: Show, doc: string, indent: nat, items: seq<Json>): string
    requires items != []
  {
    var open := Lead(doc, indent) + "[";
    open + StyledItems(show, doc + open, indent + INDENT, items)
  }

  lemma {:induction false} BlockDone(show: Show, before: string, d: string, indent: nat, items: seq<Json>)
    requires items != [] && ItemsDone(show, before + (Lead(before, indent) + "["), d, indent + INDENT, items)
    ensures d + (Lead(d, indent) + "]") == before + BlockText(show, before, indent, items)
  {
    var open := Lead(before, indent) + "[";
    Joined3(before, open, StyledItems(show, before + open, indent + INDENT, items));
  }

  lemma {:induction false} ObjectDone(show: Show, before: string, d: string, indent: nat, ms: seq<Member>)
    requires ms != [] && MembersDone(show, before + (Lead(before, indent) + "{"), d, indent + INDENT, ms)
    ensures d + (Lead(d, indent) + "}") == before + StyledText(show, before, indent, Obj(ms))
  {
    var open := Lead(before, indent) + "{";
    Joined3(before, open, StyledMembers(show, before + open, indent + INDENT, ms));
  }

  lemma {:induction false} LastItem(show: Show, before: string, d: string, indent: nat, items: seq<Json>, whole: string)
    requires items != [] && indent >= INDENT && ItemsWritten(show, d, indent, items, |items|, whole)
    requires whole == before + StyledItems(show, before, indent, items)
    ensures ItemsDone(show, before, d, indent, items)
  {}

  lemma {:induction false} LastMember(show: Show, before: string, d: string, indent: nat, ms: seq<Member>, whole: string)
    requires ms != [] && indent >= INDENT && MembersWritten(show, d, indent, ms, |ms|, whole)
    requires whole == before + StyledMembers(show, before, indent, ms)
    ensures MembersDone(show, before, d, indent, ms)
  {}

  lemma {:induction false} StyledMemberStep(show: Show, d: string, indent: nat, ms: seq<Member>, index: nat, whole: string)
    requires index < |ms| && indent >= INDENT && MembersPending(show, d, indent, ms, index, whole)
    ensures MembersWritten(show, AfterMemberText(show, d, indent, ms[index]), indent, ms, index + 1, whole)
  {
    var lead, name := Lead(d, indent), Quoted(ms[index].name);
    var before := d + lead + name + " : ";
    Joined3(d, lead, name);
    assert ms[index..][1..] == ms[index + 1..];
    var text := StyledText(show, before, indent, ms[index].value);
    var more := MoreStyledMembers(show, before + text, indent, ms[index + 1..]);
    MemberPieces(d, lead, name, text, more);
  }

  lemma {:induction false} MemberPieces(d: string, lead: string, name: string, text: string, more: string)
    ensures d + (lead + (name + (" : " + (text + more)))) == d + lead + name + " : " + text + more
  {}

  lemma {:induction false} MemberCommaStep(show: Show, d: string, indent: nat, ms: seq<Member>, index: nat, whole: string)
    requires index < |ms| && indent >= INDENT && MembersWritten(show, d, indent, ms, index, whole)
    ensures MembersPending(show, d + ",", indent, ms, index, whole)
  {
    Joined3(d, ",", MembersFrom(show, d + ",", indent, ms, index));
  }
}
