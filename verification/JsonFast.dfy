/** The fast writer: everything on one line. */
module JsonFast {
  import opened Optional
  import opened JsonValue
  import opened JsonSyntax
  import opened JsonGrammar
  import opened JsonTokens
  import opened JsonText
  import opened JsonWriting
  import opened JsonScalars

  datatype Style = Style(yaml: bool, show: Show)

  function Colon(st: Style): string { if st.yaml then ": " else ":" }

  function FastText(st: Style, v: Json): string {
    match v
    case Arr(items) => "[" + FastItems(st, items)
    case Obj(ms) => "{" + FastMembers(st, ms)
    case _ => FlatText(st.show, v)
  }

  /** What is printed after an opening bracket, and after the first item. */
  function FastItems(st: Style, items: seq<Json>): string {
    if items == [] then "]" else FastText(st, items[0]) + MoreFastItems(st, items[1..])
  }

  function MoreFastItems(st: Style, items: seq<Json>): string {
    if items == [] then "]" else "," + (FastText(st, items[0]) + MoreFastItems(st, items[1..]))
  }

  /** What is printed after an opening brace, and after the first member. */
  function FastMembers(st: Style, ms: seq<Member>): string {
    if ms == [] then "}" else FastMember(st, ms[0], MoreFastMembers(st, ms[1..]))
  }

  function MoreFastMembers(st: Style, ms: seq<Member>): string {
    if ms == [] then "}" else "," + FastMember(st, ms[0], MoreFastMembers(st, ms[1..]))
  }

  function FastMember(st: Style, m: Member, more: string): string {
    Quoted(m.name) + (Colon(st) + (FastText(st, m.value) + more))
  }

  // ----------------------------------------------------------- it reads back

  lemma {:induction false} Joined3(a: string, b: string, k: string)
    ensures a + b + k == a + (b + k)
  {}

  lemma {:induction false} AfterPunctuation(c: char, s: string, t: Token, ts: seq<Token>, k: string)
    requires IsPunctuation(c) && t == Token(FirstKind(c), [c]) && Reads(s, ts, k)
    ensures Reads([c] + s, [t] + ts, k)
  {
    ReadPunctuation(c, s);
    ReadsFirst([c] + s, t, ts, k);
  }

  lemma {:induction false} PunctuationReads(c: char, t: Token, k: string)
    requires IsPunctuation(c) && t == Token(FirstKind(c), [c])
    ensures Reads([c] + k, [t], k)
  {
    ReadPunctuation(c, k);
    ReadsOne([c] + k, t, k);
  }

  lemma {:induction false} MoreItemsDelimit(st: Style, items: seq<Json>, k: string)
    ensures Delimits(MoreFastItems(st, items) + k)
  {}

  lemma {:induction false} MoreMembersDelimit(st: Style, ms: seq<Member>, k: string)
    ensures Delimits(MoreFastMembers(st, ms) + k)
  {}

  /** The text of the fast writer reads as the tokens of the value. */
  lemma {:induction false} FastReads(st: Style, v: Json, k: string)
    requires NumbersShown(st.show, v) && Delimits(k)
    ensures Reads(FastText(st, v) + k, Tokens(SyntaxOf(st.show, v)), k)
    decreases v, 0
  {
    match v
    case Arr(items) => FastArrayReads(st, items, k);
    case Obj(ms) => FastObjectReads(st, ms, k);
    case _ => FlatReads(st.show, v, k);
  }

  lemma {:induction false} FastArrayReads(st: Style, items: seq<Json>, k: string)
    requires forall i :: 0 <= i < |items| ==> NumbersShown(st.show, items[i])
    ensures Reads("[" + FastItems(st, items) + k, [OPEN_ARRAY] + ItemTokens(SyntaxesOf(st.show, items)), k)
    decreases items, 3
  {
    FastItemsRead(st, items, k);
    assert "[" == ['['];
    Joined3("[", FastItems(st, items), k);
    AfterPunctuation('[', FastItems(st, items) + k, OPEN_ARRAY, ItemTokens(SyntaxesOf(st.show, items)), k);
  }

  lemma {:induction false} FastObjectReads(st: Style, ms: seq<Member>, k: string)
    requires forall i :: 0 <= i < |ms| ==> NumbersShown(st.show, ms[i].value)
    ensures Reads("{" + FastMembers(st, ms) + k, [OPEN_OBJECT] + EntryTokens(EntriesOf(st.show, ms)), k)
    decreases ms, 3
  {
    FastMembersRead(st, ms, k);
    assert "{" == ['{'];
    Joined3("{", FastMembers(st, ms), k);
    AfterPunctuation('{', FastMembers(st, ms) + k, OPEN_OBJECT, EntryTokens(EntriesOf(st.show, ms)), k);
  }

  lemma {:induction false} FastItemsRead(st: Style, items: seq<Json>, k: string)
    requires forall i :: 0 <= i < |items| ==> NumbersShown(st.show, items[i])
    ensures Reads(FastItems(st, items) + k, ItemTokens(SyntaxesOf(st.show, items)), k)
    decreases items, 2
  {
    if items == [] {
      PunctuationReads(']', CLOSE_ARRAY, k);
    } else {
      ItemThenMore(st, items, k);
    }
  }

  lemma {:induction false} ItemThenMore(st: Style, items: seq<Json>, k: string)
    requires items != [] && forall i :: 0 <= i < |items| ==> NumbersShown(st.show, items[i])
    ensures Reads(FastText(st, items[0]) + MoreFastItems(st, items[1..]) + k,
                  Tokens(SyntaxOf(st.show, items[0])) + MoreItems(SyntaxesOf(st.show, items[1..])), k)
    decreases items, 1
  {
    var more := MoreFastItems(st, items[1..]) + k;
    MoreItemsDelimit(st, items[1..], k);
    FastReads(st, items[0], more);
    MoreItemsRead(st, items[1..], k);
    Joined3(FastText(st, items[0]), MoreFastItems(st, items[1..]), k);
    ReadsJoin(FastText(st, items[0]) + more, Tokens(SyntaxOf(st.show, items[0])), more,
              MoreItems(SyntaxesOf(st.show, items[1..])), k);
  }

  lemma {:induction false} MoreItemsRead(st: Style, items: seq<Json>, k: string)
    requires forall i :: 0 <= i < |items| ==> NumbersShown(st.show, items[i])
    ensures Reads(MoreFastItems(st, items) + k, MoreItems(SyntaxesOf(st.show, items)), k)
    decreases items, 2
  {
    if items == [] {
      PunctuationReads(']', CLOSE_ARRAY, k);
    } else {
      ItemThenMore(st, items, k);
      var text := FastText(st, items[0]) + MoreFastItems(st, items[1..]);
      Joined3(",", text, k);
      AfterPunctuation(',', text + k, COMMA, Tokens(SyntaxOf(st.show, items[0])) + MoreItems(SyntaxesOf(st.show, items[1..])), k);
    }
  }

  lemma {:induction false} FastMembersRead(st: Style, ms: seq<Member>, k: string)
    requires forall i :: 0 <= i < |ms| ==> NumbersShown(st.show, ms[i].value)
    ensures Reads(FastMembers(st, ms) + k, EntryTokens(EntriesOf(st.show, ms)), k)
    decreases ms, 2
  {
    if ms == [] {
      PunctuationReads('}', CLOSE_OBJECT, k);
    } else {
      MemberThenMore(st, ms, k);
    }
  }

  lemma {:induction false} MoreMembersRead(st: Style, ms: seq<Member>, k: string)
    requires forall i :: 0 <= i < |ms| ==> NumbersShown(st.show, ms[i].value)
    ensures Reads(MoreFastMembers(st, ms) + k, MoreEntries(EntriesOf(st.show, ms)), k)
    decreases ms, 2
  {
    if ms == [] {
      PunctuationReads('}', CLOSE_OBJECT, k);
    } else {
      MemberThenMore(st, ms, k);
      var e := EntriesOf(st.show, ms)[0];
      var text := FastMember(st, ms[0], MoreFastMembers(st, ms[1..]));
      Joined3(",", text, k);
      AfterPunctuation(',', text + k, COMMA, OneEntry(e, MoreEntries(EntriesOf(st.show, ms[1..]))), k);
    }
  }

  lemma {:induction false} MemberThenMore(st: Style, ms: seq<Member>, k: string)
    requires ms != [] && forall i :: 0 <= i < |ms| ==> NumbersShown(st.show, ms[i].value)
    ensures Reads(FastMember(st, ms[0], MoreFastMembers(st, ms[1..])) + k,
                  OneEntry(EntriesOf(st.show, ms)[0], MoreEntries(EntriesOf(st.show, ms[1..]))), k)
    decreases ms, 1
  {
    var more := MoreFastMembers(st, ms[1..]);
    MoreMembersDelimit(st, ms[1..], k);
    FastReads(st, ms[0].value, more + k);
    MoreMembersRead(st, ms[1..], k);
    var value := FastText(st, ms[0].value);
    ReadsJoin(value + (more + k), Tokens(SyntaxOf(st.show, ms[0].value)), more + k, MoreEntries(EntriesOf(st.show, ms[1..])), k);
    MemberReads(st, ms[0], more, MoreEntries(EntriesOf(st.show, ms[1..])), k);
  }

  lemma {:induction false} MemberReads(st: Style, m: Member, more: string, ts: seq<Token>, k: string)
    requires Reads(FastText(st, m.value) + (more + k), Tokens(SyntaxOf(st.show, m.value)) + ts, k)
    ensures Reads(FastMember(st, m, more) + k, OneEntry(Entry(PiecesOf(CString(m.name)), SyntaxOf(st.show, m.value)), ts), k)
  {
    var rest := FastText(st, m.value) + (more + k);
    var tail := Tokens(SyntaxOf(st.show, m.value)) + ts;
    ColonThen(st, rest, tail, k);
    ReadQuote(PiecesOf(CString(m.name)), Colon(st) + rest);
    ReadsFirst(Quoted(m.name) + (Colon(st) + rest), Token(String, Quoted(m.name)), [COLON] + tail, k);
    MemberText(st, m, more, k);
  }

  lemma {:induction false} MemberText(st: Style, m: Member, more: string, k: string)
    ensures FastMember(st, m, more) + k == Quoted(m.name) + (Colon(st) + (FastText(st, m.value) + (more + k)))
  {}

  lemma {:induction false} ColonThen(st: Style, rest: string, tail: seq<Token>, k: string)
    requires tail != [] && Reads(rest, tail, k)
    ensures Reads(Colon(st) + rest, [COLON] + tail, k)
  {
    if st.yaml {
      ReadsAfterSpaces([' '], rest, tail, k);
      AfterPunctuation(':', [' '] + rest, COLON, tail, k);
      assert ": " == [':'] + [' '];
      Joined3([':'], [' '], rest);
    } else {
      AfterPunctuation(':', rest, COLON, tail, k);
    }
  }

  /** What the fast writer prints, the reader reads back. */
  lemma {:induction false} FastRoundTrip(o: Options, st: Style, v: Json)
    requires Printable(o.scan, st.show, v)
    ensures ParseDocument(o, FastText(st, v) + "\n") == if o.strictRoot && !v.Arr? && !v.Obj? then None else Some(Norm(v))
  {
    PrintableNumbers(o.scan, st.show, v);
    FastReads(st, v, "\n");
    SpelledIsRead(o, st.show, v, FastText(st, v) + "\n", "\n");
  }

  /** Printing what was read back gives the same text again. */
  lemma {:induction false} NormPrintsTheSame(st: Style, v: Json)
    ensures FastText(st, Norm(v)) == FastText(st, v)
    decreases v, 0
  {
    match v
    case Arr(items) => ItemsPrintTheSame(st, items);
    case Obj(ms) => MembersPrintTheSame(st, ms);
    case _ =>
  }

  lemma {:induction false} ItemsPrintTheSame(st: Style, items: seq<Json>)
    ensures FastItems(st, Norms(items)) == FastItems(st, items) && MoreFastItems(st, Norms(items)) == MoreFastItems(st, items)
    decreases items, 1
  {
    if items != [] {
      NormPrintsTheSame(st, items[0]);
      ItemsPrintTheSame(st, items[1..]);
      assert Norms(items)[1..] == Norms(items[1..]);
    }
  }

  lemma {:induction false} MembersPrintTheSame(st: Style, ms: seq<Member>)
    ensures FastMembers(st, NormMembers(ms)) == FastMembers(st, ms)
    ensures MoreFastMembers(st, NormMembers(ms)) == MoreFastMembers(st, ms)
    decreases ms, 1
  {
    if ms != [] {
      NormPrintsTheSame(st, ms[0].value);
      MembersPrintTheSame(st, ms[1..]);
      assert NormMembers(ms)[1..] == NormMembers(ms[1..]);
    }
  }

  // -------------------------------------------------------------- the writer

  class FastWriter {
    const style: Style
    var document: string

    constructor (style: Style)
      ensures this.style == style
    {
      this.style := style;
    }

    /** Appends a value to the document. */
    method WriteValue(v: Json)
      requires InRange(v)
      modifies this
      ensures document == old(document) + FastText(style, v)
      decreases v, 0
    {
      match v
      case Arr(items) =>
        document := document + "[";
        WriteItems(items);
        Joined3(old(document), "[", FastItems(style, items));
      case Obj(ms) =>
        document := document + "{";
        WriteMembers(ms);
        Joined3(old(document), "{", FastMembers(style, ms));
      case _ =>
        var text := FlatToString(style.show, v);
        document := document + text;
    }

    method WriteItems(items: seq<Json>)
      requires forall i :: 0 <= i < |items| ==> InRange(items[i])
      modifies this
      ensures document == old(document) + FastItems(style, items)
      decreases items, 1
    {
      var index := 0;
      ghost var whole := document + FastItems(style, items);
      while index < |items|
        invariant index <= |items|
        invariant document + ItemsLeft(style, items, index) == whole
      {
        ItemStep(style, items, index, document);
        if index > 0 {
          document := document + ",";
        }
        WriteValue(items[index]);
        index := index + 1;
      }
      document := document + "]";
    }

    method WriteMembers(ms: seq<Member>)
      requires forall i :: 0 <= i < |ms| ==> InRange(ms[i].value)
      modifies this
      ensures document == old(document) + FastMembers(style, ms)
      decreases ms, 1
    {
      var index := 0;
      ghost var whole := document + FastMembers(style, ms);
      while index < |ms|
        invariant index <= |ms|
        invariant document + MembersLeft(style, ms, index) == whole
      {
        MemberStep(style, ms, index, document);
        if index > 0 {
          document := document + ",";
        }
        var name := QuotedString(ms[index].name);
        document := document + name;
        document := document + Colon(style);
        WriteValue(ms[index].value);
        index := index + 1;
      }
      document := document + "}";
    }

    /** The document of one value. */
    method Write(v: Json) returns (text: string)
      requires InRange(v)
      modifies this
      ensures text == document == FastText(style, v) + "\n"
    {
      document := "";
      WriteValue(v);
      assert "" + FastText(style, v) == FastText(style, v);
      document := document + "\n";
      text := document;
    }
  }

  /** What is still to be printed when `index` items are. */
  function ItemsLeft(st: Style, items: seq<Json>, index: nat): string
    requires index <= |items|
  {
    if index == 0 then FastItems(st, items) else MoreFastItems(st, items[index..])
  }

  function MembersLeft(st: Style, ms: seq<Member>, index: nat): string
    requires index <= |ms|
  {
    if index == 0 then FastMembers(st, ms) else MoreFastMembers(st, ms[index..])
  }

  lemma {:induction false} ItemStep(st: Style, items: seq<Json>, index: nat, d: string)
    requires index < |items|
    ensures d + ItemsLeft(st, items, index) ==
            (if index > 0 then d + "," else d) + FastText(st, items[index]) + ItemsLeft(st, items, index + 1)
  {}

  lemma {:induction false} MemberStep(st: Style, ms: seq<Member>, index: nat, d: string)
    requires index < |ms|
    ensures d + MembersLeft(st, ms, index) ==
            (if index > 0 then d + "," else d) + Quoted(ms[index].name) + Colon(st) + FastText(st, ms[index].value) +
            MembersLeft(st, ms, index + 1)
  {
    var more := MoreFastMembers(st, ms[index + 1..]);
    assert ms[index..][1..] == ms[index + 1..];
    OneMemberStep(st, ms[index], more, d);
    OneMemberStep(st, ms[index], more, d + ",");
    Joined3(d, ",", FastMember(st, ms[index], more));
  }

  lemma {:induction false} OneMemberStep(st: Style, m: Member, more: string, d: string)
    ensures d + FastMember(st, m, more) == d + Quoted(m.name) + Colon(st) + FastText(st, m.value) + more
  {}

}
