/** What the JSON writers print, as functions, and that the reader gives it back. */
module JsonWriting {
  import opened Optional
  import opened JsonValue
  import opened JsonSyntax
  import opened JsonNumbers
  import opened JsonGrammar
  import opened JsonTokens
  import opened JsonParsing
  import opened JsonText

  // ------------------------------------------------- a value's own spelling

  /** How doubles are printed; the digits themselves are outside this model. */
  type Show = real -> string

  function SyntaxOf(show: Show, v: Json): Syntax {
    match v
    case Null => NullLiteral
    case Bool(b) => BoolLiteral(b)
    case Int(n) => NumberLiteral(IntText(n))
    case UInt(n) => NumberLiteral(IntText(n))
    case Real(x) => NumberLiteral(show(x))
    case Str(s) => StringLiteral(PiecesOf(CString(s)))
    case Arr(items) => ArrayOf(SyntaxesOf(show, items))
    case Obj(ms) => ObjectOf(EntriesOf(show, ms))
  }

  function SyntaxesOf(show: Show, items: seq<Json>): (r: seq<Syntax>)
    ensures |r| == |items|
  {
    if items == [] then [] else [SyntaxOf(show, items[0])] + SyntaxesOf(show, items[1..])
  }

  function EntriesOf(show: Show, ms: seq<Member>): (r: seq<Entry>)
    ensures |r| == |ms|
  {
    if ms == [] then []
    else [Entry(PiecesOf(CString(ms[0].name)), SyntaxOf(show, ms[0].value))] + EntriesOf(show, ms[1..])
  }

  /** The value as the reader builds it: a whole number that fits `Int` is one. */
  function Norm(v: Json): Json {
    match v
    case UInt(n) => Normal(n)
    case Arr(items) => Arr(Norms(items))
    case Obj(ms) => Obj(NormMembers(ms))
    case _ => v
  }

  function Norms(items: seq<Json>): (r: seq<Json>)
    ensures |r| == |items|
  {
    if items == [] then [] else [Norm(items[0])] + Norms(items[1..])
  }

  function NormMembers(ms: seq<Member>): (r: seq<Member>)
    ensures |r| == |ms| && forall i :: 0 <= i < |ms| ==> r[i].name == ms[i].name
  {
    if ms == [] then [] else [Member(ms[0].name, Norm(ms[0].value))] + NormMembers(ms[1..])
  }

  /** A double whose text is a number and reads back as it. */
  predicate ReadsBackReal(scan: string -> Option<real>, show: Show, x: real) {
    IsNumberText(show(x)) && DecodeNumber(scan, show(x)) == Some(Real(x))
  }

  /** The values that are read back as they were printed. */
  predicate Printable(scan: string -> Option<real>, show: Show, v: Json) {
    match v
    case Int(n) => LOWEST_EXACT < n <= MAX_INT
    case UInt(n) => n < HIGHEST_EXACT
    case Real(x) => ReadsBackReal(scan, show, x)
    case Str(s) => NulFree(s)
    case Arr(items) => forall i :: 0 <= i < |items| ==> Printable(scan, show, items[i])
    case Obj(ms) =>
      Sorted(ms) && forall i :: 0 <= i < |ms| ==> NulFree(ms[i].name) && Printable(scan, show, ms[i].value)
    case _ => true
  }

  lemma {:induction false} IntegerMeans(scan: string -> Option<real>, n: int)
    requires LOWEST_EXACT < n < HIGHEST_EXACT
    ensures IsNumberText(IntText(n)) && NumberSense(scan, IntText(n)) == Some(Normal(n))
  {
    IntTextIsNumber(n);
    IntegerExact(scan, n);
    DecodesToSense(scan, IntText(n));
  }

  lemma {:induction false} SpellingMeans(scan: string -> Option<real>, show: Show, v: Json)
    requires Printable(scan, show, v)
    ensures Conforms(scan, SyntaxOf(show, v)) && Meaning(scan, SyntaxOf(show, v)) == Norm(v)
    decreases v, 0
  {
    match v
    case Int(n) => IntegerMeans(scan, n);
    case UInt(n) => IntegerMeans(scan, n);
    case Real(x) => DecodesToSense(scan, show(x));
    case Str(s) =>
      CStringWhole(s);
      SenseOfPieces(s);
    case Arr(items) => SpellingsMean(scan, show, items);
    case Obj(ms) =>
      EntriesMean(scan, show, ms, []);
      assert [] + NormMembers(ms) == NormMembers(ms);
    case _ =>
  }

  lemma {:induction false} SpellingsMean(scan: string -> Option<real>, show: Show, items: seq<Json>)
    requires forall i :: 0 <= i < |items| ==> Printable(scan, show, items[i])
    ensures var cs := SyntaxesOf(show, items);
            (forall i :: 0 <= i < |cs| ==> Conforms(scan, cs[i])) && Meanings(scan, cs) == Norms(items)
    decreases items, 1
  {
    if items != [] {
      SpellingMeans(scan, show, items[0]);
      SpellingsMean(scan, show, items[1..]);
      assert SyntaxesOf(show, items)[1..] == SyntaxesOf(show, items[1..]);
    }
  }

  ghost predicate GoodMembers(scan: string -> Option<real>, show: Show, ms: seq<Member>) {
    Sorted(ms) && forall i :: 0 <= i < |ms| ==> NulFree(ms[i].name) && Printable(scan, show, ms[i].value)
  }

  lemma {:induction false} EntryMeans(scan: string -> Option<real>, show: Show, m: Member)
    requires NulFree(m.name) && Printable(scan, show, m.value)
    ensures var e := Entry(PiecesOf(CString(m.name)), SyntaxOf(show, m.value));
            ValidString(e.name) && SenseAll(e.name) == m.name && Conforms(scan, e.value) && Meaning(scan, e.value) == Norm(m.value)
    decreases m, 0
  {
    CStringWhole(m.name);
    SenseOfPieces(m.name);
    SpellingMeans(scan, show, m.value);
  }

  /** The members of a printed object are put back in their order. */
  lemma {:induction false} EntriesMean(scan: string -> Option<real>, show: Show, ms: seq<Member>, done: seq<Member>)
    requires GoodMembers(scan, show, ms)
    requires forall i, j :: 0 <= i < |done| && 0 <= j < |ms| ==> Less(done[i].name, ms[j].name)
    ensures var es := EntriesOf(show, ms);
            (forall i :: 0 <= i < |es| ==> ValidString(es[i].name) && Conforms(scan, es[i].value)) &&
            MembersOf(scan, es, done) == done + NormMembers(ms)
    decreases ms, 1
  {
    if ms == [] {
      assert done + [] == done;
    } else {
      EntryMeans(scan, show, ms[0]);
      var next := Member(ms[0].name, Norm(ms[0].value));
      PutLast(done, ms[0].name, next.value);
      EntriesMean(scan, show, ms[1..], done + [next]);
      assert EntriesOf(show, ms)[1..] == EntriesOf(show, ms[1..]);
      Appended(done, next, NormMembers(ms[1..]));
    }
  }

  /** A text that reads as the tokens of a printable value is read as the value, whoever printed it. */
  lemma {:induction false} SpelledIsRead(o: Options, show: Show, v: Json, doc: string, rest: string)
    requires Printable(o.scan, show, v) && Reads(doc, Tokens(SyntaxOf(show, v)), rest)
    ensures ParseDocument(o, doc) == if o.strictRoot && !v.Arr? && !v.Obj? then None else Some(Norm(v))
  {
    SpellingMeans(o.scan, show, v);
    ParseConforming(o, SyntaxOf(show, v), doc, rest);
  }

  // ------------------------------------------------------------ scalar texts

  /** Values that are printed in one piece: everything but a non-empty array or object. */
  predicate Flat(v: Json) {
    match v case Arr(items) => items == [] case Obj(ms) => ms == [] case _ => true
  }

  function FlatText(show: Show, v: Json): string
    requires Flat(v)
  {
    match v
    case Null => "null"
    case Bool(b) => if b then "true" else "false"
    case Int(n) => IntText(n)
    case UInt(n) => IntText(n)
    case Real(x) => show(x)
    case Str(s) => Quoted(s)
    case Arr(_) => "[]"
    case Obj(_) => "{}"
  }

  predicate NumbersShown(show: Show, v: Json) {
    match v
    case Real(x) => IsNumberText(show(x))
    case Arr(items) => forall i :: 0 <= i < |items| ==> NumbersShown(show, items[i])
    case Obj(ms) => forall i :: 0 <= i < |ms| ==> NumbersShown(show, ms[i].value)
    case _ => true
  }

  lemma {:induction false} EmptyReads(open: char, close: char, k: string)
    requires IsPunctuation(open) && IsPunctuation(close)
    ensures Reads([open] + [close] + k, [Token(FirstKind(open), [open])] + [Token(FirstKind(close), [close])], k)
  {
    assert [open] + [close] + k == [open] + ([close] + k);
    ReadPunctuation(open, [close] + k);
    ReadPunctuation(close, k);
    ReadsOne([close] + k, Token(FirstKind(close), [close]), k);
    ReadsFirst([open] + ([close] + k), Token(FirstKind(open), [open]), [Token(FirstKind(close), [close])], k);
  }

  lemma {:induction false} WordReads(show: Show, v: Json, k: string)
    requires v.Null? || v.Bool?
    ensures Reads(FlatText(show, v) + k, Tokens(SyntaxOf(show, v)), k)
  {
    match v
    case Null =>
      assert "null" == ['n'] + "ull";
      ReadWord('n', "ull", NullWord, k);
      ReadsOne("null" + k, Token(NullWord, "null"), k);
    case Bool(b) =>
      if b {
        assert "true" == ['t'] + "rue";
        ReadWord('t', "rue", True, k);
        ReadsOne("true" + k, Token(True, "true"), k);
      } else {
        assert "false" == ['f'] + "alse";
        ReadWord('f', "alse", False, k);
        ReadsOne("false" + k, Token(False, "false"), k);
      }
  }

  lemma {:induction false} NumberReads(t: string, k: string)
    requires IsNumberText(t) && Delimits(k)
    ensures Reads(t + k, Tokens(NumberLiteral(t)), k)
  {
    ReadNumber(t, k);
    ReadsOne(t + k, Token(Number, t), k);
  }

  lemma {:induction false} StringReads(s: string, k: string)
    ensures Reads(Quoted(s) + k, Tokens(StringLiteral(PiecesOf(CString(s)))), k)
  {
    ReadQuote(PiecesOf(CString(s)), k);
    ReadsOne(Quoted(s) + k, Token(String, Quoted(s)), k);
  }

  /** A value printed in one piece reads as its tokens. */
  lemma {:induction false} FlatReads(show: Show, v: Json, k: string)
    requires Flat(v) && NumbersShown(show, v) && Delimits(k)
    ensures Reads(FlatText(show, v) + k, Tokens(SyntaxOf(show, v)), k)
  {
    match v
    case Int(n) =>
      IntTextIsNumber(n);
      NumberReads(IntText(n), k);
    case UInt(n) =>
      IntTextIsNumber(n);
      NumberReads(IntText(n), k);
    case Real(x) => NumberReads(show(x), k);
    case Str(s) => StringReads(s, k);
    case Arr(_) =>
      assert "[]" == ['['] + [']'];
      EmptyReads('[', ']', k);
    case Obj(_) =>
      assert "{}" == ['{'] + ['}'];
      EmptyReads('{', '}', k);
    case _ => WordReads(show, v, k);
  }

  lemma {:induction false} PrintableNumbers(scan: string -> Option<real>, show: Show, v: Json)
    requires Printable(scan, show, v)
    ensures NumbersShown(show, v)
  {
    match v
    case Arr(items) =>
      forall i | 0 <= i < |items| ensures NumbersShown(show, items[i]) { PrintableNumbers(scan, show, items[i]); }
    case Obj(ms) =>
      forall i | 0 <= i < |ms| ensures NumbersShown(show, ms[i].value) { PrintableNumbers(scan, show, ms[i].value); }
    case _ =>
  }
}
