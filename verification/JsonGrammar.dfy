/** JSON texts by the grammar of RFC 8259, and what they stand for. */
module JsonGrammar {
  import opened Optional
  import opened JsonValue
  import opened JsonSyntax
  import opened JsonNumbers

  // ------------------------------------------------- strings, section 7

  /** A character of a string as it is spelled between the quotes. */
  datatype Piece =
    | Plain(c: char)       // itself
    | Short(e: char)       // backslash and one character
    | Unit(hex: string)    // backslash, u and four digits

  predicate IsUnit(hex: string) { |hex| == 4 && HexUnit(hex).Some? }

  predicate ValidPiece(p: Piece) {
    match p
    case Plain(c) => c != '"' && c != '\\'
    case Short(e) => ShortEscape(e).Some?
    case Unit(hex) => IsUnit(hex)
  }

  function Spelling(p: Piece): string {
    match p
    case Plain(c) => [c]
    case Short(e) => ['\\', e]
    case Unit(hex) => ['\\', 'u'] + hex
  }

  function SpellAll(ps: seq<Piece>): string {
    if ps == [] then "" else Spelling(ps[0]) + SpellAll(ps[1..])
  }

  predicate AllValid(ps: seq<Piece>) { forall i :: 0 <= i < |ps| ==> ValidPiece(ps[i]) }

  function Quote(ps: seq<Piece>): string { ['"'] + SpellAll(ps) + ['"'] }

  // ------------------------------------------- the characters RFC 8259 names

  /** The white space of section 2. */
  lemma {:induction false} SpaceIsRfc(c: char)
    ensures IsSpace(c) <==> c as int in {0x20, 0x09, 0x0A, 0x0D}
  {}

  /** The escapes of section 7: the character after the backslash, and what it stands for. */
  predicate RfcEscape(e: char, code: int) {
    || (e == '"' && code == 0x22) || (e == '\\' && code == 0x5C) || (e == '/' && code == 0x2F)
    || (e == 'b' && code == 0x08) || (e == 'f' && code == 0x0C) || (e == 'n' && code == 0x0A)
    || (e == 'r' && code == 0x0D) || (e == 't' && code == 0x09)
  }

  lemma {:induction false} EscapeIsRfc(e: char, c: char)
    ensures ShortEscape(e) == Some(c) <==> RfcEscape(e, c as int)
  {}

  /** A hexadecimal digit of either case. */
  predicate IsHexFor(c: char, d: nat) {
    d < 16 && (c == "0123456789abcdef"[d] || c == "0123456789ABCDEF"[d])
  }

  lemma {:induction false} HexDigitIff(c: char, d: nat)
    ensures IsDigitFor(c, d) <==> IsHexFor(c, d)
  {
    if d < 16 {
      assert "0123456789abcdef"[d] as int == (if d < 10 then 0x30 + d else 0x61 + d - 10);
      assert "0123456789ABCDEF"[d] as int == (if d < 10 then 0x30 + d else 0x41 + d - 10);
    }
  }

  lemma {:induction false} HexPlaces(a: nat, b: nat, c: nat, d: nat)
    requires a < 16 && b < 16 && c < 16 && d < 16
    ensures var n := ((a * 16 + b) * 16 + c) * 16 + d;
            a == n / 0x1000 && b == n / 0x100 % 16 && c == n / 0x10 % 16 && d == n % 16
  {}

  /** Four characters are a number's digits to the base 16, the highest first. */
  lemma {:induction false} HexUnitIff(s: string, n: nat)
    requires |s| == 4 && n < 0x1_0000
    ensures HexUnit(s) == Some(n) <==>
      IsHexFor(s[0], n / 0x1000) && IsHexFor(s[1], n / 0x100 % 16) && IsHexFor(s[2], n / 0x10 % 16) && IsHexFor(s[3], n % 16)
  {
    HexUnitIs(s, n, n / 0x1000, n / 0x100 % 16, n / 0x10 % 16, n % 16);
    HexDigitIff(s[0], n / 0x1000);
    HexDigitIff(s[1], n / 0x100 % 16);
    HexDigitIff(s[2], n / 0x10 % 16);
    HexDigitIff(s[3], n % 16);
  }

  predicate IsDigitFor(c: char, d: nat) { IsHex(c) && HexDigit(c) == d }

  lemma {:induction false} HexUnitIs(s: string, n: nat, a: nat, b: nat, c: nat, d: nat)
    requires |s| == 4 && a == n / 0x1000 < 16 && b == n / 0x100 % 16 && c == n / 0x10 % 16 && d == n % 16
    ensures HexUnit(s) == Some(n) <==> IsDigitFor(s[0], a) && IsDigitFor(s[1], b) && IsDigitFor(s[2], c) && IsDigitFor(s[3], d)
  {
    if HexUnit(s).Some? {
      HexPlaces(HexDigit(s[0]), HexDigit(s[1]), HexDigit(s[2]), HexDigit(s[3]));
    }
    HexSum(n, a, b, c, d);
  }

  lemma {:induction false} HexSum(n: nat, a: nat, b: nat, c: nat, d: nat)
    requires a == n / 0x1000 && b == n / 0x100 % 16 && c == n / 0x10 % 16 && d == n % 16
    ensures ((a * 16 + b) * 16 + c) * 16 + d == n
  {
    Sixteenth(n);
    Sixteenth(n / 16);
    Sixteenth(n / 0x100);
    Quarters(n);
  }

  lemma {:induction false} Sixteenth(n: nat)
    ensures n / 16 * 16 + n % 16 == n
  {}

  lemma {:induction false} Quarters(n: nat)
    ensures n / 16 / 16 == n / 0x100 && n / 0x100 / 16 == n / 0x1000
  {}

  /** The first half of a surrogate pair. */
  predicate IsHigh(p: Piece) { p.Unit? && IsUnit(p.hex) && 0xD800 <= HexUnit(p.hex).value <= 0xDBFF }

  /** Every first half of a pair is followed by another escape with digits. */
  predicate Joins(ps: seq<Piece>)
    decreases |ps|
  {
    if ps == [] then true
    else if IsHigh(ps[0]) then |ps| > 1 && ps[1].Unit? && Joins(ps[2..])
    else Joins(ps[1..])
  }

  predicate ValidString(ps: seq<Piece>) { AllValid(ps) && Joins(ps) }

  function Sense(p: Piece): string
    requires ValidPiece(p)
  {
    match p
    case Plain(c) => [c]
    case Short(e) => [ShortEscape(e).value]
    case Unit(hex) => Utf8(HexUnit(hex).value)
  }

  /** The characters a string stands for: two halves of a pair stand for one code point. */
  function SenseAll(ps: seq<Piece>): string
    requires ValidString(ps)
    decreases |ps|
  {
    if ps == [] then ""
    else if IsHigh(ps[0]) then
      assert ValidPiece(ps[1]);
      Utf8(Joined(HexUnit(ps[0].hex).value, HexUnit(ps[1].hex).value)) + SenseAll(ps[2..])
    else Sense(ps[0]) + SenseAll(ps[1..])
  }

  /** For the two halves of a proper pair that code point is the one of UTF-16. */
  lemma {:induction false} SurrogateSum(u: nat, low: nat)
    requires 0xD800 <= u <= 0xDBFF && 0xDC00 <= low <= 0xDFFF
    ensures Joined(u, low) == 0x1_0000 + (u - 0xD800) * 0x400 + (low - 0xDC00)
  {}

  lemma {:induction false} HexOfPrefix(hex: string, s: string)
    requires |hex| == 4
    ensures HexUnit(hex + s) == HexUnit(hex)
  {}

  lemma {:induction false} DecodeUnit(hex: string, s: string)
    requires IsUnit(hex) && !IsHigh(Unit(hex))
    ensures Decode(['\\', 'u'] + hex + s) == Prepend(Utf8(HexUnit(hex).value), Decode(s))
  {}

  lemma {:induction false} ReadPair(high: string, low: string, s: string)
    requires IsHigh(Unit(high)) && IsUnit(low)
    ensures ReadCodePoint(high + (['\\', 'u'] + low + s)) ==
            Some(CodePoint(Joined(HexUnit(high).value, HexUnit(low).value), 10))
  {
    var more := ['\\', 'u'] + low + s;
    var t := high + more;
    HexOfPrefix(high, more);
    assert t[6..] == low + s && t[4] == '\\' && t[5] == 'u';
    HexOfPrefix(low, s);
  }

  lemma {:induction false} DecodePair(high: string, low: string, s: string)
    requires IsHigh(Unit(high)) && IsUnit(low)
    ensures Decode(['\\', 'u'] + high + (['\\', 'u'] + low + s)) ==
            Prepend(Utf8(Joined(HexUnit(high).value, HexUnit(low).value)), Decode(s))
  {
    var more := ['\\', 'u'] + low + s;
    var t := ['\\', 'u'] + high + more;
    assert t[2..] == high + more;
    ReadPair(high, low, s);
    assert t[12..] == s;
  }

  lemma {:induction false} DecodePiece(p: Piece, s: string)
    requires ValidPiece(p) && !IsHigh(p)
    ensures Decode(Spelling(p) + s) == Prepend(Sense(p), Decode(s))
  {
    match p
    case Plain(c) =>
      assert (Spelling(p) + s)[1..] == s;
    case Short(e) =>
      assert (Spelling(p) + s)[2..] == s;
    case Unit(hex) => DecodeUnit(hex, s);
  }

  lemma {:induction false} NoSecondHalf(hex: string, more: string, u: nat)
    requires |hex| == 4 && (more == "" || more[0] != '\\' || (|more| > 1 && more[1] != 'u'))
    ensures SecondHalf(hex + more, u) == None
  {
    if |more| >= 6 {
      assert (hex + more)[4] == more[0] && (hex + more)[5] == more[1];
    }
  }

  lemma {:induction false} FirstOfPiece(p: Piece, s: string)
    requires ValidPiece(p) && !p.Unit?
    ensures var t := Spelling(p) + s; t[0] != '\\' || (|t| > 1 && t[1] != 'u')
  {}

  /** After the first half of a pair nothing but another escape with digits will do. */
  lemma {:induction false} LoneHigh(p: Piece, ps: seq<Piece>)
    requires IsHigh(p) && AllValid(ps) && (ps == [] || !ps[0].Unit?)
    ensures Decode(Spelling(p) + SpellAll(ps)) == None
  {
    var more := SpellAll(ps);
    assert (Spelling(p) + more)[2..] == p.hex + more;
    HexOfPrefix(p.hex, more);
    if ps != [] {
      FirstOfPiece(ps[0], SpellAll(ps[1..]));
    }
    NoSecondHalf(p.hex, more, HexUnit(p.hex).value);
  }

  /**
   * Of the strings of section 7 the reader decodes exactly those in which every first half of a
   * surrogate pair is followed by another escape with digits, to what they stand for.
   */
  lemma {:induction false} DecodePieces(ps: seq<Piece>)
    requires AllValid(ps)
    ensures Decode(SpellAll(ps)) == if Joins(ps) then Some(SenseAll(ps)) else None
    decreases |ps|
  {
    if ps == [] {
    } else if !IsHigh(ps[0]) {
      DecodePiece(ps[0], SpellAll(ps[1..]));
      DecodePieces(ps[1..]);
    } else if |ps| > 1 && ps[1].Unit? {
      assert ValidPiece(ps[1]) && ps[1..][1..] == ps[2..];
      assert SpellAll(ps) == Spelling(ps[0]) + (Spelling(ps[1]) + SpellAll(ps[2..]));
      DecodePair(ps[0].hex, ps[1].hex, SpellAll(ps[2..]));
      DecodePieces(ps[2..]);
    } else {
      LoneHigh(ps[0], ps[1..]);
    }
  }

  lemma {:induction false} DecodeQuoted(ps: seq<Piece>)
    requires AllValid(ps)
    ensures DecodeString(Quote(ps)) == if Joins(ps) then Some(SenseAll(ps)) else None
  {
    assert Quote(ps)[1..|Quote(ps)| - 1] == SpellAll(ps);
    DecodePieces(ps);
  }

  /** Whatever is decoded is spelled by the grammar, up to a quote that ends it early. */
  lemma {:induction false} DecodedIsSpelled(s: string) returns (ps: seq<Piece>, tail: string)
    requires Decode(s).Some?
    ensures ValidString(ps) && s == SpellAll(ps) + tail && (tail != "" ==> tail[0] == '"')
    decreases |s|
  {
    if s == "" || s[0] == '"' {
      ps, tail := [], s;
    } else if s[0] != '\\' {
      ps, tail := DecodedIsSpelled(s[1..]);
      ps := SpelledMore(s, s[1..], Plain(s[0]), ps, tail);
    } else if s[1] != 'u' {
      ps, tail := DecodedIsSpelled(s[2..]);
      ps := SpelledMore(s, s[2..], Short(s[1]), ps, tail);
    } else {
      var r := ReadCodePoint(s[2..]).value;
      ps, tail := DecodedIsSpelled(s[2 + r.length..]);
      ps := SpelledEscape(s, r, ps, tail);
    }
  }

  /** One escape with digits, or two that make a pair, before what is spelled already. */
  lemma {:induction false} SpelledEscape(s: string, r: CodePoint, ps: seq<Piece>, tail: string) returns (ps': seq<Piece>)
    requires |s| > 1 && s[0] == '\\' && s[1] == 'u' && ReadCodePoint(s[2..]) == Some(r)
    requires ValidString(ps) && s[2 + r.length..] == SpellAll(ps) + tail
    ensures ValidString(ps') && s == SpellAll(ps') + tail
  {
    UnitIsPrefix(s[2..]);
    var first := Unit(s[2..6]);
    assert s == Spelling(first) + s[6..];
    if r.length == 4 {
      ps' := SpelledMore(s, s[6..], first, ps, tail);
    } else {
      var second := SecondEscape(s);
      SpelledTwo(s, first, second, ps, tail);
      ps' := [first] + ([second] + ps);
    }
  }

  /** The escape that must follow the first half of a pair. */
  lemma {:induction false} SecondEscape(s: string) returns (q: Piece)
    requires |s| > 6 && HexUnit(s[2..]).Some? && SecondHalf(s[2..], HexUnit(s[2..]).value).Some?
    ensures q.Unit? && ValidPiece(q) && s[6..] == Spelling(q) + s[12..]
  {
    assert s[2..][6..] == s[8..] && s[2..][4] == s[6] && s[2..][5] == s[7];
    UnitIsPrefix(s[8..]);
    q := Unit(s[8..12]);
    assert s[8..][..4] == s[8..12];
  }

  lemma {:induction false} UnitIsPrefix(s: string)
    requires HexUnit(s).Some?
    ensures IsUnit(s[..4]) && HexUnit(s[..4]) == HexUnit(s)
  {}

  lemma {:induction false} SpelledMore(s: string, t: string, p: Piece, ps: seq<Piece>, tail: string) returns (ps': seq<Piece>)
    requires ValidPiece(p) && !IsHigh(p) && ValidString(ps) && t == SpellAll(ps) + tail && s == Spelling(p) + t
    ensures ps' == [p] + ps && ValidString(ps') && s == SpellAll(ps') + tail
  {
    ps' := [p] + ps;
    assert ps'[1..] == ps;
    assert s == Spelling(p) + SpellAll(ps) + tail;
  }

  lemma {:induction false} SpelledTwo(s: string, p: Piece, q: Piece, ps: seq<Piece>, tail: string)
    requires IsHigh(p) && q.Unit? && ValidPiece(q) && ValidString(ps)
    requires s == Spelling(p) + (Spelling(q) + (SpellAll(ps) + tail))
    ensures var ps' := [p] + ([q] + ps);
            ValidString(ps') && s == SpellAll(ps') + tail
  {
    var ps' := [p] + ([q] + ps);
    assert ps'[1..] == [q] + ps && ps'[1..][1..] == ps && ps'[2..] == ps;
    assert SpellAll(ps') == Spelling(p) + (Spelling(q) + SpellAll(ps));
    assert s == Spelling(p) + (Spelling(q) + SpellAll(ps)) + tail;
  }

  // -------------------------------------------------------- the end of a string

  predicate Harmless(s: string) { forall i :: 0 <= i < |s| ==> s[i] != '"' && s[i] != '\\' }

  lemma {:induction false} StringOver(h: string, s: string)
    requires Harmless(h)
    ensures StringRest(h + s) == StringRest(s)
  {
    if h == "" {
      assert h + s == s;
    } else {
      StringOver(h[1..], s);
      assert (h + s)[1..] == h[1..] + s;
    }
  }

  lemma {:induction false} StringOverUnit(hex: string, s: string)
    requires IsUnit(hex)
    ensures StringRest(['\\', 'u'] + hex + s) == StringRest(s)
  {
    assert (['\\', 'u'] + hex + s)[2..] == hex + s;
    StringOver(hex, s);
  }

  lemma {:induction false} StringOverPiece(p: Piece, s: string)
    requires ValidPiece(p)
    ensures StringRest(Spelling(p) + s) == StringRest(s)
  {
    match p
    case Plain(c) => StringOver([c], s);
    case Short(e) =>
      assert (Spelling(p) + s)[2..] == s;
    case Unit(hex) => StringOverUnit(hex, s);
  }

  /** A string token ends at its closing quote, not at an escaped one. */
  lemma {:induction false} StringEnds(ps: seq<Piece>, k: string)
    requires AllValid(ps)
    ensures StringRest(SpellAll(ps) + ['"'] + k) == Scan(true, k)
  {
    if ps == [] {
      assert SpellAll(ps) + ['"'] + k == ['"'] + k;
    } else {
      var s := SpellAll(ps[1..]) + ['"'] + k;
      assert SpellAll(ps) + ['"'] + k == Spelling(ps[0]) + s;
      StringOverPiece(ps[0], s);
      StringEnds(ps[1..], k);
    }
  }

  // ------------------------------------------------------------------ values

  /** A value as it is spelled, up to the white space between tokens. */
  datatype Syntax =
    | NullLiteral
    | BoolLiteral(flag: bool)
    | NumberLiteral(text: string)
    | StringLiteral(pieces: seq<Piece>)
    | ArrayOf(items: seq<Syntax>)
    | ObjectOf(members: seq<Entry>)

  datatype Entry = Entry(name: seq<Piece>, value: Syntax)

  /** The values of the grammar; of numbers and of unescaped characters the reader takes more than sections 6 and 7 allow. */
  predicate Conforms(scan: string -> Option<real>, c: Syntax) {
    match c
    case NumberLiteral(t) => IsNumberText(t) && NumberSense(scan, t).Some?
    case StringLiteral(ps) => ValidString(ps)
    case ArrayOf(items) => forall i :: 0 <= i < |items| ==> Conforms(scan, items[i])
    case ObjectOf(es) => forall i :: 0 <= i < |es| ==> ValidString(es[i].name) && Conforms(scan, es[i].value)
    case _ => true
  }

  /** The value a text stands for; a repeated member name keeps its last value. */
  function Meaning(scan: string -> Option<real>, c: Syntax): Json
    requires Conforms(scan, c)
  {
    match c
    case NullLiteral => Null
    case BoolLiteral(b) => Bool(b)
    case NumberLiteral(t) => NumberSense(scan, t).value
    case StringLiteral(ps) => Str(SenseAll(ps))
    case ArrayOf(items) => Arr(Meanings(scan, items))
    case ObjectOf(es) => Obj(MembersOf(scan, es, []))
  }

  function Meanings(scan: string -> Option<real>, items: seq<Syntax>): seq<Json>
    requires forall i :: 0 <= i < |items| ==> Conforms(scan, items[i])
  {
    if items == [] then [] else [Meaning(scan, items[0])] + Meanings(scan, items[1..])
  }

  function MembersOf(scan: string -> Option<real>, es: seq<Entry>, ms: seq<Member>): seq<Member>
    requires forall i :: 0 <= i < |es| ==> ValidString(es[i].name) && Conforms(scan, es[i].value)
  {
    if es == [] then ms
    else MembersOf(scan, es[1..], Put(ms, SenseAll(es[0].name), Meaning(scan, es[0].value)))
  }

  const OPEN_ARRAY := Token(ArrayBegin, "[")
  const CLOSE_ARRAY := Token(ArrayEnd, "]")
  const OPEN_OBJECT := Token(ObjectBegin, "{")
  const CLOSE_OBJECT := Token(ObjectEnd, "}")
  const COMMA := Token(ArraySeparator, ",")
  const COLON := Token(MemberSeparator, ":")

  /** The tokens that spell a value. */
  function Tokens(c: Syntax): seq<Token> {
    match c
    case NullLiteral => [Token(NullWord, "null")]
    case BoolLiteral(b) => [if b then Token(True, "true") else Token(False, "false")]
    case NumberLiteral(t) => [Token(Number, t)]
    case StringLiteral(ps) => [Token(String, Quote(ps))]
    case ArrayOf(items) => [OPEN_ARRAY] + ItemTokens(items)
    case ObjectOf(es) => [OPEN_OBJECT] + EntryTokens(es)
  }

  /** The tokens after an opening bracket. */
  function ItemTokens(items: seq<Syntax>): seq<Token> {
    if items == [] then [CLOSE_ARRAY] else Tokens(items[0]) + MoreItems(items[1..])
  }

  function MoreItems(items: seq<Syntax>): seq<Token> {
    if items == [] then [CLOSE_ARRAY] else [COMMA] + (Tokens(items[0]) + MoreItems(items[1..]))
  }

  /** The tokens after an opening brace. */
  function EntryTokens(es: seq<Entry>): seq<Token> {
    if es == [] then [CLOSE_OBJECT] else OneEntry(es[0], MoreEntries(es[1..]))
  }

  function MoreEntries(es: seq<Entry>): seq<Token> {
    if es == [] then [CLOSE_OBJECT] else [COMMA] + OneEntry(es[0], MoreEntries(es[1..]))
  }

  function OneEntry(e: Entry, more: seq<Token>): seq<Token> {
    [Token(String, Quote(e.name))] + ([COLON] + (Tokens(e.value) + more))
  }
}
