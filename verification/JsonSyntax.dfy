/** What the JSON reader accepts, as functions on the text that is left. */
module JsonSyntax {
  import opened Optional
  import opened JsonValue

  // ----------------------------------------------------------------- tokens

  datatype Kind =
    | EndOfStream | ObjectBegin | ObjectEnd | ArrayBegin | ArrayEnd | String | Number
    | True | False | NullWord | ArraySeparator | MemberSeparator | Comment | Error

  datatype Token = Token(kind: Kind, text: string)

  datatype Lexed = Lexed(token: Token, rest: string)

  /** Whether something was read completely, and the text after it. */
  datatype Scan = Scan(ok: bool, rest: string)

  predicate IsSpace(c: char) { c == ' ' || c == '\t' || c == '\r' || c == '\n' }

  predicate IsDigit(c: char) { '0' <= c <= '9' }

  predicate IsNumberChar(c: char) { IsDigit(c) || c == '.' || c == 'e' || c == 'E' || c == '+' || c == '-' }

  function SkipSpaces(s: string): (r: string)
    ensures |r| <= |s|
  {
    if s != "" && IsSpace(s[0]) then SkipSpaces(s[1..]) else s
  }

  function NumberRest(s: string): (r: string)
    ensures |r| <= |s|
  {
    if s != "" && IsNumberChar(s[0]) then NumberRest(s[1..]) else s
  }

  function StringRest(s: string): (r: Scan)
    ensures |r.rest| <= |s| && (r.ok ==> |r.rest| < |s|)
  {
    if s == "" then Scan(false, "")
    else if s[0] == '\\' then (if |s| == 1 then Scan(false, "") else StringRest(s[2..]))
    else if s[0] == '"' then Scan(true, s[1..])
    else StringRest(s[1..])
  }

  function BlockCommentRest(s: string): (r: Scan)
    ensures |r.rest| <= |s|
  {
    if s == "" then Scan(false, "")
    else if s[0] == '*' && |s| > 1 && s[1] == '/' then Scan(true, s[2..])
    else BlockCommentRest(s[1..])
  }

  function LineCommentRest(s: string): (r: string)
    ensures |r| <= |s|
  {
    if s == "" then s
    else if s[0] == '\r' || s[0] == '\n' then s[1..]
    else LineCommentRest(s[1..])
  }

  function CommentRest(s: string): (r: Scan)
    ensures |r.rest| <= |s|
  {
    if s == "" then Scan(false, s)
    else if s[0] == '*' then BlockCommentRest(s[1..])
    else if s[0] == '/' then Scan(true, LineCommentRest(s[1..]))
    else Scan(false, s[1..])
  }

  function WordRest(word: string, s: string): (r: Scan)
    ensures |r.rest| <= |s|
  {
    if word <= s then Scan(true, s[|word|..]) else Scan(false, s)
  }

  /** The kind of token that a first character announces. */
  function FirstKind(c: char): Kind {
    match c
    case '{' => ObjectBegin
    case '}' => ObjectEnd
    case '[' => ArrayBegin
    case ']' => ArrayEnd
    case '"' => String
    case '/' => Comment
    case 't' => True
    case 'f' => False
    case 'n' => NullWord
    case ',' => ArraySeparator
    case ':' => MemberSeparator
    case '\0' => EndOfStream
    case _ => if IsDigit(c) || c == '-' then Number else Error
  }

  /** What belongs to a token of the kind after its first character. */
  function TokenRest(k: Kind, s: string): (r: Scan)
    ensures |r.rest| <= |s| && (k == String && r.ok ==> |r.rest| < |s|)
  {
    match k
    case String => StringRest(s)
    case Comment => CommentRest(s)
    case Number => Scan(true, NumberRest(s))
    case True => WordRest("rue", s)
    case False => WordRest("alse", s)
    case NullWord => WordRest("ull", s)
    case Error => Scan(false, s)
    case _ => Scan(true, s)
  }

  /** A token that is not the end has text, and a string token has its quotes. */
  predicate Shaped(t: Token) {
    (t.kind != EndOfStream ==> t.text != "") && (t.kind == String ==> |t.text| >= 2)
  }

  function TokenAt(t: string): (l: Lexed)
    ensures Shaped(l.token)
    ensures l.token.kind != EndOfStream ==> |l.rest| < |t|
    ensures |l.rest| <= |t|
  {
    if t == "" then Lexed(Token(EndOfStream, ""), "")
    else
      var k := FirstKind(t[0]);
      var r := TokenRest(k, t[1..]);
      Lexed(Token(if r.ok then k else Error, t[..|t| - |r.rest|]), r.rest)
  }

  function NextToken(s: string): (l: Lexed)
    ensures Shaped(l.token)
    ensures l.token.kind != EndOfStream ==> |l.rest| < |s|
    ensures |l.rest| <= |s|
  {
    TokenAt(SkipSpaces(s))
  }

  /** The next token that is not a comment. */
  function NextPlain(s: string): (l: Lexed)
    ensures Shaped(l.token)
    ensures l.token.kind != EndOfStream ==> |l.rest| < |s|
    ensures |l.rest| <= |s|
    ensures l.token.kind != Comment && (NextToken(s).token.kind == Comment ==> |l.rest| < |s|)
    decreases |s|
  {
    var l := NextToken(s);
    if l.token.kind == Comment then NextPlain(l.rest) else l
  }

  /** Skips tokens up to one of the kind, or the end. */
  function Recover(k: Kind, s: string): (r: string)
    ensures |r| <= |s|
    decreases |s|
  {
    var l := NextToken(s);
    if l.token.kind == k || l.token.kind == EndOfStream then l.rest else Recover(k, l.rest)
  }

  // ---------------------------------------------------------------- numbers

  /** Whether the number is left to the conversion of doubles: a point, an exponent or an inner sign. */
  predicate LooksReal(s: string) { exists i :: 0 <= i < |s| && MarksReal(s, i) }

  predicate MarksReal(s: string, i: nat)
    requires i < |s|
  {
    s[i] == '.' || s[i] == 'e' || s[i] == 'E' || s[i] == '+' || (s[i] == '-' && i > 0)
  }

  const NEGATIVE_THRESHOLD := 0x8000_0000 / 10
  const POSITIVE_THRESHOLD := MAX_UINT / 10

  datatype Digits = Value(n: nat) | TooLarge | NotDigits

  function DigitValue(c: char): nat
    requires IsDigit(c)
  {
    c as int - '0' as int
  }

  /** Reads digits; gives up before the value could leave its range. */
  function ReadDigits(s: string, value: nat, threshold: nat): Digits {
    if s == "" then Value(value)
    else if !IsDigit(s[0]) then NotDigits
    else if value >= threshold then TooLarge
    else ReadDigits(s[1..], value * 10 + DigitValue(s[0]), threshold)
  }

  function DecodeReal(scan: string -> Option<real>, text: string): Option<Json> {
    match scan(text) case None => None case Some(x) => Some(Real(x))
  }

  function DecodeNumber(scan: string -> Option<real>, text: string): Option<Json>
    requires text != ""
  {
    if LooksReal(text) then DecodeReal(scan, text)
    else
      var negative := text[0] == '-';
      match ReadDigits(if negative then text[1..] else text, 0, if negative then NEGATIVE_THRESHOLD else POSITIVE_THRESHOLD)
      case NotDigits => None
      case TooLarge => DecodeReal(scan, text)
      case Value(n) => Some(if negative then Int(0 - n) else if n <= MAX_INT then Int(n) else UInt(n))
  }

  // ---------------------------------------------------------------- strings

  predicate IsHex(c: char) { IsDigit(c) || 'a' <= c <= 'f' || 'A' <= c <= 'F' }

  function HexDigit(c: char): (d: nat)
    requires IsHex(c)
    ensures d < 16
  {
    if IsDigit(c) then c as int - '0' as int
    else if 'a' <= c <= 'f' then c as int - 'a' as int + 10
    else c as int - 'A' as int + 10
  }

  /** The value of four hexadecimal digits at the start. */
  function HexUnit(s: string): (u: Option<nat>)
    ensures u.Some? ==> u.value < 0x1_0000 && |s| >= 4
  {
    if |s| < 4 || !IsHex(s[0]) || !IsHex(s[1]) || !IsHex(s[2]) || !IsHex(s[3]) then None
    else Some(((HexDigit(s[0]) * 16 + HexDigit(s[1])) * 16 + HexDigit(s[2])) * 16 + HexDigit(s[3]))
  }

  function Byte(n: nat): char
    requires n < 0x100
  {
    n as char
  }

  /** A code point as one to four bytes. */
  function Utf8(cp: nat): string {
    if cp <= 0x7F then [Byte(cp)]
    else if cp <= 0x7FF then [Byte(0xC0 + cp / 0x40 % 0x20), Byte(0x80 + cp % 0x40)]
    else if cp <= 0xFFFF then [Byte(0xE0 + cp / 0x1000 % 0x10), Byte(0x80 + cp / 0x40 % 0x40), Byte(0x80 + cp % 0x40)]
    else if cp <= 0x10_FFFF then
      [Byte(0xF0 + cp / 0x4_0000 % 8), Byte(0x80 + cp / 0x1000 % 0x40), Byte(0x80 + cp / 0x40 % 0x40), Byte(0x80 + cp % 0x40)]
    else ""
  }

  /** The code point after a backslash and `u`, and how many characters spell it. */
  datatype CodePoint = CodePoint(cp: nat, length: nat)

  /** Two surrogates as one code point, from the low ten bits of each. */
  function Joined(high: nat, low: nat): nat { 0x1_0000 + high % 0x400 * 0x400 + low % 0x400 }

  function ReadCodePoint(s: string): (r: Option<CodePoint>)
    ensures r.Some? ==> r.value.length <= |s|
  {
    match HexUnit(s)
    case None => None
    case Some(u) => if u < 0xD800 || u > 0xDBFF then Some(CodePoint(u, 4)) else SecondHalf(s, u)
  }

  /** After a high surrogate, another escape must spell the low one. */
  function SecondHalf(s: string, u: nat): (r: Option<CodePoint>)
    ensures r.Some? ==> r.value.length <= |s|
  {
    if |s| < 10 || s[4] != '\\' || s[5] != 'u' then None
    else match HexUnit(s[6..]) case None => None case Some(low) => Some(CodePoint(Joined(u, low), 10))
  }

  function ShortEscape(c: char): Option<char> {
    match c
    case '"' => Some('"')
    case '/' => Some('/')
    case '\\' => Some('\\')
    case 'b' => Some(8 as char)
    case 'f' => Some(12 as char)
    case 'n' => Some('\n')
    case 'r' => Some('\r')
    case 't' => Some('\t')
    case _ => None
  }

  function Prepend(p: string, r: Option<string>): Option<string> {
    match r case None => None case Some(s) => Some(p + s)
  }

  /** The characters that a text between quotes stands for. */
  function Decode(s: string): Option<string> {
    if s == "" || s[0] == '"' then Some("")
    else if s[0] != '\\' then Prepend([s[0]], Decode(s[1..]))
    else if |s| == 1 then None
    else if s[1] == 'u' then
      match ReadCodePoint(s[2..])
      case None => None
      case Some(r) => Prepend(Utf8(r.cp), Decode(s[2 + r.length..]))
    else
      match ShortEscape(s[1])
      case None => None
      case Some(c) => Prepend([c], Decode(s[2..]))
  }

  /** A string token, quotes included. */
  function DecodeString(text: string): Option<string>
    requires |text| >= 2
  {
    Decode(text[1..|text| - 1])
  }

  // ----------------------------------------------------------------- values

  datatype Options = Options(comments: bool, strictRoot: bool, scan: string -> Option<real>)

  datatype Parsed = Success(value: Json, rest: string) | Failure(rest: string)

  function NextSignificant(o: Options, s: string): (l: Lexed)
    ensures Shaped(l.token)
    ensures l.token.kind != EndOfStream ==> |l.rest| < |s|
    ensures |l.rest| <= |s|
  {
    if o.comments then NextPlain(s) else NextToken(s)
  }

  /** A value in one token. */
  function Scalar(o: Options, t: Token): (v: Option<Json>)
    requires Shaped(t)
    ensures v.Some? ==> t.kind != EndOfStream
  {
    match t.kind
    case Number => DecodeNumber(o.scan, t.text)
    case String => (match DecodeString(t.text) case None => None case Some(text) => Some(Str(text)))
    case True => Some(Bool(true))
    case False => Some(Bool(false))
    case NullWord => Some(Null)
    case _ => None
  }

  function Leaf(v: Option<Json>, rest: string): Parsed {
    match v case None => Failure(rest) case Some(j) => Success(j, rest)
  }

  function ParseValue(o: Options, s: string): (p: Parsed)
    ensures |p.rest| <= |s| && (p.Success? ==> |p.rest| < |s|)
    decreases |s|, 1
  {
    var l := NextSignificant(o, s);
    match l.token.kind
    case ObjectBegin => ParseMembers(o, l.rest, "", [])
    case ArrayBegin => ParseArray(o, l.rest)
    case _ => Leaf(Scalar(o, l.token), l.rest)
  }

  /** The members after an opening brace or a comma; `name` is the last name read. */
  function ParseMembers(o: Options, s: string, name: string, ms: seq<Member>): (p: Parsed)
    ensures |p.rest| <= |s|
    decreases |s|, 0
  {
    var l := NextPlain(s);
    if l.token.kind == ObjectEnd && name == "" then Success(Obj(ms), l.rest)
    else if l.token.kind != String then Failure(Recover(ObjectEnd, l.rest))
    else
      match DecodeString(l.token.text)
      case None => Failure(Recover(ObjectEnd, l.rest))
      case Some(key) => ParseNamed(o, l.rest, key, ms)
  }

  /** The colon and the value after a member's name. */
  function ParseNamed(o: Options, s: string, key: string, ms: seq<Member>): (p: Parsed)
    ensures |p.rest| <= |s|
    decreases |s|, 0
  {
    var colon := NextToken(s);
    if colon.token.kind != MemberSeparator then Failure(Recover(ObjectEnd, colon.rest))
    else
      match ParseValue(o, colon.rest)
      case Failure(r) => Failure(Recover(ObjectEnd, r))
      case Success(v, r) => AfterMember(o, r, key, Put(ms, key, v))
  }

  /** What may follow a member: a comma, a closing brace, or comments and then any token. */
  function AfterMember(o: Options, s: string, name: string, ms: seq<Member>): (p: Parsed)
    ensures |p.rest| <= |s|
    decreases |s|, 1
  {
    var first := NextToken(s);
    if first.token.kind != ObjectEnd && first.token.kind != ArraySeparator && first.token.kind != Comment then
      Failure(Recover(ObjectEnd, first.rest))
    else
      var last := NextPlain(s);
      if last.token.kind == ObjectEnd then Success(Obj(ms), last.rest)
      else ParseMembers(o, last.rest, name, ms)
  }

  function ParseArray(o: Options, s: string): (p: Parsed)
    ensures |p.rest| <= |s|
    decreases |s|, 4
  {
    var l := NextToken(s);
    if l.token.kind == ArrayEnd then Success(Arr([]), l.rest) else ParseItems(o, s, [])
  }

  /** The items after an opening bracket or a separator; any token but a closing bracket separates. */
  function ParseItems(o: Options, s: string, items: seq<Json>): (p: Parsed)
    ensures |p.rest| <= |s|
    decreases |s|, 2
  {
    match ParseValue(o, s)
    case Failure(r) => Failure(Recover(ArrayEnd, r))
    case Success(v, r) => AfterItem(o, r, items + [v])
  }

  function AfterItem(o: Options, s: string, items: seq<Json>): (p: Parsed)
    ensures |p.rest| <= |s|
    decreases |s|, 3
  {
    var l := NextPlain(s);
    if l.token.kind == ArrayEnd then Success(Arr(items), l.rest) else ParseItems(o, l.rest, items)
  }

  /** A whole document: one value; what follows it is not looked at. */
  function ParseDocument(o: Options, doc: string): Option<Json> {
    match ParseValue(o, doc)
    case Failure(r) => None
    case Success(v, r) => if o.strictRoot && !v.Arr? && !v.Obj? then None else Some(v)
  }
}
