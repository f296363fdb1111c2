/** The texts the JSON writers print for numbers and strings, and how they are read back. */
module JsonText {
  import opened Optional
  import opened JsonSyntax
  import opened JsonNumbers
  import opened JsonGrammar

  // ---------------------------------------------------------------- integers

  function DigitOf(d: nat): char
    requires d < 10
  {
    ('0' as int + d) as char
  }

  function Decimal(n: nat): (s: string)
    ensures s != "" && AllDigits(s)
  {
    if n < 10 then [DigitOf(n)] else Decimal(n / 10) + [DigitOf(n % 10)]
  }

  function IntText(n: int): string {
    if n < 0 then ['-'] + Decimal(-n) else Decimal(n)
  }

  /** A number of more than one digit does not begin with a zero. */
  lemma {:induction false} NoLeadingZero(n: nat)
    ensures Decimal(n)[0] == '0' <==> n == 0
  {
    if n >= 10 {
      NoLeadingZero(n / 10);
    }
  }

  lemma {:induction false} FoldedLast(value: nat, s: string, c: char)
    requires AllDigits(s) && IsDigit(c)
    ensures Folded(value, s + [c]) == Folded(value, s) * 10 + DigitValue(c)
    decreases |s|
  {
    if s == "" {
      assert (s + [c])[1..] == "";
    } else {
      assert (s + [c])[1..] == s[1..] + [c];
      FoldedLast(value * 10 + DigitValue(s[0]), s[1..], c);
    }
  }

  lemma {:induction false} DecimalFolds(n: nat)
    ensures Folded(0, Decimal(n)) == n
  {
    if n < 10 {
      assert Decimal(n)[1..] == "";
    } else {
      DecimalFolds(n / 10);
      FoldedLast(0, Decimal(n / 10), DigitOf(n % 10));
    }
  }

  /** A printed integer is read back exactly inside the two bounds; outside them its text is read as a double. */
  lemma {:induction false} IntegerExact(scan: string -> Option<real>, n: int)
    ensures DecodeNumber(scan, IntText(n)) ==
            if LOWEST_EXACT < n < HIGHEST_EXACT then Some(Normal(n)) else DecodeReal(scan, IntText(n))
  {
    if n < 0 {
      DecimalFolds(-n);
      NegativeExact(scan, Decimal(-n));
    } else {
      DecimalFolds(n);
      UnsignedExact(scan, Decimal(n));
    }
  }

  lemma {:induction false} IntTextIsNumber(n: int)
    ensures IsNumberText(IntText(n))
  {}

  // ----------------------------------------------------------------- strings

  function UpperHex(d: nat): (c: char)
    requires d < 16
    ensures IsHex(c) && HexDigit(c) == d
  {
    if d < 10 then ('0' as int + d) as char else ('A' as int + (d - 10)) as char
  }

  predicate IsControl(c: char) { 0 < c as int <= 0x1F }

  /** How the writers spell a character. */
  function PieceOf(c: char): (p: Piece)
    ensures ValidPiece(p) && !IsHigh(p)
  {
    match c
    case '"' => Short('"')
    case '\\' => Short('\\')
    case '\n' => Short('n')
    case '\r' => Short('r')
    case '\t' => Short('t')
    case _ =>
      if c as int == 8 then Short('b')
      else if c as int == 12 then Short('f')
      else if IsControl(c) then Unit(['0', '0', UpperHex(c as int / 16), UpperHex(c as int % 16)])
      else Plain(c)
  }

  /** A character is written as itself unless section 7 of RFC 8259 requires an escape, and is escaped as shortly as it allows. */
  lemma {:induction false} EscapedIff(c: char)
    requires c != '\0'
    ensures Spelling(PieceOf(c)) == [c] <==> c as int >= 0x20 && c as int != 0x22 && c as int != 0x5C
    ensures |Spelling(PieceOf(c))| == 2 <==> c as int in {0x08, 0x09, 0x0A, 0x0C, 0x0D, 0x22, 0x5C}
    ensures |Spelling(PieceOf(c))| in {1, 2, 6}
  {}

  lemma {:induction false} SenseOfPiece(c: char)
    ensures Sense(PieceOf(c)) == [c]
  {}

  function PiecesOf(s: string): (ps: seq<Piece>)
    ensures ValidString(ps)
  {
    if s == "" then [] else [PieceOf(s[0])] + PiecesOf(s[1..])
  }

  lemma {:induction false} SenseOfPieces(s: string)
    ensures SenseAll(PiecesOf(s)) == s
  {
    if s != "" {
      SenseOfPiece(s[0]);
      SenseOfPieces(s[1..]);
    }
  }

  /** A string as a C string: up to its first NUL. */
  function CString(s: string): string {
    if s == "" || s[0] == '\0' then "" else [s[0]] + CString(s[1..])
  }

  predicate NulFree(s: string) { '\0' !in s }

  lemma {:induction false} CStringWhole(s: string)
    ensures CString(s) == s <==> NulFree(s)
  {
    if s != "" {
      CStringWhole(s[1..]);
      assert s == [s[0]] + s[1..];
    }
  }

  function Quoted(s: string): string { Quote(PiecesOf(CString(s))) }

  /** A quoted string is read back as it was, exactly when it holds no NUL. */
  lemma {:induction false} QuotedReadsBack(s: string)
    ensures DecodeString(Quoted(s)) == Some(CString(s))
    ensures DecodeString(Quoted(s)) == Some(s) <==> NulFree(s)
  {
    DecodeQuoted(PiecesOf(CString(s)));
    SenseOfPieces(CString(s));
    CStringWhole(s);
  }

  // -------------------------------------------------------- UTF-8, RFC 3629

  /** The code point that one to four bytes stand for. */
  function CodePointOf(b: string): nat
    requires |b| > 0 && forall i :: 0 <= i < |b| ==> b[i] as int < 0x100
  {
    var lead := b[0] as int;
    if |b| == 1 then lead
    else if |b| == 2 then lead % 0x20 * 0x40 + b[1] as int % 0x40
    else if |b| == 3 then (lead % 0x10 * 0x40 + b[1] as int % 0x40) * 0x40 + b[2] as int % 0x40
    else ((lead % 8 * 0x40 + b[1] as int % 0x40) * 0x40 + b[2] as int % 0x40) * 0x40 + b[3] as int % 0x40
  }

  predicate IsContinuation(c: char) { 0x80 <= c as int < 0xC0 }

  /** The leading byte tells the length, the others are continuation bytes. */
  predicate WellFormedUtf8(b: string) {
    && 0 < |b| <= 4
    && (forall i :: 0 <= i < |b| ==> b[i] as int < 0x100)
    && (forall i :: 1 <= i < |b| ==> IsContinuation(b[i]))
    && |b| == (if b[0] as int < 0x80 then 1 else if 0xC0 <= b[0] as int < 0xE0 then 2
               else if 0xE0 <= b[0] as int < 0xF0 then 3 else if 0xF0 <= b[0] as int < 0xF8 then 4 else 0)
  }

  lemma {:induction false} TwoBytes(cp: nat)
    requires 0x7F < cp <= 0x7FF
    ensures WellFormedUtf8(Utf8(cp)) && CodePointOf(Utf8(cp)) == cp
  {}

  /** A number by its digits to the base of 64. */
  lemma {:induction false} SixBits(cp: nat)
    ensures cp == cp / 0x40 * 0x40 + cp % 0x40
    ensures cp / 0x40 / 0x40 == cp / 0x1000 && cp / 0x1000 / 0x40 == cp / 0x4_0000
  {}

  lemma {:induction false} ThreeBytes(cp: nat)
    requires 0x7FF < cp <= 0xFFFF
    ensures WellFormedUtf8(Utf8(cp)) && CodePointOf(Utf8(cp)) == cp
  {
    SixBits(cp);
    SixBits(cp / 0x40);
    BytesBack(cp / 0x1000, cp / 0x40 % 0x40, cp % 0x40, 0);
  }

  /** The bits a byte carries come back from it. */
  lemma {:induction false} BytesBack(a: nat, b: nat, c: nat, d: nat)
    requires a < 0x10 && b < 0x40 && c < 0x40 && d < 0x40
    ensures (0xE0 + a % 0x10) % 0x10 == a && (a < 8 ==> (0xF0 + a % 8) % 8 == a)
    ensures (0x80 + b) % 0x40 == b && (0x80 + c) % 0x40 == c && (0x80 + d) % 0x40 == d
  {}

  lemma {:induction false} FourDigits(cp: nat)
    ensures cp == ((cp / 0x4_0000 * 0x40 + cp / 0x1000 % 0x40) * 0x40 + cp / 0x40 % 0x40) * 0x40 + cp % 0x40
  {
    SixBits(cp);
    SixBits(cp / 0x40);
    SixBits(cp / 0x1000);
  }

  lemma {:induction false} FourBytes(cp: nat)
    requires 0xFFFF < cp <= 0x10_FFFF
    ensures WellFormedUtf8(Utf8(cp)) && CodePointOf(Utf8(cp)) == cp
  {
    FourDigits(cp);
    BytesBack(cp / 0x4_0000, cp / 0x1000 % 0x40, cp / 0x40 % 0x40, cp % 0x40);
  }

  /** A code point is one to four bytes of the right form, and they give it back. */
  lemma {:induction false} Utf8Inverse(cp: nat)
    requires cp <= 0x10_FFFF
    ensures WellFormedUtf8(Utf8(cp)) && CodePointOf(Utf8(cp)) == cp
  {
    if cp <= 0x7F {
    } else if cp <= 0x7FF {
      TwoBytes(cp);
    } else if cp <= 0xFFFF {
      ThreeBytes(cp);
    } else {
      FourBytes(cp);
    }
  }
}
