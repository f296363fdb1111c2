/** Printing of integers into a fixed buffer and of strings with escapes. */
module JsonScalars {
  import opened JsonValue
  import opened JsonGrammar
  import opened JsonText
  import opened JsonWriting

  function PowerOfTen(d: nat): nat { if d == 0 then 1 else 10 * PowerOfTen(d - 1) }

  lemma {:induction false} DecimalLength(n: nat, d: nat)
    requires n < PowerOfTen(d) && d > 0
    ensures |Decimal(n)| <= d
  {
    if n >= 10 {
      DecimalLength(n / 10, d - 1);
    }
  }

  lemma {:induction false} AtMostTenDigits(n: nat)
    requires n <= MAX_UINT
    ensures |Decimal(n)| <= 10
  {
    assert PowerOfTen(5) == 100000;
    assert PowerOfTen(10) == 100000 * PowerOfTen(5);
    DecimalLength(n, 10);
  }

  /** Writes digits backwards, ending before `start`; the buffer holds a NUL after them. */
  method UIntToString(value: nat, buffer: array<char>, start: nat) returns (current: nat)
    requires value <= MAX_UINT && 11 <= start <= buffer.Length
    modifies buffer
    ensures current <= start - 2 && start - 11 <= current
    ensures buffer[current..start] == Decimal(value) + ['\0']
  {
    AtMostTenDigits(value);
    current := start - 1;
    buffer[current] := '\0';
    var v, more := value, true;
    while more
      invariant current <= start - 1 && buffer[start - 1] == '\0'
      invariant more ==> Decimal(value) == Decimal(v) + buffer[current..start - 1]
      invariant !more ==> Decimal(value) == buffer[current..start - 1]
      decreases more, v
    {
      ghost var done := buffer[current..start - 1];
      current := current - 1;
      buffer[current] := DigitOf(v % 10);
      assert buffer[current..start - 1] == [DigitOf(v % 10)] + done;
      v := v / 10;
      more := v != 0;
    }
    assert buffer[current..start] == buffer[current..start - 1] + ['\0'];
  }

  /** An integer, signed or not, in its 32-character buffer; it always fits. */
  method IntegerToString(n: int) returns (text: string)
    requires -0x8000_0000 <= n <= MAX_UINT
    ensures text == IntText(n)
  {
    var buffer := new char[32](_ => ' ');
    var current := UIntToString(if n < 0 then -n else n, buffer, 32);
    ghost var digits := buffer[current..32];
    if n < 0 {
      current := current - 1;
      buffer[current] := '-';
      assert buffer[current..32] == ['-'] + digits;
    }
    text := buffer[current..31];
    assert text == buffer[current..32][..31 - current];
  }

  lemma {:induction false} CStringStep(s: string, i: nat)
    requires i < |s|
    ensures CString(s[i..]) == if s[i] == '\0' then "" else [s[i]] + CString(s[i + 1..])
  {}

  /** All characters stand for themselves. */
  predicate AllPlain(s: string) { forall i :: 0 <= i < |s| ==> PieceOf(s[i]) == Plain(s[i]) }

  lemma {:induction false} PlainSpelling(s: string)
    requires AllPlain(s)
    ensures SpellAll(PiecesOf(s)) == s
  {
    if s != "" {
      PlainSpelling(s[1..]);
    }
  }

  /** Whether a C string holds a character that needs an escape. */
  method NeedsEscape(value: string) returns (found: bool)
    ensures found <==> !AllPlain(CString(value))
  {
    var i := 0;
    assert value[0..] == value;
    while i < |value| && value[i] != '\0'
      invariant i <= |value|
      invariant AllPlain(CString(value)) <==> AllPlain(CString(value[i..]))
    {
      CStringStep(value, i);
      var rest := CString(value[i + 1..]);
      assert forall j :: 0 <= j < |rest| ==> ([value[i]] + rest)[j + 1] == rest[j];
      var c := value[i];
      if c == '"' || c == '\\' || c as int == 8 || c as int == 12 || c == '\n' || c == '\r' || c == '\t' || IsControl(c) {
        assert ([c] + rest)[0] == c;
        return true;
      }
      assert forall j :: 0 <= j < |[c] + rest| ==> ([c] + rest)[j] == if j == 0 then c else rest[j - 1];
      i := i + 1;
    }
    assert CString(value[i..]) == "";
    return false;
  }

  /** What is written so far and the spelling of the rest make the whole. */
  predicate Spelled(s: string, i: nat, result: string, whole: string)
    requires i <= |s|
  {
    result + SpellAll(PiecesOf(CString(s[i..]))) == whole
  }

  lemma {:induction false} SpellStep(s: string, i: nat, result: string, whole: string)
    requires i < |s| && s[i] != '\0' && Spelled(s, i, result, whole)
    ensures Spelled(s, i + 1, result + Spelling(PieceOf(s[i])), whole)
  {}

  lemma {:induction false} SpellOver(s: string, i: nat, result: string, whole: string)
    requires i <= |s| && (i < |s| ==> s[i] == '\0') && Spelled(s, i, result, whole)
    ensures result == whole
  {
    assert CString(s[i..]) == "";
    assert result + "" == result;
  }

  /** One character of a quoted string. */
  method EscapeCharacter(c: char) returns (text: string)
    ensures text == Spelling(PieceOf(c))
  {
    match c
    case '"' => text := ['\\', '"'];
    case '\\' => text := ['\\', '\\'];
    case '\n' => text := ['\\', 'n'];
    case '\r' => text := ['\\', 'r'];
    case '\t' => text := ['\\', 't'];
    case _ =>
      if c as int == 8 {
        text := ['\\', 'b'];
      } else if c as int == 12 {
        text := ['\\', 'f'];
      } else if IsControl(c) {
        text := ['\\', 'u', '0', '0', UpperHex(c as int / 16), UpperHex(c as int % 16)];
      } else {
        text := [c];
      }
  }

  /** The characters one by one, up to the first NUL. */
  method EscapeAll(value: string, start: string, ghost whole: string) returns (text: string)
    requires Spelled(value, 0, start, whole)
    ensures text == whole
  {
    text := start;
    var i := 0;
    while i < |value| && value[i] != '\0'
      invariant i <= |value| && Spelled(value, i, text, whole)
    {
      SpellStep(value, i, text, whole);
      var piece := EscapeCharacter(value[i]);
      text := text + piece;
      i := i + 1;
    }
    SpellOver(value, i, text, whole);
  }

  /** A C string between quotes; without special characters it is copied. */
  method QuotedString(value: string) returns (text: string)
    ensures text == Quoted(value)
  {
    var special := NeedsEscape(value);
    if !special {
      PlainSpelling(CString(value));
      return ['"'] + CString(value) + ['"'];
    }
    assert value[0..] == value;
    text := EscapeAll(value, ['"'], ['"'] + SpellAll(PiecesOf(CString(value))));
    text := text + ['"'];
  }

  /** A scalar or an empty container in one piece. */
  method FlatToString(show: Show, v: Json) returns (text: string)
    requires Flat(v) && InRange(v)
    ensures text == FlatText(show, v)
  {
    match v
    case Null => text := "null";
    case Bool(b) => text := if b then "true" else "false";
    case Int(n) => text := IntegerToString(n);
    case UInt(n) => text := IntegerToString(n);
    case Real(x) => text := show(x);
    case Str(s) => text := QuotedString(s);
    case Arr(_) => text := "[]";
    case Obj(_) => text := "{}";
  }

  /** Integers are within 32 bits. */
  predicate InRange(v: Json) {
    match v
    case Int(n) => -0x8000_0000 <= n <= MAX_INT
    case UInt(n) => n <= MAX_UINT
    case Arr(items) => forall i :: 0 <= i < |items| ==> InRange(items[i])
    case Obj(ms) => forall i :: 0 <= i < |ms| ==> InRange(ms[i].value)
    case _ => true
  }
}
