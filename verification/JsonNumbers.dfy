/** The numbers of JSON texts: how they are spelled, what they stand for, and how the reader decodes them. */
module JsonNumbers {
  import opened Optional
  import opened JsonValue
  import opened JsonSyntax

  predicate AllDigits(s: string) { forall i :: 0 <= i < |s| ==> IsDigit(s[i]) }

  /** The number that digits after `value` stand for. */
  function Folded(value: nat, s: string): nat
    requires AllDigits(s)
    decreases |s|
  {
    if s == "" then value else Folded(value * 10 + DigitValue(s[0]), s[1..])
  }

  lemma {:induction false} FoldedGrows(value: nat, s: string)
    requires AllDigits(s)
    ensures Folded(value, s) >= value && (s != "" ==> Folded(value, s) / 10 >= value)
    decreases |s|
  {
    if s != "" {
      FoldedGrows(value * 10 + DigitValue(s[0]), s[1..]);
    }
  }

  /** Digits are read exactly when the number without its last digit is under the threshold. */
  lemma {:induction false} ReadDigitsExact(s: string, value: nat, threshold: nat)
    requires AllDigits(s)
    ensures ReadDigits(s, value, threshold) ==
            if s == "" || Folded(value, s) / 10 < threshold then Value(Folded(value, s)) else TooLarge
  {
    FoldedGrows(value, s);
    if s != "" && value < threshold {
      var next := value * 10 + DigitValue(s[0]);
      ReadDigitsExact(s[1..], next, threshold);
      if s[1..] == "" {
        assert Folded(next, s[1..]) == next;
      }
    }
  }

  lemma {:induction false} DigitsAreNotReal(s: string)
    requires AllDigits(s)
    ensures !LooksReal(s) && !LooksReal(['-'] + s)
  {}

  /** What a whole number is read as. */
  function Normal(n: int): Json { if n <= MAX_INT then Int(n) else UInt(n) }

  const LOWEST_EXACT := -2147483640
  const HIGHEST_EXACT := 4294967290

  /** Digits are read as the number they stand for, or passed to the conversion of doubles, at exactly this bound. */
  lemma {:induction false} UnsignedExact(scan: string -> Option<real>, s: string)
    requires s != "" && AllDigits(s)
    ensures DecodeNumber(scan, s) ==
            if Folded(0, s) < HIGHEST_EXACT then Some(Normal(Folded(0, s))) else DecodeReal(scan, s)
  {
    DigitsAreNotReal(s);
    ReadDigitsExact(s, 0, POSITIVE_THRESHOLD);
  }

  lemma {:induction false} NegativeExact(scan: string -> Option<real>, s: string)
    requires AllDigits(s)
    ensures DecodeNumber(scan, ['-'] + s) ==
            if 0 - Folded(0, s) > LOWEST_EXACT then Some(Int(0 - Folded(0, s))) else DecodeReal(scan, ['-'] + s)
  {
    DigitsAreNotReal(s);
    assert (['-'] + s)[1..] == s;
    ReadDigitsExact(s, 0, NEGATIVE_THRESHOLD);
  }

  /** Reading digits never leaves 32 bits: what is accepted is below ten times the threshold. */
  lemma {:induction false} NeverWraps(s: string, value: nat, threshold: nat)
    requires value < 10 * threshold
    ensures ReadDigits(s, value, threshold).Value? ==> ReadDigits(s, value, threshold).n < 10 * threshold
  {
    if s != "" && IsDigit(s[0]) && value < threshold {
      NeverWraps(s[1..], value * 10 + DigitValue(s[0]), threshold);
    }
  }

  // ------------------------------------------------------- what a text stands for

  /** What the reader takes for a number: a digit or a minus sign, and then anything that occurs in numbers. */
  predicate IsNumberText(t: string) {
    t != "" && (IsDigit(t[0]) || t[0] == '-') && forall i :: 0 <= i < |t| ==> IsNumberChar(t[i])
  }

  function Magnitude(t: string): string
    requires t != ""
  {
    if t[0] == '-' then t[1..] else t
  }

  lemma {:induction false} WholeIsDigits(t: string)
    requires IsNumberText(t) && !LooksReal(t)
    ensures AllDigits(Magnitude(t))
  {
    forall i | 0 <= i < |t| && (i > 0 || t[0] != '-') ensures IsDigit(t[i]) {
      assert IsNumberChar(t[i]) && !MarksReal(t, i);
    }
  }

  /** The whole number that a sign and digits stand for; no digits at all stand for zero. */
  function WholeValue(t: string): int
    requires IsNumberText(t) && !LooksReal(t)
  {
    WholeIsDigits(t);
    if t[0] == '-' then 0 - Folded(0, Magnitude(t)) else Folded(0, t)
  }

  /** What a number stands for: its whole value between the two bounds, and otherwise a double. */
  function NumberSense(scan: string -> Option<real>, t: string): Option<Json>
    requires IsNumberText(t)
  {
    if LooksReal(t) then DecodeReal(scan, t)
    else if LOWEST_EXACT < WholeValue(t) < HIGHEST_EXACT then Some(Normal(WholeValue(t)))
    else DecodeReal(scan, t)
  }

  /** The decoder's digit loop with its thresholds gives every number what it stands for. */
  lemma {:induction false} DecodesToSense(scan: string -> Option<real>, t: string)
    requires IsNumberText(t)
    ensures DecodeNumber(scan, t) == NumberSense(scan, t)
  {
    if !LooksReal(t) {
      WholeIsDigits(t);
      if t[0] == '-' {
        assert t == ['-'] + Magnitude(t);
        NegativeExact(scan, Magnitude(t));
      } else {
        UnsignedExact(scan, t);
      }
    }
  }

  // ------------------------------------------------- section 6 of RFC 8259

  /** A number by its parts: the fraction with its point and the exponent with its letter, where there are any. */
  datatype Numeral = Numeral(negative: bool, whole: string, fraction: string, exponent: string)

  predicate ValidExponent(e: string) {
    && |e| >= 2 && (e[0] == 'e' || e[0] == 'E')
    && (AllDigits(e[1..]) || ((e[1] == '+' || e[1] == '-') && |e| > 2 && AllDigits(e[2..])))
  }

  predicate ValidNumeral(n: Numeral) {
    && n.whole != "" && AllDigits(n.whole) && (n.whole[0] == '0' ==> |n.whole| == 1)
    && (n.fraction != "" ==> |n.fraction| > 1 && n.fraction[0] == '.' && AllDigits(n.fraction[1..]))
    && (n.exponent != "" ==> ValidExponent(n.exponent))
  }

  function Unsigned(n: Numeral): string { n.whole + (n.fraction + n.exponent) }

  function NumeralText(n: Numeral): string { if n.negative then ['-'] + Unsigned(n) else Unsigned(n) }

  lemma {:induction false} PartsAreNumberChars(n: Numeral)
    requires ValidNumeral(n)
    ensures forall i :: 0 <= i < |n.fraction| ==> IsNumberChar(n.fraction[i])
    ensures forall i :: 0 <= i < |n.exponent| ==> IsNumberChar(n.exponent[i])
  {
    forall i | 0 <= i < |n.fraction| ensures IsNumberChar(n.fraction[i]) {
      assert i > 0 ==> n.fraction[i] == n.fraction[1..][i - 1];
    }
    forall i | 0 <= i < |n.exponent| ensures IsNumberChar(n.exponent[i]) {
      assert i > 0 ==> n.exponent[i] == n.exponent[1..][i - 1];
      assert i > 1 ==> n.exponent[i] == n.exponent[2..][i - 2];
    }
  }

  /** A point or an exponent marks the number as a double. */
  lemma {:induction false} PartsMarkReal(n: Numeral)
    requires ValidNumeral(n) && (n.fraction != "" || n.exponent != "")
    ensures LooksReal(NumeralText(n))
  {
    var i := |n.whole| + if n.negative then 1 else 0;
    assert NumeralText(n)[i] == (n.fraction + n.exponent)[0];
    assert MarksReal(NumeralText(n), i);
  }

  /** Every number of the grammar is one for the reader, and without fraction and exponent it means its digits. */
  lemma {:induction false} NumeralMeans(scan: string -> Option<real>, n: Numeral)
    requires ValidNumeral(n)
    ensures var t := NumeralText(n);
            && IsNumberText(t) && (LooksReal(t) <==> n.fraction != "" || n.exponent != "")
            && (!LooksReal(t) ==> WholeValue(t) == if n.negative then 0 - Folded(0, n.whole) else Folded(0, n.whole))
  {
    PartsAreNumberChars(n);
    if n.fraction == "" && n.exponent == "" {
      assert Unsigned(n) == n.whole;
      DigitsAreNotReal(n.whole);
      assert (['-'] + n.whole)[1..] == n.whole;
    } else {
      PartsMarkReal(n);
    }
  }
}
