/** Words of 32 bits: the machine's bitwise operators and shifts, and what they are in plain arithmetic. */
module Md5Bits {
  import opened Arith
  import opened Md5Rotation

  /** Unsigned 32-bit integers; the bitwise operations go through bit vectors. */
  type Word = x: int | 0 <= x < 0x1_0000_0000

  function Bits(x: Word): bv32 { x as bv32 }
  function Value(b: bv32): Word { b as int }

  /** A shift amount as the machine holds it. */
  function Amount(s: nat): (k: bv6)
    requires s < 32
    ensures k < 32
  {
    s as bv6
  }

  function RotateLeft(w: Word, s: nat): Word {
    Value(Rotated(Bits(w), Amount(s % 32)))
  }

  // ------------------------------------------------------------------ digits

  function Pow2(n: nat): (p: nat)
    ensures p > 0
  {
    if n == 0 then 1 else 2 * Pow2(n - 1)
  }

  /** The binary digit of `v` at position `j`. */
  function Digit(v: nat, j: nat): nat { v / Pow2(j) % 2 }

  lemma {:induction false} DivDiv(v: nat, d: nat)
    requires d > 0
    ensures v / (2 * d) == v / 2 / d
  {
    var q := v / 2 / d;
    DivBounds(v / 2, d);
    DivUnique(v, 2 * d, q);
  }

  lemma {:induction false} DigitStep(v: nat, j: nat)
    ensures Digit(v, j + 1) == Digit(v / 2, j) && Digit(v, 0) == v % 2
  {
    DivDiv(v, Pow2(j));
  }

  /** Numbers with the same digits are the same. */
  lemma {:induction false} SameDigits(v: nat, w: nat, n: nat)
    requires v < Pow2(n) && w < Pow2(n) && forall j :: 0 <= j < n ==> Digit(v, j) == Digit(w, j)
    ensures v == w
  {
    if n > 0 {
      forall j | 0 <= j < n - 1 ensures Digit(v / 2, j) == Digit(w / 2, j) {
        DigitStep(v, j);
        DigitStep(w, j);
        assert Digit(v, j + 1) == Digit(w, j + 1);
      }
      SameDigits(v / 2, w / 2, n - 1);
      DigitStep(v, 0);
      DigitStep(w, 0);
      assert Digit(v, 0) == Digit(w, 0);
    }
  }

  // ------------------------------------------------------ bits against digits

  /** The bit vector with one bit set. */
  function Mask(j: nat): bv32
    requires j < 32
  {
    if j == 0 then 1 else Mask(j - 1) << 1
  }

  predicate Place0(m: bv32, p: nat) {
    (m == 0x1 && p == 0x1) || (m == 0x2 && p == 0x2) ||
    (m == 0x4 && p == 0x4) || (m == 0x8 && p == 0x8) ||
    (m == 0x10 && p == 0x10) || (m == 0x20 && p == 0x20) ||
    (m == 0x40 && p == 0x40) || (m == 0x80 && p == 0x80)
  }

  predicate Place1(m: bv32, p: nat) {
    (m == 0x100 && p == 0x100) || (m == 0x200 && p == 0x200) ||
    (m == 0x400 && p == 0x400) || (m == 0x800 && p == 0x800) ||
    (m == 0x1000 && p == 0x1000) || (m == 0x2000 && p == 0x2000) ||
    (m == 0x4000 && p == 0x4000) || (m == 0x8000 && p == 0x8000)
  }

  predicate Place2(m: bv32, p: nat) {
    (m == 0x10000 && p == 0x10000) || (m == 0x20000 && p == 0x20000) ||
    (m == 0x40000 && p == 0x40000) || (m == 0x80000 && p == 0x80000) ||
    (m == 0x100000 && p == 0x100000) || (m == 0x200000 && p == 0x200000) ||
    (m == 0x400000 && p == 0x400000) || (m == 0x800000 && p == 0x800000)
  }

  predicate Place3(m: bv32, p: nat) {
    (m == 0x1000000 && p == 0x1000000) || (m == 0x2000000 && p == 0x2000000) ||
    (m == 0x4000000 && p == 0x4000000) || (m == 0x8000000 && p == 0x8000000) ||
    (m == 0x10000000 && p == 0x10000000) || (m == 0x20000000 && p == 0x20000000) ||
    (m == 0x40000000 && p == 0x40000000) || (m == 0x80000000 && p == 0x80000000)
  }

  /** The same power of two, once as a bit and once as a number. */
  predicate Place(m: bv32, p: nat) { Place0(m, p) || Place1(m, p) || Place2(m, p) || Place3(m, p) }

  lemma {:induction false} NextPlace0(m: bv32, p: nat)
    requires Place0(m, p)
    ensures Place0(m << 1, 2 * p) || Place1(m << 1, 2 * p)
  {}

  lemma {:induction false} BitAt0(w: Word, m: bv32, p: nat)
    requires Place0(m, p)
    ensures Bits(w) & m != 0 <==> w / p % 2 == 1
  {}

  lemma {:induction false} NextPlace1(m: bv32, p: nat)
    requires Place1(m, p)
    ensures Place1(m << 1, 2 * p) || Place2(m << 1, 2 * p)
  {}

  lemma {:induction false} BitAt1(w: Word, m: bv32, p: nat)
    requires Place1(m, p)
    ensures Bits(w) & m != 0 <==> w / p % 2 == 1
  {}

  lemma {:induction false} NextPlace2(m: bv32, p: nat)
    requires Place2(m, p)
    ensures Place2(m << 1, 2 * p) || Place3(m << 1, 2 * p)
  {}

  lemma {:induction false} BitAt2(w: Word, m: bv32, p: nat)
    requires Place2(m, p)
    ensures Bits(w) & m != 0 <==> w / p % 2 == 1
  {}

  lemma {:induction false} NextPlace3(m: bv32, p: nat)
    requires Place3(m, p) && p < 0x8000_0000
    ensures Place3(m << 1, 2 * p)
  {}

  lemma {:induction false} BitAt3(w: Word, m: bv32, p: nat)
    requires Place3(m, p)
    ensures Bits(w) & m != 0 <==> w / p % 2 == 1
  {}

  lemma {:induction false} NextPlace(m: bv32, p: nat)
    requires Place(m, p) && p < 0x8000_0000
    ensures Place(m << 1, 2 * p)
  {
    if Place0(m, p) {
      NextPlace0(m, p);
    } else if Place1(m, p) {
      NextPlace1(m, p);
    } else if Place2(m, p) {
      NextPlace2(m, p);
    } else {
      NextPlace3(m, p);
    }
  }

  lemma {:induction false} BitAt(w: Word, m: bv32, p: nat)
    requires Place(m, p)
    ensures Bits(w) & m != 0 <==> w / p % 2 == 1
  {
    if Place0(m, p) {
      BitAt0(w, m, p);
    } else if Place1(m, p) {
      BitAt1(w, m, p);
    } else if Place2(m, p) {
      BitAt2(w, m, p);
    } else {
      BitAt3(w, m, p);
    }
  }

  lemma {:induction false} PowersAdd(a: nat, b: nat)
    ensures Pow2(a + b) == Pow2(a) * Pow2(b)
  {
    if a > 0 {
      PowersAdd(a - 1, b);
      assert Pow2(a + b) == 2 * Pow2(a - 1 + b);
    }
  }

  lemma {:induction false} PowersOfWords()
    ensures Pow2(31) == 0x8000_0000 && Pow2(32) == 0x1_0000_0000
  {
    assert Pow2(4) == 16;
    PowersAdd(4, 4);
    PowersAdd(8, 8);
    PowersAdd(16, 15);
    PowersAdd(8, 7);
    PowersAdd(4, 3);
  }

  lemma {:induction false} PowersBelow(j: nat, n: nat)
    requires j < n
    ensures 2 * Pow2(j) <= Pow2(n)
  {
    if j + 1 < n {
      PowersBelow(j, n - 1);
    }
  }

  lemma {:induction false} SmallPower(j: nat)
    requires j < 31
    ensures Pow2(j) < 0x8000_0000
  {
    PowersOfWords();
    PowersBelow(j, 31);
  }

  lemma {:induction false} Places(j: nat)
    requires j < 32
    ensures Place(Mask(j), Pow2(j))
  {
    if j > 0 {
      Places(j - 1);
      SmallPower(j - 1);
      NextPlace(Mask(j - 1), Pow2(j - 1));
    }
  }

  /** The bits of `b` are the digits of `w`. */
  ghost predicate Linked(b: bv32, w: Word) {
    forall j :: 0 <= j < 32 ==> LinkedAt(b, w, j)
  }

  predicate LinkedAt(b: bv32, w: Word, j: nat)
    requires j < 32
  {
    Digit(w, j) == if b & Mask(j) != 0 then 1 else 0
  }

  lemma {:induction false} BitsAreLinked(w: Word)
    ensures Linked(Bits(w), w)
  {
    forall j | 0 <= j < 32 ensures LinkedAt(Bits(w), w, j) {
      Places(j);
      BitAt(w, Mask(j), Pow2(j));
    }
  }

  lemma {:induction false} BackAgain(b: bv32)
    ensures Bits(Value(b)) == b
  {}

  lemma {:induction false} ValueIsLinked(b: bv32)
    ensures Linked(b, Value(b))
  {
    BackAgain(b);
    BitsAreLinked(Value(b));
  }

  /** Only one word has these bits. */
  lemma {:induction false} LinkedOnce(b: bv32, v: Word, w: Word)
    requires Linked(b, v) && Linked(b, w)
    ensures v == w
  {
    PowersOfWords();
    forall j | 0 <= j < 32 ensures Digit(v, j) == Digit(w, j) {
      assert LinkedAt(b, v, j) && LinkedAt(b, w, j);
    }
    SameDigits(v, w, 32);
  }

  // ---------------------------------------------------------------- rotation

  lemma {:induction false} LowDigits(v: nat, n: nat, j: nat)
    requires j < n
    ensures Digit(v % Pow2(n), j) == Digit(v, j)
  {
    HalfOfLow(v, Pow2(n - 1));
    DigitStep(v, if j > 0 then j - 1 else 0);
    DigitStep(v % Pow2(n), if j > 0 then j - 1 else 0);
    if j > 0 {
      LowDigits(v / 2, n - 1, j - 1);
    }
  }

  lemma {:induction false} HalfOfLow(v: nat, d: nat)
    requires d > 0
    ensures v % (2 * d) / 2 == v / 2 % d && v % (2 * d) % 2 == v % 2
  {
    var q, r := v / (2 * d), v % (2 * d);
    DivDiv(v, d);
    DivBounds(v / 2, d);
    assert v == 2 * (q * d) + r;
  }

  /** A word turned by one place. */
  function TurnOnce(v: nat): nat { v * 2 % 0x1_0000_0000 + v / 0x8000_0000 }

  lemma {:induction false} TurnOnceHalves(v: Word)
    ensures TurnOnce(v) < 0x1_0000_0000 && TurnOnce(v) / 2 == v % 0x8000_0000 && TurnOnce(v) % 2 == v / 0x8000_0000 < 2
  {}

  lemma {:induction false} TurnOnceDigits(v: Word, t: nat, j: nat)
    requires j < 31 && t / 2 == v % 0x8000_0000 && t % 2 == v / 0x8000_0000 < 2
    ensures Digit(t, 0) == Digit(v, 31) && Digit(t, j + 1) == Digit(v, j)
  {
    PowersOfWords();
    DigitStep(t, j);
    LowDigits(v, 31, j);
  }

  lemma {:induction false} TopPlace(m: bv32, p: nat)
    requires Place(m, p)
    ensures m == 0x8000_0000 <==> p == 0x8000_0000
  {}

  lemma {:induction false} TopMask(j: nat)
    requires j < 32
    ensures Mask(j) == 0x8000_0000 <==> j == 31
  {
    Places(j);
    PowersOfWords();
    TopPlace(Mask(j), Pow2(j));
    if j < 31 {
      PowersBelow(j, 31);
    }
  }

  lemma {:induction false} SingleMask(j: nat)
    requires j < 32
    ensures Mask(j) != 0 && Mask(j) & (Mask(j) - 1) == 0 && (j < 31 ==> Mask(j) & 0x8000_0000 == 0)
  {
    if j > 0 {
      SingleMask(j - 1);
      NextSingle(Mask(j - 1));
    }
    TopMask(j);
    if j < 31 {
      OnlyTop(Mask(j));
    }
  }

  lemma {:induction false} OnceFirst(b: bv32, v: Word, u: Word)
    requires Linked(b, v) && Linked(Once(b), u)
    ensures Digit(u, 0) == Digit(v, 31)
  {
    assert LinkedAt(b, v, 31) && LinkedAt(Once(b), u, 0);
    TopMask(31);
    OnceBits(b, 1);
  }

  lemma {:induction false} OnceOther(b: bv32, v: Word, u: Word, j: nat)
    requires Linked(b, v) && Linked(Once(b), u) && 0 < j < 32
    ensures Digit(u, j) == Digit(v, j - 1)
  {
    assert LinkedAt(b, v, j - 1) && LinkedAt(Once(b), u, j);
    SingleMask(j - 1);
    OnceBits(b, Mask(j - 1));
  }

  lemma {:induction false} OnceIsTurn(b: bv32, v: Word, u: Word)
    requires Linked(b, v) && Linked(Once(b), u)
    ensures u == TurnOnce(v)
  {
    var t := TurnOnce(v);
    PowersOfWords();
    TurnOnceHalves(v);
    forall j | 0 <= j < 32 ensures Digit(u, j) == Digit(t, j) {
      TurnOnceDigits(v, t, if j > 0 then j - 1 else 0);
      if j == 0 {
        OnceFirst(b, v, u);
      } else {
        OnceOther(b, v, u, j);
      }
    }
    SameDigits(u, t, 32);
  }

  lemma {:induction false} OneMoreTurn(b: bv32, k: bv6)
    requires 1 <= k < 32
    ensures Value(Rotated(b, k)) == TurnOnce(Value(Rotated(b, k - 1)))
  {
    var c, d := Rotated(b, k - 1), Rotated(b, k);
    OneMorePlace(b, k);
    ValueIsLinked(c);
    ValueIsLinked(d);
    OnceIsTurn(c, Value(c), Value(d));
  }

  lemma {:induction false} RotateNone(b: bv32, w: Word)
    requires Linked(b, w)
    ensures Value(Rotated(b, 0)) == w
  {
    NoPlace(b);
    ValueIsLinked(b);
    LinkedOnce(b, w, Value(b));
  }

  // ------------------------------------------------------ rotation as arithmetic

  lemma {:induction false} Spread(x: nat, d: nat, r: nat, p: nat)
    ensures (x * d + r) * p == x * (d * p) + r * p
  {
    Distribute(x * d, r, p);
    assert x * d * p == x * (d * p);
  }

  lemma {:induction false} BelowProduct(r: nat, d: nat, p: nat, q: nat)
    requires r < d && q < p
    ensures r * p + q < d * p
  {
    MulMono(r + 1, d, p);
    Distribute(r, 1, p);
  }

  lemma {:induction false} WrapsTo(q: nat, low: nat)
    requires low < 0x1_0000_0000
    ensures (q * 0x1_0000_0000 + low) % 0x1_0000_0000 == low
  {}

  /** With `q` the digits that overflow and `r` the others. */
  lemma {:induction false} TurnedSplits(w: nat, p: nat, d: nat, q: nat, r: nat)
    requires d * p == 0x1_0000_0000 && w == q * d + r && r < d && p > 0
    ensures w * p % 0x1_0000_0000 + w / d == r * p + q
  {
    DivUnique(w, d, q);
    Spread(q, d, r, p);
    BelowProduct(r, d, p, 0);
    WrapsTo(q, r * p);
  }

  lemma {:induction false} TurnOnceIs(x: nat, low: nat)
    requires x < 2 && low < 0x8000_0000
    ensures TurnOnce(x * 0x8000_0000 + low) == 2 * low + x
  {}

  /** Turning once more shifts the next digit `x` across. */
  lemma {:induction false} TurnsOnce(p: nat, d: nat, q: nat, x: nat, r: nat)
    requires d * p == 0x8000_0000 && r < d && x < 2 && q < p
    ensures TurnOnce((x * d + r) * p + q) == r * (2 * p) + (2 * q + x)
  {
    Spread(x, d, r, p);
    BelowProduct(r, d, p, q);
    TurnOnceIs(x, r * p + q);
    assert r * (2 * p) == 2 * (r * p);
  }

  lemma {:induction false} SplitTwice(w: nat, d: nat) returns (q: nat, x: nat, r: nat)
    requires d > 0
    ensures w == (2 * q + x) * d + r == q * (2 * d) + (x * d + r) && r < d && x < 2 && x * d + r < 2 * d
  {
    var y := w / d;
    DivBounds(w, d);
    q, x, r := y / 2, y % 2, w - y * d;
    Distribute(2 * q, x, d);
    assert 2 * q * d == q * (2 * d);
    MulMono(x, 1, d);
  }

  lemma {:induction false} Overflows(w: nat, p: nat, d: nat, q: nat, r: nat)
    requires d * p == 0x1_0000_0000 && w == q * d + r && w < 0x1_0000_0000
    ensures q < p
  {
    if q >= p {
      MulMono(p, q, d);
    }
  }

  lemma {:induction false} TurnedStep(w: Word, p: nat, d: nat, p': nat, d': nat)
    requires d * p' == 0x8000_0000 && d > 0 && p' > 0 && p == 2 * p' && d' == 2 * d
    requires d * p == 0x1_0000_0000 && d' * p' == 0x1_0000_0000
    ensures w * p % 0x1_0000_0000 + w / d == TurnOnce(w * p' % 0x1_0000_0000 + w / d')
  {
    var q, x, r := SplitTwice(w, d);
    Overflows(w, p', d', q, x * d + r);
    TurnedSplits(w, p', d', q, x * d + r);
    TurnedSplits(w, p, d, 2 * q + x, r);
    TurnsOnce(p', d, q, x, r);
  }

  /** Turning by one place, `s` times. */
  function Turns(w: nat, s: nat): nat {
    if s == 0 then w else TurnOnce(Turns(w, s - 1))
  }

  lemma {:induction false} SmallAmounts(s: nat)
    requires 1 <= s < 16
    ensures 1 <= Amount(s) && Amount(s) - 1 == Amount(s - 1)
  {
    if s < 4 {
    } else if s < 8 {
    } else if s < 12 {
    }
  }

  lemma {:induction false} LargeAmounts(s: nat)
    requires 16 <= s < 32
    ensures 1 <= Amount(s) && Amount(s) - 1 == Amount(s - 1)
  {
    if s < 20 {
    } else if s < 24 {
    } else if s < 28 {
    }
  }

  lemma {:induction false} NextTurn(b: bv32, s: nat)
    requires 1 <= s < 32
    ensures Value(Rotated(b, Amount(s))) == TurnOnce(Value(Rotated(b, Amount(s - 1))))
  {
    if s < 16 {
      SmallAmounts(s);
    } else {
      LargeAmounts(s);
    }
    OneMoreTurn(b, Amount(s));
  }

  lemma {:induction false} RotationTurns(b: bv32, w: Word, s: nat)
    requires s < 32 && Linked(b, w)
    ensures Value(Rotated(b, Amount(s))) == Turns(w, s)
  {
    if s == 0 {
      RotateNone(b, w);
    } else {
      RotationTurns(b, w, s - 1);
      NextTurn(b, s);
    }
  }

  lemma {:induction false} PowersMeet(s: nat)
    requires 1 <= s <= 32
    ensures Pow2(32 - s) * Pow2(s - 1) == 0x8000_0000 && Pow2(32 - s) * Pow2(s) == 0x1_0000_0000
    ensures Pow2(33 - s) * Pow2(s - 1) == 0x1_0000_0000
  {
    PowersOfWords();
    PowersAdd(32 - s, s - 1);
    PowersAdd(32 - s, s);
    PowersAdd(33 - s, s - 1);
  }

  lemma {:induction false} TurnsNone(w: Word)
    ensures w * 1 % 0x1_0000_0000 + w / 0x1_0000_0000 == w
  {}

  lemma {:induction false} TurnsAre(w: Word, s: nat)
    requires s <= 32
    ensures Turns(w, s) == w * Pow2(s) % 0x1_0000_0000 + w / Pow2(32 - s)
  {
    if s == 0 {
      PowersOfWords();
      TurnsNone(w);
    } else {
      TurnsAre(w, s - 1);
      PowersMeet(s);
      TurnedStep(w, Pow2(s), Pow2(32 - s), Pow2(s - 1), Pow2(33 - s));
    }
  }

  lemma {:induction false} RotateTurns(w: Word, s: nat)
    ensures RotateLeft(w, s) == Turns(w, s % 32)
  {
    BitsAreLinked(w);
    RotationTurns(Bits(w), w, s % 32);
  }

  /** `v` is `w` turned by `s` places: `w` times 2^s, and what overflows 32 bits comes in below. */
  predicate IsTurned(v: int, w: nat, s: nat)
    requires s < 32
  {
    v == w * Pow2(s) % 0x1_0000_0000 + w / Pow2(32 - s)
  }

  lemma {:induction false} TurnsTurn(v: nat, w: Word, s: nat)
    requires s < 32 && v == Turns(w, s)
    ensures IsTurned(v, w, s)
  {
    TurnsAre(w, s);
  }

  /** The machine's rotation in plain arithmetic. */
  lemma {:induction false} RotateIsArithmetic(w: Word, s: nat)
    ensures IsTurned(RotateLeft(w, s), w, s % 32)
  {
    RotateTurns(w, s);
    TurnsTurn(RotateLeft(w, s), w, s % 32);
  }
}
