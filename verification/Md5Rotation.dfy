/** The rotation of MD5 on the machine's 32 bits. */
module Md5Rotation {

  function Rotated(b: bv32, k: bv6): bv32
    requires k <= 32
  {
    (b << k) | (b >> (32 - k))
  }

  /** A word of bits turned by one place. */
  function Once(b: bv32): bv32 { (b << 1) | (b >> 31) }

  lemma {:induction false} OnceBits(b: bv32, m: bv32)
    requires m & (m - 1) == 0 && m & 0x8000_0000 == 0
    ensures (Once(b) & 1 != 0) == (b & 0x8000_0000 != 0)
    ensures (Once(b) & (m << 1) != 0) == (b & m != 0)
  {}

  lemma {:induction false} NextSingle(m: bv32)
    requires m & (m - 1) == 0 && m & 0x8000_0000 == 0
    ensures (m << 1) & ((m << 1) - 1) == 0 && (m != 0 ==> m << 1 != 0)
  {}

  lemma {:induction false} OnlyTop(m: bv32)
    requires m & (m - 1) == 0 && m != 0x8000_0000
    ensures m & 0x8000_0000 == 0
  {}

  lemma {:induction false} FirstPlaces(b: bv32, k: bv6)
    requires 1 <= k < 12
    ensures Rotated(b, k) == Once(Rotated(b, k - 1))
  {
    if k == 1 {
      assert ((b << 1) | (b >> 31)) == Once((b << 0) | (b >> 32));
    } else if k == 2 {
      assert ((b << 2) | (b >> 30)) == Once((b << 1) | (b >> 31));
    } else if k == 3 {
      assert ((b << 3) | (b >> 29)) == Once((b << 2) | (b >> 30));
    } else if k == 4 {
      assert ((b << 4) | (b >> 28)) == Once((b << 3) | (b >> 29));
    } else if k == 5 {
      assert ((b << 5) | (b >> 27)) == Once((b << 4) | (b >> 28));
    } else if k == 6 {
      assert ((b << 6) | (b >> 26)) == Once((b << 5) | (b >> 27));
    } else if k == 7 {
      assert ((b << 7) | (b >> 25)) == Once((b << 6) | (b >> 26));
    } else if k == 8 {
      assert ((b << 8) | (b >> 24)) == Once((b << 7) | (b >> 25));
    } else if k == 9 {
      assert ((b << 9) | (b >> 23)) == Once((b << 8) | (b >> 24));
    } else if k == 10 {
      assert ((b << 10) | (b >> 22)) == Once((b << 9) | (b >> 23));
    } else {
      assert ((b << 11) | (b >> 21)) == Once((b << 10) | (b >> 22));
    }
  }

  lemma {:induction false} MiddlePlaces(b: bv32, k: bv6)
    requires 12 <= k < 22
    ensures Rotated(b, k) == Once(Rotated(b, k - 1))
  {
    if k == 12 {
      assert ((b << 12) | (b >> 20)) == Once((b << 11) | (b >> 21));
    } else if k == 13 {
      assert ((b << 13) | (b >> 19)) == Once((b << 12) | (b >> 20));
    } else if k == 14 {
      assert ((b << 14) | (b >> 18)) == Once((b << 13) | (b >> 19));
    } else if k == 15 {
      assert ((b << 15) | (b >> 17)) == Once((b << 14) | (b >> 18));
    } else if k == 16 {
      assert ((b << 16) | (b >> 16)) == Once((b << 15) | (b >> 17));
    } else if k == 17 {
      assert ((b << 17) | (b >> 15)) == Once((b << 16) | (b >> 16));
    } else if k == 18 {
      assert ((b << 18) | (b >> 14)) == Once((b << 17) | (b >> 15));
    } else if k == 19 {
      assert ((b << 19) | (b >> 13)) == Once((b << 18) | (b >> 14));
    } else if k == 20 {
      assert ((b << 20) | (b >> 12)) == Once((b << 19) | (b >> 13));
    } else {
      assert ((b << 21) | (b >> 11)) == Once((b << 20) | (b >> 12));
    }
  }

  lemma {:induction false} LastPlaces(b: bv32, k: bv6)
    requires 22 <= k < 32
    ensures Rotated(b, k) == Once(Rotated(b, k - 1))
  {
    if k == 22 {
      assert ((b << 22) | (b >> 10)) == Once((b << 21) | (b >> 11));
    } else if k == 23 {
      assert ((b << 23) | (b >> 9)) == Once((b << 22) | (b >> 10));
    } else if k == 24 {
      assert ((b << 24) | (b >> 8)) == Once((b << 23) | (b >> 9));
    } else if k == 25 {
      assert ((b << 25) | (b >> 7)) == Once((b << 24) | (b >> 8));
    } else if k == 26 {
      assert ((b << 26) | (b >> 6)) == Once((b << 25) | (b >> 7));
    } else if k == 27 {
      assert ((b << 27) | (b >> 5)) == Once((b << 26) | (b >> 6));
    } else if k == 28 {
      assert ((b << 28) | (b >> 4)) == Once((b << 27) | (b >> 5));
    } else if k == 29 {
      assert ((b << 29) | (b >> 3)) == Once((b << 28) | (b >> 4));
    } else if k == 30 {
      assert ((b << 30) | (b >> 2)) == Once((b << 29) | (b >> 3));
    } else {
      assert ((b << 31) | (b >> 1)) == Once((b << 30) | (b >> 2));
    }
  }

  /** Rotating by one place more is turning once more. */
  lemma {:induction false} OneMorePlace(b: bv32, k: bv6)
    requires 1 <= k < 32
    ensures Rotated(b, k) == Once(Rotated(b, k - 1))
  {
    if k < 12 {
      FirstPlaces(b, k);
    } else if k < 22 {
      MiddlePlaces(b, k);
    } else {
      LastPlaces(b, k);
    }
  }

  lemma {:induction false} NoPlace(b: bv32)
    ensures Rotated(b, 0) == b
  {}
}
