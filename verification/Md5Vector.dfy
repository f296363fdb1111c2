/** The first test of appendix A.5 of RFC 1321: the digest of the empty message, step by step. */
module Md5Vector {
  import opened Arith
  import opened Md5Tables
  import opened Md5Schedule
  import opened Md5Rotation
  import opened Md5Bits
  import opened Md5Compress
  import opened Md5

  /** The only block of the padded empty message, as words. */
  function EmptyWords(): (ws: seq<Word>)
    ensures |ws| == 16
  {
    seq(16, i => if i == 0 then 0x80 else 0)
  }

  /** What the tables say of step `i`. */
  predicate Uses(i: nat, k: Aux, m: Word, t: Word, s: nat) {
    AuxOf(i) == k && (if Pick(i) == 0 then 0x80 else 0) == m && Constant(i) == t && Shift(i) == s
  }

  /** `u` is the sum of the first four, and `r` that of the last two. */
  predicate Summed(a: Word, f: Word, m: Word, t: Word, u: Word, b: Word, v: Word, r: Word) {
    (a + f + m + t) % 0x1_0000_0000 == u && (b + v) % 0x1_0000_0000 == r
  }

  /** `v` is `u` rotated, seen as bits. */
  predicate Turned(u: Word, s: nat, bu: bv32, q: bv6, bv: bv32, v: Word) {
    s < 32 && (s as bv6) == q <= 32 && Value(bu) == u && Rotated(bu, q) == bv && Value(bv) == v
  }

  /** A step worked out: `f` is the function's value, `u` the sum, and `v` the sum rotated. */
  predicate Worked(k: Aux, a: Word, b: Word, c: Word, d: Word, m: Word, t: Word, s: nat,
                   f: Word, u: Word, bu: bv32, q: bv6, bv: bv32, v: Word, r: Word) {
    Auxiliary(k, b, c, d) == f && Summed(a, f, m, t, u, b, v, r) && Turned(u, s, bu, q, bv, v)
  }

  /** A property of the registers after some steps that survives every step worked out. */
  ghost predicate Survives(p: (nat, Word, Word, Word, Word) -> bool) {
    forall i: nat, k, a, b, c, d, m, t, s: nat, f, u, bu, q, bv, v, r ::
      p(i, a, b, c, d) && Uses(i, k, m, t, s) && Worked(k, a, b, c, d, m, t, s, f, u, bu, q, bv, v, r) ==> p(i + 1, d, r, b, c)
  }

  lemma {:induction false} Steps0To1(p: (nat, Word, Word, Word, Word) -> bool)
    requires Survives(p) && p(0, 0x67452301, 0xefcdab89, 0x98badcfe, 0x10325476)
    ensures p(2, 0x98badcfe, 0xf59592dd, 0xa5202774, 0xefcdab89)
  {
    assert Uses(0, F1, 0x80, 0xd76aa478, 7);
    assert Worked(F1, 0x67452301, 0xefcdab89, 0x98badcfe, 0x10325476, 0x80, 0xd76aa478, 7, 0x98badcfe, 0xd76aa4f7, 0xd76aa4f7, 7, 0xb5527beb, 0xb5527beb, 0xa5202774);
    assert Uses(1, F1, 0, 0xe8c7b756, 12);
    assert Worked(F1, 0x10325476, 0xa5202774, 0xefcdab89, 0x98badcfe, 0, 0xe8c7b756, 12, 0xbd9afb8a, 0xb6950756, 0xb6950756, 12, 0x50756b69, 0x50756b69, 0xf59592dd);
  }

  lemma {:induction false} Steps2To3(p: (nat, Word, Word, Word, Word) -> bool)
    requires Survives(p) && p(2, 0x98badcfe, 0xf59592dd, 0xa5202774, 0xefcdab89)
    ensures p(4, 0xa5202774, 0x1b163203, 0xe7f06b23, 0xf59592dd)
  {
    assert Uses(2, F1, 0, 0x242070db, 17);
    assert Worked(F1, 0x98badcfe, 0xf59592dd, 0xa5202774, 0xefcdab89, 0, 0x242070db, 17, 0xaf482b54, 0x6c23792d, 0x6c23792d, 17, 0xf25ad846, 0xf25ad846, 0xe7f06b23);
    assert Uses(3, F1, 0, 0xc1bdceee, 22);
    assert Worked(F1, 0xefcdab89, 0xe7f06b23, 0xf59592dd, 0xa5202774, 0, 0xc1bdceee, 22, 0xe5900655, 0x971b80cc, 0x971b80cc, 22, 0x3325c6e0, 0x3325c6e0, 0x1b163203);
  }

  lemma {:induction false} Steps4To5(p: (nat, Word, Word, Word, Word) -> bool)
    requires Survives(p) && p(4, 0xa5202774, 0x1b163203, 0xe7f06b23, 0xf59592dd)
    ensures p(6, 0xe7f06b23, 0x2f35d494, 0x32033344, 0x1b163203)
  {
    assert Uses(4, F1, 0, 0xf57c0faf, 7);
    assert Worked(F1, 0xa5202774, 0x1b163203, 0xe7f06b23, 0xf59592dd, 0, 0xf57c0faf, 7, 0xe791a2df, 0x822dda02, 0x822dda02, 7, 0x16ed0141, 0x16ed0141, 0x32033344);
    assert Uses(5, F1, 0, 0x4787c62a, 12);
    assert Worked(F1, 0xf59592dd, 0x32033344, 0x1b163203, 0xe7f06b23, 0, 0x4787c62a, 12, 0xd7f27a23, 0x150fd32a, 0x150fd32a, 12, 0xfd32a150, 0xfd32a150, 0x2f35d494);
  }

  lemma {:induction false} Steps6To7(p: (nat, Word, Word, Word, Word) -> bool)
    requires Survives(p) && p(6, 0xe7f06b23, 0x2f35d494, 0x32033344, 0x1b163203)
    ensures p(8, 0x32033344, 0x9bc13ce9, 0xf5b158db, 0x2f35d494)
  {
    assert Uses(6, F1, 0, 0xa8304613, 17);
    assert Worked(F1, 0xe7f06b23, 0x2f35d494, 0x32033344, 0x1b163203, 0, 0xa8304613, 17, 0x32033207, 0xc223e33d, 0xc223e33d, 17, 0xc67b8447, 0xc67b8447, 0xf5b158db);
    assert Uses(7, F1, 0, 0xfd469501, 22);
    assert Worked(F1, 0x1b163203, 0xf5b158db, 0x2f35d494, 0x32033344, 0, 0xfd469501, 22, 0x27337394, 0x3f903a98, 0x3f903a98, 22, 0xa60fe40e, 0xa60fe40e, 0x9bc13ce9);
  }

  lemma {:induction false} Steps8To9(p: (nat, Word, Word, Word, Word) -> bool)
    requires Survives(p) && p(8, 0x32033344, 0x9bc13ce9, 0xf5b158db, 0x2f35d494)
    ensures p(10, 0xf5b158db, 0xfce4a312, 0x3893b991, 0x9bc13ce9)
  {
    assert Uses(8, F1, 0, 0x698098d8, 7);
    assert Worked(F1, 0x32033344, 0x9bc13ce9, 0xf5b158db, 0x2f35d494, 0, 0x698098d8, 7, 0xb5b5d8dd, 0x5139a4f9, 0x5139a4f9, 7, 0x9cd27ca8, 0x9cd27ca8, 0x3893b991);
    assert Uses(9, F1, 0, 0x8b44f7af, 12);
    assert Worked(F1, 0x2f35d494, 0x3893b991, 0x9bc13ce9, 0xf5b158db, 0, 0x8b44f7af, 12, 0xdda178cb, 0x981c450e, 0x981c450e, 12, 0xc450e981, 0xc450e981, 0xfce4a312);
  }

  lemma {:induction false} Steps10To11(p: (nat, Word, Word, Word, Word) -> bool)
    requires Survives(p) && p(10, 0xf5b158db, 0xfce4a312, 0x3893b991, 0x9bc13ce9)
    ensures p(12, 0x3893b991, 0x70768a29, 0xe1ef0576, 0xfce4a312)
  {
    assert Uses(10, F1, 0, 0xffff5bb1, 17);
    assert Worked(F1, 0xf5b158db, 0xfce4a312, 0x3893b991, 0x9bc13ce9, 0, 0xffff5bb1, 17, 0x3b81bdf9, 0x31327285, 0x31327285, 17, 0xe50a6264, 0xe50a6264, 0xe1ef0576);
    assert Uses(11, F1, 0, 0x895cd7be, 22);
    assert Worked(F1, 0x9bc13ce9, 0xe1ef0576, 0xfce4a312, 0x3893b991, 0, 0x895cd7be, 22, 0xf8f4b993, 0x1e12ce3a, 0x1e12ce3a, 22, 0x8e8784b3, 0x8e8784b3, 0x70768a29);
  }

  lemma {:induction false} Steps12To13(p: (nat, Word, Word, Word, Word) -> bool)
    requires Survives(p) && p(12, 0x3893b991, 0x70768a29, 0xe1ef0576, 0xfce4a312)
    ensures p(14, 0xe1ef0576, 0x374943a7, 0xf56c7cf1, 0x70768a29)
  {
    assert Uses(12, F1, 0, 0x6b901122, 7);
    assert Worked(F1, 0x3893b991, 0x70768a29, 0xe1ef0576, 0xfce4a312, 0, 0x6b901122, 7, 0xece62132, 0x9109ebe5, 0x9109ebe5, 7, 0x84f5f2c8, 0x84f5f2c8, 0xf56c7cf1);
    assert Uses(13, F1, 0, 0xfd987193, 12);
    assert Worked(F1, 0xfce4a312, 0xf56c7cf1, 0x70768a29, 0xe1ef0576, 0, 0xfd987193, 12, 0x70e70927, 0x6b641dcc, 0x6b641dcc, 12, 0x41dcc6b6, 0x41dcc6b6, 0x374943a7);
  }

  lemma {:induction false} Steps14To15(p: (nat, Word, Word, Word, Word) -> bool)
    requires Survives(p) && p(14, 0xe1ef0576, 0x374943a7, 0xf56c7cf1, 0x70768a29)
    ensures p(16, 0xf56c7cf1, 0xd6819c6a, 0x5aa53f75, 0x374943a7)
  {
    assert Uses(14, F1, 0, 0xa679438e, 17);
    assert Worked(F1, 0xe1ef0576, 0x374943a7, 0xf56c7cf1, 0x70768a29, 0, 0xa679438e, 17, 0x757ec8a9, 0xfde711ad, 0xfde711ad, 17, 0x235bfbce, 0x235bfbce, 0x5aa53f75);
    assert Uses(15, F1, 0, 0x49b40821, 22);
    assert Worked(F1, 0x70768a29, 0x5aa53f75, 0x374943a7, 0xf56c7cf1, 0, 0x49b40821, 22, 0xb74943a5, 0x7173d5ef, 0x7173d5ef, 22, 0x7bdc5cf5, 0x7bdc5cf5, 0xd6819c6a);
  }

  lemma {:induction false} Step16(p: (nat, Word, Word, Word, Word) -> bool)
    requires Survives(p) && p(16, 0xf56c7cf1, 0xd6819c6a, 0x5aa53f75, 0x374943a7)
    ensures p(17, 0x374943a7, 0x1c7d7513, 0xd6819c6a, 0x5aa53f75)
  {
    assert Uses(16, F2, 0, 0xf61e2562, 5);
    assert Worked(F2, 0xf56c7cf1, 0xd6819c6a, 0x5aa53f75, 0x374943a7, 0, 0xf61e2562, 5, 0x5ea53c72, 0x4a2fdec5, 0x4a2fdec5, 5, 0x45fbd8a9, 0x45fbd8a9, 0x1c7d7513);
  }

  lemma {:induction false} Step17(p: (nat, Word, Word, Word, Word) -> bool)
    requires Survives(p) && p(17, 0x374943a7, 0x1c7d7513, 0xd6819c6a, 0x5aa53f75)
    ensures p(18, 0x5aa53f75, 0x7bd57a3a, 0x1c7d7513, 0xd6819c6a)
  {
    assert Uses(17, F2, 0, 0xc040b340, 9);
    assert Worked(F2, 0x374943a7, 0x1c7d7513, 0xd6819c6a, 0x5aa53f75, 0, 0xc040b340, 9, 0x9c25b51b, 0x93afac02, 0x93afac02, 9, 0x5f580527, 0x5f580527, 0x7bd57a3a);
  }

  lemma {:induction false} Step18(p: (nat, Word, Word, Word, Word) -> bool)
    requires Survives(p) && p(18, 0x5aa53f75, 0x7bd57a3a, 0x1c7d7513, 0xd6819c6a)
    ensures p(19, 0xd6819c6a, 0xc095f13a, 0x7bd57a3a, 0x1c7d7513)
  {
    assert Uses(18, F2, 0, 0x265e5a51, 14);
    assert Worked(F2, 0x5aa53f75, 0x7bd57a3a, 0x1c7d7513, 0xd6819c6a, 0, 0x265e5a51, 14, 0x5afd793b, 0xdc011301, 0xdc011301, 14, 0x44c07700, 0x44c07700, 0xc095f13a);
  }

  lemma {:induction false} Step19(p: (nat, Word, Word, Word, Word) -> bool)
    requires Survives(p) && p(19, 0xd6819c6a, 0xc095f13a, 0x7bd57a3a, 0x1c7d7513)
    ensures p(20, 0x1c7d7513, 0xbd782e17, 0xc095f13a, 0x7bd57a3a)
  {
    assert Uses(19, F2, 0x80, 0xe9b6c7aa, 20);
    assert Worked(F2, 0xd6819c6a, 0xc095f13a, 0x7bd57a3a, 0x1c7d7513, 0x80, 0xe9b6c7aa, 20, 0x63957b3a, 0x23cddfce, 0x23cddfce, 20, 0xfce23cdd, 0xfce23cdd, 0xbd782e17);
  }

  lemma {:induction false} Step20(p: (nat, Word, Word, Word, Word) -> bool)
    requires Survives(p) && p(20, 0x1c7d7513, 0xbd782e17, 0xc095f13a, 0x7bd57a3a)
    ensures p(21, 0x7bd57a3a, 0x3d1e3e6c, 0xbd782e17, 0xc095f13a)
  {
    assert Uses(20, F2, 0, 0xd62f105d, 5);
    assert Worked(F2, 0x1c7d7513, 0xbd782e17, 0xc095f13a, 0x7bd57a3a, 0, 0xd62f105d, 5, 0xb950ab12, 0xabfd3082, 0xabfd3082, 5, 0x7fa61055, 0x7fa61055, 0x3d1e3e6c);
  }

  lemma {:induction false} Step21(p: (nat, Word, Word, Word, Word) -> bool)
    requires Survives(p) && p(21, 0x7bd57a3a, 0x3d1e3e6c, 0xbd782e17, 0xc095f13a)
    ensures p(22, 0xc095f13a, 0x68b7b3e3, 0x3d1e3e6c, 0xbd782e17)
  {
    assert Uses(21, F2, 0, 0x02441453, 9);
    assert Worked(F2, 0x7bd57a3a, 0x3d1e3e6c, 0xbd782e17, 0xc095f13a, 0, 0x02441453, 9, 0x3d7c3e2d, 0xbb95ccba, 0xbb95ccba, 9, 0x2b997577, 0x2b997577, 0x68b7b3e3);
  }

  lemma {:induction false} Step22(p: (nat, Word, Word, Word, Word) -> bool)
    requires Survives(p) && p(22, 0xc095f13a, 0x68b7b3e3, 0x3d1e3e6c, 0xbd782e17)
    ensures p(23, 0xbd782e17, 0xeb41643e, 0x68b7b3e3, 0x3d1e3e6c)
  {
    assert Uses(22, F2, 0, 0xd8a1e681, 14);
    assert Worked(F2, 0xc095f13a, 0x68b7b3e3, 0x3d1e3e6c, 0xbd782e17, 0, 0xd8a1e681, 14, 0x2836326b, 0xc16e0a26, 0xc16e0a26, 14, 0x8289b05b, 0x8289b05b, 0xeb41643e);
  }

  lemma {:induction false} Step23(p: (nat, Word, Word, Word, Word) -> bool)
    requires Survives(p) && p(23, 0xbd782e17, 0xeb41643e, 0x68b7b3e3, 0x3d1e3e6c)
    ensures p(24, 0x3d1e3e6c, 0xe422531a, 0xeb41643e, 0x68b7b3e3)
  {
    assert Uses(23, F2, 0, 0xe7d3fbc8, 20);
    assert Worked(F2, 0xbd782e17, 0xeb41643e, 0x68b7b3e3, 0x3d1e3e6c, 0, 0xe7d3fbc8, 20, 0x69a1a5af, 0x0eedcf8e, 0x0eedcf8e, 20, 0xf8e0eedc, 0xf8e0eedc, 0xe422531a);
  }

  lemma {:induction false} Step24(p: (nat, Word, Word, Word, Word) -> bool)
    requires Survives(p) && p(24, 0x3d1e3e6c, 0xe422531a, 0xeb41643e, 0x68b7b3e3)
    ensures p(25, 0x68b7b3e3, 0x306ec122, 0xe422531a, 0xeb41643e)
  {
    assert Uses(24, F2, 0, 0x21e1cde6, 5);
    assert Worked(F2, 0x3d1e3e6c, 0xe422531a, 0xeb41643e, 0x68b7b3e3, 0, 0x21e1cde6, 5, 0xe362571e, 0x42626370, 0x42626370, 5, 0x4c4c6e08, 0x4c4c6e08, 0x306ec122);
  }

  lemma {:induction false} Step25(p: (nat, Word, Word, Word, Word) -> bool)
    requires Survives(p) && p(25, 0x68b7b3e3, 0x306ec122, 0xe422531a, 0xeb41643e)
    ensures p(26, 0xeb41643e, 0xd28c77c2, 0x306ec122, 0xe422531a)
  {
    assert Uses(25, F2, 0, 0xc33707d6, 9);
    assert Worked(F2, 0x68b7b3e3, 0x306ec122, 0xe422531a, 0xeb41643e, 0, 0xc33707d6, 9, 0x24625322, 0x50510edb, 0x50510edb, 9, 0xa21db6a0, 0xa21db6a0, 0xd28c77c2);
  }

  lemma {:induction false} Step26(p: (nat, Word, Word, Word, Word) -> bool)
    requires Survives(p) && p(26, 0xeb41643e, 0xd28c77c2, 0x306ec122, 0xe422531a)
    ensures p(27, 0xe422531a, 0xa3c663da, 0xd28c77c2, 0x306ec122)
  {
    assert Uses(26, F2, 0, 0xf4d50d87, 14);
    assert Worked(F2, 0xeb41643e, 0xd28c77c2, 0x306ec122, 0xe422531a, 0, 0xf4d50d87, 14, 0xd04cd322, 0xb06344e7, 0xb06344e7, 14, 0xd139ec18, 0xd139ec18, 0xa3c663da);
  }

  lemma {:induction false} Step27(p: (nat, Word, Word, Word, Word) -> bool)
    requires Survives(p) && p(27, 0xe422531a, 0xa3c663da, 0xd28c77c2, 0x306ec122)
    ensures p(28, 0x306ec122, 0xa0572807, 0xa3c663da, 0xd28c77c2)
  {
    assert Uses(27, F2, 0, 0x455a14ed, 20);
    assert Worked(F2, 0xe422531a, 0xa3c663da, 0xd28c77c2, 0x306ec122, 0, 0x455a14ed, 20, 0xe2c677c2, 0x0c42dfc9, 0x0c42dfc9, 20, 0xfc90c42d, 0xfc90c42d, 0xa0572807);
  }

  lemma {:induction false} Step28(p: (nat, Word, Word, Word, Word) -> bool)
    requires Survives(p) && p(28, 0x306ec122, 0xa0572807, 0xa3c663da, 0xd28c77c2)
    ensures p(29, 0xd28c77c2, 0x13707036, 0xa0572807, 0xa3c663da)
  {
    assert Uses(28, F2, 0, 0xa9e3e905, 5);
    assert Worked(F2, 0x306ec122, 0xa0572807, 0xa3c663da, 0xd28c77c2, 0, 0xa9e3e905, 5, 0xa146201a, 0x7b98ca41, 0x7b98ca41, 5, 0x7319482f, 0x7319482f, 0x13707036);
  }

  lemma {:induction false} Step29(p: (nat, Word, Word, Word, Word) -> bool)
    requires Survives(p) && p(29, 0xd28c77c2, 0x13707036, 0xa0572807, 0xa3c663da)
    ensures p(30, 0xa3c663da, 0xae7813db, 0x13707036, 0xa0572807)
  {
    assert Uses(29, F2, 0, 0xfcefa3f8, 9);
    assert Worked(F2, 0xd28c77c2, 0x13707036, 0xa0572807, 0xa3c663da, 0, 0xfcefa3f8, 9, 0x03516817, 0xd2cd83d1, 0xd2cd83d1, 9, 0x9b07a3a5, 0x9b07a3a5, 0xae7813db);
  }

  lemma {:induction false} Step30(p: (nat, Word, Word, Word, Word) -> bool)
    requires Survives(p) && p(30, 0xa3c663da, 0xae7813db, 0x13707036, 0xa0572807)
    ensures p(31, 0xa0572807, 0x1c31c384, 0xae7813db, 0x13707036)
  {
    assert Uses(30, F2, 0, 0x676f02d9, 14);
    assert Worked(F2, 0xa3c663da, 0xae7813db, 0x13707036, 0xa0572807, 0, 0x676f02d9, 14, 0xb3705033, 0xbea5b6e6, 0xbea5b6e6, 14, 0x6db9afa9, 0x6db9afa9, 0x1c31c384);
  }

  lemma {:induction false} Step31(p: (nat, Word, Word, Word, Word) -> bool)
    requires Survives(p) && p(31, 0xa0572807, 0x1c31c384, 0xae7813db, 0x13707036)
    ensures p(32, 0x13707036, 0xa2205f1f, 0x1c31c384, 0xae7813db)
  {
    assert Uses(31, F2, 0, 0x8d2a4c8a, 20);
    assert Worked(F2, 0xa0572807, 0x1c31c384, 0xae7813db, 0x13707036, 0, 0x8d2a4c8a, 20, 0xbc3843cd, 0xe9b9b85e, 0xe9b9b85e, 20, 0x85ee9b9b, 0x85ee9b9b, 0xa2205f1f);
  }

  lemma {:induction false} Step32(p: (nat, Word, Word, Word, Word) -> bool)
    requires Survives(p) && p(32, 0x13707036, 0xa2205f1f, 0x1c31c384, 0xae7813db)
    ensures p(33, 0xae7813db, 0xdf63eaa1, 0xa2205f1f, 0x1c31c384)
  {
    assert Uses(32, F3, 0, 0xfffa3942, 4);
    assert Worked(F3, 0x13707036, 0xa2205f1f, 0x1c31c384, 0xae7813db, 0, 0xfffa3942, 4, 0x10698f40, 0x23d438b8, 0x23d438b8, 4, 0x3d438b82, 0x3d438b82, 0xdf63eaa1);
  }

  lemma {:induction false} Step33(p: (nat, Word, Word, Word, Word) -> bool)
    requires Survives(p) && p(33, 0xae7813db, 0xdf63eaa1, 0xa2205f1f, 0x1c31c384)
    ensures p(34, 0x1c31c384, 0xc3689f5b, 0xdf63eaa1, 0xa2205f1f)
  {
    assert Uses(33, F3, 0, 0x8771f681, 11);
    assert Worked(F3, 0xae7813db, 0xdf63eaa1, 0xa2205f1f, 0x1c31c384, 0, 0x8771f681, 11, 0x6172763a, 0x975c8096, 0x975c8096, 11, 0xe404b4ba, 0xe404b4ba, 0xc3689f5b);
  }

  lemma {:induction false} Step34(p: (nat, Word, Word, Word, Word) -> bool)
    requires Survives(p) && p(34, 0x1c31c384, 0xc3689f5b, 0xdf63eaa1, 0xa2205f1f)
    ensures p(35, 0xa2205f1f, 0x12f3e755, 0xc3689f5b, 0xdf63eaa1)
  {
    assert Uses(34, F3, 0, 0x6d9d6122, 16);
    assert Worked(F3, 0x1c31c384, 0xc3689f5b, 0xdf63eaa1, 0xa2205f1f, 0, 0x6d9d6122, 16, 0xbe2b2ae5, 0x47fa4f8b, 0x47fa4f8b, 16, 0x4f8b47fa, 0x4f8b47fa, 0x12f3e755);
  }

  lemma {:induction false} Step35(p: (nat, Word, Word, Word, Word) -> bool)
    requires Survives(p) && p(35, 0xa2205f1f, 0x12f3e755, 0xc3689f5b, 0xdf63eaa1)
    ensures p(36, 0xdf63eaa1, 0x004b6669, 0x12f3e755, 0xc3689f5b)
  {
    assert Uses(35, F3, 0, 0xfde5380c, 23);
    assert Worked(F3, 0xa2205f1f, 0x12f3e755, 0xc3689f5b, 0xdf63eaa1, 0, 0xfde5380c, 23, 0x0ef892af, 0xaefe29da, 0xaefe29da, 23, 0xed577f14, 0xed577f14, 0x004b6669);
  }

  lemma {:induction false} Step36(p: (nat, Word, Word, Word, Word) -> bool)
    requires Survives(p) && p(36, 0xdf63eaa1, 0x004b6669, 0x12f3e755, 0xc3689f5b)
    ensures p(37, 0xc3689f5b, 0x5f7a9b2e, 0x004b6669, 0x12f3e755)
  {
    assert Uses(36, F3, 0, 0xa4beea44, 4);
    assert Worked(F3, 0xdf63eaa1, 0x004b6669, 0x12f3e755, 0xc3689f5b, 0, 0xa4beea44, 4, 0xd1d01e67, 0x55f2f34c, 0x55f2f34c, 4, 0x5f2f34c5, 0x5f2f34c5, 0x5f7a9b2e);
  }

  lemma {:induction false} Step37(p: (nat, Word, Word, Word, Word) -> bool)
    requires Survives(p) && p(37, 0xc3689f5b, 0x5f7a9b2e, 0x004b6669, 0x12f3e755)
    ensures p(38, 0x12f3e755, 0xabc34e16, 0x5f7a9b2e, 0x004b6669)
  {
    assert Uses(37, F3, 0, 0x4bdecfa9, 11);
    assert Worked(F3, 0xc3689f5b, 0x5f7a9b2e, 0x004b6669, 0x12f3e755, 0, 0x4bdecfa9, 11, 0x4dc21a12, 0x5d098916, 0x5d098916, 11, 0x4c48b2e8, 0x4c48b2e8, 0xabc34e16);
  }

  lemma {:induction false} Step38(p: (nat, Word, Word, Word, Word) -> bool)
    requires Survives(p) && p(38, 0x12f3e755, 0xabc34e16, 0x5f7a9b2e, 0x004b6669)
    ensures p(39, 0x004b6669, 0x91ca4cb7, 0xabc34e16, 0x5f7a9b2e)
  {
    assert Uses(38, F3, 0, 0xf6bb4b60, 16);
    assert Worked(F3, 0x12f3e755, 0xabc34e16, 0x5f7a9b2e, 0x004b6669, 0, 0xf6bb4b60, 16, 0xf4f2b351, 0xfea1e606, 0xfea1e606, 16, 0xe606fea1, 0xe606fea1, 0x91ca4cb7);
  }

  lemma {:induction false} Step39(p: (nat, Word, Word, Word, Word) -> bool)
    requires Survives(p) && p(39, 0x004b6669, 0x91ca4cb7, 0xabc34e16, 0x5f7a9b2e)
    ensures p(40, 0x5f7a9b2e, 0xc5dc8c15, 0x91ca4cb7, 0xabc34e16)
  {
    assert Uses(39, F3, 0, 0xbebfbc70, 23);
    assert Worked(F3, 0x004b6669, 0x91ca4cb7, 0xabc34e16, 0x5f7a9b2e, 0, 0xbebfbc70, 23, 0x6573998f, 0x247ebc68, 0x247ebc68, 23, 0x34123f5e, 0x34123f5e, 0xc5dc8c15);
  }

  lemma {:induction false} Step40(p: (nat, Word, Word, Word, Word) -> bool)
    requires Survives(p) && p(40, 0x5f7a9b2e, 0xc5dc8c15, 0x91ca4cb7, 0xabc34e16)
    ensures p(41, 0xabc34e16, 0x4497169d, 0xc5dc8c15, 0x91ca4cb7)
  {
    assert Uses(40, F3, 0, 0x289b7ec6, 4);
    assert Worked(F3, 0x5f7a9b2e, 0xc5dc8c15, 0x91ca4cb7, 0xabc34e16, 0, 0x289b7ec6, 4, 0xffd58eb4, 0x87eba8a8, 0x87eba8a8, 4, 0x7eba8a88, 0x7eba8a88, 0x4497169d);
  }

  lemma {:induction false} Step41(p: (nat, Word, Word, Word, Word) -> bool)
    requires Survives(p) && p(41, 0xabc34e16, 0x4497169d, 0xc5dc8c15, 0x91ca4cb7)
    ensures p(42, 0x91ca4cb7, 0x76fd93d4, 0x4497169d, 0xc5dc8c15)
  {
    assert Uses(41, F3, 0x80, 0xeaa127fa, 11);
    assert Worked(F3, 0xabc34e16, 0x4497169d, 0xc5dc8c15, 0x91ca4cb7, 0x80, 0xeaa127fa, 11, 0x1081d63f, 0xa6e64ccf, 0xa6e64ccf, 11, 0x32667d37, 0x32667d37, 0x76fd93d4);
  }

  lemma {:induction false} Step42(p: (nat, Word, Word, Word, Word) -> bool)
    requires Survives(p) && p(42, 0x91ca4cb7, 0x76fd93d4, 0x4497169d, 0xc5dc8c15)
    ensures p(43, 0xc5dc8c15, 0xfd95f243, 0x76fd93d4, 0x4497169d)
  {
    assert Uses(42, F3, 0, 0xd4ef3085, 16);
    assert Worked(F3, 0x91ca4cb7, 0x76fd93d4, 0x4497169d, 0xc5dc8c15, 0, 0xd4ef3085, 16, 0xf7b6095c, 0x5e6f8698, 0x5e6f8698, 16, 0x86985e6f, 0x86985e6f, 0xfd95f243);
  }

  lemma {:induction false} Step43(p: (nat, Word, Word, Word, Word) -> bool)
    requires Survives(p) && p(43, 0xc5dc8c15, 0xfd95f243, 0x76fd93d4, 0x4497169d)
    ensures p(44, 0x4497169d, 0x0fe32453, 0xfd95f243, 0x76fd93d4)
  {
    assert Uses(43, F3, 0, 0x04881d05, 23);
    assert Worked(F3, 0xc5dc8c15, 0xfd95f243, 0x76fd93d4, 0x4497169d, 0, 0x04881d05, 23, 0xcfff770a, 0x9a642024, 0x9a642024, 23, 0x124d3210, 0x124d3210, 0x0fe32453);
  }

  lemma {:induction false} Step44(p: (nat, Word, Word, Word, Word) -> bool)
    requires Survives(p) && p(44, 0x4497169d, 0x0fe32453, 0xfd95f243, 0x76fd93d4)
    ensures p(45, 0x76fd93d4, 0x3f55edfd, 0x0fe32453, 0xfd95f243)
  {
    assert Uses(44, F3, 0, 0xd9d4d039, 4);
    assert Worked(F3, 0x4497169d, 0x0fe32453, 0xfd95f243, 0x76fd93d4, 0, 0xd9d4d039, 4, 0x848b45c4, 0xa2f72c9a, 0xa2f72c9a, 4, 0x2f72c9aa, 0x2f72c9aa, 0x3f55edfd);
  }

  lemma {:induction false} Step45(p: (nat, Word, Word, Word, Word) -> bool)
    requires Survives(p) && p(45, 0x76fd93d4, 0x3f55edfd, 0x0fe32453, 0xfd95f243)
    ensures p(46, 0xfd95f243, 0x22a31f54, 0x3f55edfd, 0x0fe32453)
  {
    assert Uses(45, F3, 0, 0xe6db99e5, 11);
    assert Worked(F3, 0x76fd93d4, 0x3f55edfd, 0x0fe32453, 0xfd95f243, 0, 0xe6db99e5, 11, 0xcd233bed, 0x2afc69a6, 0x2afc69a6, 11, 0xe34d3157, 0xe34d3157, 0x22a31f54);
  }

  lemma {:induction false} Step46(p: (nat, Word, Word, Word, Word) -> bool)
    requires Survives(p) && p(46, 0xfd95f243, 0x22a31f54, 0x3f55edfd, 0x0fe32453)
    ensures p(47, 0x0fe32453, 0x68d84ea2, 0x22a31f54, 0x3f55edfd)
  {
    assert Uses(46, F3, 0, 0x1fa27cf8, 16);
    assert Worked(F3, 0xfd95f243, 0x22a31f54, 0x3f55edfd, 0x0fe32453, 0, 0x1fa27cf8, 16, 0x1215d6fa, 0x2f4e4635, 0x2f4e4635, 16, 0x46352f4e, 0x46352f4e, 0x68d84ea2);
  }

  lemma {:induction false} Step47(p: (nat, Word, Word, Word, Word) -> bool)
    requires Survives(p) && p(47, 0x0fe32453, 0x68d84ea2, 0x22a31f54, 0x3f55edfd)
    ensures p(48, 0x3f55edfd, 0xca7d2dbd, 0x68d84ea2, 0x22a31f54)
  {
    assert Uses(47, F3, 0, 0xc4ac5665, 23);
    assert Worked(F3, 0x0fe32453, 0x68d84ea2, 0x22a31f54, 0x3f55edfd, 0, 0xc4ac5665, 23, 0x752ebc0b, 0x49be36c3, 0x49be36c3, 23, 0x61a4df1b, 0x61a4df1b, 0xca7d2dbd);
  }

  lemma {:induction false} Step48(p: (nat, Word, Word, Word, Word) -> bool)
    requires Survives(p) && p(48, 0x3f55edfd, 0xca7d2dbd, 0x68d84ea2, 0x22a31f54)
    ensures p(49, 0x22a31f54, 0x93aa2577, 0xca7d2dbd, 0x68d84ea2)
  {
    assert Uses(48, F4, 0x80, 0xf4292244, 6);
    assert Worked(F4, 0x3f55edfd, 0xca7d2dbd, 0x68d84ea2, 0x22a31f54, 0x80, 0xf4292244, 6, 0xb7a5a31d, 0xeb24b3de, 0xeb24b3de, 6, 0xc92cf7ba, 0xc92cf7ba, 0x93aa2577);
  }

  lemma {:induction false} Step49(p: (nat, Word, Word, Word, Word) -> bool)
    requires Survives(p) && p(49, 0x22a31f54, 0x93aa2577, 0xca7d2dbd, 0x68d84ea2)
    ensures p(50, 0x68d84ea2, 0x1688dc85, 0x93aa2577, 0xca7d2dbd)
  {
    assert Uses(49, F4, 0, 0x432aff97, 10);
    assert Worked(F4, 0x22a31f54, 0x93aa2577, 0xca7d2dbd, 0x68d84ea2, 0, 0x432aff97, 10, 0x5dd298c2, 0xc3a0b7ad, 0xc3a0b7ad, 10, 0x82deb70e, 0x82deb70e, 0x1688dc85);
  }

  lemma {:induction false} Step50(p: (nat, Word, Word, Word, Word) -> bool)
    requires Survives(p) && p(50, 0x68d84ea2, 0x1688dc85, 0x93aa2577, 0xca7d2dbd)
    ensures p(51, 0xca7d2dbd, 0xcd85b8cb, 0x1688dc85, 0x93aa2577)
  {
    assert Uses(50, F4, 0, 0xab9423a7, 15);
    assert Worked(F4, 0x68d84ea2, 0x1688dc85, 0x93aa2577, 0xca7d2dbd, 0, 0xab9423a7, 15, 0xa420fbb0, 0xb88d6df9, 0xb88d6df9, 15, 0xb6fcdc46, 0xb6fcdc46, 0xcd85b8cb);
  }

  lemma {:induction false} Step51(p: (nat, Word, Word, Word, Word) -> bool)
    requires Survives(p) && p(51, 0xca7d2dbd, 0xcd85b8cb, 0x1688dc85, 0x93aa2577)
    ensures p(52, 0x93aa2577, 0x561e0689, 0xcd85b8cb, 0x1688dc85)
  {
    assert Uses(51, F4, 0, 0xfc93a039, 21);
    assert Worked(F4, 0xca7d2dbd, 0xcd85b8cb, 0x1688dc85, 0x93aa2577, 0, 0xfc93a039, 21, 0xfb5d264e, 0xc26df444, 0xc26df444, 21, 0x88984dbe, 0x88984dbe, 0x561e0689);
  }

  lemma {:induction false} Step52(p: (nat, Word, Word, Word, Word) -> bool)
    requires Survives(p) && p(52, 0x93aa2577, 0x561e0689, 0xcd85b8cb, 0x1688dc85)
    ensures p(53, 0x1688dc85, 0x5625a114, 0x561e0689, 0xcd85b8cb)
  {
    assert Uses(52, F4, 0, 0x655b59c3, 6);
    assert Worked(F4, 0x93aa2577, 0x561e0689, 0xcd85b8cb, 0x1688dc85, 0, 0x655b59c3, 6, 0x32fa9f30, 0x2c001e6a, 0x2c001e6a, 6, 0x00079a8b, 0x00079a8b, 0x5625a114);
  }

  lemma {:induction false} Step53(p: (nat, Word, Word, Word, Word) -> bool)
    requires Survives(p) && p(53, 0x1688dc85, 0x5625a114, 0x561e0689, 0xcd85b8cb)
    ensures p(54, 0xcd85b8cb, 0x3450f42b, 0x5625a114, 0x561e0689)
  {
    assert Uses(53, F4, 0, 0x8f0ccc92, 10);
    assert Worked(F4, 0x1688dc85, 0x5625a114, 0x561e0689, 0xcd85b8cb, 0, 0x8f0ccc92, 10, 0x2061e1bd, 0xc5f78ad4, 0xc5f78ad4, 10, 0xde2b5317, 0xde2b5317, 0x3450f42b);
  }

  lemma {:induction false} Step54(p: (nat, Word, Word, Word, Word) -> bool)
    requires Survives(p) && p(54, 0xcd85b8cb, 0x3450f42b, 0x5625a114, 0x561e0689)
    ensures p(55, 0x561e0689, 0x392ad0d0, 0x3450f42b, 0x5625a114)
  {
    assert Uses(54, F4, 0, 0xffeff47d, 15);
    assert Worked(F4, 0xcd85b8cb, 0x3450f42b, 0x5625a114, 0x561e0689, 0, 0xffeff47d, 15, 0xebd45c6b, 0xb94a09b3, 0xb94a09b3, 15, 0x04d9dca5, 0x04d9dca5, 0x392ad0d0);
  }

  lemma {:induction false} Step55(p: (nat, Word, Word, Word, Word) -> bool)
    requires Survives(p) && p(55, 0x561e0689, 0x392ad0d0, 0x3450f42b, 0x5625a114)
    ensures p(56, 0x5625a114, 0x1e77fa61, 0x392ad0d0, 0x3450f42b)
  {
    assert Uses(55, F4, 0, 0x85845dd1, 21);
    assert Worked(F4, 0x561e0689, 0x392ad0d0, 0x3450f42b, 0x5625a114, 0, 0x85845dd1, 21, 0x8daa2ad0, 0x694c8f2a, 0x694c8f2a, 21, 0xe54d2991, 0xe54d2991, 0x1e77fa61);
  }

  lemma {:induction false} Step56(p: (nat, Word, Word, Word, Word) -> bool)
    requires Survives(p) && p(56, 0x5625a114, 0x1e77fa61, 0x392ad0d0, 0x3450f42b)
    ensures p(57, 0x3450f42b, 0x474a9c8c, 0x1e77fa61, 0x392ad0d0)
  {
    assert Uses(56, F4, 0, 0x6fa87e4f, 6);
    assert Worked(F4, 0x5625a114, 0x1e77fa61, 0x392ad0d0, 0x3450f42b, 0, 0x6fa87e4f, 6, 0xe6d52b25, 0xaca34a88, 0xaca34a88, 6, 0x28d2a22b, 0x28d2a22b, 0x474a9c8c);
  }

  lemma {:induction false} Step57(p: (nat, Word, Word, Word, Word) -> bool)
    requires Survives(p) && p(57, 0x3450f42b, 0x474a9c8c, 0x1e77fa61, 0x392ad0d0)
    ensures p(58, 0x392ad0d0, 0xdfce00bc, 0x474a9c8c, 0x1e77fa61)
  {
    assert Uses(57, F4, 0, 0xfe2ce6e0, 10);
    assert Worked(F4, 0x3450f42b, 0x474a9c8c, 0x1e77fa61, 0x392ad0d0, 0, 0xfe2ce6e0, 10, 0xd9a845ce, 0x0c2620d9, 0x0c2620d9, 10, 0x98836430, 0x98836430, 0xdfce00bc);
  }

  lemma {:induction false} Step58(p: (nat, Word, Word, Word, Word) -> bool)
    requires Survives(p) && p(58, 0x392ad0d0, 0xdfce00bc, 0x474a9c8c, 0x1e77fa61)
    ensures p(59, 0x1e77fa61, 0x36594b14, 0xdfce00bc, 0x474a9c8c)
  {
    assert Uses(58, F4, 0, 0xa3014314, 15);
    assert Worked(F4, 0x392ad0d0, 0xdfce00bc, 0x474a9c8c, 0x1e77fa61, 0, 0xa3014314, 15, 0xb8849932, 0x94b0ad16, 0x94b0ad16, 15, 0x568b4a58, 0x568b4a58, 0x36594b14);
  }

  lemma {:induction false} Step59(p: (nat, Word, Word, Word, Word) -> bool)
    requires Survives(p) && p(59, 0x1e77fa61, 0x36594b14, 0xdfce00bc, 0x474a9c8c)
    ensures p(60, 0x474a9c8c, 0x30130182, 0x36594b14, 0xdfce00bc)
  {
    assert Uses(59, F4, 0, 0x4e0811a1, 21);
    assert Worked(F4, 0x1e77fa61, 0x36594b14, 0xdfce00bc, 0x474a9c8c, 0, 0x4e0811a1, 21, 0x61336bcb, 0xcdb377cd, 0xcdb377cd, 21, 0xf9b9b66e, 0xf9b9b66e, 0x30130182);
  }

  lemma {:induction false} Step60(p: (nat, Word, Word, Word, Word) -> bool)
    requires Survives(p) && p(60, 0x474a9c8c, 0x30130182, 0x36594b14, 0xdfce00bc)
    ensures p(61, 0xdfce00bc, 0x7246fad3, 0x30130182, 0x36594b14)
  {
    assert Uses(60, F4, 0, 0xf7537e82, 6);
    assert Worked(F4, 0x474a9c8c, 0x30130182, 0x36594b14, 0xdfce00bc, 0, 0xf7537e82, 6, 0x066ab4d7, 0x4508cfe5, 0x4508cfe5, 6, 0x4233f951, 0x4233f951, 0x7246fad3);
  }

  lemma {:induction false} Step61(p: (nat, Word, Word, Word, Word) -> bool)
    requires Survives(p) && p(61, 0xdfce00bc, 0x7246fad3, 0x30130182, 0x36594b14)
    ensures p(62, 0x36594b14, 0x6e10a476, 0x7246fad3, 0x30130182)
  {
    assert Uses(61, F4, 0, 0xbd3af235, 10);
    assert Worked(F4, 0xdfce00bc, 0x7246fad3, 0x30130182, 0x36594b14, 0, 0xbd3af235, 10, 0xcbf5ff79, 0x68fef26a, 0x68fef26a, 10, 0xfbc9a9a3, 0xfbc9a9a3, 0x6e10a476);
  }

  lemma {:induction false} Step62(p: (nat, Word, Word, Word, Word) -> bool)
    requires Survives(p) && p(62, 0x36594b14, 0x6e10a476, 0x7246fad3, 0x30130182)
    ensures p(63, 0x30130182, 0xff4ea3eb, 0x6e10a476, 0x7246fad3)
  {
    assert Uses(62, F4, 0, 0x2ad7d2bb, 15);
    assert Worked(F4, 0x36594b14, 0x6e10a476, 0x7246fad3, 0x30130182, 0, 0x2ad7d2bb, 15, 0x9dba04ac, 0xfeeb227b, 0xfeeb227b, 15, 0x913dff75, 0x913dff75, 0xff4ea3eb);
  }

  lemma {:induction false} Step63(p: (nat, Word, Word, Word, Word) -> bool)
    requires Survives(p) && p(63, 0x30130182, 0xff4ea3eb, 0x6e10a476, 0x7246fad3)
    ensures p(64, 0x7246fad3, 0x14e45506, 0xff4ea3eb, 0x6e10a476)
  {
    assert Uses(63, F4, 0, 0xeb86d391, 21);
    assert Worked(F4, 0x30130182, 0xff4ea3eb, 0x6e10a476, 0x7246fad3, 0, 0xeb86d391, 21, 0x91ef0399, 0xad88d8ac, 0xad88d8ac, 21, 0x1595b11b, 0x1595b11b, 0x14e45506);
  }

  // ------------------------------------------------------------ the standard's step

  /** The registers after the first `i` steps of the standard. */
  ghost predicate Registers(i: nat, a: Word, b: Word, c: Word, d: Word) {
    Steps(RfcStep, INITIAL, EmptyWords(), i) == State(a, b, c, d)
  }

  lemma {:induction false} SmallAmount(s: nat)
    requires s < 32
    ensures Amount(s % 32) == s as bv6
  {}

  lemma {:induction false} Rotates(u: Word, s: nat, bu: bv32, q: bv6, bv: bv32, v: Word)
    requires Turned(u, s, bu, q, bv, v)
    ensures RotateLeft(u, s) == v
  {
    BackAgain(bu);
    SmallAmount(s);
  }

  predicate IsSum(x: Word, sum: nat) { x == sum % 0x1_0000_0000 }

  lemma {:induction false} AddTo(x: Word, y: Word, sum: nat)
    requires IsSum(x, sum)
    ensures IsSum(Add(x, y), sum + y)
  {}

  lemma {:induction false} OneWord(x: Word)
    ensures IsSum(x, x) && ToWord(x) == x
  {}

  lemma {:induction false} FourWords(a: Word, f: Word, m: Word, t: Word)
    ensures IsSum(Add(Add(Add(a, f), m), ToWord(t)), a + f + m + t)
  {
    OneWord(a);
    OneWord(t);
    AddTo(a, f, a);
    AddTo(Add(a, f), m, a + f);
    AddTo(Add(Add(a, f), m), t, a + f + m);
  }

  lemma {:induction false} Sums(a: Word, f: Word, m: Word, t: Word, u: Word, b: Word, v: Word, r: Word)
    requires Summed(a, f, m, t, u, b, v, r)
    ensures Add(Add(Add(a, f), m), ToWord(t)) == u && Add(b, v) == r
  {
    FourWords(a, f, m, t);
  }

  lemma {:induction false} StepIs(k: Aux, a: Word, b: Word, c: Word, d: Word, m: Word, t: Word, s: nat,
                                  f: Word, u: Word, v: Word, r: Word)
    requires Auxiliary(k, b, c, d) == f && Add(Add(Add(a, f), m), ToWord(t)) == u && RotateLeft(u, s) == v && Add(b, v) == r
    ensures RfcStep(k, a, b, c, d, m, t, s) == r
  {}

  lemma {:induction false} WorkedIsRfc(
    k: Aux, a: Word, b: Word, c: Word, d: Word, m: Word, t: Word, s: nat,
    f: Word, u: Word, bu: bv32, q: bv6, bv: bv32, v: Word, r: Word)
    requires Worked(k, a, b, c, d, m, t, s, f, u, bu, q, bv, v, r)
    ensures RfcStep(k, a, b, c, d, m, t, s) == r
  {
    Rotates(u, s, bu, q, bv, v);
    Sums(a, f, m, t, u, b, v, r);
    StepIs(k, a, b, c, d, m, t, s, f, u, v, r);
  }

  lemma {:induction false} NextRegisters(i: nat, k: Aux, a: Word, b: Word, c: Word, d: Word, m: Word, t: Word, s: nat, r: Word)
    requires Registers(i, a, b, c, d) && Uses(i, k, m, t, s) && RfcStep(k, a, b, c, d, m, t, s) == r
    ensures Registers(i + 1, d, r, b, c)
  {}

  ghost function RfcRegisters(): (nat, Word, Word, Word, Word) -> bool {
    (i: nat, a: Word, b: Word, c: Word, d: Word) => Registers(i, a, b, c, d)
  }

  lemma {:induction false} RfcSurvives()
    ensures Survives(RfcRegisters())
  {
    var p := RfcRegisters();
    forall i: nat, k, a, b, c, d, m, t, s: nat, f, u, bu, q, bv, v, r |
      p(i, a, b, c, d) && Uses(i, k, m, t, s) && Worked(k, a, b, c, d, m, t, s, f, u, bu, q, bv, v, r)
      ensures p(i + 1, d, r, b, c)
    {
      WorkedIsRfc(k, a, b, c, d, m, t, s, f, u, bu, q, bv, v, r);
      NextRegisters(i, k, a, b, c, d, m, t, s, r);
    }
  }

  lemma {:induction false} AllSteps(p: (nat, Word, Word, Word, Word) -> bool)
    requires Survives(p) && p(0, INITIAL.a, INITIAL.b, INITIAL.c, INITIAL.d)
    ensures p(64, 0x7246fad3, 0x14e45506, 0xff4ea3eb, 0x6e10a476)
  {
    Steps0To1(p);
    Steps2To3(p);
    Steps4To5(p);
    Steps6To7(p);
    Steps8To9(p);
    Steps10To11(p);
    Steps12To13(p);
    Steps14To15(p);
    Step16(p);
    Step17(p);
    Step18(p);
    Step19(p);
    Step20(p);
    Step21(p);
    Step22(p);
    Step23(p);
    Step24(p);
    Step25(p);
    Step26(p);
    Step27(p);
    Step28(p);
    Step29(p);
    Step30(p);
    Step31(p);
    Step32(p);
    Step33(p);
    Step34(p);
    Step35(p);
    Step36(p);
    Step37(p);
    Step38(p);
    Step39(p);
    Step40(p);
    Step41(p);
    Step42(p);
    Step43(p);
    Step44(p);
    Step45(p);
    Step46(p);
    Step47(p);
    Step48(p);
    Step49(p);
    Step50(p);
    Step51(p);
    Step52(p);
    Step53(p);
    Step54(p);
    Step55(p);
    Step56(p);
    Step57(p);
    Step58(p);
    Step59(p);
    Step60(p);
    Step61(p);
    Step62(p);
    Step63(p);
  }

  lemma {:induction false} EmptyPadded()
    ensures |Padded([])| == 64 && Words(Padded([])) == EmptyWords()
  {
    var m: Bytes := [];
    var p := Padded(m);
    assert |Zeros(PadZeros(0))| == 55 && |p| == 64;
    assert forall i :: 0 <= i < 64 ==> p[i] == if i == 0 then 0x80 else 0;
    assert forall i :: 0 <= i < 16 ==> WordAt(p, i) == EmptyWords()[i];
  }

  lemma {:induction false} EmptyHash()
    ensures Hash(Padded([])) == AddStates(INITIAL, Steps(RfcStep, INITIAL, EmptyWords(), 64))
  {
    EmptyPadded();
    var p := Padded([]);
    assert p[..|p| - BLOCK] == [] && p[|p| - BLOCK..] == p;
  }

  /** MD5 ("") = d41d8cd98f00b204e9800998ecf8427e. */
  lemma {:induction false} EmptyDigest()
    ensures Digest([]) == [0xd4, 0x1d, 0x8c, 0xd9, 0x8f, 0x00, 0xb2, 0x04, 0xe9, 0x80, 0x09, 0x98, 0xec, 0xf8, 0x42, 0x7e]
  {
    RfcSurvives();
    AllSteps(RfcRegisters());
    EmptyHash();
    FinalState(0x7246fad3, 0x14e45506, 0xff4ea3eb, 0x6e10a476);
    DigestOf(AddStates(INITIAL, State(0x7246fad3, 0x14e45506, 0xff4ea3eb, 0x6e10a476)));
  }

  lemma {:induction false} FinalState(a: Word, b: Word, c: Word, d: Word)
    requires a == 0x7246fad3 && b == 0x14e45506 && c == 0xff4ea3eb && d == 0x6e10a476
    ensures AddStates(INITIAL, State(a, b, c, d)) == State(0xd98c1dd4, 0x04b2008f, 0x980980e9, 0x7e42f8ec)
  {}

  lemma {:induction false} FirstBytes(w: nat)
    requires w == 0xd98c1dd4
    ensures WordBytes(w) == [0xd4, 0x1d, 0x8c, 0xd9]
  {}

  lemma {:induction false} SecondBytes(w: nat)
    requires w == 0x04b2008f
    ensures WordBytes(w) == [0x8f, 0x00, 0xb2, 0x04]
  {}

  lemma {:induction false} ThirdBytes(w: nat)
    requires w == 0x980980e9
    ensures WordBytes(w) == [0xe9, 0x80, 0x09, 0x98]
  {}

  lemma {:induction false} LastBytes(w: nat)
    requires w == 0x7e42f8ec
    ensures WordBytes(w) == [0xec, 0xf8, 0x42, 0x7e]
  {}

  lemma {:induction false} DigestOf(s: MdState)
    requires s == State(0xd98c1dd4, 0x04b2008f, 0x980980e9, 0x7e42f8ec)
    ensures DigestBytes(s) == [0xd4, 0x1d, 0x8c, 0xd9, 0x8f, 0x00, 0xb2, 0x04, 0xe9, 0x80, 0x09, 0x98, 0xec, 0xf8, 0x42, 0x7e]
  {
    FirstBytes(s.a);
    SecondBytes(s.b);
    ThirdBytes(s.c);
    LastBytes(s.d);
  }
}
