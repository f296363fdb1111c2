/** Streaming MD5: a buffered context against the one-shot definition of RFC 1321. */
module Md5 {
  import opened Arith
  import opened Md5Schedule
  import opened Md5Bits
  import opened Md5Compress

  const BLOCK := 64
  const TWO32 := 0x1_0000_0000
  const TWO64 := 0x1_0000_0000_0000_0000

  type Bytes = seq<byte>

  // ------------------------------------------------ the one-shot definition

  const INITIAL: MdState := State(0x67452301, 0xefcdab89, 0x98badcfe, 0x10325476)

  /** The state after all complete blocks of `m`. */
  function Hash(m: Bytes): MdState
    decreases |m|
  {
    if |m| < BLOCK then INITIAL
    else Compress(Hash(m[..|m| - BLOCK]), m[|m| - BLOCK..])
  }

  function Zeros(n: nat): (z: Bytes)
    ensures |z| == n
  {
    seq(n, _ => 0)
  }

  /** A 32-bit word as four bytes, low-order byte first. */
  function WordBytes(w: nat): (b: Bytes)
    ensures |b| == 4
  {
    [(w % 0x100) as byte, (w / 0x100 % 0x100) as byte, (w / 0x1_0000 % 0x100) as byte, (w / 0x100_0000 % 0x100) as byte]
  }

  lemma {:induction false} BytePowers()
    ensures Pow2(0) == 1 && Pow2(8) == 0x100 && Pow2(16) == 0x1_0000 && Pow2(24) == 0x100_0000
  {
    assert Pow2(4) == 16;
    PowersAdd(4, 4);
    PowersAdd(8, 8);
    PowersAdd(8, 16);
  }

  /** Byte `j` of a word counts 2^(8 j) each, low-order byte first. */
  lemma {:induction false} BytesOfWord(w: Word, j: nat)
    requires j < 4
    ensures WordBytes(w)[j] as int == w / Pow2(8 * j) % 0x100
  {
    BytePowers();
  }

  /** And a word read from a block has the block's bytes there. */
  lemma {:induction false} WordOfBytes(block: Bytes, i: nat, j: nat)
    requires |block| == BLOCK && i < 16 && j < 4
    ensures WordAt(block, i) / Pow2(8 * j) % 0x100 == block[4 * i + j] as int
  {
    BytePowers();
    FourBytes(block[4 * i] as int, block[4 * i + 1] as int, block[4 * i + 2] as int, block[4 * i + 3] as int);
  }

  lemma {:induction false} FourBytes(a: nat, b: nat, c: nat, d: nat)
    requires a < 0x100 && b < 0x100 && c < 0x100 && d < 0x100
    ensures var w := a + 0x100 * b + 0x1_0000 * c + 0x100_0000 * d;
            w % 0x100 == a && w / 0x100 % 0x100 == b && w / 0x1_0000 % 0x100 == c && w / 0x100_0000 % 0x100 == d
  {
    var w := a + 0x100 * b + 0x1_0000 * c + 0x100_0000 * d;
    LowByte(a, b + 0x100 * c + 0x1_0000 * d);
    LowByte(b, c + 0x100 * d);
    LowByte(c, d);
    ByteQuotients(w);
  }

  lemma {:induction false} LowByte(a: nat, rest: nat)
    requires a < 0x100
    ensures (a + 0x100 * rest) % 0x100 == a && (a + 0x100 * rest) / 0x100 == rest
  {}

  lemma {:induction false} ByteQuotients(w: nat)
    ensures w / 0x1_0000 == w / 0x100 / 0x100 && w / 0x100_0000 == w / 0x100 / 0x100 / 0x100
  {}

  /** Reading back the bytes of a word gives the word. */
  lemma {:induction false} WordReadsBack(block: Bytes, i: nat, w: Word)
    requires |block| == BLOCK && i < 16 && block[4 * i..4 * i + 4] == WordBytes(w)
    ensures WordAt(block, i) == w
  {
    var b := block[4 * i..4 * i + 4];
    assert b[0] == block[4 * i] && b[1] == block[4 * i + 1] && b[2] == block[4 * i + 2] && b[3] == block[4 * i + 3];
    BytesAddUp(w);
  }

  lemma {:induction false} BytesAddUp(w: Word)
    ensures w == w % 0x100 + 0x100 * (w / 0x100 % 0x100) + 0x1_0000 * (w / 0x1_0000 % 0x100) + 0x100_0000 * (w / 0x100_0000 % 0x100)
  {
    ByteQuotients(w);
    LastByte(w);
    LastByte(w / 0x100);
    LastByte(w / 0x100 / 0x100);
    LastByte(w / 0x100 / 0x100 / 0x100);
  }

  lemma {:induction false} LastByte(w: nat)
    ensures w == w % 0x100 + 0x100 * (w / 0x100) && (w < 0x100 ==> w % 0x100 == w)
  {}

  /** The number of zero bytes after the 0x80, section 3.1. */
  function PadZeros(n: nat): nat { (119 - n % BLOCK) % BLOCK }

  lemma {:induction false} PadZerosFit(n: nat)
    ensures (n + 1 + PadZeros(n)) % BLOCK == 56 && PadZeros(n) < BLOCK
    ensures PadZeros(n) == if n % BLOCK < 56 then 55 - n % BLOCK else 119 - n % BLOCK
  {}

  /** The length in bits modulo 2^64, low-order word first, section 3.2. */
  function LengthBytes(n: nat): (b: Bytes)
    ensures |b| == 8
  {
    var bits := 8 * n % TWO64;
    WordBytes(bits % TWO32) + WordBytes(bits / TWO32)
  }

  /** The eight bytes are the number of bits modulo 2^64, low-order byte first. */
  lemma {:induction false} LengthIsBits(n: nat)
    ensures var b := LengthBytes(n);
            var low := b[0] as int + 0x100 * b[1] as int + 0x1_0000 * b[2] as int + 0x100_0000 * b[3] as int;
            var high := b[4] as int + 0x100 * b[5] as int + 0x1_0000 * b[6] as int + 0x100_0000 * b[7] as int;
            low + 0x1_0000_0000 * high == 8 * n % 0x1_0000_0000_0000_0000
  {
    var bits := 8 * n % TWO64;
    BytesAddUp(bits % TWO32);
    BytesAddUp(bits / TWO32);
  }

  /** The message, a one bit and zeros up to 56 bytes modulo 64. */
  function Filled(m: Bytes): Bytes { m + ([0x80] + Zeros(PadZeros(|m|))) }

  function Padded(m: Bytes): Bytes { Filled(m) + LengthBytes(|m|) }

  /** The four words as sixteen bytes. */
  function DigestBytes(s: MdState): (d: Bytes)
    ensures |d| == 16
  {
    WordBytes(s.a) + WordBytes(s.b) + WordBytes(s.c) + WordBytes(s.d)
  }

  function Digest(m: Bytes): Bytes {
    DigestBytes(Hash(Padded(m)))
  }

  /** The padded message is whole blocks, and no shorter padding would do. */
  lemma {:induction false} PaddedIsWhole(m: Bytes)
    ensures |Padded(m)| % BLOCK == 0 && m <= Padded(m)
    ensures forall k :: |m| + 9 <= k < |Padded(m)| ==> k % BLOCK != 0
  {
    var t := |m| + 1 + PadZeros(|m|);
    PadZerosFit(|m|);
    assert |Padded(m)| == t + 8;
    assert t == BLOCK * (t / BLOCK) + 56;
    DivUnique(t + 8, BLOCK, t / BLOCK + 1);
    forall k | |m| + 9 <= k < |Padded(m)| ensures k % BLOCK != 0 {
      DivUnique(k, BLOCK, t / BLOCK);
    }
  }

  // ----------------------------------------------------------------- chunks

  /** The complete blocks of a message, and what is left. */
  function Whole(m: Bytes): Bytes { m[..|m| - |m| % BLOCK] }
  function Tail(m: Bytes): Bytes { m[|m| - |m| % BLOCK..] }

  lemma {:induction false} HashOneMore(m: Bytes, block: Bytes)
    requires |block| == BLOCK
    ensures Hash(m + block) == Compress(Hash(m), block)
  {}

  /** The two-word bit count after `n` bytes, up to overflows of the high word. */
  ghost predicate CountsBits(lo: nat, hi: nat, n: nat) {
    lo < TWO32 && hi < TWO32 && exists overflows: nat :: Counted(overflows, lo, hi, n)
  }

  predicate Counted(overflows: nat, lo: nat, hi: nat, n: nat) {
    8 * n == overflows * TWO64 + hi * TWO32 + lo
  }

  lemma {:induction false} CountSplits(lo: nat, hi: nat, n: nat)
    requires CountsBits(lo, hi, n)
    ensures 8 * n % TWO64 % TWO32 == lo && 8 * n % TWO64 / TWO32 == hi
    ensures lo / 8 % BLOCK == n % BLOCK
  {
    var q: nat :| Counted(q, lo, hi, n);
    DivUnique(8 * n, TWO64, q);
    DivUnique(hi * TWO32 + lo, TWO32, hi);
    var blocks := q * 0x80_0000_0000_0000 + hi * 0x80_0000;
    assert n == BLOCK * blocks + lo / 8;
    SameRemainder(n, lo / 8, blocks);
  }

  lemma {:induction false} SameRemainder(n: nat, r: nat, blocks: nat)
    requires n == BLOCK * blocks + r
    ensures n % BLOCK == r % BLOCK
  {}

  lemma {:induction false} LowWordAdds(lo: nat, x: nat)
    requires lo < TWO32 && x < TWO32
    ensures var lo' := (lo + x) % TWO32;
            lo' + (if lo' < lo then TWO32 else 0) == lo + x
  {}

  lemma {:induction false} HighWordAdds(hi: nat, c: nat, up: nat)
    requires hi < TWO32 && c <= 1
    ensures (if c == 1 then (hi + 1) % TWO32 else hi) % TWO32 == (hi + c) % TWO32
    ensures ((hi + c) % TWO32 + up) % TWO32 == (hi + c + up) % TWO32
  {}

  lemma {:induction false} JoinWords(lo: nat, high: nat, q: nat, n: nat)
    requires lo < TWO32 && 8 * n == q * TWO64 + high * TWO32 + lo
    ensures CountsBits(lo, high % TWO32, n)
  {
    var r := high / TWO32;
    assert high == r * TWO32 + high % TWO32;
    assert Counted(q + r, lo, high % TWO32, n);
  }

  /** Adding to the low word carries into the high one exactly when the low word shrinks. */
  lemma {:induction false} CarryAdds(lo: nat, hi: nat, n: nat, len: nat)
    requires CountsBits(lo, hi, n) && len < TWO32
    ensures var lo' := (lo + len * 8 % TWO32) % TWO32;
            var hi' := ((if lo' < lo then (hi + 1) % TWO32 else hi) + len / 0x2000_0000) % TWO32;
            CountsBits(lo', hi', n + len)
  {
    var x, up := len * 8 % TWO32, len / 0x2000_0000;
    assert len * 8 == up * TWO32 + x;
    var lo' := (lo + x) % TWO32;
    var c := if lo' < lo then 1 else 0;
    LowWordAdds(lo, x);
    HighWordAdds(hi, c, up);
    var q: nat :| Counted(q, lo, hi, n);
    JoinWords(lo', hi + c + up, q, n + len);
  }

  // ---------------------------------------------------------------- the context

  /** What a context with these words, counters and buffer has absorbed: the words hash the complete blocks,
      the buffer begins with the tail, and the counters hold the length in bits. */
  ghost predicate Represents(st: MdState, lo: nat, hi: nat, held: Bytes, m: Bytes) {
    CountsBits(lo, hi, |m|) && Holds(st, held, m)
  }

  predicate Holds(st: MdState, held: Bytes, m: Bytes) {
    |held| == BLOCK && st == Hash(Whole(m)) && held[..|m| % BLOCK] == Tail(m)
  }

  /** A message splits in only one way into complete blocks and a shorter rest. */
  lemma {:induction false} OneSplit(a: Bytes, rest: Bytes)
    requires |a| % BLOCK == 0 && |rest| < BLOCK
    ensures Whole(a + rest) == a && Tail(a + rest) == rest && |a + rest| % BLOCK == |rest|
  {}

  lemma {:induction false} WholeIsWhole(m: Bytes)
    ensures |Whole(m)| % BLOCK == 0 && m == Whole(m) + Tail(m) && |Tail(m)| == |m| % BLOCK
  {}

  lemma {:induction false} Associates(a: Bytes, b: Bytes, c: Bytes)
    ensures a + b + c == a + (b + c)
  {}

  lemma {:induction false} NothingAhead(m: Bytes, data: Bytes)
    requires |m| % BLOCK == 0
    ensures m + data[..0] == m == Whole(m)
  {}

  lemma {:induction false} CutAt(m: Bytes, data: Bytes, i: nat)
    requires |m| % BLOCK == 0 && i % BLOCK == 0 && i <= |data|
    ensures m + data[..i] + data[i..] == m + data && |m + data[..i]| % BLOCK == 0
  {}

  /** Bytes that do not fill a block only join the tail. */
  lemma {:induction false} JustHeld(st: MdState, before: Bytes, held: Bytes, m: Bytes, data: Bytes)
    requires Holds(st, before, m) && |m| % BLOCK + |data| < BLOCK
    requires held == before[..|m| % BLOCK] + data + before[|m| % BLOCK + |data|..]
    ensures Holds(st, held, m + data)
  {
    WholeIsWhole(m);
    var rest := Tail(m) + data;
    Associates(Whole(m), Tail(m), data);
    OneSplit(Whole(m), rest);
    assert held[..|rest|] == rest;
  }

  /** After the complete blocks `a`, the buffer keeps the rest. */
  lemma {:induction false} RestHeld(st: MdState, held: Bytes, a: Bytes, rest: Bytes)
    requires |a| % BLOCK == 0 && |rest| < BLOCK
    requires st == Hash(a) && |held| == BLOCK && held[..|rest|] == rest
    ensures Holds(st, held, a + rest)
  {
    OneSplit(a, rest);
  }

  class Context {
    const buf: array<Word>
    const bits: array<nat>
    const inn: array<byte>
    ghost var msg: Bytes  // everything absorbed so far

    ghost function StateOf(): MdState
      requires buf.Length == 4
      reads buf
    {
      State(buf[0], buf[1], buf[2], buf[3])
    }

    ghost predicate Shaped() {
      buf.Length == 4 && bits.Length == 2 && inn.Length == BLOCK
    }

    ghost predicate Valid()
      reads this, buf, bits, inn
    {
      Shaped() && Represents(StateOf(), bits[0], bits[1], inn[..], msg)
    }

    constructor ()
      ensures Shaped() && fresh(buf) && fresh(bits) && fresh(inn)
    {
      buf := new Word[4](_ => 0);
      bits := new nat[2](_ => 0);
      inn := new byte[64](_ => 0);
    }

    method Init()
      requires Shaped()
      modifies this, buf, bits
      ensures Valid() && msg == []
    {
      buf[0] := 0x67452301;
      buf[1] := 0xefcdab89;
      buf[2] := 0x98badcfe;
      buf[3] := 0x10325476;
      bits[0] := 0;
      bits[1] := 0;
      assert Counted(0, 0, 0, 0);
      msg := [];
    }

    /** Copies bytes into the buffer. */
    method CopyIn(at: nat, data: Bytes)
      requires Shaped() && at + |data| <= BLOCK
      modifies inn
      ensures inn[..] == old(inn[..at]) + data + old(inn[at + |data|..])
    {
      forall i | 0 <= i < |data| {
        inn[at + i] := data[i];
      }
    }

    method TransformBlock()
      requires Shaped()
      modifies buf
      ensures StateOf() == Compress(old(StateOf()), inn[..])
    {
      Transform(buf, Words(inn[..]));
    }

    /** The 64-bit length, kept in two words. */
    method AddLength(len: nat, ghost total: nat)
      requires Shaped() && CountsBits(bits[0], bits[1], |msg|) && len < TWO32 && total == |msg| + len
      modifies bits
      ensures CountsBits(bits[0], bits[1], total)
    {
      CarryAdds(bits[0], bits[1], |msg|, len);
      var t := bits[0];
      bits[0] := (t + len * 8 % TWO32) % TWO32;
      if bits[0] < t {
        bits[1] := (bits[1] + 1) % TWO32;
      }
      bits[1] := (bits[1] + len / 0x2000_0000) % TWO32;
    }

    /** Absorbs one complete block after `m`. */
    method AbsorbOne(ghost m: Bytes, block: Bytes)
      requires Shaped() && |block| == BLOCK && StateOf() == Hash(m)
      modifies buf, inn
      ensures StateOf() == Hash(m + block)
    {
      CopyIn(0, block);
      assert inn[..] == block;
      TransformBlock();
      HashOneMore(m, block);
    }

    /** Absorbs the complete blocks of `data`, one by one. */
    method AbsorbBlocks(ghost m: Bytes, data: Bytes) returns (i: nat)
      requires Shaped() && StateOf() == Hash(m)
      modifies buf, inn
      ensures i <= |data| < i + BLOCK && i % BLOCK == 0 && StateOf() == Hash(m + data[..i])
    {
      i := 0;
      assert m + data[..0] == m;
      while |data| - i >= BLOCK
        invariant i <= |data| && i % BLOCK == 0
        invariant StateOf() == Hash(m + data[..i])
      {
        AbsorbOne(m + data[..i], data[i..i + BLOCK]);
        OneBlockOn(m, data, i);
        i := i + BLOCK;
      }
    }

    /** Absorbs a buffer filled up by the bytes after the tail. */
    method AbsorbFull(ghost head: Bytes)
      requires Shaped() && StateOf() == Hash(Whole(msg)) && inn[..] == Tail(msg) + head
      requires |msg| % BLOCK + |head| == BLOCK
      modifies buf
      ensures StateOf() == Hash(msg + head) && |msg + head| % BLOCK == 0
    {
      TransformBlock();
      HashOneMore(Whole(msg), Tail(msg) + head);
      FilledUp(msg, head);
    }

    /** Keeps the bytes after the complete blocks `m`. */
    method KeepRest(ghost m: Bytes, rest: Bytes)
      requires Shaped() && StateOf() == Hash(m) && |m| % BLOCK == 0 && |rest| < BLOCK
      modifies inn
      ensures Holds(StateOf(), inn[..], m + rest)
    {
      CopyIn(0, rest);
      RestHeld(StateOf(), inn[..], m, rest);
    }

    /** Absorbs the complete blocks that follow the complete blocks `m` and keeps what is left. */
    method AbsorbRest(ghost m: Bytes, data: Bytes)
      requires Shaped() && StateOf() == Hash(m) && |m| % BLOCK == 0
      modifies buf, inn
      ensures Holds(StateOf(), inn[..], m + data)
    {
      var i := AbsorbBlocks(m, data);
      CutAt(m, data, i);
      KeepRest(m + data[..i], data[i..]);
    }

    /** Puts the bytes after the `used` ones already held. */
    method Absorb(used: nat, data: Bytes)
      requires Shaped() && Holds(StateOf(), inn[..], msg) && used == |msg| % BLOCK
      modifies buf, inn
      ensures Holds(StateOf(), inn[..], msg + data)
    {
      if used != 0 {
        var head := BLOCK - used;
        if |data| < head {
          CopyIn(used, data);
          JustHeld(StateOf(), old(inn[..]), inn[..], msg, data);
        } else {
          FillUp(used, head, data);
        }
      } else {
        NothingAhead(msg, data);
        AbsorbRest(msg, data);
      }
    }

    /** Fills the buffer up, and goes on with what is left of the data. */
    method FillUp(used: nat, head: nat, data: Bytes)
      requires Shaped() && Holds(StateOf(), inn[..], msg) && 0 < used == |msg| % BLOCK
      requires head == BLOCK - used && head <= |data|
      modifies buf, inn
      ensures Holds(StateOf(), inn[..], msg + data)
    {
      var first, rest := data[..head], data[head..];
      assert data == first + rest;
      Associates(msg, first, rest);
      FillBlock(used, first);
      AbsorbRest(msg + first, rest);
    }

    /** Exactly as many bytes as the buffer still takes. */
    method FillBlock(used: nat, first: Bytes)
      requires Shaped() && Holds(StateOf(), inn[..], msg) && 0 < used == |msg| % BLOCK && used + |first| == BLOCK
      modifies buf, inn
      ensures StateOf() == Hash(msg + first) && |msg + first| % BLOCK == 0
    {
      CopyIn(used, first);
      AbsorbFull(first);
    }

    /** The number of bytes in the buffer, from the bit counter. */
    method Used() returns (t: nat)
      requires Shaped() && CountsBits(bits[0], bits[1], |msg|)
      ensures t == |msg| % BLOCK
    {
      CountSplits(bits[0], bits[1], |msg|);
      t := bits[0] / 8 % BLOCK;
    }

    /** Absorbs more of the message. */
    method Update(data: Bytes)
      requires Valid() && |data| < TWO32
      modifies this, buf, bits, inn
      ensures Valid() && msg == old(msg) + data
    {
      ghost var whole := msg + data;
      var t := Used();
      AddLength(|data|, |whole|);
      Absorb(t, data);
      msg := whole;
    }

    /** The padding does not leave room for the length: it ends this block and fills the next. */
    method EndBlock(from: nat, count: nat, ghost head: Bytes)
      requires Shaped() && StateOf() == Hash(Whole(msg)) && from + count == BLOCK
      requires inn[..from] + Zeros(count) == Tail(msg) + head && |msg| % BLOCK + |head| == BLOCK
      modifies buf, inn
      ensures Holds(StateOf(), inn[..], msg + head + Zeros(56))
    {
      CopyIn(from, Zeros(count));
      AbsorbFull(head);
      KeepRest(msg + head, Zeros(56));
    }

    /** Pads up to the place of the length, with a block of its own when that place is taken. */
    method Pad(used: nat)
      requires Shaped() && Holds(StateOf(), inn[..], msg) && used == |msg| % BLOCK
      modifies buf, inn
      ensures Holds(StateOf(), inn[..], Filled(msg))
    {
      ghost var before := inn[..];
      CopyIn(used, [0x80]);
      if BLOCK - 1 - used < 8 {
        PadOver(used, before);
      } else {
        PadWithin(used, before);
      }
    }

    method PadOver(used: nat, ghost before: Bytes)
      requires Shaped() && Holds(StateOf(), before, msg) && used == |msg| % BLOCK && BLOCK - 1 - used < 8
      requires Marked(before, inn[..], used)
      modifies buf, inn
      ensures Holds(StateOf(), inn[..], Filled(msg))
    {
      var count := BLOCK - 1 - used;
      ghost var head := [0x80] + Zeros(count);
      FirstPad(before, inn[..], used, Tail(msg), Zeros(count));
      EndBlock(used + 1, count, head);
      TwoLotsHeld(StateOf(), inn[..], msg, head);
    }

    method PadWithin(used: nat, ghost before: Bytes)
      requires Shaped() && Holds(StateOf(), before, msg) && used == |msg| % BLOCK && BLOCK - 1 - used >= 8
      requires Marked(before, inn[..], used)
      modifies inn
      ensures Holds(StateOf(), inn[..], Filled(msg))
    {
      ghost var marked := inn[..];
      var zeros := Zeros(BLOCK - 1 - used - 8);
      CopyIn(used + 1, zeros);
      PadTwice(before, marked, inn[..], used, zeros);
      JustHeld(StateOf(), before, inn[..], msg, [0x80] + zeros);
      OneLotHeld(StateOf(), inn[..], msg, zeros);
    }

    /** Puts the length at the end of the last block and absorbs it. */
    method AppendLength(ghost filled: Bytes, length: Bytes)
      requires Shaped() && Holds(StateOf(), inn[..], filled) && |filled| % BLOCK == 56 && |length| == 8
      modifies buf, inn
      ensures StateOf() == Hash(filled + length)
    {
      CopyIn(56, length);
      assert inn[..] == Tail(filled) + length;
      TransformBlock();
      WholeIsWhole(filled);
      HashOneMore(Whole(filled), Tail(filled) + length);
      Associates(Whole(filled), Tail(filled), length);
    }

    /** The length and the digest, after the padding. */
    method FinishDigest() returns (digest: Bytes)
      requires Shaped() && Holds(StateOf(), inn[..], Filled(msg)) && CountsBits(bits[0], bits[1], |msg|)
      modifies buf, inn
      ensures digest == Digest(msg)
    {
      CountSplits(bits[0], bits[1], |msg|);
      FilledRoom(msg);
      AppendLength(Filled(msg), WordBytes(bits[0]) + WordBytes(bits[1]));
      digest := DigestBytes(State(buf[0], buf[1], buf[2], buf[3]));
    }

    /** Appends the length and gives the digest; two of the four words of the state are cleared afterwards, and nothing else. */
    method Final() returns (digest: Bytes)
      requires Valid()
      modifies buf, inn
      ensures digest == Digest(msg)
      ensures buf[0] == 0 && buf[1] == 0
    {
      var used := Used();
      Pad(used);
      digest := FinishDigest();
      buf[0], buf[1] := 0, 0;
    }
  }

  /** The first byte of the padding is in its place. */
  predicate Marked(before: Bytes, marked: Bytes, used: nat) {
    used < |before| && marked == before[..used] + [0x80] + before[used + 1..]
  }

  lemma {:induction false} FirstPad(before: Bytes, marked: Bytes, used: nat, tail: Bytes, zeros: Bytes)
    requires Marked(before, marked, used) && before[..used] == tail
    ensures marked[..used + 1] + zeros == tail + ([0x80] + zeros)
  {}

  /** Two pieces put one after the other are one piece. */
  lemma {:induction false} PadTwice(before: Bytes, marked: Bytes, held: Bytes, used: nat, zeros: Bytes)
    requires Marked(before, marked, used) && used + 1 + |zeros| <= |before|
    requires held == marked[..used + 1] + zeros + marked[used + 1 + |zeros|..]
    ensures held == before[..used] + ([0x80] + zeros) + before[used + |[0x80] + zeros|..]
  {}

  lemma {:induction false} OneLot(m: Bytes)
    requires |m| % BLOCK < 56
    ensures Filled(m) == m + ([0x80] + Zeros(55 - |m| % BLOCK))
  {
    PadZerosFit(|m|);
  }

  lemma {:induction false} TwoLots(m: Bytes)
    requires |m| % BLOCK >= 56
    ensures Filled(m) == m + ([0x80] + Zeros(63 - |m| % BLOCK)) + Zeros(56)
  {
    PadZerosFit(|m|);
    assert Zeros(119 - |m| % BLOCK) == Zeros(63 - |m| % BLOCK) + Zeros(56);
  }

  lemma {:induction false} FilledRoom(m: Bytes)
    ensures |Filled(m)| % BLOCK == 56
  {
    PadZerosFit(|m|);
  }

  /** A buffer that holds the message and its padding, in one lot or in two. */
  lemma {:induction false} OneLotHeld(st: MdState, held: Bytes, m: Bytes, zeros: Bytes)
    requires |m| % BLOCK < 56 && zeros == Zeros(55 - |m| % BLOCK) && Holds(st, held, m + ([0x80] + zeros))
    ensures Holds(st, held, Filled(m))
  {
    OneLot(m);
  }

  lemma {:induction false} TwoLotsHeld(st: MdState, held: Bytes, m: Bytes, head: Bytes)
    requires |m| % BLOCK >= 56 && head == [0x80] + Zeros(63 - |m| % BLOCK) && Holds(st, held, m + head + Zeros(56))
    ensures Holds(st, held, Filled(m))
  {
    TwoLots(m);
  }

  lemma {:induction false} FilledUp(msg: Bytes, head: Bytes)
    requires |msg| % BLOCK + |head| == BLOCK
    ensures Whole(msg) + (Tail(msg) + head) == msg + head && |msg + head| % BLOCK == 0
  {
    SameRemainder(|msg + head|, 0, |msg| / BLOCK + 1);
  }

  lemma {:induction false} OneBlockOn(m: Bytes, data: Bytes, i: nat)
    requires i + BLOCK <= |data| && i % BLOCK == 0
    ensures m + data[..i] + data[i..i + BLOCK] == m + data[..i + BLOCK] && (i + BLOCK) % BLOCK == 0
  {}

  // ------------------------------------------------------------- the theorem

  function Joined(parts: seq<Bytes>): Bytes {
    if parts == [] then [] else Joined(parts[..|parts| - 1]) + parts[|parts| - 1]
  }

  lemma {:induction false} JoinedOneMore(parts: seq<Bytes>, i: nat)
    requires i < |parts|
    ensures Joined(parts[..i + 1]) == Joined(parts[..i]) + parts[i]
  {
    assert parts[..i + 1][..i] == parts[..i];
  }

  /** However a message is cut into updates, the digest is the one-shot digest of the whole. */
  method HashParts(parts: seq<Bytes>) returns (digest: Bytes)
    requires forall i :: 0 <= i < |parts| ==> |parts[i]| < TWO32
    ensures digest == Digest(Joined(parts))
  {
    var ctx := Begin();
    for i := 0 to |parts|
      invariant fresh(ctx) && fresh(ctx.buf) && fresh(ctx.bits) && fresh(ctx.inn)
      invariant ctx.Valid() && ctx.msg == Joined(parts[..i])
    {
      JoinedOneMore(parts, i);
      ctx.Update(parts[i]);
    }
    assert parts[..|parts|] == parts;
    digest := ctx.Final();
  }

  lemma {:induction false} NothingBefore(m: Bytes, data: Bytes)
    requires |m| == 0
    ensures m + data == data
  {}

  /** A context ready for a message. */
  method Begin() returns (ctx: Context)
    ensures fresh(ctx) && fresh(ctx.buf) && fresh(ctx.bits) && fresh(ctx.inn)
    ensures ctx.Valid() && |ctx.msg| == 0
  {
    ctx := new Context();
    ctx.Init();
  }

  /** A buffer hashed in one update. */
  method HashBuffer(data: Bytes) returns (digest: Bytes)
    requires |data| < TWO32
    ensures digest == Digest(data)
  {
    var ctx := Begin();
    NothingBefore(ctx.msg, data);
    ctx.Update(data);
    digest := ctx.Final();
  }
}
