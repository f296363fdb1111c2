/** The MD5 compression function on 32-bit words: the program's step against that of RFC 1321. */
module Md5Compress {
  import opened Md5Schedule
  import opened Md5Tables
  import opened Md5Rotation
  import opened Md5Bits

  newtype byte = x: int | 0 <= x < 256

  type MdState = State<Word>

  // ---------------------------------------------- section 3.4 of RFC 1321

  function F(x: Word, y: Word, z: Word): Word { Value((Bits(x) & Bits(y)) | (!Bits(x) & Bits(z))) }
  function G(x: Word, y: Word, z: Word): Word { Value((Bits(x) & Bits(z)) | (Bits(y) & !Bits(z))) }
  function H(x: Word, y: Word, z: Word): Word { Value(Bits(x) ^ Bits(y) ^ Bits(z)) }
  function I(x: Word, y: Word, z: Word): Word { Value(Bits(y) ^ (Bits(x) | !Bits(z))) }

  function Auxiliary(k: Aux, x: Word, y: Word, z: Word): Word {
    match k
    case F1 => F(x, y, z)
    case F2 => G(x, y, z)
    case F3 => H(x, y, z)
    case F4 => I(x, y, z)
  }

  /** One bit chosen by another, and the parities, on vectors with one bit looked at. */
  lemma {:induction false} MaskedAux(x: bv32, y: bv32, z: bv32, m: bv32)
    requires m & (m - 1) == 0
    ensures ((x & y) | (!x & z)) & m != 0 <==> if x & m != 0 then y & m != 0 else z & m != 0
    ensures ((x & z) | (y & !z)) & m != 0 <==> if z & m != 0 then x & m != 0 else y & m != 0
    ensures (x ^ y ^ z) & m != 0 <==> ((x & m != 0) != (y & m != 0)) != (z & m != 0)
    ensures m != 0 ==> ((y ^ (x | !z)) & m != 0 <==> (y & m != 0) != (x & m != 0 || z & m == 0))
  {}

  /** `v` has the digit that the bits of `b` say. */
  lemma {:induction false} ResultDigit(b: bv32, j: nat)
    requires j < 32
    ensures LinkedAt(b, Value(b), j)
  {
    ValueIsLinked(b);
  }

  /** F: if x then y else z. */
  lemma {:induction false} DigitF(x: Word, y: Word, z: Word, j: nat)
    requires j < 32
    ensures Digit(F(x, y, z), j) == if Digit(x, j) == 1 then Digit(y, j) else Digit(z, j)
  {
    LinkedBits(x, y, z, j);
    MaskedAux(Bits(x), Bits(y), Bits(z), Mask(j));
    ResultDigit((Bits(x) & Bits(y)) | (!Bits(x) & Bits(z)), j);
  }

  /** G: if z then x else y. */
  lemma {:induction false} DigitG(x: Word, y: Word, z: Word, j: nat)
    requires j < 32
    ensures Digit(G(x, y, z), j) == if Digit(z, j) == 1 then Digit(x, j) else Digit(y, j)
  {
    LinkedBits(x, y, z, j);
    MaskedAux(Bits(x), Bits(y), Bits(z), Mask(j));
    ResultDigit((Bits(x) & Bits(z)) | (Bits(y) & !Bits(z)), j);
  }

  /** H: the parity of all three. */
  lemma {:induction false} DigitH(x: Word, y: Word, z: Word, j: nat)
    requires j < 32
    ensures Digit(H(x, y, z), j) == if Digit(x, j) == Digit(y, j) then Digit(z, j) else 1 - Digit(z, j)
  {
    LinkedBits(x, y, z, j);
    MaskedAux(Bits(x), Bits(y), Bits(z), Mask(j));
    ResultDigit(Bits(x) ^ Bits(y) ^ Bits(z), j);
  }

  /** I: y against (x or not z). */
  lemma {:induction false} DigitI(x: Word, y: Word, z: Word, j: nat)
    requires j < 32
    ensures Digit(I(x, y, z), j) == if Digit(x, j) == 1 || Digit(z, j) == 0 then 1 - Digit(y, j) else Digit(y, j)
  {
    LinkedBits(x, y, z, j);
    MaskedAux(Bits(x), Bits(y), Bits(z), Mask(j));
    ResultDigit(Bits(y) ^ (Bits(x) | !Bits(z)), j);
  }

  lemma {:induction false} LinkedBits(x: Word, y: Word, z: Word, j: nat)
    requires j < 32
    ensures LinkedAt(Bits(x), x, j) && LinkedAt(Bits(y), y, j) && LinkedAt(Bits(z), z, j)
    ensures Mask(j) != 0 && Mask(j) & (Mask(j) - 1) == 0
  {
    BitsAreLinked(x);
    BitsAreLinked(y);
    BitsAreLinked(z);
    SingleMask(j);
  }

  function ToWord(t: nat): Word { t % 0x1_0000_0000 }

  function Add(x: Word, y: Word): Word { (x + y) % 0x1_0000_0000 }

  function RfcWords(): WordOps<Word> { WordOps(Add, RotateLeft, Auxiliary, ToWord) }

  function RfcStep(k: Aux, w: Word, x: Word, y: Word, z: Word, m: Word, t: nat, s: nat): Word {
    StandardStep(RfcWords(), k, w, x, y, z, m, t, s)
  }

  /** A block of 64 bytes as sixteen words, low-order byte first. */
  function WordAt(block: seq<byte>, i: nat): Word
    requires |block| == 64 && i < 16
  {
    block[4 * i] as int + 0x100 * block[4 * i + 1] as int + 0x1_0000 * block[4 * i + 2] as int +
    0x100_0000 * block[4 * i + 3] as int
  }

  function Words(block: seq<byte>): (ws: seq<Word>)
    requires |block| == 64
    ensures |ws| == 16
  {
    seq(16, i requires 0 <= i < 16 => WordAt(block, i))
  }

  function AddStates(p: MdState, q: MdState): MdState {
    State(Add(p.a, q.a), Add(p.b, q.b), Add(p.c, q.c), Add(p.d, q.d))
  }

  function Compress(st: MdState, block: seq<byte>): MdState
    requires |block| == 64
  {
    AddStates(st, Steps(RfcStep, st, Words(block), 64))
  }

  // ------------------------------------------------------------ the program

  function ProgramF1(x: Word, y: Word, z: Word): Word { Value(Bits(z) ^ (Bits(x) & (Bits(y) ^ Bits(z)))) }
  function ProgramF2(x: Word, y: Word, z: Word): Word { ProgramF1(z, x, y) }
  function ProgramF3(x: Word, y: Word, z: Word): Word { Value(Bits(x) ^ Bits(y) ^ Bits(z)) }
  function ProgramF4(x: Word, y: Word, z: Word): Word { Value(Bits(y) ^ (Bits(x) | !Bits(z))) }

  function ProgramAux(k: Aux, x: Word, y: Word, z: Word): Word {
    match k
    case F1 => ProgramF1(x, y, z)
    case F2 => ProgramF2(x, y, z)
    case F3 => ProgramF3(x, y, z)
    case F4 => ProgramF4(x, y, z)
  }

  function ProgramWords(): WordOps<Word> { WordOps(Add, RotateLeft, ProgramAux, ToWord) }

  function ProgramStep(k: Aux, w: Word, x: Word, y: Word, z: Word, m: Word, t: nat, s: nat): Word {
    MacroStep(ProgramWords(), k, w, x, y, z, m, t, s)
  }

  lemma {:induction false} FirstRewritten(x: Word, y: Word, z: Word)
    ensures ProgramF1(x, y, z) == F(x, y, z)
  {}

  lemma {:induction false} SecondRewritten(x: Word, y: Word, z: Word)
    ensures ProgramF2(x, y, z) == G(x, y, z)
  {}

  lemma {:induction false} AuxRewritten(k: Aux, x: Word, y: Word, z: Word)
    ensures ProgramAux(k, x, y, z) == Auxiliary(k, x, y, z)
  {
    match k
    case F1 => FirstRewritten(x, y, z);
    case F2 => SecondRewritten(x, y, z);
    case F3 =>
    case F4 =>
  }

  lemma {:induction false} AddAssociates(x: Word, y: Word, z: Word)
    ensures Add(x, Add(y, z)) == Add(Add(x, y), z)
  {
    AddWraps(y, z);
    AddWraps(x, y);
    AddWraps(x, Add(y, z));
    AddWraps(Add(x, y), z);
  }

  lemma {:induction false} AddWraps(x: Word, y: Word)
    ensures Add(x, y) == if x + y < 0x1_0000_0000 then x + y else x + y - 0x1_0000_0000
  {}

  lemma {:induction false} AddCommutes(x: Word, y: Word)
    ensures Add(x, y) == Add(y, x)
  {}

  /** The program's step, with its rewritten auxiliary functions and its order of additions, is the standard's. */
  lemma {:induction false} StepRewritten(k: Aux, w: Word, x: Word, y: Word, z: Word, m: Word, t: nat, s: nat)
    ensures ProgramStep(k, w, x, y, z, m, t, s) == RfcStep(k, w, x, y, z, m, t, s)
  {
    AuxRewritten(k, x, y, z);
    var f, c := ProgramAux(k, x, y, z), ToWord(t);
    AddAssociates(f, m, c);
    AddAssociates(w, Add(f, m), c);
    AddAssociates(w, f, m);
    AddCommutes(RotateLeft(Add(w, Add(f, Add(m, c))), s), x);
    MacroIsStandard(ProgramWords(), RfcWords(), k, w, x, y, z, m, t, s);
  }

  lemma {:induction false} ProgramIsRfc(st: MdState, words: seq<Word>, n: nat)
    requires |words| == 16
    ensures Steps(ProgramStep, st, words, n) == Steps(RfcStep, st, words, n)
  {
    forall k, w, x, y, z, m, t: nat, s: nat | t < 0x1_0000_0000 && s < 32
      ensures ProgramStep(k, w, x, y, z, m, t, s) == RfcStep(k, w, x, y, z, m, t, s)
    {
      StepRewritten(k, w, x, y, z, m, t, s);
    }
    SameSteps(ProgramStep, RfcStep, st, words, n);
  }

  /** The 64 steps of the transform, in registers. */
  method RunSteps(a0: Word, b0: Word, c0: Word, d0: Word, block: seq<Word>)
    returns (a: Word, b: Word, c: Word, d: Word)
    requires |block| == 16
    ensures State(a, b, c, d) == Steps(RfcStep, State(a0, b0, c0, d0), block, 64)
  {
    a, b, c, d := Unrolled(ProgramStep, a0, b0, c0, d0, block);
    ProgramIsRfc(State(a0, b0, c0, d0), block, 64);
  }

  /** The transform, in place on the context's four words. */
  method Transform(buf: array<Word>, block: seq<Word>)
    requires buf.Length == 4 && |block| == 16
    modifies buf
    ensures var st := State(old(buf[0]), old(buf[1]), old(buf[2]), old(buf[3]));
            State(buf[0], buf[1], buf[2], buf[3]) == AddStates(st, Steps(RfcStep, st, block, 64))
  {
    var a, b, c, d := RunSteps(buf[0], buf[1], buf[2], buf[3], block);
    buf[0] := Add(buf[0], a);
    buf[1] := Add(buf[1], b);
    buf[2] := Add(buf[2], c);
    buf[3] := Add(buf[3], d);
  }
}
