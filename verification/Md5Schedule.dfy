/**
 * The order of the 64 MD5 steps: the program's unrolled calls against the tables of section 3.4
 * of RFC 1321. Nothing here depends on what a step computes, so the step is a parameter.
 */
module Md5Schedule {
  import opened Md5Tables

  datatype State<W> = State(a: W, b: W, c: W, d: W)

  /** A step: its function, the register it replaces, the other three, a message word, a constant, a rotation. */
  type StepFn<!W> = (Aux, W, W, W, W, W, nat, nat) -> W

  /** Step `i` of the table-driven algorithm. */
  function Operation<W>(f: StepFn<W>, i: nat, w: W, x: W, y: W, z: W, block: seq<W>): W
    requires |block| == 16
  {
    f(AuxOf(i), w, x, y, z, block[Pick(i)], Constant(i), Shift(i))
  }

  /** The first `n` steps; each replaces one register and renames all four. */
  function Steps<W>(f: StepFn<W>, st: State<W>, block: seq<W>, n: nat): State<W>
    requires |block| == 16
  {
    if n == 0 then st else
      var s := Steps(f, st, block, n - 1);
      State(s.d, Operation(f, n - 1, s.a, s.b, s.c, s.d, block), s.b, s.c)
  }

  /** Four steps bring the registers back into place. */
  lemma {:induction false} FourSteps<W>(f: StepFn<W>, st: State<W>, block: seq<W>, n: nat)
    requires |block| == 16
    ensures var s := Steps(f, st, block, n);
            var a := Operation(f, n, s.a, s.b, s.c, s.d, block);
            var d := Operation(f, n + 1, s.d, a, s.b, s.c, block);
            var c := Operation(f, n + 2, s.c, d, a, s.b, block);
            var b := Operation(f, n + 3, s.b, c, d, a, block);
            Steps(f, st, block, n + 4) == State(a, b, c, d)
  {
    var s1, s2, s3 := Steps(f, st, block, n + 1), Steps(f, st, block, n + 2), Steps(f, st, block, n + 3);
  }

  /** Round 1 of the program, first half, unrolled. */
  method Steps0To7<W>(f: StepFn<W>, st: State<W>, a0: W, b0: W, c0: W, d0: W, block: seq<W>)
    returns (a: W, b: W, c: W, d: W)
    requires |block| == 16 && Steps(f, st, block, 0) == State(a0, b0, c0, d0)
    ensures Steps(f, st, block, 8) == State(a, b, c, d)
  {
    a, b, c, d := a0, b0, c0, d0;
    FourSteps(f, st, block, 0);
    a := f(F1, a, b, c, d, block[0], 0xd76aa478, 7);
    d := f(F1, d, a, b, c, block[1], 0xe8c7b756, 12);
    c := f(F1, c, d, a, b, block[2], 0x242070db, 17);
    b := f(F1, b, c, d, a, block[3], 0xc1bdceee, 22);
    FourSteps(f, st, block, 4);
    a := f(F1, a, b, c, d, block[4], 0xf57c0faf, 7);
    d := f(F1, d, a, b, c, block[5], 0x4787c62a, 12);
    c := f(F1, c, d, a, b, block[6], 0xa8304613, 17);
    b := f(F1, b, c, d, a, block[7], 0xfd469501, 22);
  }

  /** Round 1 of the program, second half, unrolled. */
  method Steps8To15<W>(f: StepFn<W>, st: State<W>, a0: W, b0: W, c0: W, d0: W, block: seq<W>)
    returns (a: W, b: W, c: W, d: W)
    requires |block| == 16 && Steps(f, st, block, 8) == State(a0, b0, c0, d0)
    ensures Steps(f, st, block, 16) == State(a, b, c, d)
  {
    a, b, c, d := a0, b0, c0, d0;
    FourSteps(f, st, block, 8);
    a := f(F1, a, b, c, d, block[8], 0x698098d8, 7);
    d := f(F1, d, a, b, c, block[9], 0x8b44f7af, 12);
    c := f(F1, c, d, a, b, block[10], 0xffff5bb1, 17);
    b := f(F1, b, c, d, a, block[11], 0x895cd7be, 22);
    FourSteps(f, st, block, 12);
    a := f(F1, a, b, c, d, block[12], 0x6b901122, 7);
    d := f(F1, d, a, b, c, block[13], 0xfd987193, 12);
    c := f(F1, c, d, a, b, block[14], 0xa679438e, 17);
    b := f(F1, b, c, d, a, block[15], 0x49b40821, 22);
  }

  /** Round 2 of the program, first half, unrolled. */
  method Steps16To23<W>(f: StepFn<W>, st: State<W>, a0: W, b0: W, c0: W, d0: W, block: seq<W>)
    returns (a: W, b: W, c: W, d: W)
    requires |block| == 16 && Steps(f, st, block, 16) == State(a0, b0, c0, d0)
    ensures Steps(f, st, block, 24) == State(a, b, c, d)
  {
    a, b, c, d := a0, b0, c0, d0;
    FourSteps(f, st, block, 16);
    a := f(F2, a, b, c, d, block[1], 0xf61e2562, 5);
    d := f(F2, d, a, b, c, block[6], 0xc040b340, 9);
    c := f(F2, c, d, a, b, block[11], 0x265e5a51, 14);
    b := f(F2, b, c, d, a, block[0], 0xe9b6c7aa, 20);
    FourSteps(f, st, block, 20);
    a := f(F2, a, b, c, d, block[5], 0xd62f105d, 5);
    d := f(F2, d, a, b, c, block[10], 0x02441453, 9);
    c := f(F2, c, d, a, b, block[15], 0xd8a1e681, 14);
    b := f(F2, b, c, d, a, block[4], 0xe7d3fbc8, 20);
  }

  /** Round 2 of the program, second half, unrolled. */
  method Steps24To31<W>(f: StepFn<W>, st: State<W>, a0: W, b0: W, c0: W, d0: W, block: seq<W>)
    returns (a: W, b: W, c: W, d: W)
    requires |block| == 16 && Steps(f, st, block, 24) == State(a0, b0, c0, d0)
    ensures Steps(f, st, block, 32) == State(a, b, c, d)
  {
    a, b, c, d := a0, b0, c0, d0;
    FourSteps(f, st, block, 24);
    a := f(F2, a, b, c, d, block[9], 0x21e1cde6, 5);
    d := f(F2, d, a, b, c, block[14], 0xc33707d6, 9);
    c := f(F2, c, d, a, b, block[3], 0xf4d50d87, 14);
    b := f(F2, b, c, d, a, block[8], 0x455a14ed, 20);
    FourSteps(f, st, block, 28);
    a := f(F2, a, b, c, d, block[13], 0xa9e3e905, 5);
    d := f(F2, d, a, b, c, block[2], 0xfcefa3f8, 9);
    c := f(F2, c, d, a, b, block[7], 0x676f02d9, 14);
    b := f(F2, b, c, d, a, block[12], 0x8d2a4c8a, 20);
  }

  /** Round 3 of the program, first half, unrolled. */
  method Steps32To39<W>(f: StepFn<W>, st: State<W>, a0: W, b0: W, c0: W, d0: W, block: seq<W>)
    returns (a: W, b: W, c: W, d: W)
    requires |block| == 16 && Steps(f, st, block, 32) == State(a0, b0, c0, d0)
    ensures Steps(f, st, block, 40) == State(a, b, c, d)
  {
    a, b, c, d := a0, b0, c0, d0;
    FourSteps(f, st, block, 32);
    a := f(F3, a, b, c, d, block[5], 0xfffa3942, 4);
    d := f(F3, d, a, b, c, block[8], 0x8771f681, 11);
    c := f(F3, c, d, a, b, block[11], 0x6d9d6122, 16);
    b := f(F3, b, c, d, a, block[14], 0xfde5380c, 23);
    FourSteps(f, st, block, 36);
    a := f(F3, a, b, c, d, block[1], 0xa4beea44, 4);
    d := f(F3, d, a, b, c, block[4], 0x4bdecfa9, 11);
    c := f(F3, c, d, a, b, block[7], 0xf6bb4b60, 16);
    b := f(F3, b, c, d, a, block[10], 0xbebfbc70, 23);
  }

  /** Round 3 of the program, second half, unrolled. */
  method Steps40To47<W>(f: StepFn<W>, st: State<W>, a0: W, b0: W, c0: W, d0: W, block: seq<W>)
    returns (a: W, b: W, c: W, d: W)
    requires |block| == 16 && Steps(f, st, block, 40) == State(a0, b0, c0, d0)
    ensures Steps(f, st, block, 48) == State(a, b, c, d)
  {
    a, b, c, d := a0, b0, c0, d0;
    FourSteps(f, st, block, 40);
    a := f(F3, a, b, c, d, block[13], 0x289b7ec6, 4);
    d := f(F3, d, a, b, c, block[0], 0xeaa127fa, 11);
    c := f(F3, c, d, a, b, block[3], 0xd4ef3085, 16);
    b := f(F3, b, c, d, a, block[6], 0x04881d05, 23);
    FourSteps(f, st, block, 44);
    a := f(F3, a, b, c, d, block[9], 0xd9d4d039, 4);
    d := f(F3, d, a, b, c, block[12], 0xe6db99e5, 11);
    c := f(F3, c, d, a, b, block[15], 0x1fa27cf8, 16);
    b := f(F3, b, c, d, a, block[2], 0xc4ac5665, 23);
  }

  /** Round 4 of the program, first half, unrolled. */
  method Steps48To55<W>(f: StepFn<W>, st: State<W>, a0: W, b0: W, c0: W, d0: W, block: seq<W>)
    returns (a: W, b: W, c: W, d: W)
    requires |block| == 16 && Steps(f, st, block, 48) == State(a0, b0, c0, d0)
    ensures Steps(f, st, block, 56) == State(a, b, c, d)
  {
    a, b, c, d := a0, b0, c0, d0;
    FourSteps(f, st, block, 48);
    a := f(F4, a, b, c, d, block[0], 0xf4292244, 6);
    d := f(F4, d, a, b, c, block[7], 0x432aff97, 10);
    c := f(F4, c, d, a, b, block[14], 0xab9423a7, 15);
    b := f(F4, b, c, d, a, block[5], 0xfc93a039, 21);
    FourSteps(f, st, block, 52);
    a := f(F4, a, b, c, d, block[12], 0x655b59c3, 6);
    d := f(F4, d, a, b, c, block[3], 0x8f0ccc92, 10);
    c := f(F4, c, d, a, b, block[10], 0xffeff47d, 15);
    b := f(F4, b, c, d, a, block[1], 0x85845dd1, 21);
  }

  /** Round 4 of the program, second half, unrolled. */
  method Steps56To63<W>(f: StepFn<W>, st: State<W>, a0: W, b0: W, c0: W, d0: W, block: seq<W>)
    returns (a: W, b: W, c: W, d: W)
    requires |block| == 16 && Steps(f, st, block, 56) == State(a0, b0, c0, d0)
    ensures Steps(f, st, block, 64) == State(a, b, c, d)
  {
    a, b, c, d := a0, b0, c0, d0;
    FourSteps(f, st, block, 56);
    a := f(F4, a, b, c, d, block[8], 0x6fa87e4f, 6);
    d := f(F4, d, a, b, c, block[15], 0xfe2ce6e0, 10);
    c := f(F4, c, d, a, b, block[6], 0xa3014314, 15);
    b := f(F4, b, c, d, a, block[13], 0x4e0811a1, 21);
    FourSteps(f, st, block, 60);
    a := f(F4, a, b, c, d, block[4], 0xf7537e82, 6);
    d := f(F4, d, a, b, c, block[11], 0xbd3af235, 10);
    c := f(F4, c, d, a, b, block[2], 0x2ad7d2bb, 15);
    b := f(F4, b, c, d, a, block[9], 0xeb86d391, 21);
  }

  /** The 64 unrolled steps of the program are the 64 table-driven ones. */
  method Unrolled<W>(f: StepFn<W>, a0: W, b0: W, c0: W, d0: W, block: seq<W>) returns (a: W, b: W, c: W, d: W)
    requires |block| == 16
    ensures State(a, b, c, d) == Steps(f, State(a0, b0, c0, d0), block, 64)
  {
    var st := State(a0, b0, c0, d0);
    a, b, c, d := Steps0To7(f, st, a0, b0, c0, d0, block);
    a, b, c, d := Steps8To15(f, st, a, b, c, d, block);
    a, b, c, d := Steps16To23(f, st, a, b, c, d, block);
    a, b, c, d := Steps24To31(f, st, a, b, c, d, block);
    a, b, c, d := Steps32To39(f, st, a, b, c, d, block);
    a, b, c, d := Steps40To47(f, st, a, b, c, d, block);
    a, b, c, d := Steps48To55(f, st, a, b, c, d, block);
    a, b, c, d := Steps56To63(f, st, a, b, c, d, block);
  }

  /** Steps that agree everywhere make algorithms that agree. */
  lemma {:induction false} SameSteps<W>(f: StepFn<W>, g: StepFn<W>, st: State<W>, block: seq<W>, n: nat)
    requires |block| == 16
    requires forall k, w, x, y, z, m, t: nat, s: nat :: t < 0x1_0000_0000 && s < 32 ==>
               f(k, w, x, y, z, m, t, s) == g(k, w, x, y, z, m, t, s)
    ensures Steps(f, st, block, n) == Steps(g, st, block, n)
  {
    if n > 0 {
      SameSteps(f, g, st, block, n - 1);
    }
  }

  // ----------------------------------- one step, over any words that can be added

  /** The words a step computes on. */
  datatype WordOps<!W> = WordOps(
    add: (W, W) -> W, rotate: (W, nat) -> W, aux: (Aux, W, W, W) -> W, constant: nat -> W)

  /** The standard's step: a = b + ((a + F(b, c, d) + X[k] + T[i]) <<< s). */
  function StandardStep<W>(o: WordOps<W>, k: Aux, w: W, x: W, y: W, z: W, m: W, t: nat, s: nat): W {
    o.add(x, o.rotate(o.add(o.add(o.add(w, o.aux(k, x, y, z)), m), o.constant(t)), s))
  }

  /** The program's step macro: three updates of `w`. */
  function MacroStep<W>(o: WordOps<W>, k: Aux, w: W, x: W, y: W, z: W, m: W, t: nat, s: nat): W {
    var w1 := o.add(w, o.add(o.aux(k, x, y, z), o.add(m, o.constant(t))));
    var w2 := o.rotate(w1, s);
    o.add(w2, x)
  }

  predicate Regroups<W(==)>(add: (W, W) -> W, x: W, y: W, z: W) { add(x, add(y, z)) == add(add(x, y), z) }

  predicate Commutes<W(==)>(add: (W, W) -> W, x: W, y: W) { add(x, y) == add(y, x) }

  /** The macro is the standard's step whenever its additions may be regrouped and the functions agree. */
  lemma {:induction false} MacroIsStandard<W>(o: WordOps<W>, p: WordOps<W>, k: Aux, w: W, x: W, y: W, z: W, m: W, t: nat, s: nat)
    requires o.add == p.add && o.rotate == p.rotate && o.constant == p.constant && o.aux(k, x, y, z) == p.aux(k, x, y, z)
    requires var f, c := o.aux(k, x, y, z), o.constant(t);
             && Regroups(o.add, f, m, c) && Regroups(o.add, w, o.add(f, m), c) && Regroups(o.add, w, f, m)
             && Commutes(o.add, o.rotate(o.add(w, o.add(f, o.add(m, c))), s), x)
    ensures MacroStep(o, k, w, x, y, z, m, t, s) == StandardStep(p, k, w, x, y, z, m, t, s)
  {}
}
