/** Splitting text at delimiters, and key/value text built and read back. */
module KeyValueText {
  import opened Optional

  // ------------------------------------------------------------------ pieces

  predicate OccursAt(s: string, d: string, i: nat) { i + |d| <= |s| && s[i..i + |d|] == d }

  /** The first place from an index on where the delimiter occurs. */
  function Find(s: string, d: string, index: nat): (r: Option<nat>)
    requires index <= |s|
    ensures r.Some? ==> index <= r.value && OccursAt(s, d, r.value)
    decreases |s| - index
  {
    if OccursAt(s, d, index) then Some(index)
    else if index == |s| then None
    else Find(s, d, index + 1)
  }

  /** The pieces between the delimiters from an index on, empty ones included. */
  function PiecesFrom(s: string, d: string, index: nat): (ps: seq<string>)
    requires d != "" && index <= |s|
    ensures ps != []
    decreases |s| - index
  {
    match Find(s, d, index)
    case None => [s[index..]]
    case Some(found) => [s[index..found]] + PiecesFrom(s, d, found + |d|)
  }

  function Pieces(s: string, d: string): seq<string>
    requires d != ""
  {
    PiecesFrom(s, d, 0)
  }

  function Join(ps: seq<string>, d: string): string {
    if ps == [] then "" else if |ps| == 1 then ps[0] else ps[0] + (d + Join(ps[1..], d))
  }

  function NonEmpty(ps: seq<string>): seq<string> {
    if ps == [] then [] else (if ps[0] == "" then [] else [ps[0]]) + NonEmpty(ps[1..])
  }

  lemma {:induction false} CutOut(s: string, d: string, i: nat, j: nat)
    requires i <= j <= |s| && OccursAt(s, d, j)
    ensures s[i..j] + (d + s[j + |d|..]) == s[i..]
  {}

  lemma {:induction false} JoinMore(p: string, ps: seq<string>, d: string)
    requires ps != []
    ensures Join([p] + ps, d) == p + (d + Join(ps, d))
  {}

  /** Joining the pieces gives the text back. */
  lemma {:induction false} JoinPieces(s: string, d: string, index: nat)
    requires d != "" && index <= |s|
    ensures Join(PiecesFrom(s, d, index), d) == s[index..]
    decreases |s| - index
  {
    match Find(s, d, index)
    case None =>
    case Some(found) =>
      JoinPieces(s, d, found + |d|);
      JoinMore(s[index..found], PiecesFrom(s, d, found + |d|), d);
      CutOut(s, d, index, found);
  }

  /** There is no earlier occurrence than the one found. */
  lemma {:induction false} FoundFirst(s: string, d: string, index: nat, k: nat)
    requires index <= k <= |s| && OccursAt(s, d, k)
    ensures Find(s, d, index).Some? && Find(s, d, index).value <= k
    decreases |s| - index
  {
    if !OccursAt(s, d, index) {
      FoundFirst(s, d, index + 1, k);
    }
  }

  lemma {:induction false} SliceOfSlice(s: string, a: nat, b: nat, i: nat, j: nat)
    requires a <= b <= |s| && i <= j <= b - a
    ensures s[a..b][i..j] == s[a + i..a + j]
  {
    assert forall k :: 0 <= k < j - i ==> s[a..b][i..j][k] == s[a + i..a + j][k];
  }

  predicate Clean(p: string, d: string) { forall k :: 0 <= k <= |p| ==> !OccursAt(p, d, k) }

  lemma {:induction false} PieceIsClean(s: string, d: string, index: nat, to: nat)
    requires d != "" && index <= to <= |s| && (Find(s, d, index).Some? ==> Find(s, d, index).value >= to)
    ensures Clean(s[index..to], d)
  {
    var p := s[index..to];
    forall k | 0 <= k <= |p| ensures !OccursAt(p, d, k) {
      if OccursAt(p, d, k) {
        SliceOfSlice(s, index, to, k, k + |d|);
        FoundFirst(s, d, index, index + k);
        assert false;
      }
    }
  }

  /** No piece contains the delimiter. */
  lemma {:induction false} PiecesAreClean(s: string, d: string, index: nat, j: nat)
    requires d != "" && index <= |s| && j < |PiecesFrom(s, d, index)|
    ensures Clean(PiecesFrom(s, d, index)[j], d)
    decreases |s| - index
  {
    match Find(s, d, index)
    case None =>
      PieceIsClean(s, d, index, |s|);
      assert s[index..|s|] == s[index..];
    case Some(found) =>
      if j == 0 {
        PieceIsClean(s, d, index, found);
      } else {
        PiecesAreClean(s, d, found + |d|, j - 1);
      }
  }

  // ---------------------------------------------------------------- the loops

  lemma {:induction false} AtTheEnd(s: string, d: string)
    requires d != ""
    ensures PiecesFrom(s, d, |s|) == [""]
  {
    assert s[|s|..] == "" && !OccursAt(s, d, |s|);
  }

  lemma {:induction false} NonEmptyStep(p: string, ps: seq<string>, dest: seq<string>)
    ensures dest + NonEmpty([p] + ps) == (if p == "" then dest else dest + [p]) + NonEmpty(ps)
  {}

  /** What was appended so far and the non-empty pieces still to come make the whole. */
  predicate Splitting(s: string, d: string, index: nat, dest: seq<string>, whole: seq<string>)
    requires d != "" && index <= |s|
  {
    dest + NonEmpty(PiecesFrom(s, d, index)) == whole
  }

  lemma {:induction false} SplitOn(s: string, d: string, index: nat, found: nat, dest: seq<string>, whole: seq<string>)
    requires d != "" && index <= |s| && Find(s, d, index) == Some(found) && Splitting(s, d, index, dest, whole)
    ensures Splitting(s, d, found + |d|, if found > index then dest + [s[index..found]] else dest, whole)
  {
    NonEmptyStep(s[index..found], PiecesFrom(s, d, found + |d|), dest);
    assert found == index ==> s[index..found] == "";
  }

  lemma {:induction false} SplitLast(s: string, d: string, index: nat, dest: seq<string>, whole: seq<string>)
    requires d != "" && index < |s| && Find(s, d, index).None? && Splitting(s, d, index, dest, whole)
    ensures dest + [s[index..]] == whole
  {
    NonEmptyOne(s[index..]);
  }

  lemma {:induction false} SplitOver(s: string, d: string, dest: seq<string>, whole: seq<string>)
    requires d != "" && Splitting(s, d, |s|, dest, whole)
    ensures dest == whole
  {
    AtTheEnd(s, d);
    NonEmptyOne("");
    assert dest + [] == dest;
  }

  /** Appends the pieces that are not empty. */
  method SplitString(src: string, delimiter: string, into: seq<string>) returns (dest: seq<string>)
    requires delimiter != ""
    ensures dest == into + NonEmpty(Pieces(src, delimiter))
  {
    dest := into;
    var index := 0;
    ghost var whole := into + NonEmpty(Pieces(src, delimiter));
    while index < |src|
      invariant index <= |src| && Splitting(src, delimiter, index, dest, whole)
      decreases |src| - index
    {
      var found := Find(src, delimiter, index);
      if found.None? {
        SplitLast(src, delimiter, index, dest, whole);
        dest := dest + [src[index..]];
        return;
      }
      SplitOn(src, delimiter, index, found.value, dest, whole);
      if found.value > index {
        dest := dest + [src[index..found.value]];
      }
      index := found.value + |delimiter|;
      if index > |src| - 1 {
        break;
      }
    }
    SplitOver(src, delimiter, dest, whole);
  }

  /** What was appended so far and the pieces still to come make the whole. */
  predicate Cutting(s: string, d: string, index: nat, dest: seq<string>, whole: seq<string>)
    requires d != "" && index <= |s|
  {
    dest + PiecesFrom(s, d, index) == whole
  }

  lemma {:induction false} CutStep(s: string, d: string, index: nat, found: nat, dest: seq<string>, whole: seq<string>)
    requires d != "" && index <= |s| && Find(s, d, index) == Some(found) && Cutting(s, d, index, dest, whole)
    ensures Cutting(s, d, found + |d|, dest + [s[index..found]], whole)
  {
    Appended(dest, s[index..found], PiecesFrom(s, d, found + |d|));
  }

  lemma {:induction false} CutLast(s: string, d: string, index: nat, dest: seq<string>, whole: seq<string>)
    requires d != "" && index <= |s| && Find(s, d, index).None? && Cutting(s, d, index, dest, whole)
    ensures dest + [s[index..]] == whole
  {}

  lemma {:induction false} CutAtEnd(s: string, d: string, dest: seq<string>, whole: seq<string>)
    requires d != "" && Cutting(s, d, |s|, dest, whole)
    ensures dest + [""] == whole
  {
    AtTheEnd(s, d);
  }

  /** Appends all pieces; an empty text has none. */
  method SplitString2(src: string, delimiter: string, into: seq<string>) returns (dest: seq<string>)
    requires delimiter != ""
    ensures dest == into + if src == "" then [] else Pieces(src, delimiter)
  {
    dest := into;
    var index := 0;
    ghost var whole := into + if src == "" then [] else Pieces(src, delimiter);
    while index < |src|
      invariant index <= |src|
      invariant if src == "" then dest == whole else index < |src| && Cutting(src, delimiter, index, dest, whole)
      decreases |src| - index
    {
      var found := Find(src, delimiter, index);
      if found.None? {
        CutLast(src, delimiter, index, dest, whole);
        dest := dest + [src[index..]];
        return;
      }
      CutStep(src, delimiter, index, found.value, dest, whole);
      dest := dest + [src[index..found.value]];
      if found.value + |delimiter| <= |src| - 1 {
        index := found.value + |delimiter|;
      } else {
        CutAtEnd(src, delimiter, dest, whole);
        dest := dest + [""];
        return;
      }
    }
  }

  lemma {:induction false} Appended(dest: seq<string>, p: string, ps: seq<string>)
    ensures dest + ([p] + ps) == dest + [p] + ps
  {}

  predicate Counting(s: string, d: string, index: nat, num: nat, total: nat)
    requires d != "" && index <= |s|
  {
    num + |PiecesFrom(s, d, index)| == total
  }

  lemma {:induction false} CountStep(s: string, d: string, index: nat, num: nat, total: nat)
    requires d != "" && index <= |s| && Counting(s, d, index, num, total)
    ensures match Find(s, d, index)
            case None => num + 1 == total
            case Some(found) => Counting(s, d, found + |d|, num + 1, total)
  {}

  /** The number of delimiters, one less than the number of pieces. */
  method GetDlmNum(src: string, delimiter: string) returns (num: nat)
    requires delimiter != ""
    ensures num == |Pieces(src, delimiter)| - 1
  {
    num := 0;
    var index := 0;
    ghost var total := |Pieces(src, delimiter)|;
    while index < |src|
      invariant index <= |src| && Counting(src, delimiter, index, num, total)
      decreases |src| - index
    {
      CountStep(src, delimiter, index, num, total);
      var found := Find(src, delimiter, index);
      if found.None? {
        return;
      }
      num := num + 1;
      index := found.value + |delimiter|;
      if index > |src| - 1 {
        break;
      }
    }
    AtTheEnd(src, delimiter);
  }

  // ------------------------------------------------------------- key=value&...

  type Pairs = seq<(string, string)>

  /** A single character occurs exactly where it stands. */
  lemma {:induction false} SingleOccurs(s: string, c: char, i: nat)
    requires i <= |s|
    ensures OccursAt(s, [c], i) <==> i < |s| && s[i] == c
  {}

  lemma {:induction false} FindSingle(s: string, c: char, index: nat, at: nat)
    requires index <= at < |s| && s[at] == c && forall i :: index <= i < at ==> s[i] != c
    ensures Find(s, [c], index) == Some(at)
    decreases at - index
  {
    SingleOccurs(s, c, index);
    if index < at {
      FindSingle(s, c, index + 1, at);
    }
  }

  lemma {:induction false} FindNoSingle(s: string, c: char, index: nat)
    requires index <= |s| && forall i :: index <= i < |s| ==> s[i] != c
    ensures Find(s, [c], index) == None
    decreases |s| - index
  {
    SingleOccurs(s, c, index);
    if index < |s| {
      FindNoSingle(s, c, index + 1);
    }
  }

  /** From index `n` on, a text is another one. */
  predicate Ends(s: string, t: string, n: nat) { n <= |s| && s[n..] == t }

  lemma {:induction false} CharShift(s: string, t: string, n: nat, i: nat)
    requires Ends(s, t, n) && i < |t|
    ensures n + i < |s| && s[n + i] == t[i]
  {}

  /** Searching in the end of a text is searching in what ends it. */
  lemma {:induction false} FindShift(s: string, t: string, n: nat, c: char, i: nat)
    requires Ends(s, t, n) && i <= |t|
    ensures Find(t, [c], i).None? ==> Find(s, [c], n + i).None?
    ensures Find(t, [c], i).Some? ==> Find(s, [c], n + i) == Some(n + Find(t, [c], i).value)
    decreases |t| - i
  {
    SingleOccurs(s, c, n + i);
    SingleOccurs(t, c, i);
    if i < |t| {
      CharShift(s, t, n, i);
      if t[i] != c {
        FindShift(s, t, n, c, i + 1);
      }
    }
  }

  lemma {:induction false} SliceShift(s: string, t: string, n: nat, i: nat, j: nat, a: nat, b: nat)
    requires Ends(s, t, n) && i <= j <= |t| && a == n + i && b == n + j
    ensures s[a..b] == t[i..j]
  {}

  predicate SameFrom(s: string, a: nat, t: string, b: nat, d: string)
    requires d != "" && a <= |s| && b <= |t|
  {
    PiecesFrom(s, d, a) == PiecesFrom(t, d, b)
  }

  /** Two texts with the same first piece and the same pieces after it. */
  lemma {:induction false} SamePieces(s: string, a: nat, found: nat, g: nat, t: string, b: nat, f: nat, h: nat, d: string)
    requires d != "" && a <= |s| && b <= |t| && Find(s, d, a) == Some(found) && Find(t, d, b) == Some(f)
    requires g == found + |d| && h == f + |d| && s[a..found] == t[b..f] && SameFrom(s, g, t, h, d)
    ensures SameFrom(s, a, t, b, d)
  {}

  lemma {:induction false} LastShift(s: string, t: string, n: nat, d: string, at: nat, i: nat)
    requires Ends(s, t, n) && i <= |t| && d != "" && at == n + i && Find(t, d, i).None? && Find(s, d, at).None?
    ensures SameFrom(s, at, t, i, d)
  {}

  lemma {:induction false} PiecesShift(s: string, t: string, n: nat, c: char, d: string, at: nat, i: nat)
    requires Ends(s, t, n) && i <= |t| && d == [c] && at == n + i
    ensures SameFrom(s, at, t, i, d)
    decreases |t| - i
  {
    FindShift(s, t, n, c, i);
    if Find(t, d, i).None? {
      LastShift(s, t, n, d, at, i);
    } else {
      var f := Find(t, d, i).value;
      var found := Find(s, d, at).value;
      var g, h := found + |d|, f + |d|;
      PiecesShift(s, t, n, c, d, g, h);
      SliceShift(s, t, n, i, f, at, found);
      SamePieces(s, at, found, g, t, i, f, h, d);
    }
  }

  /** A text up to the first delimiter is its first piece. */
  lemma {:induction false} FirstPiece(a: string, c: char, t: string)
    requires c !in a
    ensures Pieces(a + ([c] + t), [c]) == [a] + Pieces(t, [c])
  {
    var s := a + ([c] + t);
    FindSingle(s, c, 0, |a|);
    assert s[0..|a|] == a;
    assert s[|a| + 1..] == t;
    PiecesShift(s, t, |a| + 1, c, [c], |a| + 1, 0);
  }

  lemma {:induction false} OnlyPiece(a: string, c: char)
    requires c !in a
    ensures Pieces(a, [c]) == [a]
  {
    FindNoSingle(a, c, 0);
    assert a[0..] == a;
  }

  // ------------------------------------------------------------------ building

  class WrapString {
    var str: string

    constructor (str: string)
      ensures this.str == str
    {
      this.str := str;
    }

    /** Appends a pair, unless its key or its value is empty. */
    method AddString(key: string, val: string)
      modifies this
      ensures str == Extended(old(str), key, val)
    {
      if |key| > 0 && |val| > 0 {
        if |str| > 0 {
          str := str + "&";
        }
        str := str + (key + "=" + val);
      }
    }
  }

  function Extended(text: string, key: string, val: string): string {
    if key == "" || val == "" then text
    else (if text == "" then "" else text + "&") + (key + "=" + val)
  }

  /** The text after adding the pairs one by one to an empty one. */
  function Built(kvs: Pairs): string {
    if kvs == [] then "" else
      var n := |kvs| - 1;
      Extended(Built(kvs[..n]), kvs[n].0, kvs[n].1)
  }

  // ------------------------------------------------------------------- reading

  /** What one piece adds: its own pieces at `=`, of which there may be one, two or three. */
  function PairOf(ps: seq<string>): Option<(string, string)> {
    if |ps| == 2 && ps[0] != "" then Some((ps[0], ps[1]))
    else if |ps| == 1 && ps[0] != "" then Some((ps[0], ""))
    else if |ps| == 3 && ps[0] != "" then Some((ps[0], ps[1] + "=" + ps[2]))
    else None
  }

  /** `map::insert`: a key that is there keeps its value. */
  function Insert(m: map<string, string>, kv: Option<(string, string)>): map<string, string> {
    if kv.None? || kv.value.0 in m then m else m[kv.value.0 := kv.value.1]
  }

  function ReadPieces(ps: seq<string>, d: string, m: map<string, string>): map<string, string>
    requires d != ""
  {
    if ps == [] then m else ReadPieces(ps[1..], d, Insert(m, PairOf(NonEmpty(Pieces(ps[0], d)))))
  }

  /** Reads pairs into a map; the first value of a key stays. */
  method ParseKV(src: string, delimiter1: string, delimiter2: string, into: map<string, string>)
    returns (m: map<string, string>)
    requires delimiter1 != "" && delimiter2 != ""
    ensures m == ReadPieces(NonEmpty(Pieces(src, delimiter1)), delimiter2, into)
  {
    var pieces := SplitString(src, delimiter1, []);
    assert [] + NonEmpty(Pieces(src, delimiter1)) == NonEmpty(Pieces(src, delimiter1));
    m := into;
    var i := 0;
    assert pieces[0..] == pieces;
    while i < |pieces|
      invariant i <= |pieces|
      invariant ReadPieces(pieces[i..], delimiter2, m) == ReadPieces(pieces, delimiter2, into)
    {
      var kv := SplitString(pieces[i], delimiter2, []);
      assert [] + NonEmpty(Pieces(pieces[i], delimiter2)) == NonEmpty(Pieces(pieces[i], delimiter2));
      assert pieces[i..][1..] == pieces[i + 1..];
      m := InsertPair(kv, m);
      i := i + 1;
    }
  }

  method InsertPair(kv: seq<string>, m: map<string, string>) returns (r: map<string, string>)
    ensures r == Insert(m, PairOf(kv))
  {
    r := m;
    if |kv| == 2 {
      if |kv[0]| > 0 && kv[0] !in m {
        r := m[kv[0] := kv[1]];
      }
    } else if |kv| == 1 {
      if |kv[0]| > 0 && kv[0] !in m {
        r := m[kv[0] := ""];
      }
    } else if |kv| == 3 {
      if |kv[0]| > 0 && kv[0] !in m {
        r := m[kv[0] := kv[1] + "=" + kv[2]];
      }
    }
  }

  // -------------------------------------------------------------- the inverse

  /** Not empty, at most one `=`, and none at an end. */
  predicate Plain(v: string) {
    && v != "" && v[0] != '=' && v[|v| - 1] != '='
    && forall i, j :: 0 <= i < j < |v| ==> v[i] != '=' || v[j] != '='
  }

  /** The reader finds one or two pieces, and none is empty. */
  predicate PlainPieces(v: string) {
    v != "" && |Pieces(v, "=")| <= 2 && NonEmpty(Pieces(v, "=")) == Pieces(v, "=")
  }

  lemma {:induction false} TwoEquals(v: string, a: string, rest: string)
    requires v == a + (['='] + rest) && '=' in rest
    ensures !Plain(v)
  {
    var j :| 0 <= j < |rest| && rest[j] == '=';
    assert v[|a|] == '=' && v[|a| + 1 + j] == '=';
  }

  lemma {:induction false} OneEquals(v: string, a: string, rest: string)
    requires v == a + (['='] + rest) && '=' !in a && '=' !in rest
    ensures Plain(v) <==> a != "" && rest != ""
  {
    assert forall i :: 0 <= i < |v| && i != |a| ==> v[i] != '=';
    assert v[|a|] == '=';
  }

  lemma {:induction false} NonEmptyOne(a: string)
    ensures NonEmpty([a]) == if a == "" then [] else [a]
  {
    assert [a][1..] == [];
  }

  lemma {:induction false} NonEmptyTwo(a: string, b: string)
    ensures NonEmpty([a] + [b]) == [a] + [b] <==> a != "" && b != ""
  {
    NonEmptyOne(b);
    NonEmptyStep(a, [b], []);
    assert |[a] + [b]| == 2;
  }

  /** What the reader takes for a value is what the characters say. */
  lemma {:induction false} PlainMeans(v: string)
    ensures Plain(v) <==> PlainPieces(v)
  {
    if '=' !in v {
      OnlyPiece(v, '=');
      NonEmptyOne(v);
    } else {
      var a, rest := CutAtFirst(v, '=');
      FirstPiece(a, '=', rest);
      if '=' !in rest {
        OnlyPiece(rest, '=');
        OneEquals(v, a, rest);
        NonEmptyTwo(a, rest);
        assert Pieces(v, "=") == [a] + [rest];
      } else {
        TwoEquals(v, a, rest);
        var b, more := CutAtFirst(rest, '=');
        FirstPiece(b, '=', more);
      }
    }
  }

  lemma {:induction false} NonEmptyPieces(ps: seq<string>)
    ensures |NonEmpty(ps)| <= |ps| && (|NonEmpty(ps)| == |ps| ==> NonEmpty(ps) == ps)
  {
    if ps != [] {
      NonEmptyPieces(ps[1..]);
    }
  }

  /** The pieces of a pair: its key, and the pieces of its value. */
  lemma {:induction false} PairPieces(k: string, v: string)
    requires k != "" && '=' !in k
    ensures NonEmpty(Pieces(k + "=" + v, "=")) == [k] + NonEmpty(Pieces(v, "="))
  {
    assert k + "=" + v == k + (['='] + v);
    FirstPiece(k, '=', v);
    assert ([k] + Pieces(v, "="))[1..] == Pieces(v, "=");
  }

  lemma {:induction false} CleanSingle(p: string, c: char)
    requires Clean(p, [c])
    ensures c !in p
  {
    if c in p {
      var i :| 0 <= i < |p| && p[i] == c;
      SingleOccurs(p, c, i);
      assert false;
    }
  }

  lemma {:induction false} NonEmptyAreClean(ps: seq<string>, c: char)
    requires forall j :: 0 <= j < |ps| ==> c !in ps[j]
    ensures forall j :: 0 <= j < |NonEmpty(ps)| ==> c !in NonEmpty(ps)[j]
  {
    if ps != [] {
      NonEmptyAreClean(ps[1..], c);
    }
  }

  lemma {:induction false} ValuePiecesClean(v: string)
    ensures forall j :: 0 <= j < |NonEmpty(Pieces(v, "="))| ==> '=' !in NonEmpty(Pieces(v, "="))[j]
  {
    var ps := Pieces(v, "=");
    forall j | 0 <= j < |ps| ensures '=' !in ps[j] {
      PiecesAreClean(v, "=", 0, j);
      CleanSingle(ps[j], '=');
    }
    NonEmptyAreClean(ps, '=');
  }

  /** A value that the reader takes comes back under any key it takes. */
  lemma {:induction false} ValueReadsBack(k: string, v: string)
    requires k != "" && '=' !in k && v != ""
    ensures PairOf(NonEmpty(Pieces(k + "=" + v, "="))) == Some((k, v)) <==> PlainPieces(v)
  {
    PairPieces(k, v);
    ValuePiecesClean(v);
    var ps := Pieces(v, "=");
    var ne := NonEmpty(ps);
    JoinPieces(v, "=", 0);
    assert v[0..] == v;
    NonEmptyPieces(ps);
    if PairOf([k] + ne) == Some((k, v)) {
      ValueIsPlain(v, ne);
    } else if PlainPieces(v) {
      PlainValue(k, v);
    }
  }

  /** A pair comes back exactly when its key holds no `=` and its value at most one, inside. */
  lemma {:induction false} PairReadsBack(k: string, v: string)
    requires k != "" && v != ""
    ensures PairOf(NonEmpty(Pieces(k + "=" + v, "="))) == Some((k, v)) <==> '=' !in k && Plain(v)
  {
    if '=' in k {
      ValuePiecesClean(k + "=" + v);
    } else {
      ValueReadsBack(k, v);
      PlainMeans(v);
    }
  }

  lemma {:induction false} ValueIsPlain(v: string, ne: seq<string>)
    requires v != "" && ne == NonEmpty(Pieces(v, "=")) && forall j :: 0 <= j < |ne| ==> '=' !in ne[j]
    requires (|ne| == 1 && v == ne[0]) || (|ne| == 2 && v == ne[0] + "=" + ne[1])
    ensures PlainPieces(v)
  {
    if |ne| == 1 {
      OnlyPiece(v, '=');
    } else {
      assert v == ne[0] + (['='] + ne[1]);
      FirstPiece(ne[0], '=', ne[1]);
      OnlyPiece(ne[1], '=');
      assert Pieces(v, "=") == ne;
    }
  }

  lemma {:induction false} PlainValue(k: string, v: string)
    requires k != "" && PlainPieces(v)
    ensures PairOf([k] + NonEmpty(Pieces(v, "="))) == Some((k, v))
  {
    var ps := Pieces(v, "=");
    JoinPieces(v, "=", 0);
    assert v[0..] == v;
    if |ps| == 2 {
      assert Join(ps[1..], "=") == ps[1];
      assert v == ps[0] + ("=" + ps[1]) == ps[0] + "=" + ps[1];
    }
  }

  /** A text without an equals sign is a key with an empty value. */
  lemma {:induction false} KeyAlone(k: string)
    requires k != "" && '=' !in k
    ensures PairOf(NonEmpty(Pieces(k, "="))) == Some((k, ""))
  {
    OnlyPiece(k, '=');
    NonEmptyOne(k);
  }

  /** A value in more than two pieces is lost with its key. */
  lemma {:induction false} TooManyPieces(k: string, v: string)
    requires k != "" && '=' !in k && |NonEmpty(Pieces(v, "="))| > 2
    ensures PairOf(NonEmpty(Pieces(k + "=" + v, "="))) == None
  {
    PairPieces(k, v);
  }

  /** The pieces of two texts with a delimiter between them are those of both. */
  lemma {:induction false} PiecesOfBoth(t: string, c: char, p: string)
    ensures Pieces(t + ([c] + p), [c]) == Pieces(t, [c]) + Pieces(p, [c])
    decreases |t|
  {
    if c !in t {
      FirstPiece(t, c, p);
      OnlyPiece(t, c);
    } else {
      var a, rest := CutAtFirst(t, c);
      PiecesOfBoth(rest, c, p);
      OneMorePiece(a, c, rest, p);
    }
  }

  lemma {:induction false} OneMorePiece(a: string, c: char, t: string, p: string)
    requires c !in a && Pieces(t + ([c] + p), [c]) == Pieces(t, [c]) + Pieces(p, [c])
    ensures Pieces(a + ([c] + t) + ([c] + p), [c]) == Pieces(a + ([c] + t), [c]) + Pieces(p, [c])
  {
    FirstPiece(a, c, t);
    Regrouped(a, [c], t, [c] + p);
    FirstPiece(a, c, t + ([c] + p));
  }

  lemma {:induction false} Regrouped(a: string, b: string, c: string, d: string)
    ensures a + (b + c) + d == a + (b + (c + d))
  {}

  lemma {:induction false} CutAtFirst(t: string, c: char) returns (a: string, rest: string)
    requires c in t
    ensures t == a + ([c] + rest) && c !in a && |rest| < |t|
  {
    if t[0] == c {
      a, rest := "", t[1..];
    } else {
      a, rest := CutAtFirst(t[1..], c);
      a := [t[0]] + a;
    }
  }

  function PairText(kv: (string, string)): string { kv.0 + "=" + kv.1 }

  predicate Complete(kv: (string, string)) { kv.0 != "" && kv.1 != "" }

  /** What the text of one pair is cut into at ampersands. */
  function Cut(kv: (string, string)): seq<string> {
    if Complete(kv) then NonEmpty(Pieces(PairText(kv), "&")) else []
  }

  /** The cut texts of the pairs, in order. */
  function Cuts(kvs: Pairs): seq<string> {
    if kvs == [] then [] else Cuts(kvs[..|kvs| - 1]) + Cut(kvs[|kvs| - 1])
  }

  /** The texts of the pairs that are added, in order. */
  function PairTexts(kvs: Pairs): seq<string> {
    if kvs == [] then [] else
      var n := |kvs| - 1;
      PairTexts(kvs[..n]) + if Complete(kvs[n]) then [PairText(kvs[n])] else []
  }

  predicate NoAmpersand(kvs: Pairs) { forall i :: 0 <= i < |kvs| ==> '&' !in kvs[i].0 && '&' !in kvs[i].1 }

  lemma {:induction false} AmpersandBetween(text: string, p: string)
    ensures text + "&" + p == text + (['&'] + p)
  {}

  /** Adding a pair to a text adds what its own text is cut into. */
  lemma {:induction false} ExtendedPieces(text: string, kv: (string, string))
    ensures NonEmpty(Pieces(Extended(text, kv.0, kv.1), "&")) == NonEmpty(Pieces(text, "&")) + Cut(kv)
  {
    var p := PairText(kv);
    if text == "" {
      AtTheEnd("", "&");
      assert "" + p == p;
    } else {
      PiecesOfBoth(text, '&', p);
      AmpersandBetween(text, p);
      NonEmptyAppend(Pieces(text, "&"), Pieces(p, "&"));
    }
  }

  /** No pair touches another: a built text is cut into what each pair alone is cut into. */
  lemma {:induction false} BuiltCuts(kvs: Pairs)
    ensures NonEmpty(Pieces(Built(kvs), "&")) == Cuts(kvs)
  {
    if kvs == [] {
      AtTheEnd("", "&");
    } else {
      var n := |kvs| - 1;
      BuiltCuts(kvs[..n]);
      ExtendedPieces(Built(kvs[..n]), kvs[n]);
    }
  }

  lemma {:induction false} CleanCut(kv: (string, string))
    requires '&' !in kv.0 && '&' !in kv.1
    ensures Cut(kv) == if Complete(kv) then [PairText(kv)] else []
  {
    OnlyPiece(PairText(kv), '&');
    NonEmptyOne(PairText(kv));
  }

  /** Without ampersands, into the pairs themselves. */
  lemma {:induction false} BuiltPieces(kvs: Pairs)
    requires NoAmpersand(kvs)
    ensures NonEmpty(Pieces(Built(kvs), "&")) == PairTexts(kvs)
  {
    BuiltCuts(kvs);
    CleanCuts(kvs);
  }

  lemma {:induction false} CleanCuts(kvs: Pairs)
    requires NoAmpersand(kvs)
    ensures Cuts(kvs) == PairTexts(kvs)
  {
    if kvs != [] {
      CleanCuts(kvs[..|kvs| - 1]);
      CleanCut(kvs[|kvs| - 1]);
    }
  }

  lemma {:induction false} NonEmptyAppend(a: seq<string>, b: seq<string>)
    ensures NonEmpty(a + b) == NonEmpty(a) + NonEmpty(b)
  {
    if a == [] {
      assert a + b == b;
    } else {
      assert (a + b)[1..] == a[1..] + b;
      NonEmptyAppend(a[1..], b);
    }
  }

  lemma {:induction false} ReadBoth(ps: seq<string>, more: seq<string>, m: map<string, string>)
    ensures ReadPieces(ps + more, "=", m) == ReadPieces(more, "=", ReadPieces(ps, "=", m))
    decreases |ps|
  {
    if ps == [] {
      assert ps + more == more;
    } else {
      assert (ps + more)[1..] == ps[1..] + more;
      ReadBoth(ps[1..], more, Insert(m, PairOf(NonEmpty(Pieces(ps[0], "=")))));
    }
  }

  /** Every pair read on its own, into what the pairs before it gave. */
  function ReadInTurn(kvs: Pairs): map<string, string> {
    if kvs == [] then map[] else
      ReadPieces(Cut(kvs[|kvs| - 1]), "=", ReadInTurn(kvs[..|kvs| - 1]))
  }

  lemma {:induction false} CutsInTurn(kvs: Pairs)
    ensures ReadPieces(Cuts(kvs), "=", map[]) == ReadInTurn(kvs)
  {
    if kvs != [] {
      var n := |kvs| - 1;
      CutsInTurn(kvs[..n]);
      ReadBoth(Cuts(kvs[..n]), Cut(kvs[n]), map[]);
    }
  }

  /** Whatever the pairs are, reading what was built from them reads each on its own. */
  lemma {:induction false} BuiltIsReadInTurn(kvs: Pairs)
    ensures ReadPieces(NonEmpty(Pieces(Built(kvs), "&")), "=", map[]) == ReadInTurn(kvs)
  {
    BuiltCuts(kvs);
    CutsInTurn(kvs);
  }

  /** What the reader takes the text of one pair for, when no ampersand cuts it. */
  function Taken(kv: (string, string)): Option<(string, string)> {
    PairOf(NonEmpty(Pieces(PairText(kv), "=")))
  }

  /** A pair without ampersands adds one entry or none. */
  lemma {:induction false} CleanPairIsRead(kv: (string, string), m: map<string, string>)
    requires '&' !in kv.0 && '&' !in kv.1
    ensures ReadPieces(Cut(kv), "=", m) == if Complete(kv) then Insert(m, Taken(kv)) else m
  {
    CleanCut(kv);
    assert [PairText(kv)][1..] == [];
  }

  /** The map of the pairs with a key and a value, the first value of each key. */
  function FirstWins(kvs: Pairs): map<string, string> {
    if kvs == [] then map[] else
      var n := |kvs| - 1;
      Insert(FirstWins(kvs[..n]), if Complete(kvs[n]) then Some(kvs[n]) else None)
  }

  /** Pairs that are read back: keys free of both delimiters, values free of `&` and with at most an inner `=`. */
  predicate ReadablePairs(kvs: Pairs) {
    NoAmpersand(kvs) && forall i :: 0 <= i < |kvs| ==> '=' !in kvs[i].0 && (kvs[i].1 != "" ==> Plain(kvs[i].1))
  }

  lemma {:induction false} ReadableInTurn(kvs: Pairs)
    requires ReadablePairs(kvs)
    ensures ReadInTurn(kvs) == FirstWins(kvs)
  {
    if kvs != [] {
      var n := |kvs| - 1;
      ReadableInTurn(kvs[..n]);
      CleanPairIsRead(kvs[n], FirstWins(kvs[..n]));
      if Complete(kvs[n]) {
        PairReadsBack(kvs[n].0, kvs[n].1);
      }
    }
  }

  /** What is built from readable pairs is read as the first value of every key that has one. */
  lemma {:induction false} BuiltIsRead(kvs: Pairs)
    requires ReadablePairs(kvs)
    ensures ReadPieces(NonEmpty(Pieces(Built(kvs), "&")), "=", map[]) == FirstWins(kvs)
  {
    BuiltIsReadInTurn(kvs);
    ReadableInTurn(kvs);
  }

  predicate Free(m: map<string, string>, c: char) { forall k :: k in m ==> c !in k && c !in m[k] }

  lemma {:induction false} PiecesAreParts(s: string, d: string, index: nat, c: char)
    requires d != "" && index <= |s| && c !in s
    ensures forall j :: 0 <= j < |PiecesFrom(s, d, index)| ==> c !in PiecesFrom(s, d, index)[j]
    decreases |s| - index
  {
    if Find(s, d, index).Some? {
      PiecesAreParts(s, d, Find(s, d, index).value + |d|, c);
    }
  }

  lemma {:induction false} ReadStaysFree(ps: seq<string>, m: map<string, string>)
    requires Free(m, '&') && forall j :: 0 <= j < |ps| ==> '&' !in ps[j]
    ensures Free(ReadPieces(ps, "=", m), '&')
    decreases |ps|
  {
    if ps != [] {
      PiecesAreParts(ps[0], "=", 0, '&');
      NonEmptyAreClean(Pieces(ps[0], "="), '&');
      ReadStaysFree(ps[1..], Insert(m, PairOf(NonEmpty(Pieces(ps[0], "=")))));
    }
  }

  /** A pair added to an empty text comes back alone exactly when both delimiters stay out of its way. */
  lemma {:induction false} OnePairReadsBack(k: string, v: string)
    requires k != "" && v != ""
    ensures ReadPieces(NonEmpty(Pieces(Extended("", k, v), "&")), "=", map[]) == map[k := v] <==>
            '&' !in k && '&' !in v && '=' !in k && Plain(v)
  {
    var text := k + "=" + v;
    assert Extended("", k, v) == text;
    if '&' in k || '&' in v {
      PiecesAreFree(text);
      ReadStaysFree(NonEmpty(Pieces(text, "&")), map[]);
      assert k in map[k := v];
    } else {
      OnlyPiece(text, '&');
      NonEmptyOne(text);
      assert [text][1..] == [];
      PairReadsBack(k, v);
      OneInsert(PairOf(NonEmpty(Pieces(text, "="))), k, v);
    }
  }

  lemma {:induction false} PiecesAreFree(s: string)
    ensures forall j :: 0 <= j < |NonEmpty(Pieces(s, "&"))| ==> '&' !in NonEmpty(Pieces(s, "&"))[j]
  {
    var ps := Pieces(s, "&");
    forall j | 0 <= j < |ps| ensures '&' !in ps[j] {
      PiecesAreClean(s, "&", 0, j);
      CleanSingle(ps[j], '&');
    }
    NonEmptyAreClean(ps, '&');
  }

  lemma {:induction false} OneInsert(kv: Option<(string, string)>, k: string, v: string)
    ensures Insert(map[], kv) == map[k := v] <==> kv == Some((k, v))
  {
    assert k in map[k := v] && map[k := v][k] == v;
    if kv.Some? {
      assert kv.value.0 in map[kv.value.0 := kv.value.1];
    }
  }

  /** The pair at `i` gives its key a value, and no earlier one does. */
  predicate Winner(kvs: Pairs, i: nat)
    requires i < |kvs|
  {
    kvs[i].0 != "" && kvs[i].1 != "" && forall j :: 0 <= j < i && kvs[j].0 == kvs[i].0 ==> kvs[j].1 == ""
  }

  lemma {:induction false} FirstWinsMeans(kvs: Pairs, i: nat)
    requires i < |kvs| && Winner(kvs, i)
    ensures kvs[i].0 in FirstWins(kvs) && FirstWins(kvs)[kvs[i].0] == kvs[i].1
  {
    var n := |kvs| - 1;
    if i < n {
      assert Winner(kvs[..n], i);
      FirstWinsMeans(kvs[..n], i);
    } else {
      NoEarlier(kvs[..n], kvs[n].0);
    }
  }

  lemma {:induction false} NoEarlier(kvs: Pairs, k: string)
    requires forall j :: 0 <= j < |kvs| && kvs[j].0 == k ==> kvs[j].1 == ""
    ensures k !in FirstWins(kvs)
  {
    if kvs != [] {
      NoEarlier(kvs[..|kvs| - 1], k);
    }
  }

  /** Pairs with a key and a value each, and no key twice. */
  predicate Apart(kvs: Pairs) {
    && (forall i :: 0 <= i < |kvs| ==> Complete(kvs[i]))
    && (forall i, j :: 0 <= i < j < |kvs| ==> kvs[i].0 != kvs[j].0)
  }

  predicate KeysFree(m: map<string, string>, c: char) { forall k :: k in m ==> c !in k }

  lemma {:induction false} ReadKeysFree(ps: seq<string>, m: map<string, string>)
    requires KeysFree(m, '=')
    ensures KeysFree(ReadPieces(ps, "=", m), '=')
    decreases |ps|
  {
    if ps != [] {
      ValuePiecesClean(ps[0]);
      ReadKeysFree(ps[1..], Insert(m, PairOf(NonEmpty(Pieces(ps[0], "=")))));
    }
  }

  /** What was read has no ampersand anywhere, and no equals sign in a key. */
  lemma {:induction false} ReadIsClean(text: string)
    ensures Free(ReadPieces(NonEmpty(Pieces(text, "&")), "=", map[]), '&')
    ensures KeysFree(ReadPieces(NonEmpty(Pieces(text, "&")), "=", map[]), '=')
  {
    PiecesAreFree(text);
    ReadStaysFree(NonEmpty(Pieces(text, "&")), map[]);
    ReadKeysFree(NonEmpty(Pieces(text, "&")), map[]);
  }

  /** Keys free of delimiters, and values free of ampersands. */
  predicate CleanPairs(kvs: Pairs) { NoAmpersand(kvs) && forall i :: 0 <= i < |kvs| ==> '=' !in kvs[i].0 }

  /** A clean key is read as itself. */
  lemma {:induction false} CleanKeyIsTaken(kv: (string, string))
    requires kv.0 != "" && '=' !in kv.0 && Taken(kv).Some?
    ensures Taken(kv).value.0 == kv.0
  {
    PairPieces(kv.0, kv.1);
  }

  /** Clean pairs with different keys do not get into each other's way. */
  lemma {:induction false} EachIsTaken(kvs: Pairs, k: string)
    requires Apart(kvs) && CleanPairs(kvs)
    ensures k in ReadInTurn(kvs) ==> exists i :: 0 <= i < |kvs| && Taken(kvs[i]) == Some((k, ReadInTurn(kvs)[k])) && kvs[i].0 == k
  {
    if kvs != [] {
      var n := |kvs| - 1;
      var init := kvs[..n];
      EachIsTaken(init, k);
      CleanPairIsRead(kvs[n], ReadInTurn(init));
      if k in ReadInTurn(init) {
        var i :| 0 <= i < n && Taken(init[i]) == Some((k, ReadInTurn(init)[k])) && init[i].0 == k;
        assert kvs[i] == init[i];
      } else if k in ReadInTurn(kvs) {
        CleanKeyIsTaken(kvs[n]);
      }
    }
  }

  lemma {:induction false} PairComesBack(kvs: Pairs, i: nat)
    requires Apart(kvs) && CleanPairs(kvs) && ReadInTurn(kvs) == FirstWins(kvs) && i < |kvs|
    ensures Plain(kvs[i].1)
  {
    assert Winner(kvs, i);
    FirstWinsMeans(kvs, i);
    EachIsTaken(kvs, kvs[i].0);
    var j :| 0 <= j < |kvs| && Taken(kvs[j]) == Some((kvs[i].0, ReadInTurn(kvs)[kvs[i].0])) && kvs[j].0 == kvs[i].0;
    assert j == i;
    PairReadsBack(kvs[i].0, kvs[i].1);
  }

  lemma {:induction false} ReadBackIsClean(kvs: Pairs, i: nat)
    requires Apart(kvs) && i < |kvs| && Free(FirstWins(kvs), '&') && KeysFree(FirstWins(kvs), '=')
    ensures '&' !in kvs[i].0 && '&' !in kvs[i].1 && '=' !in kvs[i].0
  {
    assert Winner(kvs, i);
    FirstWinsMeans(kvs, i);
  }

  /** Pairs with different keys all come back exactly when each of them is readable. */
  lemma {:induction false} AllReadBackIff(kvs: Pairs)
    requires Apart(kvs)
    ensures ReadPieces(NonEmpty(Pieces(Built(kvs), "&")), "=", map[]) == FirstWins(kvs) <==> ReadablePairs(kvs)
  {
    BuiltIsReadInTurn(kvs);
    if ReadInTurn(kvs) == FirstWins(kvs) {
      ReadIsClean(Built(kvs));
      forall i | 0 <= i < |kvs| ensures '&' !in kvs[i].0 && '&' !in kvs[i].1 && '=' !in kvs[i].0 {
        ReadBackIsClean(kvs, i);
      }
      forall i | 0 <= i < |kvs| ensures Plain(kvs[i].1) {
        PairComesBack(kvs, i);
      }
    } else if ReadablePairs(kvs) {
      BuiltIsRead(kvs);
    }
  }

  /** Builds the text of some pairs and reads it. */
  method BuildThenParse(kvs: Pairs) returns (m: map<string, string>)
    ensures m == ReadInTurn(kvs) && (ReadablePairs(kvs) ==> m == FirstWins(kvs))
  {
    var w := new WrapString("");
    for i := 0 to |kvs|
      invariant w.str == Built(kvs[..i])
    {
      assert kvs[..i + 1][..i] == kvs[..i];
      w.AddString(kvs[i].0, kvs[i].1);
    }
    assert kvs[..|kvs|] == kvs;
    m := ParseKV(w.str, "&", "=", map[]);
    BuiltIsReadInTurn(kvs);
    if ReadablePairs(kvs) {
      BuiltIsRead(kvs);
    }
  }
}
