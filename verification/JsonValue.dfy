/** JSON values, with objects as member lists in the order of `strcmp`. */
module JsonValue {
  import opened Optional

  const MAX_INT := 0x7FFF_FFFF
  const MAX_UINT := 0xFFFF_FFFF

  datatype Json =
    | Null
    | Bool(flag: bool)
    | Int(int_: int)
    | UInt(uint_: nat)
    | Real(real_: real)
    | Str(text: string)
    | Arr(items: seq<Json>)
    | Obj(members: seq<Member>)

  datatype Member = Member(name: string, value: Json)

  /** The order of member names: character by character, a prefix first. */
  predicate Less(a: string, b: string) {
    if b == "" then false
    else if a == "" then true
    else a[0] < b[0] || (a[0] == b[0] && Less(a[1..], b[1..]))
  }

  lemma {:induction false} LessIsTotal(a: string, b: string)
    ensures Less(a, b) || a == b || Less(b, a)
    ensures !(Less(a, b) && Less(b, a)) && (Less(a, b) ==> a != b)
  {
    if a != "" {
      if b != "" {
        LessIsTotal(a[1..], b[1..]);
        assert a == [a[0]] + a[1..] && b == [b[0]] + b[1..];
      }
    }
  }

  lemma {:induction false} LessIsTransitive(a: string, b: string, c: string)
    requires Less(a, b) && Less(b, c)
    ensures Less(a, c)
  {
    if a != "" && a[0] == b[0] == c[0] {
      LessIsTransitive(a[1..], b[1..], c[1..]);
    }
  }

  /** `a` and `b` are the same up to `k`, and there `a` ends or has the smaller character. */
  predicate DiffersAt(a: string, b: string, k: nat) {
    k <= |a| && k < |b| && a[..k] == b[..k] && (k == |a| || a[k] < b[k])
  }

  /** The order of `strcmp`: what counts is the first difference. */
  ghost predicate Precedes(a: string, b: string) { exists k :: DiffersAt(a, b, k) }

  lemma {:induction false} LessHasDifference(a: string, b: string) returns (k: nat)
    requires Less(a, b)
    ensures DiffersAt(a, b, k)
  {
    if a == "" || a[0] < b[0] {
      k := 0;
    } else {
      var i := LessHasDifference(a[1..], b[1..]);
      k := i + 1;
      assert a[..k] == [a[0]] + a[1..][..i] && b[..k] == [b[0]] + b[1..][..i];
    }
  }

  lemma {:induction false} DifferenceMakesLess(a: string, b: string, k: nat)
    requires DiffersAt(a, b, k)
    ensures Less(a, b)
  {
    if k > 0 {
      assert a[0] == a[..k][0] == b[..k][0] == b[0];
      assert a[1..][..k - 1] == a[..k][1..] && b[1..][..k - 1] == b[..k][1..];
      DifferenceMakesLess(a[1..], b[1..], k - 1);
    }
  }

  lemma {:induction false} LessIsPrecedes(a: string, b: string)
    ensures Less(a, b) <==> Precedes(a, b)
  {
    if Less(a, b) {
      var k := LessHasDifference(a, b);
    }
    if Precedes(a, b) {
      var k :| DiffersAt(a, b, k);
      DifferenceMakesLess(a, b, k);
    }
  }

  /** Every name precedes the later ones. */
  ghost predicate ByName(ms: seq<Member>) {
    forall i, j :: 0 <= i < j < |ms| ==> Precedes(ms[i].name, ms[j].name)
  }

  lemma {:induction false} SortedIsByName(ms: seq<Member>)
    ensures Sorted(ms) <==> ByName(ms)
  {
    forall i, j | 0 <= i < j < |ms| ensures Less(ms[i].name, ms[j].name) <==> Precedes(ms[i].name, ms[j].name) {
      LessIsPrecedes(ms[i].name, ms[j].name);
    }
  }

  /** Member names are in increasing order, so no name occurs twice. */
  predicate Sorted(ms: seq<Member>) {
    forall i, j :: 0 <= i < j < |ms| ==> Less(ms[i].name, ms[j].name)
  }

  /** Setting a member of an object. */
  function Put(ms: seq<Member>, name: string, v: Json): (r: seq<Member>)
    ensures |ms| <= |r| <= |ms| + 1
  {
    if ms == [] || Less(name, ms[0].name) then [Member(name, v)] + ms
    else if ms[0].name == name then [Member(name, v)] + ms[1..]
    else [ms[0]] + Put(ms[1..], name, v)
  }

  function Lookup(ms: seq<Member>, name: string): Option<Json> {
    if ms == [] then None
    else if ms[0].name == name then Some(ms[0].value)
    else Lookup(ms[1..], name)
  }

  lemma {:induction false} PutLookup(ms: seq<Member>, name: string, v: Json, other: string)
    requires Sorted(ms)
    ensures Lookup(Put(ms, name, v), other) == if other == name then Some(v) else Lookup(ms, other)
  {
    LessIsTotal(name, name);
    if ms == [] || Less(name, ms[0].name) {
      assert ([Member(name, v)] + ms)[1..] == ms;
    } else if ms[0].name == name {
      assert ([Member(name, v)] + ms[1..])[1..] == ms[1..];
    } else {
      PutLookup(ms[1..], name, v, other);
      assert ([ms[0]] + Put(ms[1..], name, v))[1..] == Put(ms[1..], name, v);
    }
  }

  /** Every name after a put is the new one or an old one. */
  lemma {:induction false} PutNames(ms: seq<Member>, name: string, v: Json, i: nat)
    requires i < |Put(ms, name, v)|
    ensures Put(ms, name, v)[i] == Member(name, v) || Put(ms, name, v)[i] in ms
  {
    if ms != [] && !Less(name, ms[0].name) && ms[0].name != name && i > 0 {
      PutNames(ms[1..], name, v, i - 1);
    }
  }

  lemma {:induction false} PutStaysSorted(ms: seq<Member>, name: string, v: Json)
    requires Sorted(ms)
    ensures Sorted(Put(ms, name, v))
  {
    if ms == [] {
    } else if Less(name, ms[0].name) {
      forall j | 0 < j < |ms| ensures Less(name, ms[j].name) {
        LessIsTransitive(name, ms[0].name, ms[j].name);
      }
    } else if ms[0].name != name {
      LessIsTotal(name, ms[0].name);
      PutStaysSorted(ms[1..], name, v);
      var rest := Put(ms[1..], name, v);
      forall i | 0 <= i < |rest| ensures Less(ms[0].name, rest[i].name) {
        PutNames(ms[1..], name, v, i);
      }
    }
  }

  /** Setting a member keeps every name before the later ones, in the order of `strcmp`. */
  lemma {:induction false} PutKeepsSorted(ms: seq<Member>, name: string, v: Json)
    requires Sorted(ms)
    ensures Sorted(Put(ms, name, v)) && ByName(Put(ms, name, v))
  {
    PutStaysSorted(ms, name, v);
    SortedIsByName(Put(ms, name, v));
  }

  /** A name after all others is added at the end. */
  lemma {:induction false} PutLast(ms: seq<Member>, name: string, v: Json)
    requires forall i :: 0 <= i < |ms| ==> Less(ms[i].name, name)
    ensures Put(ms, name, v) == ms + [Member(name, v)]
  {
    if ms != [] {
      LessIsTotal(ms[0].name, name);
      PutLast(ms[1..], name, v);
      assert ms == [ms[0]] + ms[1..];
    }
  }

  /** Values an object or an array can hold: every object's names are sorted. */
  predicate Ordered(v: Json) {
    match v
    case Arr(items) => forall i :: 0 <= i < |items| ==> Ordered(items[i])
    case Obj(ms) => Sorted(ms) && forall i :: 0 <= i < |ms| ==> Ordered(ms[i].value)
    case _ => true
  }

  /** The same, in the order of `strcmp`. */
  ghost predicate InOrder(v: Json) {
    match v
    case Arr(items) => forall i :: 0 <= i < |items| ==> InOrder(items[i])
    case Obj(ms) => ByName(ms) && forall i :: 0 <= i < |ms| ==> InOrder(ms[i].value)
    case _ => true
  }

  lemma {:induction false} OrderedIsInOrder(v: Json)
    ensures Ordered(v) <==> InOrder(v)
  {
    match v
    case Arr(items) =>
      forall i | 0 <= i < |items| ensures Ordered(items[i]) <==> InOrder(items[i]) {
        OrderedIsInOrder(items[i]);
      }
    case Obj(ms) =>
      SortedIsByName(ms);
      forall i | 0 <= i < |ms| ensures Ordered(ms[i].value) <==> InOrder(ms[i].value) {
        OrderedIsInOrder(ms[i].value);
      }
    case _ =>
  }
}
