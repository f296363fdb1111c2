/** Ten-second buckets on a one-minute ring. */
module TimeKeys {
  const NUM_PER_MIN := 6
  const NUM_PER_INDEX := 10

  /** The first second of the bucket that second `t` belongs to. */
  function KeyOf(t: nat): nat { t - t % NUM_PER_INDEX }

  /** The ring position of that bucket. */
  function IndexOf(t: nat): (i: nat)
    ensures i < NUM_PER_MIN
  {
    t / NUM_PER_INDEX % NUM_PER_MIN
  }

  method GetTimeKey(ttime: nat) returns (timekey: nat, index: nat)
    ensures timekey == KeyOf(ttime) && index == IndexOf(ttime)
    ensures timekey <= ttime < timekey + NUM_PER_INDEX
    ensures index < NUM_PER_MIN
  {
    var left := ttime % 60;
    index := left / NUM_PER_INDEX;
    var base := ttime - left;
    timekey := base + index * NUM_PER_INDEX;
    MinuteSplit(ttime);
  }

  lemma MinuteSplit(t: nat)
    ensures KeyOf(t) == t - t % 60 + t % 60 / 10 * 10
    ensures IndexOf(t) == t % 60 / 10
  {
    var m, r := t / 60, t % 60;
    assert t == 60 * m + r;
    assert t / 10 == 6 * m + r / 10;
  }

  /** Two keys that share a ring position are equal or at least a minute apart. */
  lemma SameSlotApart(t: nat, u: nat)
    requires IndexOf(t) == IndexOf(u) && KeyOf(t) < KeyOf(u)
    ensures KeyOf(t) + 60 <= KeyOf(u)
  {
    var a, b := t / 10, u / 10;
    assert KeyOf(t) == 10 * a && KeyOf(u) == 10 * b;
    assert a == 6 * (a / 6) + a % 6 && b == 6 * (b / 6) + b % 6;
    if b / 6 <= a / 6 { assert false; }
  }

  lemma KeyIsStable(t: nat)
    ensures KeyOf(KeyOf(t)) == KeyOf(t) && IndexOf(KeyOf(t)) == IndexOf(t)
  {
    assert KeyOf(t) == 10 * (t / 10);
  }

  lemma KeyMonotone(t: nat, u: nat)
    requires t <= u
    ensures KeyOf(t) <= KeyOf(u)
  {
    assert KeyOf(t) == 10 * (t / 10) && KeyOf(u) == 10 * (u / 10);
  }
}
