/** How the server divides an activity's quota among the processes that report for it. */
module Apportion {
  import opened Arith
  import opened FiniteSums
  import opened TimeKeys
  import opened ReportMerge
  import opened Conservation

  const FINE_INTERVAL := 20
  const QUOTA_ALLOC_MIN := 10
  const UINT_RANGE := 0x1_0000_0000

  const POSITIONS := set i: nat | i < NUM_PER_MIN

  /** Old enough to be complete. */
  predicate Eligible(b: Bucket, nowkey: nat) {
    b.timekey < nowkey && nowkey - b.timekey >= FINE_INTERVAL
  }

  function Own(b: Bucket, id: Id): int {
    if id in b.entries then b.entries[id].sum else 0
  }

  predicate Counted(b: Bucket, nowkey: nat, id: Id) {
    Eligible(b, nowkey) && Own(b, id) > 0
  }

  function OwnAt(ring: Ring, nowkey: nat, id: Id): nat -> int {
    (i: nat) => if i < NUM_PER_MIN && Counted(ring[i], nowkey, id) then Own(ring[i], id) else 0
  }

  function TotalAt(ring: Ring, nowkey: nat, id: Id): nat -> int {
    (i: nat) => if i < NUM_PER_MIN && Counted(ring[i], nowkey, id) then ring[i].total.sum else 0
  }

  function OneAt(ring: Ring, nowkey: nat, id: Id): nat -> int {
    (i: nat) => if i < NUM_PER_MIN && Counted(ring[i], nowkey, id) then 1 else 0
  }

  /** What the process admitted, and what everybody did, over the buckets the process is in. */
  ghost function HistorySelf(ring: Ring, nowkey: nat, id: Id): int {
    Sum(POSITIONS, OwnAt(ring, nowkey, id))
  }

  ghost function HistoryTotal(ring: Ring, nowkey: nat, id: Id): int {
    Sum(POSITIONS, TotalAt(ring, nowkey, id))
  }

  ghost function ValidNum(ring: Ring, nowkey: nat, id: Id): int {
    Sum(POSITIONS, OneAt(ring, nowkey, id))
  }

  /** An unsigned 32-bit product over an unsigned division, as the source computes a share. */
  function Quotient(actquota: nat, self: nat, total: nat): nat
    requires total > 0
  {
    actquota * self % UINT_RANGE / total
  }

  ghost predicate EnoughHistory(ring: Ring, nowkey: nat, id: Id) {
    ValidNum(ring, nowkey, id) >= 2 && HistoryTotal(ring, nowkey, id) > QUOTA_ALLOC_MIN
  }

  lemma {:induction false} SelfIsNat(ring: Ring, nowkey: nat, id: Id)
    ensures HistorySelf(ring, nowkey, id) >= 0
  {
    SumOfNonNegative(POSITIONS, OwnAt(ring, nowkey, id));
  }

  /** The quota one process is given on a snapshot of the ring. */
  ghost function Share(ring: Ring, nowkey: nat, id: Id, actquota: nat): nat {
    if EnoughHistory(ring, nowkey, id) then
      SelfIsNat(ring, nowkey, id);
      Quotient(actquota, HistorySelf(ring, nowkey, id), HistoryTotal(ring, nowkey, id))
    else 0
  }

  // ------------------------------------------------- soundness of every bucket

  /** Counters are non-negative and the total of each covers what the map holds. */
  ghost predicate SoundBucket(b: Bucket) {
    && (forall id :: id in b.entries ==> b.entries[id].NonNegative())
    && (forall f: Field :: HeldTotal(b, f) <= b.total.Get(f))
  }

  ghost predicate Sound(ring: Ring) {
    forall i :: 0 <= i < NUM_PER_MIN ==> SoundBucket(ring[i])
  }

  lemma {:induction false} TouchHolds(b: Bucket, id: Id, f: Field)
    ensures HeldTotal(Touch(b, id), f) == HeldTotal(b, f)
  {
    var t := Touch(b, id);
    assert t.entries.Keys == b.entries.Keys + {id};
    SumExtend(b.entries.Keys, t.entries.Keys, Held(t, f));
    SumCong(b.entries.Keys, Held(b, f), Held(t, f));
  }

  lemma {:induction false} ReplaceHolds(b: Bucket, id: Id, now: Counts, total: Counts, f: Field)
    requires id in b.entries
    ensures HeldTotal(Bucket(b.timekey, total, b.entries[id := now]), f) ==
            HeldTotal(b, f) - b.entries[id].Get(f) + now.Get(f)
  {
    var b' := Bucket(b.timekey, total, b.entries[id := now]);
    assert b'.entries.Keys == b.entries.Keys;
    SumUpdate(b.entries.Keys, id, Held(b, f), Held(b', f));
  }

  lemma {:induction false} NewHolds(key: nat, id: Id, now: Counts, f: Field)
    ensures HeldTotal(Bucket(key, now, map[id := now]), f) == now.Get(f)
  {
    var b := Bucket(key, now, map[id := now]);
    assert b.entries.Keys == {id};
    SumSplit({id}, id, Held(b, f));
    assert {id} - {id} == {};
  }

  /** What a merge does to the total and to what the map holds. */
  lemma {:induction false} MergeKeepsCover(b: Bucket, id: Id, item: Item, f: Field)
    requires HeldTotal(b, f) <= b.total.Get(f) && item.Accepted() && Touch(b, id).entries[id].NonNegative()
    ensures HeldTotal(Merge(b, id, item), f) <= Merge(b, id, item).total.Get(f)
  {
    TouchHolds(b, id, f);
    if b.timekey == 0 || item.Key() > b.timekey {
      NewHolds(item.Key(), id, item.Reported(), f);
    } else if item.Key() == b.timekey {
      ReplaceHolds(Touch(b, id), id, item.Reported(), Merge(b, id, item).total, f);
    }
  }

  lemma {:induction false} MergeKeepsSound(b: Bucket, id: Id, item: Item)
    requires SoundBucket(b) && item.Accepted()
    ensures SoundBucket(Merge(b, id, item))
  {
    forall f: Field ensures HeldTotal(Merge(b, id, item), f) <= Merge(b, id, item).total.Get(f) {
      MergeKeepsCover(b, id, item, f);
    }
  }

  lemma {:induction false} TouchKeepsSound(b: Bucket, id: Id)
    requires SoundBucket(b)
    ensures SoundBucket(Touch(b, id))
  {
    forall f: Field ensures HeldTotal(Touch(b, id), f) <= b.total.Get(f) {
      TouchHolds(b, id, f);
    }
  }

  lemma {:induction false} StepKeepsSound(ring: Ring, e: Event, i: nat)
    requires i < NUM_PER_MIN && SoundBucket(ring[i])
    ensures SoundBucket(Step(ring, e)[i])
  {
    if Hits(e, i) {
      MergeKeepsSound(ring[i], e.id, e.item);
    } else if e.Lookup? {
      TouchKeepsSound(ring[i], e.id);
    }
  }

  /** After every run no counter is negative and no total is below the sum of its entries. */
  lemma {:induction false} RunIsSound(h: seq<Event>)
    ensures Sound(Run(h))
  {
    if h == [] {
      EmptyIsSound();
    } else {
      var h0, e := h[..|h| - 1], h[|h| - 1];
      RunIsSound(h0);
      forall i | 0 <= i < NUM_PER_MIN ensures SoundBucket(Run(h)[i]) {
        StepKeepsSound(Run(h0), e, i);
      }
    }
  }

  lemma {:induction false} EmptyIsSound()
    ensures SoundBucket(EMPTY)
  {
    assert EMPTY.entries.Keys == {};
  }

  ghost function Owns(b: Bucket): Id -> int {
    (id: Id) => Own(b, id)
  }

  lemma {:induction false} OwnIsCovered(b: Bucket, ids: set<Id>)
    requires SoundBucket(b)
    ensures Sum(ids, Owns(b)) <= b.total.sum
  {
    var own, all := Owns(b), ids + b.entries.Keys;
    SumSubset(ids, all, own);
    SumExtend(b.entries.Keys, all, own);
    SumCong(b.entries.Keys, own, Held(b, Admitted));
    assert HeldTotal(b, Admitted) <= b.total.Get(Admitted);
  }

  lemma {:induction false} OneIsCovered(b: Bucket, id: Id)
    requires SoundBucket(b)
    ensures 0 <= Own(b, id) <= b.total.sum
  {
    OwnIsCovered(b, {id});
    SumSplit({id}, id, Owns(b));
    assert {id} - {id} == {};
  }

  lemma {:induction false} HistoryBounds(ring: Ring, nowkey: nat, id: Id)
    requires Sound(ring)
    ensures 0 <= HistorySelf(ring, nowkey, id) <= HistoryTotal(ring, nowkey, id)
  {
    var own, total := OwnAt(ring, nowkey, id), TotalAt(ring, nowkey, id);
    forall i | i in POSITIONS ensures 0 <= own(i) <= total(i) {
      OneIsCovered(ring[i], id);
    }
    SumOfNonNegative(POSITIONS, own);
    SumLeq(POSITIONS, own, total);
  }

  // ---------------------------------------------------------------- one share

  lemma {:induction false} QuotientBounds(actquota: nat, self: nat, total: nat)
    requires self <= total && total > 0
    ensures Quotient(actquota, self, total) * total <= actquota * self
    ensures Quotient(actquota, self, total) <= actquota
  {}

  /** No process is ever given more than the whole quota, even when the product wraps. */
  lemma {:induction false} ShareAtMostQuota(h: seq<Event>, nowkey: nat, id: Id, actquota: nat)
    ensures Sound(Run(h)) && Share(Run(h), nowkey, id, actquota) <= actquota
  {
    RunIsSound(h);
    HistoryBounds(Run(h), nowkey, id);
    if EnoughHistory(Run(h), nowkey, id) {
      QuotientBounds(actquota, HistorySelf(Run(h), nowkey, id), HistoryTotal(Run(h), nowkey, id));
    }
  }

  /** The share is the proportional one exactly when the product fits 32 bits. */
  lemma {:induction false} QuotientExactIff(actquota: nat, self: nat, total: nat)
    requires 0 < total < UINT_RANGE
    ensures Quotient(actquota, self, total) == actquota * self / total <==> actquota * self < UINT_RANGE
  {}

  // ------------------------------------------------------- all shares together

  /** The processes are counted in exactly the same buckets. */
  ghost predicate SameBuckets(ring: Ring, nowkey: nat, ids: set<Id>) {
    forall i, p, q :: 0 <= i < NUM_PER_MIN && p in ids && q in ids ==>
      (Counted(ring[i], nowkey, p) <==> Counted(ring[i], nowkey, q))
  }

  ghost function SelfOver(ring: Ring, nowkey: nat, at: set<nat>): Id -> int {
    (id: Id) => Sum(at, OwnAt(ring, nowkey, id))
  }

  ghost function OwnIn(ring: Ring, nowkey: nat, i: nat): Id -> int {
    (id: Id) => OwnAt(ring, nowkey, id)(i)
  }

  lemma {:induction false} SelvesSplit(ring: Ring, nowkey: nat, at: set<nat>, i: nat, ids: set<Id>)
    requires i in at
    ensures Sum(ids, SelfOver(ring, nowkey, at)) ==
            Sum(ids, OwnIn(ring, nowkey, i)) + Sum(ids, SelfOver(ring, nowkey, at - {i}))
  {
    forall id | id in ids
      ensures SelfOver(ring, nowkey, at)(id) == OwnIn(ring, nowkey, i)(id) + SelfOver(ring, nowkey, at - {i})(id)
    {
      SumSplit(at, i, OwnAt(ring, nowkey, id));
    }
    SumAdd(ids, OwnIn(ring, nowkey, i), SelfOver(ring, nowkey, at - {i}), SelfOver(ring, nowkey, at));
  }

  lemma {:induction false} SelvesInOneBucket(ring: Ring, nowkey: nat, i: nat, ids: set<Id>, p: Id)
    requires Sound(ring) && SameBuckets(ring, nowkey, ids) && p in ids && i < NUM_PER_MIN
    ensures Sum(ids, OwnIn(ring, nowkey, i)) <= TotalAt(ring, nowkey, p)(i)
  {
    var b := ring[i];
    if Counted(b, nowkey, p) {
      forall id | id in ids ensures OwnIn(ring, nowkey, i)(id) == Owns(b)(id) {
        assert OwnIn(ring, nowkey, i)(id) == OwnAt(ring, nowkey, id)(i);
        assert Counted(b, nowkey, p) <==> Counted(b, nowkey, id);
      }
      SumCong(ids, OwnIn(ring, nowkey, i), Owns(b));
      OwnIsCovered(b, ids);
    } else {
      forall id | id in ids ensures OwnIn(ring, nowkey, i)(id) == 0 {
        assert OwnIn(ring, nowkey, i)(id) == OwnAt(ring, nowkey, id)(i);
        assert Counted(b, nowkey, p) <==> Counted(b, nowkey, id);
      }
      SumOfZeros(ids, OwnIn(ring, nowkey, i));
    }
  }

  lemma {:induction false} NoSelves(ring: Ring, nowkey: nat, ids: set<Id>)
    ensures Sum(ids, SelfOver(ring, nowkey, {})) == 0
  {
    SumOfZeros(ids, SelfOver(ring, nowkey, {}));
  }

  lemma {:induction false} SelvesAreCovered(ring: Ring, nowkey: nat, at: set<nat>, ids: set<Id>, p: Id)
    requires Sound(ring) && SameBuckets(ring, nowkey, ids) && p in ids
    requires forall i :: i in at ==> i < NUM_PER_MIN
    ensures Sum(ids, SelfOver(ring, nowkey, at)) <= Sum(at, TotalAt(ring, nowkey, p))
    decreases at
  {
    if at == {} {
      NoSelves(ring, nowkey, ids);
    } else {
      var i :| i in at;
      SelvesAreCovered(ring, nowkey, at - {i}, ids, p);
      SelvesSplit(ring, nowkey, at, i, ids);
      SelvesInOneBucket(ring, nowkey, i, ids, p);
      SumSplit(at, i, TotalAt(ring, nowkey, p));
    }
  }

  ghost function ShareOf(ring: Ring, nowkey: nat, actquota: nat): Id -> int {
    (id: Id) => Share(ring, nowkey, id, actquota)
  }

  lemma {:induction false} ScaledSum<T>(s: set<T>, share: T -> int, self: T -> int, total: nat, actquota: nat)
    requires forall x :: x in s ==> share(x) * total <= actquota * self(x)
    ensures Sum(s, share) * total <= actquota * Sum(s, self)
    decreases s
  {
    if s != {} {
      var x :| x in s;
      ScaledSum(s - {x}, share, self, total, actquota);
      SumSplit(s, x, share);
      SumSplit(s, x, self);
      Distribute(share(x), Sum(s - {x}, share), total);
      Distribute(self(x), Sum(s - {x}, self), actquota);
    }
  }

  lemma {:induction false} SameTotal(ring: Ring, nowkey: nat, ids: set<Id>, p: Id, q: Id)
    requires SameBuckets(ring, nowkey, ids) && p in ids && q in ids
    ensures HistoryTotal(ring, nowkey, p) == HistoryTotal(ring, nowkey, q)
    ensures EnoughHistory(ring, nowkey, p) <==> EnoughHistory(ring, nowkey, q)
  {
    forall i | i in POSITIONS
      ensures TotalAt(ring, nowkey, p)(i) == TotalAt(ring, nowkey, q)(i)
      ensures OneAt(ring, nowkey, p)(i) == OneAt(ring, nowkey, q)(i)
    {
      assert Counted(ring[i], nowkey, p) <==> Counted(ring[i], nowkey, q);
    }
    SumCong(POSITIONS, TotalAt(ring, nowkey, p), TotalAt(ring, nowkey, q));
    SumCong(POSITIONS, OneAt(ring, nowkey, p), OneAt(ring, nowkey, q));
  }

  /** A share is the process's proportion of the quota, rounded down. */
  predicate Proportional(actquota: nat, self: int, share: int, total: nat) {
    && share * total <= actquota * self
    && (actquota * self < UINT_RANGE ==> actquota * self < share * total + total)
  }

  lemma {:induction false} QuotientProportional(actquota: nat, self: nat, total: nat)
    requires self <= total && total > 0
    ensures Proportional(actquota, self, Quotient(actquota, self, total), total)
  {}

  lemma {:induction false} ShareProportional(ring: Ring, nowkey: nat, ids: set<Id>, p: Id, id: Id, actquota: nat)
    requires Sound(ring) && SameBuckets(ring, nowkey, ids) && p in ids && id in ids
    requires EnoughHistory(ring, nowkey, p)
    ensures Proportional(actquota, HistorySelf(ring, nowkey, id), Share(ring, nowkey, id, actquota),
                         HistoryTotal(ring, nowkey, p))
  {
    SameTotal(ring, nowkey, ids, p, id);
    HistoryBounds(ring, nowkey, id);
    QuotientProportional(actquota, HistorySelf(ring, nowkey, id), HistoryTotal(ring, nowkey, id));
  }

  lemma {:induction false} NoShares(ring: Ring, nowkey: nat, ids: set<Id>, p: Id, actquota: nat)
    requires Sound(ring) && SameBuckets(ring, nowkey, ids) && p in ids
    requires !EnoughHistory(ring, nowkey, p)
    ensures Sum(ids, ShareOf(ring, nowkey, actquota)) == 0
  {
    forall id | id in ids ensures ShareOf(ring, nowkey, actquota)(id) == 0 {
      SameTotal(ring, nowkey, ids, p, id);
    }
    SumOfZeros(ids, ShareOf(ring, nowkey, actquota));
  }

  /**
   * On one snapshot, processes counted in the same buckets are together given at most the
   * quota, whether or not the 32-bit products wrap.
   */
  lemma {:induction false} SharesAtMostQuota(ring: Ring, nowkey: nat, ids: set<Id>, actquota: nat)
    requires Sound(ring) && SameBuckets(ring, nowkey, ids)
    ensures Sum(ids, ShareOf(ring, nowkey, actquota)) <= actquota
  {
    if ids != {} {
      var p :| p in ids;
      if EnoughHistory(ring, nowkey, p) {
        SharesScale(ring, nowkey, ids, p, actquota);
      } else {
        NoShares(ring, nowkey, ids, p, actquota);
      }
    }
  }

  lemma {:induction false} SharesScale(ring: Ring, nowkey: nat, ids: set<Id>, p: Id, actquota: nat)
    requires Sound(ring) && SameBuckets(ring, nowkey, ids) && p in ids
    requires EnoughHistory(ring, nowkey, p)
    ensures Sum(ids, ShareOf(ring, nowkey, actquota)) <= actquota
  {
    var total := HistoryTotal(ring, nowkey, p);
    AllProportional(ring, nowkey, ids, p, actquota);
    SelvesAreCovered(ring, nowkey, POSITIONS, ids, p);
    ProportionsFit(ids, ShareOf(ring, nowkey, actquota), SelfOver(ring, nowkey, POSITIONS), total, actquota);
  }

  lemma {:induction false} AllProportional(ring: Ring, nowkey: nat, ids: set<Id>, p: Id, actquota: nat)
    requires Sound(ring) && SameBuckets(ring, nowkey, ids) && p in ids
    requires EnoughHistory(ring, nowkey, p)
    ensures forall id :: id in ids ==>
      Proportional(actquota, SelfOver(ring, nowkey, POSITIONS)(id), ShareOf(ring, nowkey, actquota)(id),
                   HistoryTotal(ring, nowkey, p))
  {
    forall id | id in ids
      ensures Proportional(actquota, SelfOver(ring, nowkey, POSITIONS)(id), ShareOf(ring, nowkey, actquota)(id),
                           HistoryTotal(ring, nowkey, p))
    {
      ShareProportional(ring, nowkey, ids, p, id, actquota);
    }
  }

  lemma {:induction false} ProportionsFit<T>(s: set<T>, share: T -> int, self: T -> int, total: nat, actquota: nat)
    requires forall x :: x in s ==> Proportional(actquota, self(x), share(x), total)
    requires total > 0 && Sum(s, self) <= total
    ensures Sum(s, share) <= actquota
  {
    ScaledSum(s, share, self, total, actquota);
    CancelTotal(Sum(s, share), total, actquota, Sum(s, self));
  }

  lemma {:induction false} CancelTotal(shares: int, total: nat, actquota: nat, selves: int)
    requires total > 0 && shares * total <= actquota * selves && selves <= total
    ensures shares <= actquota
  {}

  // ----------------------------------------------------------------- shortfall

  /** The processes are everybody who contributed to the buckets they are counted in, and none restarted. */
  ghost predicate AllContributors(ring: Ring, nowkey: nat, ids: set<Id>) {
    forall i, p :: 0 <= i < NUM_PER_MIN && p in ids && Counted(ring[i], nowkey, p) ==>
      && ring[i].total.sum == HeldTotal(ring[i], Admitted)
      && (forall id :: id in ring[i].entries && Own(ring[i], id) > 0 ==> id in ids)
  }

  lemma {:induction false} AllOwned(b: Bucket, ids: set<Id>)
    requires SoundBucket(b) && forall id :: id in b.entries && Own(b, id) > 0 ==> id in ids
    ensures Sum(ids, Owns(b)) == HeldTotal(b, Admitted)
  {
    var all := ids + b.entries.Keys;
    SumExtend(ids, all, Owns(b));
    SumExtend(b.entries.Keys, all, Owns(b));
    SumCong(b.entries.Keys, Owns(b), Held(b, Admitted));
  }

  lemma {:induction false} SelvesFillOneBucket(ring: Ring, nowkey: nat, i: nat, ids: set<Id>, p: Id)
    requires Sound(ring) && SameBuckets(ring, nowkey, ids) && AllContributors(ring, nowkey, ids)
    requires p in ids && i < NUM_PER_MIN
    ensures Sum(ids, OwnIn(ring, nowkey, i)) >= TotalAt(ring, nowkey, p)(i)
  {
    var b := ring[i];
    forall id | id in ids
      ensures OwnIn(ring, nowkey, i)(id) == if Counted(b, nowkey, p) then Owns(b)(id) else 0
    {
      assert OwnIn(ring, nowkey, i)(id) == OwnAt(ring, nowkey, id)(i);
      assert Counted(b, nowkey, p) <==> Counted(b, nowkey, id);
    }
    if Counted(b, nowkey, p) {
      SumCong(ids, OwnIn(ring, nowkey, i), Owns(b));
      AllOwned(b, ids);
    } else {
      SumOfZeros(ids, OwnIn(ring, nowkey, i));
    }
  }

  lemma {:induction false} SelvesFill(ring: Ring, nowkey: nat, at: set<nat>, ids: set<Id>, p: Id)
    requires Sound(ring) && SameBuckets(ring, nowkey, ids) && AllContributors(ring, nowkey, ids) && p in ids
    requires forall i :: i in at ==> i < NUM_PER_MIN
    ensures Sum(ids, SelfOver(ring, nowkey, at)) >= Sum(at, TotalAt(ring, nowkey, p))
    decreases at
  {
    if at == {} {
      NoSelves(ring, nowkey, ids);
    } else {
      var i :| i in at;
      SelvesFill(ring, nowkey, at - {i}, ids, p);
      SelvesSplit(ring, nowkey, at, i, ids);
      SelvesFillOneBucket(ring, nowkey, i, ids, p);
      SumSplit(at, i, TotalAt(ring, nowkey, p));
    }
  }

  lemma {:induction false} ScaledDeficit<T>(s: set<T>, share: T -> int, self: T -> int, total: nat, actquota: nat)
    requires forall x :: x in s ==> actquota * self(x) < share(x) * total + total
    ensures actquota * Sum(s, self) <= Sum(s, share) * total + |s| * (total - 1)
    decreases s
  {
    if s != {} {
      var x :| x in s;
      ScaledDeficit(s - {x}, share, self, total, actquota);
      SumSplit(s, x, share);
      SumSplit(s, x, self);
      Distribute(share(x), Sum(s - {x}, share), total);
      Distribute(self(x), Sum(s - {x}, self), actquota);
      Distribute(|s| - 1, 1, total - 1);
    }
  }

  lemma {:induction false} ProportionsLoseLittle<T>(s: set<T>, share: T -> int, self: T -> int, total: nat, actquota: nat)
    requires forall x :: x in s ==> Proportional(actquota, self(x), share(x), total)
    requires forall x :: x in s ==> actquota * self(x) < UINT_RANGE
    requires s != {} && total > 0 && Sum(s, self) >= total
    ensures actquota - Sum(s, share) < |s|
  {
    ScaledDeficit(s, share, self, total, actquota);
    MulMono(total, Sum(s, self), actquota);
    CancelDeficit(actquota, Sum(s, share), |s|, total);
  }

  /**
   * When those processes are all the contributors, nothing restarted and the products fit
   * 32 bits, rounding loses less than one unit of quota per process.
   */
  lemma {:induction false} ShortfallBelowCount(ring: Ring, nowkey: nat, ids: set<Id>, p: Id, actquota: nat)
    requires Sound(ring) && SameBuckets(ring, nowkey, ids) && AllContributors(ring, nowkey, ids)
    requires p in ids && EnoughHistory(ring, nowkey, p)
    requires forall id :: id in ids ==> actquota * HistorySelf(ring, nowkey, id) < UINT_RANGE
    ensures actquota - Sum(ids, ShareOf(ring, nowkey, actquota)) < |ids|
  {
    var self := SelfOver(ring, nowkey, POSITIONS);
    AllProportional(ring, nowkey, ids, p, actquota);
    SelvesFill(ring, nowkey, POSITIONS, ids, p);
    forall id | id in ids ensures actquota * self(id) < UINT_RANGE {
      assert self(id) == HistorySelf(ring, nowkey, id);
    }
    ProportionsLoseLittle(ids, ShareOf(ring, nowkey, actquota), self, HistoryTotal(ring, nowkey, p), actquota);
  }

  lemma {:induction false} CancelDeficit(actquota: nat, shares: int, n: nat, total: nat)
    requires n > 0 && total > 0 && actquota * total <= shares * total + n * (total - 1)
    ensures actquota - shares < n
  {}

}
