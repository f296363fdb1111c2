/** What every run of reports leaves in each bucket, stated against the history of the run. */
module Conservation {
  import opened FiniteSums
  import opened TimeKeys
  import opened ReportMerge

  /** The sum over the bucket's map of the counters last seen from each process. */
  ghost function Held(b: Bucket, f: Field): Id -> int {
    (id: Id) => if id in b.entries then b.entries[id].Get(f) else 0
  }

  ghost function HeldTotal(b: Bucket, f: Field): int {
    Sum(b.entries.Keys, Held(b, f))
  }

  /** No report of this process was smaller than the one before it. */
  predicate NeverFalls(vs: seq<Counts>) {
    forall k :: 0 < k < |vs| ==> vs[k - 1].sum <= vs[k].sum
  }

  lemma {:induction false} ReportersHaveValues(h: seq<Event>, i: nat, key: nat, id: Id)
    ensures id in Reporters(h, i, key) <==> Values(h, i, key, id) != []
  {
    if h != [] {
      ReportersHaveValues(h[..|h| - 1], i, key, id);
    }
  }

  lemma {:induction false} ReportersOnly(h: seq<Event>, i: nat, b: Bucket, f: Field)
    requires Conserved(h, i, b) && b.timekey > 0
    ensures Reporters(h, i, b.timekey) <= b.entries.Keys
    ensures b.total.Get(f) == TotalContribution(BookOf(h, i, b.timekey), Reporters(h, i, b.timekey), f)
  {
    var book, ids := BookOf(h, i, b.timekey), Reporters(h, i, b.timekey);
    forall id ensures id in ids <==> book(id) != [] {
      ReportersHaveValues(h, i, b.timekey, id);
    }
    forall id | id in ids ensures id in b.entries {
      assert book(id) != [];
    }
    forall id | id in b.entries.Keys - ids ensures Shares(book, f)(id) == 0 {
      NoShare(book, id, f);
    }
    assert b.total.Get(f) == TotalContribution(book, b.entries.Keys, f);
    SumExtend(ids, b.entries.Keys, Shares(book, f));
  }

  /**
   * For every run, each bucket holds the newest period reported at its position, and its
   * totals are the sums, over the processes that reported for that period, of the latest
   * value plus the final value of every epoch a restart closed.
   */
  lemma {:induction false} BucketTotals(h: seq<Event>, i: nat, f: Field)
    requires i < NUM_PER_MIN
    ensures var b, key := Run(h)[i], LatestKey(h, i);
            b.timekey == key &&
            (key > 0 ==>
              b.total.Get(f) == TotalContribution(BookOf(h, i, key), Reporters(h, i, key), f))
  {
    RunIsConserved(h, i);
    if LatestKey(h, i) > 0 {
      ReportersOnly(h, i, Run(h)[i], f);
    }
  }

  /** The map holds, for each process that reported, the latest report. */
  lemma {:induction false} BucketEntries(h: seq<Event>, i: nat, id: Id)
    requires i < NUM_PER_MIN && LatestKey(h, i) > 0
    ensures var b, vs := Run(h)[i], Values(h, i, LatestKey(h, i), id);
            vs != [] ==> id in b.entries && b.entries[id] == vs[|vs| - 1]
  {
    RunIsConserved(h, i);
    assert BookOf(h, i, LatestKey(h, i))(id) == Values(h, i, LatestKey(h, i), id);
  }

  // -------------------------------------------- totals against the map, restarts

  predicate AllPositive(vs: seq<Counts>) { forall k :: 0 <= k < |vs| ==> vs[k].sum > 0 && vs[k].NonNegative() }

  lemma {:induction false} NeverFallsStep(vs: seq<Counts>)
    requires |vs| >= 2
    ensures NeverFalls(vs) <==> NeverFalls(vs[..|vs| - 1]) && vs[|vs| - 2].sum <= vs[|vs| - 1].sum
  {}

  /** What the last report closes: the one before it, when it is smaller. */
  lemma {:induction false} ClosedStep(vs: seq<Counts>)
    requires |vs| >= 2
    ensures Closed(vs) ==
            if vs[|vs| - 1].sum < vs[|vs| - 2].sum then Plus(Closed(vs[..|vs| - 1]), vs[|vs| - 2]) else Closed(vs[..|vs| - 1])
  {}

  lemma {:induction false} StillPositive(vs: seq<Counts>, init: seq<Counts>)
    requires AllPositive(vs) && vs != [] && init == vs[..|vs| - 1]
    ensures AllPositive(init)
  {}

  lemma {:induction false} PlusIsNat(a: Counts, b: Counts)
    requires a.NonNegative() && b.NonNegative()
    ensures Plus(a, b).NonNegative()
  {}

  lemma {:induction false} ClosedIsNat(vs: seq<Counts>)
    requires AllPositive(vs)
    ensures Closed(vs).NonNegative()
  {
    if |vs| >= 2 {
      var init := vs[..|vs| - 1];
      StillPositive(vs, init);
      ClosedIsNat(init);
      ClosedStep(vs);
      PlusIsNat(Closed(init), vs[|vs| - 2]);
    }
  }

  /** Nothing is closed exactly when no report was smaller than the one before it. */
  lemma {:induction false} ClosedTellsFalls(vs: seq<Counts>)
    requires AllPositive(vs)
    ensures if NeverFalls(vs) then Closed(vs) == ZERO else Closed(vs).sum > 0
  {
    if |vs| >= 2 {
      var init := vs[..|vs| - 1];
      StillPositive(vs, init);
      ClosedTellsFalls(init);
      ClosedIsNat(init);
      ClosedStep(vs);
      NeverFallsStep(vs);
    }
  }

  lemma {:induction false} ClosedBounds(vs: seq<Counts>, f: Field)
    requires forall v :: v in vs ==> v.sum > 0 && v.NonNegative()
    ensures Closed(vs).Get(f) >= 0
    ensures NeverFalls(vs) ==> Closed(vs) == ZERO
    ensures !NeverFalls(vs) ==> Closed(vs).sum > 0
  {
    ClosedIsNat(vs);
    ClosedTellsFalls(vs);
  }

  lemma {:induction false} HeldIsLatest(h: seq<Event>, i: nat, b: Bucket, f: Field, id: Id)
    requires Conserved(h, i, b) && b.timekey > 0 && id in b.entries
    ensures var vs := Values(h, i, b.timekey, id);
            Shares(BookOf(h, i, b.timekey), f)(id) == Held(b, f)(id) + Closed(vs).Get(f)
  {}

  ghost function ClosedShare(h: seq<Event>, i: nat, key: nat, f: Field): Id -> int {
    (id: Id) => Closed(Values(h, i, key, id)).Get(f)
  }

  lemma {:induction false} TotalSplits(h: seq<Event>, i: nat, b: Bucket, f: Field)
    requires Conserved(h, i, b) && b.timekey > 0
    ensures b.total.Get(f) == HeldTotal(b, f) + Sum(b.entries.Keys, ClosedShare(h, i, b.timekey, f))
  {
    var all, held, closed := Shares(BookOf(h, i, b.timekey), f), Held(b, f), ClosedShare(h, i, b.timekey, f);
    forall id | id in b.entries ensures all(id) == held(id) + closed(id) {
      HeldIsLatest(h, i, b, f, id);
    }
    SumAdd(b.entries.Keys, held, closed, all);
    assert b.total.Get(f) == TotalContribution(BookOf(h, i, b.timekey), b.entries.Keys, f);
  }

  lemma {:induction false} SumOfNonNegative<T>(s: set<T>, g: T -> int)
    requires forall x :: x in s ==> g(x) >= 0
    ensures Sum(s, g) >= 0
    ensures forall x :: x in s ==> Sum(s, g) >= g(x)
    decreases s
  {
    forall x | x in s ensures Sum(s, g) >= g(x) {
      SumSplit(s, x, g);
      SumOfNonNegative(s - {x}, g);
    }
    if s != {} {
      var x :| x in s;
      assert Sum(s, g) >= g(x);
    }
  }

  lemma {:induction false} SumOfZeros<T>(s: set<T>, g: T -> int)
    requires forall x :: x in s ==> g(x) == 0
    ensures Sum(s, g) == 0
  {
    SumExtend({}, s, g);
  }

  /**
   * A bucket total is never below the total of its map, and the admitted total equals it
   * exactly when no process restarted during the period.
   */
  lemma {:induction false} TotalsCoverTheMap(h: seq<Event>, i: nat, f: Field)
    requires i < NUM_PER_MIN && LatestKey(h, i) > 0
    ensures var b := Run(h)[i]; b.total.Get(f) >= HeldTotal(b, f)
    ensures (forall id :: NeverFalls(Values(h, i, LatestKey(h, i), id)))
            ==> Run(h)[i].total.Get(f) == HeldTotal(Run(h)[i], f)
    ensures Run(h)[i].total.sum == HeldTotal(Run(h)[i], Admitted)
            ==> forall id :: NeverFalls(Values(h, i, LatestKey(h, i), id))
  {
    var b := Run(h)[i];
    RunIsConserved(h, i);
    forall g: Field ensures ClosedSharesOf(h, i, b, g) {
      TotalSplits(h, i, b, g);
      forall id ensures ClosedShareOf(h, i, b.timekey, id, g) {
        ValuesArePositive(h, i, b.timekey, id);
        ClosedBounds(Values(h, i, b.timekey, id), g);
      }
    }
    CoverField(h, i, b, f);
    if b.total.sum == HeldTotal(b, Admitted) {
      AdmittedTellsRestarts(h, i, b);
    }
  }

  ghost predicate ClosedShareOf(h: seq<Event>, i: nat, key: nat, id: Id, f: Field) {
    var vs := Values(h, i, key, id);
    && ClosedShare(h, i, key, f)(id) >= 0
    && (NeverFalls(vs) ==> ClosedShare(h, i, key, f)(id) == 0)
    && (!NeverFalls(vs) && f == Admitted ==> ClosedShare(h, i, key, f)(id) > 0)
  }

  ghost predicate ClosedSharesOf(h: seq<Event>, i: nat, b: Bucket, f: Field) {
    && b.total.Get(f) == HeldTotal(b, f) + Sum(b.entries.Keys, ClosedShare(h, i, b.timekey, f))
    && (forall id :: ClosedShareOf(h, i, b.timekey, id, f))
  }

  lemma {:induction false} CoverField(h: seq<Event>, i: nat, b: Bucket, f: Field)
    requires ClosedSharesOf(h, i, b, f)
    ensures b.total.Get(f) >= HeldTotal(b, f)
    ensures (forall id :: NeverFalls(Values(h, i, b.timekey, id))) ==> b.total.Get(f) == HeldTotal(b, f)
  {
    var closed := ClosedShare(h, i, b.timekey, f);
    forall id ensures closed(id) >= 0 { assert ClosedShareOf(h, i, b.timekey, id, f); }
    SumOfNonNegative(b.entries.Keys, closed);
    if forall id :: NeverFalls(Values(h, i, b.timekey, id)) {
      forall id ensures closed(id) == 0 { assert ClosedShareOf(h, i, b.timekey, id, f); }
      SumOfZeros(b.entries.Keys, closed);
    }
  }

  lemma {:induction false} AdmittedTellsRestarts(h: seq<Event>, i: nat, b: Bucket)
    requires ClosedSharesOf(h, i, b, Admitted) && Conserved(h, i, b) && b.timekey > 0
    requires b.total.sum == HeldTotal(b, Admitted)
    ensures forall id :: NeverFalls(Values(h, i, b.timekey, id))
  {
    var closed := ClosedShare(h, i, b.timekey, Admitted);
    forall id ensures closed(id) >= 0 { assert ClosedShareOf(h, i, b.timekey, id, Admitted); }
    SumOfNonNegative(b.entries.Keys, closed);
    forall id ensures NeverFalls(Values(h, i, b.timekey, id)) {
      assert ClosedShareOf(h, i, b.timekey, id, Admitted);
      assert BookOf(h, i, b.timekey)(id) == Values(h, i, b.timekey, id);
    }
  }
}
