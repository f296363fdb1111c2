/** Whole runs of clients and server: totals, bounds and re-delivery. */
module QuotaTotals {
  import opened FiniteSums
  import opened TimeKeys
  import opened ReportMerge
  import opened Conservation
  import opened LocalQuota
  import opened QuotaProtocol

  // ----------------------------------------------------------------- whole runs

  /** Every process starts with nothing counted and nothing sent. */
  function Start(ids: set<Id>): System {
    System(map id | id in ids :: Process([], Repeat(TimeSum(0, ZERO), NUM_PER_MIN), [], 0, []), [])
  }

  ghost predicate IsRun(ss: seq<System>, ops: seq<Op>) {
    && |ss| == |ops| + 1
    && (forall i :: 0 <= i < |ops| ==> Next(ss[i], ops[i], ss[i + 1]))
  }

  ghost predicate Next(s: System, op: Op, s': System) {
    AllFit(s) && Enabled(s, op) && s' == Do(s, op)
  }

  lemma {:induction false} StartIsSane(ids: set<Id>)
    ensures Sane(Start(ids)) && AllFit(Start(ids))
  {
    forall q ensures SaneAt(Start(ids), q) {}
  }

  lemma {:induction false} RunStaysSane(ids: set<Id>, ss: seq<System>, ops: seq<Op>, n: nat)
    requires IsRun(ss, ops) && ss[0] == Start(ids) && n <= |ops|
    ensures Sane(ss[n]) && AllFit(ss[n])
  {
    if n == 0 {
      StartIsSane(ids);
    } else {
      RunStaysSane(ids, ss, ops, n - 1);
      assert Next(ss[n - 1], ops[n - 1], ss[n]);
      StepKeepsSane(ss[n - 1], ops[n - 1]);
    }
  }

  // ---------------------------------------------------------------- the results

  /** The last positive count of a process for a period among its delivered snapshots. */
  function LastDelivered(s: System, i: nat, key: nat): Id -> int
    requires i < NUM_PER_MIN
  {
    (id: Id) => if id in s.procs then Latest(Received(s.procs[id].got, i, key)).sum else 0
  }

  lemma {:induction false} LastIsSeen(s: System, i: nat, key: nat, id: Id)
    requires Sane(s) && i < NUM_PER_MIN && key > 0
    ensures LastDelivered(s, i, key)(id) == Latest(Values(s.h, i, key, id)).sum
  {
    assert SaneAt(s, id);
  }

  /** How many calls of a period passed the act check. */
  function Passed(s: System, key: nat): Id -> int {
    (id: Id) => if id in s.procs then |PassedIn(s.procs[id].calls, key)| else 0
  }

  lemma {:induction false} DeliveredWasPassed(s: System, i: nat, key: nat, id: Id)
    requires Sane(s) && i < NUM_PER_MIN && key > 0
    ensures 0 <= LastDelivered(s, i, key)(id) <= Passed(s, key)(id)
  {
    var vs := Values(s.h, i, key, id);
    ValuesArePositive(s.h, i, key, id);
    LastIsSeen(s, i, key, id);
    assert SaneAt(s, id);
    if id in s.procs {
      assert SeenAt(vs, key, s.procs[id], i);
      CountedMeans(s.procs[id].calls, key);
    }
  }

  lemma {:induction false} NothingClosed(vs: seq<Counts>, id: Id, h: seq<Event>, i: nat, key: nat)
    requires vs == Values(h, i, key, id) && NeverFalls(vs)
    ensures Contribution(vs).sum == Latest(vs).sum
  {
    ValuesArePositive(h, i, key, id);
    ClosedBounds(vs, Admitted);
  }

  lemma {:induction false} NeverFallsHere(s: System, i: nat, key: nat, id: Id)
    requires Sane(s) && i < NUM_PER_MIN && key > 0
    ensures NeverFalls(Values(s.h, i, key, id))
    ensures Values(s.h, i, key, id) != [] ==> id in s.procs
  {
    assert SaneAt(s, id);
    if id in s.procs {
      assert SeenAt(Values(s.h, i, key, id), key, s.procs[id], i);
    }
  }

  lemma {:induction false} ShareOf(h: seq<Event>, i: nat, key: nat, id: Id)
    ensures Shares(BookOf(h, i, key), Admitted)(id) == Contribution(Values(h, i, key, id)).sum
  {
    assert BookOf(h, i, key)(id) == Values(h, i, key, id);
  }

  lemma {:induction false} ShareIsLast(s: System, i: nat, key: nat, id: Id)
    requires Sane(s) && i < NUM_PER_MIN && key > 0
    ensures Shares(BookOf(s.h, i, key), Admitted)(id) == LastDelivered(s, i, key)(id)
  {
    var vs := Values(s.h, i, key, id);
    ShareOf(s.h, i, key, id);
    LastIsSeen(s, i, key, id);
    assert Contribution(vs).sum == Latest(vs).sum by {
      NeverFallsHere(s, i, key, id);
      NothingClosed(vs, id, s.h, i, key);
    }
  }

  lemma {:induction false} ReportersAreProcesses(s: System, i: nat, key: nat)
    requires Sane(s) && i < NUM_PER_MIN && key > 0
    ensures Reporters(s.h, i, key) <= s.procs.Keys
    ensures forall id :: id in s.procs.Keys - Reporters(s.h, i, key) ==> LastDelivered(s, i, key)(id) == 0
  {
    forall id ensures id in Reporters(s.h, i, key) <==> Values(s.h, i, key, id) != [] {
      ReportersHaveValues(s.h, i, key, id);
      NeverFallsHere(s, i, key, id);
      LastIsSeen(s, i, key, id);
    }
    forall id | id in s.procs.Keys - Reporters(s.h, i, key) ensures LastDelivered(s, i, key)(id) == 0 {
      LastIsSeen(s, i, key, id);
    }
    forall id | id in Reporters(s.h, i, key) ensures id in s.procs.Keys {
      NeverFallsHere(s, i, key, id);
    }
  }

  /**
   * In every reachable state each bucket's admitted total is the sum, over all processes, of
   * the last positive count for its period in the snapshots delivered for the process.
   */
  lemma {:induction false} BucketSumsDeliveries(s: System, i: nat)
    requires Sane(s) && i < NUM_PER_MIN && LatestKey(s.h, i) > 0
    ensures Run(s.h)[i].total.sum == Sum(s.procs.Keys, LastDelivered(s, i, LatestKey(s.h, i)))
  {
    var key := LatestKey(s.h, i);
    var ids, shares, last := Reporters(s.h, i, key), Shares(BookOf(s.h, i, key), Admitted), LastDelivered(s, i, key);
    BucketTotals(s.h, i, Admitted);
    forall id ensures shares(id) == last(id) {
      ShareIsLast(s, i, key, id);
    }
    SumCong(ids, shares, last);
    ReportersAreProcesses(s, i, key);
    SumExtend(ids, s.procs.Keys, last);
  }

  /** So no bucket ever counts more than the calls of its period that passed the act check. */
  lemma {:induction false} BucketAtMostPassed(s: System, i: nat)
    requires Sane(s) && i < NUM_PER_MIN && LatestKey(s.h, i) > 0
    ensures Run(s.h)[i].total.sum <= Sum(s.procs.Keys, Passed(s, LatestKey(s.h, i)))
  {
    var key := LatestKey(s.h, i);
    var last, passed := LastDelivered(s, i, key), Passed(s, key);
    BucketSumsDeliveries(s, i);
    forall id ensures 0 <= last(id) <= passed(id) {
      DeliveredWasPassed(s, i, key, id);
    }
    SumLeq(s.procs.Keys, last, passed);
  }

  // ------------------------------------------------------------------ redelivery

  lemma {:induction false} RepeatLine(b: Bucket, id: Id, item: Item)
    requires item.Accepted() && b.timekey > 0 && item.Key() <= b.timekey
    requires item.Key() == b.timekey ==> id in b.entries && b.entries[id] == item.Reported()
    ensures Merge(b, id, item).timekey == b.timekey && Merge(b, id, item).total == b.total
  {}

  /** The server already has everything in the snapshot, or something newer. */
  ghost predicate AlreadySeen(h: seq<Event>, id: Id, w: Snapshot) {
    forall m :: 0 <= m < NUM_PER_MIN && w[m].timekey > 0 && w[m].counts.sum > 0 ==>
      var vs := Values(h, m, w[m].timekey, id);
      vs != [] && vs[|vs| - 1] == w[m].counts
  }

  lemma {:induction false} RepeatOneLine(h: seq<Event>, id: Id, w: Snapshot, m: nat, b: Bucket)
    requires m < NUM_PER_MIN && Fits(w) && Proper(w) && AlreadySeen(h, id, w) && b == Run(h)[m]
    requires w[m].timekey > 0 && w[m].counts.sum > 0
    ensures Merge(b, id, ToItem(w[m])).timekey == b.timekey && Merge(b, id, ToItem(w[m])).total == b.total
  {
    var item := ToItem(w[m]);
    RunIsConserved(h, m);
    if w[m].timekey > LatestKey(h, m) {
      NoValuesBeyondLatest(h, m, w[m].timekey, id);
    }
    assert BookOf(h, m, b.timekey)(id) == Values(h, m, b.timekey, id);
    assert item.Reported() == w[m].counts;
    RepeatLine(b, id, item);
  }

  /** One line of a snapshot that was seen before changes nothing but zero entries of older periods. */
  lemma {:induction false} RepeatEvent(h: seq<Event>, done: seq<Event>, id: Id, w: Snapshot, n: nat, i: nat)
    requires n < NUM_PER_MIN && i < NUM_PER_MIN && Fits(w) && Proper(w) && AlreadySeen(h, id, w) && w[n].timekey > 0
    requires i >= n ==> Run(done)[i] == Run(h)[i]
    ensures var before, after := Run(done)[i], Run(done + [Report(id, ToItem(w[n]))])[i];
            after.timekey == before.timekey && after.total == before.total && (i > n ==> after == before)
  {
    var e := Report(id, ToItem(w[n]));
    assert (done + [e])[..|done|] == done;
    StepIsAt(Run(done), e, i);
    if i == n && w[i].counts.sum > 0 {
      RepeatOneLine(h, id, w, i, Run(h)[i]);
    }
  }

  lemma {:induction false} RepeatLines(h: seq<Event>, id: Id, w: Snapshot, n: nat, i: nat)
    requires n <= NUM_PER_MIN && i < NUM_PER_MIN && Fits(w) && Proper(w) && AlreadySeen(h, id, w)
    ensures var before, after := Run(h)[i], Run(h + Lines(id, w, n))[i];
            after.timekey == before.timekey && after.total == before.total && (i >= n ==> after == before)
  {
    if n == 0 {
      assert h + Lines(id, w, n) == h;
    } else {
      RepeatLines(h, id, w, n - 1, i);
      LinesGrow(h, id, w, n);
      if w[n - 1].timekey > 0 {
        RepeatEvent(h, h + Lines(id, w, n - 1), id, w, n - 1, i);
      }
    }
  }

  /** The lines of the last delivered snapshot are the latest values the server saw. */
  lemma {:induction false} LastSeen(h: seq<Event>, id: Id, p: Process)
    requires GoodProcess(p) && Seen(h, id, p) && p.delivered > 0
    ensures AlreadySeen(h, id, p.sent[p.delivered - 1])
  {
    var w := p.sent[p.delivered - 1];
    forall m | 0 <= m < NUM_PER_MIN && w[m].timekey > 0 && w[m].counts.sum > 0
      ensures var vs := Values(h, m, w[m].timekey, id); vs != [] && vs[|vs| - 1] == w[m].counts
    {
      assert SeenAt(Values(h, m, w[m].timekey, id), w[m].timekey, p, m);
    }
  }

  /** The process's last report may come again, and changes nothing at the position. */
  predicate Repeats(s: System, id: Id, i: nat)
    requires AllFit(s) && id in s.procs && s.procs[id].delivered > 0 && i < NUM_PER_MIN
  {
    var op := Deliver(id, s.procs[id].delivered - 1);
    && Enabled(s, op)
    && Run(Do(s, op).h)[i].timekey == Run(s.h)[i].timekey
    && Run(Do(s, op).h)[i].total == Run(s.h)[i].total
  }

  /** Delivering a process's last report again changes no period and no total anywhere. */
  lemma {:induction false} RedeliveryChangesNothing(s: System, id: Id, i: nat)
    requires Sane(s) && AllFit(s) && id in s.procs && s.procs[id].delivered > 0 && i < NUM_PER_MIN
    ensures Repeats(s, id, i)
  {
    var p := s.procs[id];
    assert SaneAt(s, id);
    RepeatDelivery(s.h, id, p, i);
    assert Do(s, Deliver(id, p.delivered - 1)).h == s.h + Lines(id, p.sent[p.delivered - 1], NUM_PER_MIN);
  }

  lemma {:induction false} RepeatDelivery(h: seq<Event>, id: Id, p: Process, i: nat)
    requires GoodProcess(p) && Seen(h, id, p) && p.delivered > 0 && i < NUM_PER_MIN
    ensures p.delivered <= |p.sent|
    ensures var after := Run(h + Lines(id, p.sent[p.delivered - 1], NUM_PER_MIN))[i];
            after.timekey == Run(h)[i].timekey && after.total == Run(h)[i].total
  {
    LastSeen(h, id, p);
    RepeatLines(h, id, p.sent[p.delivered - 1], NUM_PER_MIN, i);
  }

  /** The three results, for every run from the start: totals, their bound, and re-delivery of any process's last report. */
  lemma {:induction false} EveryRun(ids: set<Id>, ss: seq<System>, ops: seq<Op>, n: nat, i: nat)
    requires IsRun(ss, ops) && ss[0] == Start(ids) && n <= |ops| && i < NUM_PER_MIN
    ensures Sane(ss[n]) && AllFit(ss[n])
    ensures var s := ss[n];
            var key := LatestKey(s.h, i);
            key > 0 ==> Run(s.h)[i].total.sum == Sum(s.procs.Keys, LastDelivered(s, i, key)) <= Sum(s.procs.Keys, Passed(s, key))
    ensures var s := ss[n];
            forall id :: id in s.procs && s.procs[id].delivered > 0 ==> Repeats(s, id, i)
  {
    RunStaysSane(ids, ss, ops, n);
    var s := ss[n];
    if LatestKey(s.h, i) > 0 {
      BucketSumsDeliveries(s, i);
      BucketAtMostPassed(s, i);
    }
    forall id | id in s.procs && s.procs[id].delivered > 0 ensures Repeats(s, id, i) {
      RedeliveryChangesNothing(s, id, i);
    }
  }
}
