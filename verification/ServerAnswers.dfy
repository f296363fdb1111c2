/** The quota a request is answered with, told from the reports that were received. */
module ServerAnswers {
  import opened Arith
  import opened Optional
  import opened FiniteSums
  import opened TimeKeys
  import opened ReportMerge
  import opened Conservation
  import opened Apportion
  import opened QueryQuota
  import opened ServerRuns
  import H = Heartbeat

  // ------------------------------------------------------ what was reported

  /** The last report at a position; only of interest while every report there is for period 0. */
  function LastReport(h: seq<Event>, i: nat): Option<(Id, Counts)> {
    if h == [] then None else
      var e := h[|h| - 1];
      if Hits(e, i) then Some((e.id, e.item.Reported())) else LastReport(h[..|h| - 1], i)
  }

  /**
   * What a process last reported as admitted in the newest period at a position. Period 0, the
   * first ten seconds of all, is taken for an unused bucket, so there only the last report counts.
   */
  function OwnReported(h: seq<Event>, i: nat, id: Id): int {
    var key, last := LatestKey(h, i), LastReport(h, i);
    if key > 0 then Latest(Values(h, i, key, id)).sum
    else if last.Some? && last.value.0 == id then last.value.1.sum else 0
  }

  /** What all processes reported there: their latest reports, and what each restart closed. */
  ghost function AllReported(h: seq<Event>, i: nat): int {
    var key, last := LatestKey(h, i), LastReport(h, i);
    if key > 0 then TotalContribution(BookOf(h, i, key), Reporters(h, i, key), Admitted)
    else if last.Some? then last.value.1.sum else 0
  }

  /** The newest period at the position began at least 20 seconds before the current one, and the process admitted calls in it. */
  predicate Complete(h: seq<Event>, i: nat, nowkey: nat, id: Id) {
    LatestKey(h, i) + 20 <= nowkey && OwnReported(h, i, id) > 0
  }

  /** The ring positions of a process's complete periods. */
  function Periods(h: seq<Event>, nowkey: nat, id: Id): set<nat> {
    set i: nat | i < 6 && Complete(h, i, nowkey, id)
  }

  function OwnOf(h: seq<Event>, id: Id): nat -> int { (i: nat) => OwnReported(h, i, id) }

  ghost function AllOf(h: seq<Event>): nat -> int { (i: nat) => AllReported(h, i) }

  /** What the process, and what all, admitted in the process's complete periods. */
  ghost function SelfSum(h: seq<Event>, nowkey: nat, id: Id): int { Sum(Periods(h, nowkey, id), OwnOf(h, id)) }

  ghost function AllSum(h: seq<Event>, nowkey: nat, id: Id): int { Sum(Periods(h, nowkey, id), AllOf(h)) }

  // ---------------------------------------------------- buckets against reports

  lemma {:induction false} LatestGrows(h: seq<Event>, e: Event, i: nat)
    ensures LatestKey(h + [e], i) >= LatestKey(h, i)
    ensures LatestKey(h + [e], i) == 0 ==> LatestKey(h, i) == 0 && (Hits(e, i) ==> e.item.Key() == 0)
  {
    assert (h + [e])[..|h|] == h;
  }

  /** A bucket of period 0 holds the last report there, and zero entries. */
  predicate HoldsLast(b: Bucket, last: Option<(Id, Counts)>) {
    && b.timekey == 0
    && b.total == (if last.Some? then last.value.1 else ZERO)
    && (last.Some? ==> last.value.0 in b.entries)
    && (forall x :: x in b.entries ==> b.entries[x] == if last.Some? && x == last.value.0 then last.value.1 else ZERO)
  }

  lemma {:induction false} FirstPeriod(h: seq<Event>, i: nat)
    requires i < NUM_PER_MIN && LatestKey(h, i) == 0
    ensures HoldsLast(Run(h)[i], LastReport(h, i))
  {
    if h != [] {
      var h0, e := h[..|h| - 1], h[|h| - 1];
      assert h0 + [e] == h;
      LatestGrows(h0, e, i);
      FirstPeriod(h0, i);
      StepIsAt(Run(h0), e, i);
    }
  }

  lemma {:induction false} OwnIsReported(h: seq<Event>, i: nat, id: Id)
    requires i < NUM_PER_MIN
    ensures Own(Run(h)[i], id) == OwnReported(h, i, id)
  {
    var key := LatestKey(h, i);
    RunIsConserved(h, i);
    if key == 0 {
      FirstPeriod(h, i);
    } else {
      assert BookOf(h, i, key)(id) == Values(h, i, key, id);
    }
  }

  lemma {:induction false} TotalIsReported(h: seq<Event>, i: nat)
    requires i < NUM_PER_MIN
    ensures Run(h)[i].timekey == LatestKey(h, i) && Run(h)[i].total.sum == AllReported(h, i)
  {
    BucketTotals(h, i, Admitted);
    if LatestKey(h, i) == 0 {
      FirstPeriod(h, i);
    }
  }

  lemma {:induction false} CountedIsComplete(h: seq<Event>, i: nat, nowkey: nat, id: Id)
    requires i < NUM_PER_MIN
    ensures Counted(Run(h)[i], nowkey, id) <==> Complete(h, i, nowkey, id)
  {
    OwnIsReported(h, i, id);
    TotalIsReported(h, i);
  }

  // ----------------------------------------------------- shares against reports

  lemma {:induction false} SumOfOnes<T>(s: set<T>, g: T -> int)
    requires forall x :: x in s ==> g(x) == 1
    ensures Sum(s, g) == |s|
    decreases s
  {
    if s != {} {
      var x :| x in s;
      SumSplit(s, x, g);
      SumOfOnes(s - {x}, g);
    }
  }

  /** A sum whose other terms are zero. */
  lemma {:induction false} SumRestricts<T>(s: set<T>, t: set<T>, g: T -> int, f: T -> int)
    requires t <= s && (forall x :: x in t ==> g(x) == f(x)) && (forall x :: x in s - t ==> g(x) == 0)
    ensures Sum(s, g) == Sum(t, f)
  {
    SumExtend(t, s, g);
    SumCong(t, g, f);
  }

  lemma {:induction false} HistoryIsReported(h: seq<Event>, nowkey: nat, id: Id)
    ensures HistorySelf(Run(h), nowkey, id) == SelfSum(h, nowkey, id)
    ensures HistoryTotal(Run(h), nowkey, id) == AllSum(h, nowkey, id)
    ensures ValidNum(Run(h), nowkey, id) == |Periods(h, nowkey, id)|
  {
    var ring, at := Run(h), Periods(h, nowkey, id);
    forall i: nat | i < NUM_PER_MIN
      ensures Counted(ring[i], nowkey, id) <==> i in at
      ensures Own(ring[i], id) == OwnReported(h, i, id) && ring[i].total.sum == AllReported(h, i)
    {
      CountedIsComplete(h, i, nowkey, id);
      OwnIsReported(h, i, id);
      TotalIsReported(h, i);
    }
    SumRestricts(POSITIONS, at, OwnAt(ring, nowkey, id), OwnOf(h, id));
    SumRestricts(POSITIONS, at, TotalAt(ring, nowkey, id), AllOf(h));
    SumExtend(at, POSITIONS, OneAt(ring, nowkey, id));
    SumOfOnes(at, OneAt(ring, nowkey, id));
  }

  /** The process has two complete periods, and more than ten admitted calls were reported for them. */
  ghost predicate Enough(h: seq<Event>, nowkey: nat, id: Id) {
    |Periods(h, nowkey, id)| >= 2 && AllSum(h, nowkey, id) > 10
  }

  /** The share of the quota that the reports entitle a process to, in unsigned 32-bit arithmetic. */
  ghost function ReportedShare(h: seq<Event>, nowkey: nat, id: Id, actquota: nat): int {
    if Enough(h, nowkey, id) then actquota * SelfSum(h, nowkey, id) % 0x1_0000_0000 / AllSum(h, nowkey, id) else 0
  }

  lemma {:induction false} ShareIsReported(h: seq<Event>, nowkey: nat, id: Id, actquota: nat)
    ensures Share(Run(h), nowkey, id, actquota) == ReportedShare(h, nowkey, id, actquota)
  {
    HistoryIsReported(h, nowkey, id);
  }

  // --------------------------------------------------------- lookups leave no trace

  lemma {:induction false} LastIsVisible(h: seq<Event>, i: nat)
    ensures LastReport(OnlyReports(h), i) == LastReport(h, i)
  {
    if h != [] {
      LastIsVisible(h[..|h| - 1], i);
      if IsLookup(h[|h| - 1]) {
        LookupStep(h);
      } else {
        ReportStep(h);
      }
    }
  }

  lemma {:induction false} PeriodsAreVisible(h: seq<Event>, i: nat)
    ensures LatestKey(OnlyReports(h), i) == LatestKey(h, i)
    ensures AllReported(OnlyReports(h), i) == AllReported(h, i)
    ensures forall id :: OwnReported(OnlyReports(h), i, id) == OwnReported(h, i, id)
  {
    var key := LatestKey(h, i);
    LookupsAreInvisible(h, i, key);
    LastIsVisible(h, i);
    SumCong(Reporters(h, i, key), Shares(BookOf(h, i, key), Admitted), Shares(BookOf(OnlyReports(h), i, key), Admitted));
  }

  /** Two histories that reported the same for every period that is complete by now. */
  ghost predicate SamePast(h: seq<Event>, k: seq<Event>, nowkey: nat) {
    forall i: nat, id :: i < NUM_PER_MIN ==>
      && (Complete(h, i, nowkey, id) <==> Complete(k, i, nowkey, id))
      && (Complete(h, i, nowkey, id) ==> OwnReported(h, i, id) == OwnReported(k, i, id) && AllReported(h, i) == AllReported(k, i))
  }

  lemma {:induction false} LookupsKeepPast(h: seq<Event>, nowkey: nat)
    ensures SamePast(OnlyReports(h), h, nowkey)
  {
    forall i: nat, id | i < NUM_PER_MIN
      ensures OwnReported(OnlyReports(h), i, id) == OwnReported(h, i, id)
      ensures LatestKey(OnlyReports(h), i) == LatestKey(h, i) && AllReported(OnlyReports(h), i) == AllReported(h, i)
    {
      PeriodsAreVisible(h, i);
    }
  }

  lemma {:induction false} SamePastSameShare(h: seq<Event>, k: seq<Event>, nowkey: nat, id: Id, actquota: nat)
    requires SamePast(h, k, nowkey)
    ensures ReportedShare(h, nowkey, id, actquota) == ReportedShare(k, nowkey, id, actquota)
    ensures Periods(h, nowkey, id) == Periods(k, nowkey, id) && SelfSum(h, nowkey, id) == SelfSum(k, nowkey, id)
    ensures AllSum(h, nowkey, id) == AllSum(k, nowkey, id)
  {
    assert Periods(h, nowkey, id) == Periods(k, nowkey, id);
    SumCong(Periods(h, nowkey, id), OwnOf(h, id), OwnOf(k, id));
    SumCong(Periods(h, nowkey, id), AllOf(h), AllOf(k));
  }

  // ------------------------------------------------------------------- answers

  /** What a request is answered: nothing before its chain is warm, and then what the reports received by then entitle it to. */
  lemma {:induction false} AnswerIsReported(rs: seq<Request>, r: Request)
    requires Timely(rs + [r]) && r.actquota > 0
    ensures Answer(ServeAll(rs), r) ==
            if Warm(rs, r) then ReportedShare(AllReports(rs + [r]), KeyOf(r.now), r.id, r.actquota) else 0
  {
    AdmissibleIffWarm(rs, r);
    if Warm(rs, r) {
      MergedIsReported(rs, r);
    }
  }

  lemma {:induction false} MergedIsReported(rs: seq<Request>, r: Request)
    requires r.actquota > 0
    ensures Share(MergeAll(ServeAll(rs).ring, r.id, r.items), KeyOf(r.now), r.id, r.actquota) ==
            ReportedShare(AllReports(rs + [r]), KeyOf(r.now), r.id, r.actquota)
  {
    var h0 := ServerRingIsARun(rs);
    var h, nowkey := h0 + Reports(r.id, r.items), KeyOf(r.now);
    MergeAllIsRun(h0, r.id, r.items);
    OnlyReportsConcat(h0, Reports(r.id, r.items));
    ReportsAreReports(r.id, r.items);
    assert (rs + [r])[..|rs|] == rs;
    assert OnlyReports(h) == AllReports(rs + [r]);
    ShareIsReported(h, nowkey, r.id, r.actquota);
    LookupsKeepPast(h, nowkey);
    SamePastSameShare(OnlyReports(h), h, nowkey, r.id, r.actquota);
  }

  lemma {:induction false} SumsAreCovered(h: seq<Event>, nowkey: nat, id: Id)
    ensures 0 <= SelfSum(h, nowkey, id) <= AllSum(h, nowkey, id)
  {
    RunIsSound(h);
    HistoryBounds(Run(h), nowkey, id);
    HistoryIsReported(h, nowkey, id);
  }

  /** A truncated quotient, wrapped product or not. */
  lemma {:induction false} WrappedQuotient(product: nat, total: nat)
    requires total > 0
    ensures var a := product % 0x1_0000_0000 / total;
            a * total <= product && (product < 0x1_0000_0000 ==> product < (a + 1) * total)
  {
    DivBounds(product % 0x1_0000_0000, total);
  }

  /** `a` is at most the proportion `self` of `total` of the quota, and that rounded down when the product fits 32 bits. */
  predicate IsProportion(a: int, actquota: nat, self: int, total: int) {
    && 0 <= self <= total && total > 10
    && a * total <= actquota * self
    && (actquota * self < 0x1_0000_0000 ==> actquota * self < (a + 1) * total)
  }

  lemma {:induction false} QuotientIsProportion(actquota: nat, self: nat, total: nat)
    requires self <= total && total > 10
    ensures IsProportion(actquota * self % 0x1_0000_0000 / total, actquota, self, total)
  {
    WrappedQuotient(actquota * self, total);
  }

  lemma {:induction false} ShareIsProportion(h: seq<Event>, nowkey: nat, id: Id, actquota: nat)
    requires Enough(h, nowkey, id)
    ensures IsProportion(ReportedShare(h, nowkey, id, actquota), actquota, SelfSum(h, nowkey, id), AllSum(h, nowkey, id))
  {
    SumsAreCovered(h, nowkey, id);
    QuotientIsProportion(actquota, SelfSum(h, nowkey, id), AllSum(h, nowkey, id));
  }

  /**
   * A warm process with enough reported history is answered with its proportion of the quota,
   * rounded down, as long as the product fits 32 bits, and never with more than it.
   */
  lemma {:induction false} AnswerIsProportion(rs: seq<Request>, r: Request, h: seq<Event>, nowkey: nat)
    requires Timely(rs + [r]) && r.actquota > 0 && Warm(rs, r)
    requires h == AllReports(rs + [r]) && nowkey == KeyOf(r.now) && Enough(h, nowkey, r.id)
    ensures IsProportion(Answer(ServeAll(rs), r), r.actquota, SelfSum(h, nowkey, r.id), AllSum(h, nowkey, r.id))
  {
    AnswerIsReported(rs, r);
    ShareIsProportion(h, nowkey, r.id, r.actquota);
  }

  /** The product in 32 bits reaches the total. */
  predicate ProductReaches(actquota: int, self: int, total: int) { actquota * self % 0x1_0000_0000 >= total }

  ghost predicate Reaches(h: seq<Event>, nowkey: nat, id: Id, actquota: nat) {
    Enough(h, nowkey, id) && ProductReaches(actquota, SelfSum(h, nowkey, id), AllSum(h, nowkey, id))
  }

  lemma {:induction false} QuotientPositiveIff(actquota: nat, self: nat, total: nat)
    requires total > 0
    ensures actquota * self % 0x1_0000_0000 / total > 0 <==> ProductReaches(actquota, self, total)
  {
    QuotientPositive(actquota * self % 0x1_0000_0000, total);
  }

  lemma {:induction false} SharePositiveIff(h: seq<Event>, nowkey: nat, id: Id, actquota: nat)
    ensures ReportedShare(h, nowkey, id, actquota) > 0 <==> Reaches(h, nowkey, id, actquota)
  {
    SumsAreCovered(h, nowkey, id);
    if Enough(h, nowkey, id) {
      QuotientPositiveIff(actquota, SelfSum(h, nowkey, id), AllSum(h, nowkey, id));
    }
  }

  /** Exactly when a process gets any quota at all. */
  lemma {:induction false} AnswerPositiveIff(rs: seq<Request>, r: Request, h: seq<Event>, nowkey: nat)
    requires Timely(rs + [r]) && h == AllReports(rs + [r]) && nowkey == KeyOf(r.now)
    ensures Answer(ServeAll(rs), r) > 0 <==> r.actquota > 0 && Warm(rs, r) && Reaches(h, nowkey, r.id, r.actquota)
  {
    if r.actquota > 0 {
      AnswerIsReported(rs, r);
      SharePositiveIff(h, nowkey, r.id, r.actquota);
    }
  }

  // ------------------------------------------------------- one round of answers

  /** What requests served one after the other are answered together. */
  ghost function AnswersOf(rs: seq<Request>, qs: seq<Request>): int {
    if qs == [] then 0 else
      var n := |qs| - 1;
      AnswersOf(rs, qs[..n]) + Answer(ServeAll(rs + qs[..n]), qs[n])
  }

  /**
   * Each of some processes asks once, warm and in the same period for the same quota, and the
   * reports that come with the requests say nothing new about complete periods.
   */
  ghost predicate IsRound(rs: seq<Request>, qs: seq<Request>, nowkey: nat, actquota: nat) {
    && actquota > 0 && Timely(rs + qs)
    && (forall i, j :: 0 <= i < j < |qs| ==> qs[i].id != qs[j].id)
    && (forall j :: 0 <= j < |qs| ==> Asks(rs, qs, j, nowkey, actquota))
  }

  ghost predicate Asks(rs: seq<Request>, qs: seq<Request>, j: nat, nowkey: nat, actquota: nat)
    requires j < |qs|
  {
    && qs[j].actquota == actquota && KeyOf(qs[j].now) == nowkey && Warm(rs + qs[..j], qs[j])
    && SamePast(AllReports(rs), AllReports(rs + qs[..j + 1]), nowkey)
  }

  function Askers(qs: seq<Request>): set<Id> { set j | 0 <= j < |qs| :: qs[j].id }

  ghost function ReportedShares(h: seq<Event>, nowkey: nat, actquota: nat): Id -> int {
    (id: Id) => ReportedShare(h, nowkey, id, actquota)
  }

  lemma {:induction false} RoundBefore(rs: seq<Request>, qs: seq<Request>, nowkey: nat, actquota: nat)
    requires IsRound(rs, qs, nowkey, actquota) && qs != []
    ensures IsRound(rs, qs[..|qs| - 1], nowkey, actquota)
  {
    var init := qs[..|qs| - 1];
    assert rs + qs == (rs + init) + [qs[|qs| - 1]];
    TimelyBefore(rs + init, [qs[|qs| - 1]]);
    forall j | 0 <= j < |init| ensures Asks(rs, init, j, nowkey, actquota) {
      assert Asks(rs, qs, j, nowkey, actquota);
      assert init[..j] == qs[..j] && init[..j + 1] == qs[..j + 1];
    }
  }

  lemma {:induction false} AnswerInRound(before: seq<Request>, r: Request, h: seq<Event>, nowkey: nat, actquota: nat)
    requires Timely(before + [r]) && actquota > 0 && r.actquota == actquota && KeyOf(r.now) == nowkey && Warm(before, r)
    requires SamePast(h, AllReports(before + [r]), nowkey)
    ensures Answer(ServeAll(before), r) == ReportedShare(h, nowkey, r.id, actquota)
  {
    AnswerIsReported(before, r);
    SamePastSameShare(h, AllReports(before + [r]), nowkey, r.id, actquota);
  }

  lemma {:induction false} LastAnswer(rs: seq<Request>, qs: seq<Request>, nowkey: nat, actquota: nat)
    requires IsRound(rs, qs, nowkey, actquota) && qs != []
    ensures var n := |qs| - 1;
            Answer(ServeAll(rs + qs[..n]), qs[n]) == ReportedShare(AllReports(rs), nowkey, qs[n].id, actquota)
  {
    var n := |qs| - 1;
    var before := rs + qs[..n];
    assert Asks(rs, qs, n, nowkey, actquota);
    assert qs[..n + 1] == qs && before + [qs[n]] == rs + qs;
    AnswerInRound(before, qs[n], AllReports(rs), nowkey, actquota);
  }

  lemma {:induction false} AskersGrow(qs: seq<Request>)
    requires qs != [] && forall i, j :: 0 <= i < j < |qs| ==> qs[i].id != qs[j].id
    ensures var n := |qs| - 1;
            Askers(qs) == Askers(qs[..n]) + {qs[n].id} && qs[n].id !in Askers(qs[..n])
  {
    var n := |qs| - 1;
    forall id | id in Askers(qs) ensures id in Askers(qs[..n]) + {qs[n].id} {
      var j :| 0 <= j < |qs| && qs[j].id == id;
      assert j < n ==> qs[..n][j].id == id;
    }
    forall id | id in Askers(qs[..n]) ensures id in Askers(qs) && id != qs[n].id {
      var j :| 0 <= j < n && qs[..n][j].id == id;
      assert qs[j].id == id;
    }
  }

  lemma {:induction false} RoundIsShares(rs: seq<Request>, qs: seq<Request>, nowkey: nat, actquota: nat)
    requires IsRound(rs, qs, nowkey, actquota)
    ensures AnswersOf(rs, qs) == Sum(Askers(qs), ReportedShares(AllReports(rs), nowkey, actquota))
    ensures |Askers(qs)| == |qs|
  {
    if qs != [] {
      var n := |qs| - 1;
      RoundBefore(rs, qs, nowkey, actquota);
      RoundIsShares(rs, qs[..n], nowkey, actquota);
      LastAnswer(rs, qs, nowkey, actquota);
      AskersGrow(qs);
      SumSplit(Askers(qs), qs[n].id, ReportedShares(AllReports(rs), nowkey, actquota));
      assert Askers(qs) - {qs[n].id} == Askers(qs[..n]);
    }
  }

  /** The processes have the same complete periods. */
  predicate SamePeriods(h: seq<Event>, nowkey: nat, ids: set<Id>) {
    forall i: nat, p, q :: i < NUM_PER_MIN && p in ids && q in ids ==>
      (Complete(h, i, nowkey, p) <==> Complete(h, i, nowkey, q))
  }

  /** They are everybody who admitted calls in them, and no report of those periods was smaller than the one before. */
  ghost predicate Everybody(h: seq<Event>, nowkey: nat, ids: set<Id>) {
    forall i: nat, p :: i < NUM_PER_MIN && p in ids && Complete(h, i, nowkey, p) ==>
      && LatestKey(h, i) > 0
      && (forall id :: NeverFalls(Values(h, i, LatestKey(h, i), id)))
      && (forall id :: OwnReported(h, i, id) > 0 ==> id in ids)
  }

  lemma {:induction false} PeriodsAreBuckets(h: seq<Event>, nowkey: nat, ids: set<Id>)
    requires SamePeriods(h, nowkey, ids)
    ensures SameBuckets(Run(h), nowkey, ids)
  {
    forall i, p, q | 0 <= i < NUM_PER_MIN && p in ids && q in ids
      ensures Counted(Run(h)[i], nowkey, p) <==> Counted(Run(h)[i], nowkey, q)
    {
      CountedIsComplete(h, i, nowkey, p);
      CountedIsComplete(h, i, nowkey, q);
    }
  }

  lemma {:induction false} EverybodyContributes(h: seq<Event>, nowkey: nat, ids: set<Id>)
    requires Everybody(h, nowkey, ids)
    ensures AllContributors(Run(h), nowkey, ids)
  {
    forall i, p | 0 <= i < NUM_PER_MIN && p in ids && Counted(Run(h)[i], nowkey, p)
      ensures Run(h)[i].total.sum == HeldTotal(Run(h)[i], Admitted)
      ensures forall id :: id in Run(h)[i].entries && Own(Run(h)[i], id) > 0 ==> id in ids
    {
      CountedIsComplete(h, i, nowkey, p);
      TotalsCoverTheMap(h, i, Admitted);
      forall id | id in Run(h)[i].entries && Own(Run(h)[i], id) > 0 ensures id in ids {
        OwnIsReported(h, i, id);
      }
    }
  }

  lemma {:induction false} SharesAreReported(h: seq<Event>, nowkey: nat, ids: set<Id>, actquota: nat)
    ensures Sum(ids, ShareOf(Run(h), nowkey, actquota)) == Sum(ids, ReportedShares(h, nowkey, actquota))
  {
    forall id | id in ids
      ensures ShareOf(Run(h), nowkey, actquota)(id) == ReportedShares(h, nowkey, actquota)(id)
    {
      ShareIsReported(h, nowkey, id, actquota);
    }
    SumCong(ids, ShareOf(Run(h), nowkey, actquota), ReportedShares(h, nowkey, actquota));
  }

  /** The answers of one round to processes with the same complete periods are together at most the quota. */
  lemma {:induction false} RoundFitsQuota(rs: seq<Request>, qs: seq<Request>, nowkey: nat, actquota: nat)
    requires IsRound(rs, qs, nowkey, actquota) && SamePeriods(AllReports(rs), nowkey, Askers(qs))
    ensures AnswersOf(rs, qs) <= actquota
  {
    var h := AllReports(rs);
    RoundIsShares(rs, qs, nowkey, actquota);
    SharesAreReported(h, nowkey, Askers(qs), actquota);
    RunIsSound(h);
    PeriodsAreBuckets(h, nowkey, Askers(qs));
    SharesAtMostQuota(Run(h), nowkey, Askers(qs), actquota);
  }

  /** And when everybody asks, nobody restarted and the products fit, they spend all of it but less than one unit each. */
  lemma {:induction false} RoundSpendsQuota(rs: seq<Request>, qs: seq<Request>, nowkey: nat, actquota: nat)
    requires IsRound(rs, qs, nowkey, actquota) && qs != [] && SamePeriods(AllReports(rs), nowkey, Askers(qs))
    requires Everybody(AllReports(rs), nowkey, Askers(qs)) && Enough(AllReports(rs), nowkey, qs[0].id)
    requires forall id :: id in Askers(qs) ==> actquota * SelfSum(AllReports(rs), nowkey, id) < 0x1_0000_0000
    ensures actquota - |qs| < AnswersOf(rs, qs) <= actquota
  {
    var h, ids := AllReports(rs), Askers(qs);
    RoundFitsQuota(rs, qs, nowkey, actquota);
    RoundIsShares(rs, qs, nowkey, actquota);
    SharesAreReported(h, nowkey, ids, actquota);
    RunIsSound(h);
    PeriodsAreBuckets(h, nowkey, ids);
    EverybodyContributes(h, nowkey, ids);
    HistoryIsReported(h, nowkey, qs[0].id);
    forall id | id in ids ensures actquota * HistorySelf(Run(h), nowkey, id) < UINT_RANGE {
      HistoryIsReported(h, nowkey, id);
    }
    ShortfallBelowCount(Run(h), nowkey, ids, qs[0].id, actquota);
  }
}
