/**
 * Clients and server together: processes count their calls, send snapshots of their windows,
 * and the network loses snapshots or delivers them again, in order for each process.
 */
module QuotaProtocol {
  import opened TimeKeys
  import opened ReportMerge
  import opened Conservation
  import opened LocalQuota

  /** The counters of a period are of 32 bits. */
  const MAX_COUNT := 0x7FFF_FFFF

  /** One call that a process judged. */
  datatype Judged = Judged(now: nat, passed: bool, setRefused: bool)

  type Snapshot = w: seq<TimeSum> | |w| == NUM_PER_MIN witness Repeat(TimeSum(0, ZERO), NUM_PER_MIN)

  /** A process: its calls so far, its windows, what it sent, how far deliveries have come, and what was delivered. */
  datatype Process = Process(
    calls: seq<Judged>, windows: Snapshot, sent: seq<Snapshot>, delivered: nat, got: seq<Snapshot>)

  /** `h` is everything the server merged or looked up for the activity. */
  datatype System = System(procs: map<Id, Process>, h: seq<Event>)

  datatype Op =
    | Call(id: Id, call: Judged)
    | Send(id: Id)
    | Deliver(id: Id, k: nat)
    | Probe(id: Id, index: nat)

  // -------------------------------------------------------- what was really called

  /** The calls of one ten-second period, as a process should have counted them. */
  function Counted(calls: seq<Judged>, key: nat): Counts {
    if calls == [] then ZERO else
      var before, c := Counted(calls[..|calls| - 1], key), calls[|calls| - 1];
      if KeyOf(c.now) == key then CountCall(before, c.passed, c.setRefused) else before
  }

  function Clock(calls: seq<Judged>): nat {
    if calls == [] then 60 else calls[|calls| - 1].now
  }

  // --------------------------------------------------------------------- steps

  function InRange(c: Counts): bool {
    0 <= c.sum <= MAX_COUNT && 0 <= c.refuse <= MAX_COUNT && 0 <= c.setrefuse <= MAX_COUNT
  }

  predicate Fits(w: Snapshot) {
    forall n :: 0 <= n < NUM_PER_MIN ==> InRange(w[n].counts)
  }

  function ToItem(t: TimeSum): Item
    requires InRange(t.counts)
  {
    Item(t.timekey, t.counts.sum, t.counts.refuse, t.counts.setrefuse)
  }

  /** The events of a delivered snapshot: one report for each of the first `n` windows in use. */
  function Lines(id: Id, w: Snapshot, n: nat): seq<Event>
    requires n <= NUM_PER_MIN && Fits(w)
  {
    if n == 0 then [] else
      Lines(id, w, n - 1) + if w[n - 1].timekey > 0 then [Report(id, ToItem(w[n - 1]))] else []
  }

  predicate MayCall(p: Process, c: Judged) {
    c.now >= Clock(p.calls) && InRange(Counted(p.calls + [c], KeyOf(c.now)))
  }

  function AfterCall(p: Process, c: Judged): Process {
    p.(calls := p.calls + [c], windows := CountInWindow(p.windows, c.now, c.passed, c.setRefused))
  }

  function AfterDelivery(p: Process, k: nat): Process
    requires k < |p.sent|
  {
    p.(delivered := k + 1, got := p.got + [p.sent[k]])
  }

  predicate AllFit(s: System) {
    forall p, k :: p in s.procs && 0 <= k < |s.procs[p].sent| ==> Fits(s.procs[p].sent[k])
  }

  /** Clocks do not go back, no counter of a period overflows, and a process's deliveries keep their order. */
  predicate Enabled(s: System, op: Op) {
    match op
    case Call(id, c) => id in s.procs && MayCall(s.procs[id], c)
    case Send(id) => id in s.procs
    case Deliver(id, k) => id in s.procs && k < |s.procs[id].sent| && s.procs[id].delivered <= k + 1
    case Probe(id, index) => true
  }

  function Do(s: System, op: Op): System
    requires Enabled(s, op) && AllFit(s)
  {
    match op
    case Call(id, c) =>
      s.(procs := s.procs[id := AfterCall(s.procs[id], c)])
    case Send(id) =>
      var p := s.procs[id];
      s.(procs := s.procs[id := p.(sent := p.sent + [p.windows])])
    case Deliver(id, k) =>
      var p := s.procs[id];
      System(s.procs[id := AfterDelivery(p, k)], s.h + Lines(id, p.sent[k], NUM_PER_MIN))
    case Probe(id, index) => s.(h := s.h + [Lookup(id, index)])
  }

  // ---------------------------------------------------------------- the clients

  /** Each window in use is at its own ring position. */
  predicate Proper(w: Snapshot) {
    forall n :: 0 <= n < NUM_PER_MIN && w[n].timekey > 0 ==>
      IndexOf(w[n].timekey) == n && KeyOf(w[n].timekey) == w[n].timekey
  }

  /** Window by window, `b` is the same period with at least the counts, or a later period. */
  predicate Before(a: Snapshot, b: Snapshot) {
    forall n :: 0 <= n < NUM_PER_MIN ==>
      a[n].timekey < b[n].timekey || (a[n].timekey == b[n].timekey && a[n].counts.AtMost(b[n].counts))
  }

  /** The windows say exactly what was called, for the newest period at each position. */
  predicate Truthful(p: Process) {
    && Proper(p.windows)
    && (forall n :: 0 <= n < NUM_PER_MIN ==>
         p.windows[n].counts == (if p.windows[n].timekey > 0 then Counted(p.calls, p.windows[n].timekey) else ZERO))
    && (forall n :: 0 <= n < NUM_PER_MIN ==> p.windows[n].timekey <= Clock(p.calls))
    && (forall i :: 0 <= i < |p.calls| ==>
         60 <= p.calls[i].now <= Clock(p.calls) && KeyOf(p.calls[i].now) <= p.windows[IndexOf(p.calls[i].now)].timekey)
  }

  predicate Ordered(p: Process) {
    && p.delivered <= |p.sent|
    && (forall k :: 0 <= k < |p.sent| ==> Proper(p.sent[k]) && Fits(p.sent[k]) && Before(p.sent[k], p.windows))
    && (forall j, k :: 0 <= j <= k < |p.sent| ==> Before(p.sent[j], p.sent[k]))
    && (forall k :: 0 <= k < |p.sent| ==> Supported(p.sent[k], p.calls))
  }

  /** Nothing in the snapshot exceeds what was really called. */
  predicate Supported(w: Snapshot, calls: seq<Judged>) {
    forall n :: 0 <= n < NUM_PER_MIN && w[n].timekey > 0 ==> w[n].counts.sum <= Counted(calls, w[n].timekey).sum
  }

  lemma {:induction false} CountedStep(calls: seq<Judged>, c: Judged, key: nat)
    ensures Counted(calls + [c], key) ==
            if KeyOf(c.now) == key then CountCall(Counted(calls, key), c.passed, c.setRefused) else Counted(calls, key)
  {}

  /** The calls of a period that passed the act check, those that did not, and those refused for the set. */
  function PassedIn(calls: seq<Judged>, key: nat): set<nat> {
    set i: nat | i < |calls| && KeyOf(calls[i].now) == key && calls[i].passed
  }

  function RefusedIn(calls: seq<Judged>, key: nat): set<nat> {
    set i: nat | i < |calls| && KeyOf(calls[i].now) == key && !calls[i].passed
  }

  function SetRefusedIn(calls: seq<Judged>, key: nat): set<nat> {
    set i: nat | i < |calls| && KeyOf(calls[i].now) == key && calls[i].setRefused
  }

  lemma {:induction false} OneMoreIn(before: set<nat>, after: set<nat>, n: nat)
    requires n !in before && forall i :: i in after <==> i in before || (i == n && n in after)
    ensures |after| == |before| + if n in after then 1 else 0
  {
    assert after == if n in after then before + {n} else before;
  }

  lemma {:induction false} PassedGrow(init: seq<Judged>, c: Judged, key: nat)
    ensures |PassedIn(init + [c], key)| == |PassedIn(init, key)| + if KeyOf(c.now) == key && c.passed then 1 else 0
  {
    OneMoreIn(PassedIn(init, key), PassedIn(init + [c], key), |init|);
  }

  lemma {:induction false} RefusedGrow(init: seq<Judged>, c: Judged, key: nat)
    ensures |RefusedIn(init + [c], key)| == |RefusedIn(init, key)| + if KeyOf(c.now) == key && !c.passed then 1 else 0
  {
    OneMoreIn(RefusedIn(init, key), RefusedIn(init + [c], key), |init|);
  }

  lemma {:induction false} SetRefusedGrow(init: seq<Judged>, c: Judged, key: nat)
    ensures |SetRefusedIn(init + [c], key)| == |SetRefusedIn(init, key)| + if KeyOf(c.now) == key && c.setRefused then 1 else 0
  {
    OneMoreIn(SetRefusedIn(init, key), SetRefusedIn(init + [c], key), |init|);
  }

  /** The three counters are the numbers of those calls. */
  lemma {:induction false} CountedMeans(calls: seq<Judged>, key: nat)
    ensures Counted(calls, key) == Counts(|PassedIn(calls, key)|, |RefusedIn(calls, key)|, |SetRefusedIn(calls, key)|)
  {
    if calls != [] {
      var init, c := calls[..|calls| - 1], calls[|calls| - 1];
      CountedMeans(init, key);
      assert init + [c] == calls;
      PassedGrow(init, c, key);
      RefusedGrow(init, c, key);
      SetRefusedGrow(init, c, key);
    }
  }

  lemma {:induction false} CountedIsNat(calls: seq<Judged>, key: nat)
    ensures Counted(calls, key).NonNegative()
  {
    if calls != [] {
      CountedIsNat(calls[..|calls| - 1], key);
    }
  }

  lemma {:induction false} NothingCounted(calls: seq<Judged>, key: nat)
    requires forall i :: 0 <= i < |calls| ==> KeyOf(calls[i].now) != key
    ensures Counted(calls, key) == ZERO
  {
    if calls != [] {
      NothingCounted(calls[..|calls| - 1], key);
    }
  }

  /** A new period really is new: nothing was counted for it before. */
  lemma {:induction false} NewPeriodIsEmpty(p: Process, now: nat)
    requires Truthful(p) && p.windows[IndexOf(now)].timekey != KeyOf(now) && now >= Clock(p.calls) && now >= 60
    ensures p.windows[IndexOf(now)].timekey < KeyOf(now) && Counted(p.calls, KeyOf(now)) == ZERO
  {
    var n, key := IndexOf(now), KeyOf(now);
    var t := p.windows[n].timekey;
    if t > 0 {
      KeyMonotone(t, now);
    }
    forall i | 0 <= i < |p.calls| ensures KeyOf(p.calls[i].now) != key {
      KeyIsStable(p.calls[i].now);
      KeyIsStable(now);
    }
    NothingCounted(p.calls, key);
  }

  /** A call moves its window on, or starts a new one. */
  lemma {:induction false} CallMovesOn(p: Process, c: Judged)
    requires Truthful(p) && c.now >= Clock(p.calls) && c.now >= 60
    ensures Before(p.windows, CountInWindow(p.windows, c.now, c.passed, c.setRefused))
  {}

  lemma {:induction false} CallKeepsTruthful(p: Process, c: Judged)
    requires Truthful(p) && c.now >= Clock(p.calls)
    ensures var p' := AfterCall(p, c);
            Truthful(p') && Before(p.windows, p'.windows)
  {
    var p' := AfterCall(p, c);
    var i := IndexOf(c.now);
    assert c.now >= 60;
    CallMovesOn(p, c);
    KeyIsStable(c.now);
    if p.windows[i].timekey != KeyOf(c.now) {
      NewPeriodIsEmpty(p, c.now);
    }
    forall n | 0 <= n < NUM_PER_MIN && p'.windows[n].timekey > 0
      ensures p'.windows[n].counts == Counted(p'.calls, p'.windows[n].timekey)
    {
      CountedStep(p.calls, c, p'.windows[n].timekey);
    }
  }

  lemma {:induction false} BeforeIsTransitive(a: Snapshot, b: Snapshot, c: Snapshot)
    requires Before(a, b) && Before(b, c)
    ensures Before(a, c)
  {}

  /** A call changes one window, and that one holds the period's counters. */
  lemma {:induction false} CallKeepsFits(p: Process, c: Judged)
    requires Truthful(p) && Fits(p.windows) && MayCall(p, c)
    ensures Fits(AfterCall(p, c).windows)
  {
    CallKeepsTruthful(p, c);
  }

  // ----------------------------------------------------------------- the server

  /** What the server saw of one process at one position agrees with the last delivered snapshot. */
  predicate SeenAt(vs: seq<Counts>, key: nat, p: Process, i: nat)
    requires i < NUM_PER_MIN
  {
    && NeverFalls(vs)
    && (vs != [] ==> 0 < p.delivered <= |p.sent|)
    && (vs != [] ==> AgreesWith(vs[|vs| - 1], key, p.sent[p.delivered - 1][i]))
    && (vs != [] ==> vs[|vs| - 1].sum <= Counted(p.calls, key).sum)
    && (0 < p.delivered <= |p.sent| && p.sent[p.delivered - 1][i].timekey == key && vs == [] ==>
         p.sent[p.delivered - 1][i].counts.sum <= 0)
  }

  /** The window has moved on from the period, or still holds exactly these counters. */
  predicate AgreesWith(v: Counts, key: nat, r: TimeSum) {
    r.timekey > key || (r.timekey == key && v == r.counts)
  }

  predicate GoodProcess(p: Process) {
    Truthful(p) && Ordered(p) && Fits(p.windows)
  }

  /** The positive counters of one period in the snapshots that were delivered, in order. */
  function Received(got: seq<Snapshot>, i: nat, key: nat): seq<Counts>
    requires i < NUM_PER_MIN
  {
    if got == [] then [] else
      Received(got[..|got| - 1], i, key) + Added(got[|got| - 1], NUM_PER_MIN, i, key)
  }

  /** The server saw exactly what was delivered, and it agrees with the last delivered snapshot. */
  ghost predicate Seen(h: seq<Event>, id: Id, p: Process) {
    forall i, key :: 0 <= i < NUM_PER_MIN && key > 0 ==>
      SeenAt(Values(h, i, key, id), key, p, i) && Values(h, i, key, id) == Received(p.got, i, key)
  }

  ghost predicate Unseen(h: seq<Event>, id: Id) {
    forall i, key :: 0 <= i < NUM_PER_MIN && key > 0 ==> Values(h, i, key, id) == []
  }

  /** What holds of one process, or of an id that is none. */
  ghost predicate SaneAt(s: System, q: Id) {
    if q in s.procs then GoodProcess(s.procs[q]) && Seen(s.h, q, s.procs[q]) else Unseen(s.h, q)
  }

  /** The invariant of the whole system. */
  ghost predicate Sane(s: System) { forall q :: SaneAt(s, q) }

  lemma {:induction false} SaneFits(s: System)
    requires Sane(s)
    ensures AllFit(s)
  {
    forall p, k | p in s.procs && 0 <= k < |s.procs[p].sent| ensures Fits(s.procs[p].sent[k]) {
      assert SaneAt(s, p);
    }
  }

  /** The one value a delivered snapshot adds at a position, if any. */
  function Added(w: Snapshot, n: nat, i: nat, key: nat): seq<Counts>
    requires i < NUM_PER_MIN
  {
    if i < n && w[i].timekey == key && w[i].counts.sum > 0 then [w[i].counts] else []
  }

  lemma {:induction false} LineAdds(h: seq<Event>, id: Id, w: Snapshot, m: nat, i: nat, key: nat, q: Id)
    requires m < NUM_PER_MIN && Fits(w) && Proper(w) && i < NUM_PER_MIN && w[m].timekey > 0
    ensures Values(h + [Report(id, ToItem(w[m]))], i, key, q) ==
            Values(h, i, key, q) +
              if q == id && i == m && w[i].timekey == key && w[i].counts.sum > 0 then [w[i].counts] else []
  {}

  lemma {:induction false} LinesGrow(h: seq<Event>, id: Id, w: Snapshot, n: nat)
    requires 0 < n <= NUM_PER_MIN && Fits(w)
    ensures var before := h + Lines(id, w, n - 1);
            h + Lines(id, w, n) == if w[n - 1].timekey > 0 then before + [Report(id, ToItem(w[n - 1]))] else before
  {}

  /** What the first `n` windows of a delivered snapshot add for a process, and what the last of them does. */
  function AddedFor(w: Snapshot, n: nat, i: nat, key: nat, mine: bool): seq<Counts>
    requires i < NUM_PER_MIN
  {
    if mine then Added(w, n, i, key) else []
  }

  function LineFor(w: Snapshot, m: nat, i: nat, key: nat, mine: bool): seq<Counts>
    requires i < NUM_PER_MIN && m < NUM_PER_MIN
  {
    if w[m].timekey > 0 && mine && i == m && w[i].timekey == key && w[i].counts.sum > 0 then [w[i].counts] else []
  }

  lemma {:induction false} AddedGrows(vs: seq<Counts>, w: Snapshot, n: nat, i: nat, key: nat, mine: bool)
    requires 0 < n <= NUM_PER_MIN && i < NUM_PER_MIN && key > 0
    ensures vs + AddedFor(w, n, i, key, mine) == vs + AddedFor(w, n - 1, i, key, mine) + LineFor(w, n - 1, i, key, mine)
  {
    assert AddedFor(w, n, i, key, mine) == AddedFor(w, n - 1, i, key, mine) + LineFor(w, n - 1, i, key, mine);
  }

  lemma {:induction false} OneMoreLine(h: seq<Event>, id: Id, w: Snapshot, n: nat, i: nat, key: nat, q: Id, vs: seq<Counts>)
    requires 0 < n <= NUM_PER_MIN && Fits(w) && Proper(w) && i < NUM_PER_MIN
    requires Values(h + Lines(id, w, n - 1), i, key, q) == vs
    ensures Values(h + Lines(id, w, n), i, key, q) == vs + LineFor(w, n - 1, i, key, q == id)
  {
    LinesGrow(h, id, w, n);
    if w[n - 1].timekey > 0 {
      LineAdds(h + Lines(id, w, n - 1), id, w, n - 1, i, key, q);
    } else {
      assert vs + [] == vs;
    }
  }

  lemma {:induction false} NoLines(h: seq<Event>, id: Id, w: Snapshot, i: nat, key: nat, q: Id, vs: seq<Counts>)
    requires Fits(w) && i < NUM_PER_MIN && Values(h, i, key, q) == vs
    ensures Values(h + Lines(id, w, 0), i, key, q) == vs + AddedFor(w, 0, i, key, q == id)
  {
    assert h + [] == h && vs + [] == vs;
  }

  lemma {:induction false} LinesAddTo(h: seq<Event>, id: Id, w: Snapshot, n: nat, i: nat, key: nat, q: Id, vs: seq<Counts>)
    requires n <= NUM_PER_MIN && Fits(w) && Proper(w) && i < NUM_PER_MIN && key > 0 && Values(h, i, key, q) == vs
    ensures Values(h + Lines(id, w, n), i, key, q) == vs + AddedFor(w, n, i, key, q == id)
  {
    if n == 0 {
      NoLines(h, id, w, i, key, q, vs);
    } else {
      LinesAddTo(h, id, w, n - 1, i, key, q, vs);
      OneMoreLine(h, id, w, n, i, key, q, vs + AddedFor(w, n - 1, i, key, q == id));
      AddedGrows(vs, w, n, i, key, q == id);
    }
  }

  lemma {:induction false} LinesAdd(h: seq<Event>, id: Id, w: Snapshot, n: nat, i: nat, key: nat, q: Id)
    requires n <= NUM_PER_MIN && Fits(w) && Proper(w) && i < NUM_PER_MIN && key > 0
    ensures Values(h + Lines(id, w, n), i, key, q) == Values(h, i, key, q) + AddedFor(w, n, i, key, q == id)
  {
    LinesAddTo(h, id, w, n, i, key, q, Values(h, i, key, q));
  }

  lemma {:induction false} DeliveryIsSeen(vs: seq<Counts>, key: nat, p: Process, k: nat, i: nat)
    requires i < NUM_PER_MIN && SeenAt(vs, key, p, i) && Ordered(p) && k < |p.sent| && p.delivered <= k + 1
    requires key > 0 && (vs != [] ==> vs[|vs| - 1].sum > 0)
    ensures SeenAt(vs + Added(p.sent[k], NUM_PER_MIN, i, key), key, AfterDelivery(p, k), i)
  {}

  lemma {:induction false} CallKeepsOrdered(p: Process, c: Judged)
    requires Truthful(p) && Ordered(p) && c.now >= Clock(p.calls)
    ensures Ordered(AfterCall(p, c))
  {
    CallKeepsTruthful(p, c);
    var windows := CountInWindow(p.windows, c.now, c.passed, c.setRefused);
    forall k | 0 <= k < |p.sent| ensures Before(p.sent[k], windows) && Supported(p.sent[k], p.calls + [c]) {
      BeforeIsTransitive(p.sent[k], p.windows, windows);
      MoreCallsSupport(p.sent[k], p.calls, c);
    }
  }

  lemma {:induction false} MoreCallsSupport(w: Snapshot, calls: seq<Judged>, c: Judged)
    requires Supported(w, calls)
    ensures Supported(w, calls + [c])
  {}

  lemma {:induction false} CallKeepsSeen(h: seq<Event>, id: Id, p: Process, c: Judged)
    requires Seen(h, id, p)
    ensures Seen(h, id, AfterCall(p, c))
  {}

  lemma {:induction false} SendKeepsOrdered(p: Process)
    requires GoodProcess(p)
    ensures Ordered(p.(sent := p.sent + [p.windows]))
  {
    assert Before(p.windows, p.windows);
  }

  lemma {:induction false} ProbeIsUnseen(h: seq<Event>, id: Id, index: nat, i: nat, key: nat, q: Id)
    ensures Values(h + [Lookup(id, index)], i, key, q) == Values(h, i, key, q)
  {}

  lemma {:induction false} DeliverKeepsSeenAt(h: seq<Event>, id: Id, p: Process, k: nat, q: Id, i: nat, key: nat)
    requires GoodProcess(p) && k < |p.sent| && p.delivered <= k + 1 && i < NUM_PER_MIN && key > 0
    ensures Values(h + Lines(id, p.sent[k], NUM_PER_MIN), i, key, q) ==
            Values(h, i, key, q) + if q == id then Added(p.sent[k], NUM_PER_MIN, i, key) else []
    ensures SeenAt(Values(h, i, key, id), key, p, i) ==>
            SeenAt(Values(h + Lines(id, p.sent[k], NUM_PER_MIN), i, key, id), key, AfterDelivery(p, k), i)
  {
    assert Proper(p.sent[k]);
    LinesAdd(h, id, p.sent[k], NUM_PER_MIN, i, key, q);
    LinesAdd(h, id, p.sent[k], NUM_PER_MIN, i, key, id);
    ValuesArePositive(h, i, key, id);
    if SeenAt(Values(h, i, key, id), key, p, i) {
      DeliveryIsSeen(Values(h, i, key, id), key, p, k, i);
    }
  }

  lemma {:induction false} ReceivedMore(got: seq<Snapshot>, w: Snapshot, i: nat, key: nat)
    requires i < NUM_PER_MIN
    ensures Received(got + [w], i, key) == Received(got, i, key) + Added(w, NUM_PER_MIN, i, key)
  {
    assert (got + [w])[..|got|] == got;
  }

  lemma {:induction false} DeliverKeepsOwnSeen(h: seq<Event>, id: Id, p: Process, k: nat)
    requires GoodProcess(p) && k < |p.sent| && p.delivered <= k + 1 && Seen(h, id, p)
    ensures Seen(h + Lines(id, p.sent[k], NUM_PER_MIN), id, AfterDelivery(p, k))
  {
    var h', p' := h + Lines(id, p.sent[k], NUM_PER_MIN), AfterDelivery(p, k);
    forall i, key | 0 <= i < NUM_PER_MIN && key > 0
      ensures SeenAt(Values(h', i, key, id), key, p', i) && Values(h', i, key, id) == Received(p'.got, i, key)
    {
      DeliverKeepsSeenAt(h, id, p, k, id, i, key);
      ReceivedMore(p.got, p.sent[k], i, key);
    }
  }

  lemma {:induction false} DeliverKeepsOthersValues(h: seq<Event>, id: Id, p: Process, k: nat, q: Id)
    requires GoodProcess(p) && k < |p.sent| && p.delivered <= k + 1 && q != id
    ensures forall i, key :: 0 <= i < NUM_PER_MIN && key > 0 ==>
              Values(h + Lines(id, p.sent[k], NUM_PER_MIN), i, key, q) == Values(h, i, key, q)
  {
    var h' := h + Lines(id, p.sent[k], NUM_PER_MIN);
    forall i, key | 0 <= i < NUM_PER_MIN && key > 0 ensures Values(h', i, key, q) == Values(h, i, key, q) {
      DeliverKeepsSeenAt(h, id, p, k, q, i, key);
    }
  }

  lemma {:induction false} CallKeepsSane(s: System, id: Id, c: Judged, q: Id)
    requires SaneAt(s, q) && AllFit(s) && Enabled(s, Call(id, c))
    ensures SaneAt(Do(s, Call(id, c)), q)
  {
    if q == id {
      var p := s.procs[id];
      CallKeepsTruthful(p, c);
      CallKeepsFits(p, c);
      CallKeepsOrdered(p, c);
      CallKeepsSeen(s.h, id, p, c);
    }
  }

  lemma {:induction false} SendKeepsSeen(h: seq<Event>, id: Id, p: Process)
    requires GoodProcess(p) && Seen(h, id, p)
    ensures Seen(h, id, p.(sent := p.sent + [p.windows]))
  {}

  lemma {:induction false} SendKeepsSane(s: System, id: Id, q: Id)
    requires SaneAt(s, q) && AllFit(s) && Enabled(s, Send(id))
    ensures SaneAt(Do(s, Send(id)), q)
  {
    if q == id {
      SendKeepsOrdered(s.procs[id]);
      SendKeepsSeen(s.h, id, s.procs[id]);
    }
  }

  lemma {:induction false} DeliverKeepsSane(s: System, id: Id, k: nat, q: Id)
    requires SaneAt(s, q) && SaneAt(s, id) && AllFit(s) && Enabled(s, Deliver(id, k))
    ensures SaneAt(Do(s, Deliver(id, k)), q)
  {
    if q == id {
      DeliverKeepsOwnSeen(s.h, id, s.procs[id], k);
    } else {
      DeliverKeepsOthersValues(s.h, id, s.procs[id], k, q);
    }
  }

  lemma {:induction false} ProbeKeepsSane(s: System, id: Id, index: nat, q: Id)
    requires SaneAt(s, q) && AllFit(s)
    ensures SaneAt(Do(s, Probe(id, index)), q)
  {
    forall i, key { ProbeIsUnseen(s.h, id, index, i, key, q); }
  }

  lemma {:induction false} StepKeepsSaneAt(s: System, op: Op, q: Id)
    requires Sane(s) && AllFit(s) && Enabled(s, op)
    ensures SaneAt(Do(s, op), q)
  {
    assert SaneAt(s, q);
    match op
    case Call(id, c) => CallKeepsSane(s, id, c, q);
    case Send(id) => SendKeepsSane(s, id, q);
    case Deliver(id, k) =>
      assert SaneAt(s, id);
      DeliverKeepsSane(s, id, k, q);
    case Probe(id, index) => ProbeKeepsSane(s, id, index, q);
  }

  lemma {:induction false} StepKeepsSane(s: System, op: Op)
    requires Sane(s) && AllFit(s) && Enabled(s, op)
    ensures Sane(Do(s, op)) && AllFit(Do(s, op))
  {
    forall q ensures SaneAt(Do(s, op), q) {
      StepKeepsSaneAt(s, op, q);
    }
    SaneFits(Do(s, op));
  }
}
