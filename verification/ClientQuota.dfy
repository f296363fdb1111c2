/** What a client's act check admits in a second, and what its quota is after any history. */
module ClientQuota {
  import opened Optional
  import opened Arith
  import opened LocalQuota

  // ------------------------------------------------- the calls of one second

  /** A sequence of calls in one second; `sums` are the set-wide counts each call happened to see. */
  function AfterCalls(l: Local, now: nat, totalquota: nat, refer: nat, sums: seq<nat>): Local
    requires l.Shaped()
    ensures AfterCalls(l, now, totalquota, refer, sums).Shaped()
  {
    if sums == [] then l else
      var before := AfterCalls(l, now, totalquota, refer, sums[..|sums| - 1]);
      BeginCall(before, sums[|sums| - 1], now, totalquota, refer).local
  }

  /** How many of those calls pass the act check. */
  function Passes(l: Local, now: nat, totalquota: nat, refer: nat, sums: seq<nat>): nat
    requires l.Shaped()
  {
    if sums == [] then 0 else
      var init := sums[..|sums| - 1];
      Passes(l, now, totalquota, refer, init) +
        var b := BeginCall(AfterCalls(l, now, totalquota, refer, init), sums[|sums| - 1], now, totalquota, refer);
        if b.verdict.ret < 2 then 1 else 0
  }

  /** The cut-off of one second, or none when everything passes, as it does at a clock behind the last reply. */
  datatype Limit = Unlimited | AtMost(n: nat)

  function SecondLimit(l: Local, now: nat, totalquota: nat, refer: nat): Limit {
    var share := EvenShare(l.(totalquota := totalquota));
    if now < l.updatetime then Unlimited
    else if Unguided(l, now) then
      if refer > THRESHOLD_PER_SECOND then AtMost(refer)
      else if share > THRESHOLD_PER_SECOND then AtMost(share - 1)
      else Unlimited
    else if l.restrainquota > THRESHOLD_PER_SECOND then AtMost(l.restrainquota)
    else Unlimited
  }

  predicate SameGuidance(l: Local, m: Local) {
    && m.updatetime == l.updatetime && m.localquotaver == l.localquotaver && m.restrainquota == l.restrainquota
    && m.totalworkernum == l.totalworkernum
  }

  lemma {:induction false} CallsKeepGuidance(l: Local, now: nat, totalquota: nat, refer: nat, sums: seq<nat>)
    requires l.Shaped() && l.now != now
    ensures var m := AfterCalls(l, now, totalquota, refer, sums);
            && SameGuidance(l, m)
            && (sums != [] && now >= l.updatetime ==> m.now == now && m.nowsum == |sums| && m.totalquota == totalquota)
            && (sums == [] || now < l.updatetime ==> m == l)
  {
    if sums != [] {
      CallsKeepGuidance(l, now, totalquota, refer, sums[..|sums| - 1]);
    }
  }

  /**
   * Exactly the first calls of a second pass: as many as the cut-off, or all of them. With a
   * fresh heartbeat the cut-off is the quota itself; in the even-division fallback it is one
   * less than the even share; at a clock behind the last reply there is none.
   */
  lemma {:induction false} PassesUpToLimit(l: Local, now: nat, totalquota: nat, refer: nat, sums: seq<nat>)
    requires l.Shaped() && l.now != now
    ensures var limit := SecondLimit(l, now, totalquota, refer);
            Passes(l, now, totalquota, refer, sums) == if limit.AtMost? then Min(|sums|, limit.n) else |sums|
  {
    if sums != [] {
      var init := sums[..|sums| - 1];
      PassesUpToLimit(l, now, totalquota, refer, init);
      CallsKeepGuidance(l, now, totalquota, refer, init);
      var m := AfterCalls(l, now, totalquota, refer, init);
      if init != [] && now >= l.updatetime {
        assert EvenShare(m) == EvenShare(l.(totalquota := totalquota));
      }
    }
  }

  // ----------------------------------------------------- a whole client history

  datatype Op =
    | Call(at: nat, totalquota: nat, refer: nat, sum: nat)
    | Answer(sentAt: nat, sameKey: bool, reply: Reply)
    | Silence

  function Apply(l: Local, op: Op): Local
    requires l.Shaped()
    ensures Apply(l, op).Shaped()
  {
    match op
    case Call(at, totalquota, refer, sum) => BeginCall(l, sum, at, totalquota, refer).local
    case Answer(sentAt, sameKey, reply) => EndCall(l, sentAt, Some((sameKey, reply)))
    case Silence => EndCall(l, l.updatetime, None)
  }

  function History(ops: seq<Op>): Local
    ensures History(ops).Shaped()
  {
    if ops == [] then Fresh() else Apply(History(ops[..|ops| - 1]), ops[|ops| - 1])
  }

  predicate CarriesQuota(op: Op) {
    op.Answer? && op.sameKey && op.reply.localq > 0
  }

  predicate Clears(l: Local, op: Op) {
    op.Call? && op.at == l.now && HeartbeatLost(l, op.at)
  }

  function NextRecent(l: Local, op: Op, recent: seq<nat>): seq<nat> {
    if CarriesQuota(op) then recent + [op.reply.localq] else if Clears(l, op) then [] else recent
  }

  /** The positive quotas received since the remembered ones were last cleared. */
  function Recent(ops: seq<Op>): seq<nat> {
    if ops == [] then [] else
      NextRecent(History(ops[..|ops| - 1]), ops[|ops| - 1], Recent(ops[..|ops| - 1]))
  }

  function Window(s: seq<nat>): seq<nat> {
    if |s| <= QUOTA_ARRAY_NUM then s else s[|s| - QUOTA_ARRAY_NUM..]
  }

  function FloorMean(s: seq<nat>): nat
    requires s != []
  {
    Total(s) / |s|
  }

  /** The mean at the moment the last quota arrived. */
  function LastMean(ops: seq<Op>): nat {
    if ops == [] then 0 else
      var init := ops[..|ops| - 1];
      if CarriesQuota(ops[|ops| - 1]) then FloorMean(Window(Recent(ops))) else LastMean(init)
  }

  /** The ring position of the quota received `j` quotas ago. */
  function Slot(index: nat, j: nat): nat
    requires j < QUOTA_ARRAY_NUM
    ensures Slot(index, j) < QUOTA_ARRAY_NUM
  {
    (index + QUOTA_ARRAY_NUM - 1 - j) % QUOTA_ARRAY_NUM
  }

  /** The quota received `j` quotas ago, or 0 when there were not that many. */
  function Ago(recent: seq<nat>, j: nat): nat {
    if j < |recent| then recent[|recent| - 1 - j] else 0
  }

  /** The ring holds the last quotas, newest first going backwards, and zeros elsewhere. */
  predicate RingSlots(q: seq<nat>, index: nat, recent: seq<nat>)
    requires |q| == QUOTA_ARRAY_NUM
  {
    forall j :: 0 <= j < QUOTA_ARRAY_NUM ==> q[Slot(index, j)] == Ago(recent, j)
  }

  predicate RingHolds(q: seq<nat>, index: nat, recent: seq<nat>)
    requires |q| == QUOTA_ARRAY_NUM
  {
    && RingSlots(q, index, recent)
    && Total(q) == Total(Window(recent))
    && Positives(q) == |Window(recent)|
    && (forall k :: 0 <= k < |recent| ==> recent[k] > 0)
  }

  lemma {:induction false} UpdateRing(q: seq<nat>, i: nat, x: nat)
    requires i < |q|
    ensures Total(q[i := x]) == Total(q) - q[i] + x
    ensures Positives(q[i := x]) == Positives(q) - (if q[i] > 0 then 1 else 0) + (if x > 0 then 1 else 0)
  {
    var n := |q| - 1;
    if i == n {
      assert q[i := x][..n] == q[..n];
    } else {
      UpdateRing(q[..n], i, x);
      assert q[i := x][..n] == q[..n][i := x];
    }
  }

  lemma {:induction false} TotalOfTail(s: seq<nat>)
    requires s != []
    ensures Total(s) == s[0] + Total(s[1..])
  {
    if |s| > 1 {
      TotalOfTail(s[..|s| - 1]);
      assert s[1..][..|s| - 2] == s[..|s| - 1][1..];
    }
  }

  lemma {:induction false} ZerosTotal(n: nat)
    ensures Total(Repeat(0, n)) == 0 && Positives(Repeat(0, n)) == 0
  {
    if n > 0 {
      ZerosTotal(n - 1);
      assert Repeat(0, n)[..n - 1] == Repeat(0, n - 1);
    }
  }

  lemma {:induction false} SlotsShift(index: nat, j: nat)
    requires j < QUOTA_ARRAY_NUM
    ensures Slot(index + 1, 0) == index % QUOTA_ARRAY_NUM
    ensures j > 0 ==> Slot(index + 1, j) == Slot(index, j - 1) && Slot(index + 1, j) != index % QUOTA_ARRAY_NUM
    ensures Slot(index, QUOTA_ARRAY_NUM - 1) == index % QUOTA_ARRAY_NUM
  {}

  lemma {:induction false} WindowGrows(recent: seq<nat>, x: nat)
    ensures |Window(recent + [x])| == Min(|recent| + 1, QUOTA_ARRAY_NUM)
    ensures Total(Window(recent + [x])) == Total(Window(recent)) + x - Ago(recent, QUOTA_ARRAY_NUM - 1)
  {
    var w, w' := Window(recent), Window(recent + [x]);
    if |recent| < QUOTA_ARRAY_NUM {
      assert w'[..|w'| - 1] == w;
    } else {
      assert w'[..|w'| - 1] == w[1..];
      TotalOfTail(w);
    }
  }

  lemma {:induction false} SlotsTakeQuota(q: seq<nat>, index: nat, recent: seq<nat>, x: nat)
    requires |q| == QUOTA_ARRAY_NUM && RingSlots(q, index, recent)
    ensures RingSlots(q[index % QUOTA_ARRAY_NUM := x], index + 1, recent + [x])
    ensures q[index % QUOTA_ARRAY_NUM] == Ago(recent, QUOTA_ARRAY_NUM - 1)
  {
    var i, next, more := index % QUOTA_ARRAY_NUM, index + 1, recent + [x];
    SlotsShift(index, 0);
    assert q[Slot(index, QUOTA_ARRAY_NUM - 1)] == Ago(recent, QUOTA_ARRAY_NUM - 1);
    forall j | 0 <= j < QUOTA_ARRAY_NUM ensures q[i := x][Slot(next, j)] == Ago(more, j) {
      SlotsShift(index, j);
      if j > 0 {
        assert q[Slot(index, j - 1)] == Ago(recent, j - 1) == Ago(more, j);
      }
    }
  }

  lemma {:induction false} RingTakesQuota(q: seq<nat>, index: nat, recent: seq<nat>, x: nat)
    requires |q| == QUOTA_ARRAY_NUM && RingHolds(q, index, recent) && x > 0
    ensures RingHolds(q[index % QUOTA_ARRAY_NUM := x], index + 1, recent + [x])
  {
    SlotsTakeQuota(q, index, recent, x);
    UpdateRing(q, index % QUOTA_ARRAY_NUM, x);
    WindowGrows(recent, x);
  }

  lemma {:induction false} EmptyRing(index: nat)
    ensures RingHolds(Cleared(), index, [])
  {
    ZerosTotal(QUOTA_ARRAY_NUM);
  }

  /** What one operation does to the remembered quotas. */
  lemma {:induction false} QuotasAfter(l: Local, op: Op)
    requires l.Shaped()
    ensures CarriesQuota(op) ==>
      var q := l.qarray[l.index % QUOTA_ARRAY_NUM := op.reply.localq];
      && Apply(l, op).qarray == q && Apply(l, op).index == l.index + 1
      && Apply(l, op).localquotaver == Apply(l, op).restrainquota == Mean(q)
    ensures !CarriesQuota(op) ==>
      && Apply(l, op).qarray == (if Clears(l, op) then Cleared() else l.qarray) && Apply(l, op).index == l.index
      && Apply(l, op).localquotaver == l.localquotaver && Apply(l, op).restrainquota == l.restrainquota
  {}

  lemma {:induction false} SameRing(q: seq<nat>, index: nat, recent: seq<nat>, q': seq<nat>, index': nat, recent': seq<nat>)
    requires |q| == QUOTA_ARRAY_NUM && q == q' && index == index' && recent == recent' && RingHolds(q, index, recent)
    ensures RingHolds(q', index', recent')
  {}

  /** A quota joins the ring, a clear empties it, and anything else leaves it. */
  lemma {:induction false} RingStep(l: Local, op: Op, recent: seq<nat>, q: seq<nat>, index: nat)
    requires |l.qarray| == QUOTA_ARRAY_NUM && RingHolds(l.qarray, l.index, recent)
    requires if CarriesQuota(op) then q == l.qarray[l.index % QUOTA_ARRAY_NUM := op.reply.localq] && index == l.index + 1
             else q == (if Clears(l, op) then Cleared() else l.qarray) && index == l.index
    ensures RingHolds(q, index, NextRecent(l, op, recent))
  {
    var next := NextRecent(l, op, recent);
    if CarriesQuota(op) {
      var x := op.reply.localq;
      RingTakesQuota(l.qarray, l.index, recent, x);
      SameRing(l.qarray[l.index % QUOTA_ARRAY_NUM := x], l.index + 1, recent + [x], q, index, next);
    } else if Clears(l, op) {
      EmptyRing(l.index);
      SameRing(Cleared(), l.index, [], q, index, next);
    } else {
      SameRing(l.qarray, l.index, recent, q, index, next);
    }
  }

  lemma {:induction false} StepKeepsRing(l: Local, op: Op, recent: seq<nat>)
    requires l.Shaped() && RingHolds(l.qarray, l.index, recent)
    ensures RingHolds(Apply(l, op).qarray, Apply(l, op).index, NextRecent(l, op, recent))
  {
    QuotasAfter(l, op);
    RingStep(l, op, recent, Apply(l, op).qarray, Apply(l, op).index);
  }

  lemma {:induction false} RingFollowsHistory(ops: seq<Op>)
    ensures RingHolds(History(ops).qarray, History(ops).index, Recent(ops))
  {
    if ops == [] {
      EmptyRing(0);
    } else {
      RingFollowsHistory(ops[..|ops| - 1]);
      StepKeepsRing(History(ops[..|ops| - 1]), ops[|ops| - 1], Recent(ops[..|ops| - 1]));
    }
  }

  /**
   * After any history, the quota the client enforces is the floor mean of the last (at most
   * twelve) positive quotas received since the last clear, as of the last one's arrival.
   */
  lemma {:induction false} QuotaIsRecentMean(ops: seq<Op>)
    ensures History(ops).localquotaver == History(ops).restrainquota == LastMean(ops)
    ensures Recent(ops) != [] ==> LastMean(ops) == FloorMean(Window(Recent(ops)))
  {
    if ops != [] {
      var init, op := ops[..|ops| - 1], ops[|ops| - 1];
      QuotaIsRecentMean(init);
      QuotasAfter(History(init), op);
      if CarriesQuota(op) {
        RingFollowsHistory(ops);
      }
    }
  }

  lemma {:induction false} TotalBetween(s: seq<nat>, lo: nat, hi: nat)
    requires forall x :: x in s ==> lo <= x <= hi
    ensures |s| * lo <= Total(s) <= |s| * hi
  {
    if s != [] {
      var n := |s| - 1;
      forall x | x in s[..n] ensures x in s {}
      TotalBetween(s[..n], lo, hi);
      Distribute(n, 1, lo);
      Distribute(n, 1, hi);
      assert s[n] in s;
    }
  }

  lemma {:induction false} MeanBetween(total: nat, n: nat, lo: nat, hi: nat)
    requires n > 0 && n * lo <= total <= n * hi
    ensures lo <= total / n <= hi
  {
    DivBounds(total, n);
    Distribute(total / n, 1, n);
    MulCancel(lo, total / n, n);
    Distribute(hi, 1, n);
    MulCancel(total / n, hi, n);
  }

  /** So the enforced quota lies between the least and the greatest of those replies. */
  lemma {:induction false} QuotaBetweenReplies(ops: seq<Op>, lo: nat, hi: nat)
    requires Recent(ops) != [] && forall x :: x in Window(Recent(ops)) ==> lo <= x <= hi
    ensures lo <= History(ops).restrainquota <= hi
  {
    QuotaIsRecentMean(ops);
    var w := Window(Recent(ops));
    TotalBetween(w, lo, hi);
    MeanBetween(Total(w), |w|, lo, hi);
  }

  // ------------------------------------------------------- as a reference for others

  /** When the last reply's request was sent, or 0 before any reply. */
  function ReplyTime(ops: seq<Op>): nat {
    if ops == [] then 0 else
      var n := |ops| - 1;
      if ops[n].Answer? then ops[n].sentAt else ReplyTime(ops[..n])
  }

  /** The total quota of the last call that was not behind the clock, or 0 before any. */
  function LastTotal(ops: seq<Op>): nat {
    if ops == [] then 0 else
      var n := |ops| - 1;
      if ops[n].Call? && ops[n].at >= ReplyTime(ops[..n]) then ops[n].totalquota else LastTotal(ops[..n])
  }

  /** Some reply carried a quota. */
  predicate HadQuota(ops: seq<Op>) {
    exists i :: 0 <= i < |ops| && CarriesQuota(ops[i])
  }

  /** What a key with such a history offers to the keys that refer to it. */
  function OfferAfter(ops: seq<Op>): Offer {
    var l := History(ops);
    Offer(l.restrainquota, l.localquota, l.updatetime, l.totalquota)
  }

  lemma {:induction false} TotalCoversPositives(q: seq<nat>)
    ensures Positives(q) <= Total(q)
  {
    if q != [] {
      TotalCoversPositives(q[..|q| - 1]);
    }
  }

  /** A mean over a positive quota is positive. */
  lemma {:induction false} MeanOfMore(q: seq<nat>, i: nat, x: nat)
    requires i < |q| && x > 0
    ensures Mean(q[i := x]) > 0
  {
    var q' := q[i := x];
    UpdateRing(q', i, 0);
    TotalCoversPositives(q');
    MeanBetween(Total(q'), Positives(q'), 1, Total(q'));
  }

  lemma {:induction false} OfferStep(l: Local, op: Op)
    requires l.Shaped()
    ensures Apply(l, op).updatetime == if op.Answer? then op.sentAt else l.updatetime
    ensures Apply(l, op).totalquota == if op.Call? && op.at >= l.updatetime then op.totalquota else l.totalquota
    ensures CarriesQuota(op) ==> Apply(l, op).localquota > 0 && Apply(l, op).restrainquota > 0
    ensures !CarriesQuota(op) ==> Apply(l, op).localquota == l.localquota && Apply(l, op).restrainquota == l.restrainquota
  {
    if CarriesQuota(op) {
      MeanOfMore(l.qarray, l.index % QUOTA_ARRAY_NUM, op.reply.localq);
    }
  }

  /** The four fields of the offer, read off the history. */
  lemma {:induction false} OfferMeans(ops: seq<Op>)
    ensures OfferAfter(ops).updatetime == ReplyTime(ops) && OfferAfter(ops).totalquota == LastTotal(ops)
    ensures (OfferAfter(ops).restrainquota > 0) == (OfferAfter(ops).localquota > 0) == HadQuota(ops)
  {
    if ops != [] {
      var n := |ops| - 1;
      OfferMeans(ops[..n]);
      OfferStep(History(ops[..n]), ops[n]);
      HadQuotaStep(ops);
    }
  }

  lemma {:induction false} HadQuotaStep(ops: seq<Op>)
    requires ops != []
    ensures HadQuota(ops) <==> CarriesQuota(ops[|ops| - 1]) || HadQuota(ops[..|ops| - 1])
  {
    var n := |ops| - 1;
    var init := ops[..n];
    assert forall i :: 0 <= i < n ==> init[i] == ops[i];
    if HadQuota(init) {
      var i :| 0 <= i < n && CarriesQuota(init[i]);
      assert CarriesQuota(ops[i]);
    }
  }

  /** The key once had a quota, and its last reply is neither from the future nor 300 seconds old. */
  predicate Trusted(ops: seq<Op>, now: nat) {
    HadQuota(ops) && ReplyTime(ops) <= now < ReplyTime(ops) + 300
  }

  /**
   * Another key that falls back on this one divides by zero exactly when this one is trusted
   * and its last call passed a total quota of 0.
   */
  lemma {:induction false} ScalableIff(ops: seq<Op>, now: nat)
    ensures Scalable(Some(OfferAfter(ops)), now) <==> (Trusted(ops, now) ==> LastTotal(ops) > 0)
  {
    OfferMeans(ops);
  }

  /** A key with a quota whose last call passes a total quota of 0. */
  lemma {:induction false} DivisionByZero(ops: seq<Op>)
    requires ops == [Call(60, 100, 0, 0), Answer(60, true, Reply(20, 1, 0, 0, 0)), Call(61, 0, 0, 0)]
    ensures !Scalable(Some(OfferAfter(ops)), 61)
  {
    var two := ops[..2];
    assert ops[..1] == two[..1] && CarriesQuota(ops[1]);
    assert ReplyTime(two) == 60 && LastTotal(ops) == 0;
    assert ops[2].Call? && ReplyTime(ops) == ReplyTime(two);
    ScalableIff(ops, 61);
  }

  /** The first thing that happens to a key is a call, and every call has a total quota. */
  predicate Called(ops: seq<Op>) {
    && (ops != [] ==> ops[0].Call?)
    && forall i :: 0 <= i < |ops| && ops[i].Call? ==> ops[i].totalquota > 0
  }

  lemma {:induction false} TotalStaysPositive(ops: seq<Op>)
    requires Called(ops) && ops != []
    ensures LastTotal(ops) > 0
  {
    if |ops| > 1 {
      TotalStaysPositive(ops[..|ops| - 1]);
    } else {
      assert ops[..0] == [];
    }
  }

  /** So it never divides by zero while every call of this key has a total quota. */
  lemma {:induction false} ReferenceIsScalable(ops: seq<Op>, now: nat)
    requires Called(ops)
    ensures Scalable(Some(OfferAfter(ops)), now)
  {
    ScalableIff(ops, now);
    if ops != [] {
      TotalStaysPositive(ops);
    }
  }

  // ------------------------------------------ a second, told from the messages

  /** The last positive value of a field in the replies that carried a quota, or 0. */
  function LastOf(ops: seq<Op>, f: Reply -> nat): nat {
    if ops == [] then 0 else
      var n := |ops| - 1;
      if CarriesQuota(ops[n]) && f(ops[n].reply) > 0 then f(ops[n].reply) else LastOf(ops[..n], f)
  }

  function Workers(): Reply -> nat { (r: Reply) => r.totalworkernum }
  function SetQuota(): Reply -> nat { (r: Reply) => r.setquota }
  function SetSum(): Reply -> nat { (r: Reply) => r.setsum }
  function ProcQuota(): Reply -> nat { (r: Reply) => r.procquota }
  function Granted(): Reply -> nat { (r: Reply) => r.localq }

  lemma {:induction false} ConfigStep(l: Local, op: Op)
    requires l.Shaped()
    ensures var m := Apply(l, op);
            if CarriesQuota(op) then
              && m.totalworkernum == (if op.reply.totalworkernum > 0 then op.reply.totalworkernum else l.totalworkernum)
              && m.setquota == (if op.reply.setquota > 0 then op.reply.setquota else l.setquota)
              && m.setsum == (if op.reply.setsum > 0 then op.reply.setsum else l.setsum)
              && m.procquota == (if op.reply.procquota > 0 then op.reply.procquota else l.procquota)
              && m.localquota == op.reply.localq
            else
              && m.totalworkernum == l.totalworkernum && m.setquota == l.setquota && m.setsum == l.setsum
              && m.procquota == l.procquota && m.localquota == l.localquota
  {}

  /** What a key knows of its set is what the last reply with a positive value said. */
  lemma {:induction false} ConfigIsLast(ops: seq<Op>)
    ensures var l := History(ops);
            && l.totalworkernum == LastOf(ops, Workers()) && l.setquota == LastOf(ops, SetQuota())
            && l.setsum == LastOf(ops, SetSum()) && l.procquota == LastOf(ops, ProcQuota())
            && l.localquota == LastOf(ops, Granted())
  {
    if ops != [] {
      ConfigIsLast(ops[..|ops| - 1]);
      ConfigStep(History(ops[..|ops| - 1]), ops[|ops| - 1]);
    }
  }

  /** The server's quota cannot be relied on: its last reply is more than 300 seconds old, or the quota is below 10. */
  predicate Alone(ops: seq<Op>, now: nat) { now > ReplyTime(ops) + 300 || LastMean(ops) < 10 }

  /** The limit of a second, in the numbers that were received. */
  lemma {:induction false} LimitMeans(ops: seq<Op>, now: nat, totalquota: nat, refer: nat)
    ensures var limit, q, w := SecondLimit(History(ops), now, totalquota, refer), LastMean(ops), LastOf(ops, Workers());
            if now < ReplyTime(ops) then limit == Unlimited
            else if !Alone(ops, now) then limit == if q > 10 then AtMost(q) else Unlimited
            else if refer > 10 then limit == AtMost(refer)
            else if w > 0 && totalquota >= 11 * w then
              limit.AtMost? && (limit.n + 1) * w <= totalquota < (limit.n + 2) * w
            else limit == Unlimited
  {
    OfferMeans(ops);
    ConfigIsLast(ops);
    QuotaIsRecentMean(ops);
    var w := LastOf(ops, Workers());
    if w > 0 {
      DivBounds(totalquota, w);
      QuotientReached(11, totalquota, w);
      QuotientReached(10, totalquota, w);
    }
  }

  /**
   * After any history, of the calls of a new second exactly the first ones pass the act check.
   * Under a recent quota of 11 or more that is as many as the mean of the recent quotas; alone, as
   * many as the other key's quota, or one less than the even share of the total quota among the
   * workers; and otherwise all.
   */
  lemma {:induction false} SecondPasses(ops: seq<Op>, now: nat, totalquota: nat, refer: nat, sums: seq<nat>)
    requires History(ops).now != now
    ensures var n, q, w := Passes(History(ops), now, totalquota, refer, sums), LastMean(ops), LastOf(ops, Workers());
            if now < ReplyTime(ops) then n == |sums|
            else if !Alone(ops, now) then n == if q > 10 then Min(|sums|, q) else |sums|
            else if refer > 10 then n == Min(|sums|, refer)
            else if w > 0 && totalquota >= 11 * w then
              n <= |sums| && (n + 1) * w <= totalquota && (n < |sums| ==> totalquota < (n + 2) * w)
            else n == |sums|
  {
    var limit, w := SecondLimit(History(ops), now, totalquota, refer), LastOf(ops, Workers());
    LimitMeans(ops, now, totalquota, refer);
    PassesUpToLimit(History(ops), now, totalquota, refer, sums);
    if limit.AtMost? {
      CutAtShare(|sums|, limit.n, w, totalquota);
    }
  }

  lemma {:induction false} CutAtShare(calls: nat, limit: nat, w: nat, total: nat)
    ensures var n := Min(calls, limit);
            (limit + 1) * w <= total < (limit + 2) * w ==>
              n <= calls && (n + 1) * w <= total && (n < calls ==> total < (n + 2) * w)
  {
    if calls < limit {
      MulMono(calls + 1, limit + 1, w);
    }
  }

  /** The verdict 1, admitted but above the quota, is given for a quota of exactly 10, from the eleventh call of a second on. */
  lemma {:induction false} AboveQuotaIff(ops: seq<Op>, now: nat, totalquota: nat, refer: nat)
    ensures var l := History(ops);
            ActVerdict(l, now, totalquota, refer) == 1 <==>
              now == l.now && !Alone(ops, now) && LastMean(ops) == 10 && l.nowsum >= 10
  {
    OfferMeans(ops);
    QuotaIsRecentMean(ops);
  }

  // --------------------------------------------------------------- its reports

  /** A report of the key is on its way: a call sent one, and no answer or failure has come since. */
  predicate Waits(ops: seq<Op>) {
    if ops == [] then false else
      var n := |ops| - 1;
      ops[n].Call? && (Waits(ops[..n]) || ops[n].at >= ReplyTime(ops[..n]) + 5)
  }

  lemma {:induction false} LockStep(l: Local, op: Op)
    requires l.Shaped()
    ensures Apply(l, op).lock != 0 <==> op.Call? && (l.lock != 0 || op.at >= l.updatetime + 5)
  {}

  lemma {:induction false} LockTells(ops: seq<Op>)
    ensures History(ops).lock != 0 <==> Waits(ops)
  {
    if ops != [] {
      var init := ops[..|ops| - 1];
      LockTells(init);
      OfferMeans(init);
      LockStep(History(init), ops[|ops| - 1]);
    }
  }

  /** A call sends a report exactly when none is on its way and the last answered one was sent at least 5 seconds ago. */
  lemma {:induction false} SendsIff(ops: seq<Op>, now: nat, totalquota: nat, refer: nat, sum: nat)
    ensures BeginCall(History(ops), sum, now, totalquota, refer).sent <==> !Waits(ops) && now >= ReplyTime(ops) + 5
  {
    LockTells(ops);
    OfferMeans(ops);
    SentStep(History(ops), now, totalquota, refer, sum);
  }

  /** A call behind the last reply's request passes, is counted for the set, and changes nothing else. */
  lemma {:induction false} BehindTheClock(ops: seq<Op>, now: nat, totalquota: nat, refer: nat, sum: nat)
    ensures now < ReplyTime(ops) ==>
      BeginCall(History(ops), sum, now, totalquota, refer) == Begun(History(ops), sum + 1, Verdict(0, false), false)
  {
    OfferMeans(ops);
  }

  lemma {:induction false} SentStep(l: Local, now: nat, totalquota: nat, refer: nat, sum: nat)
    requires l.Shaped()
    ensures BeginCall(l, sum, now, totalquota, refer).sent <==> l.lock == 0 && now >= l.updatetime + 5
  {}
}
