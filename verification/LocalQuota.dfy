/** What a client keeps for one quota key, and the decisions it takes on it. */
module LocalQuota {
  import opened Optional
  import opened Arith
  import opened TimeKeys
  import opened ReportMerge

  const QUOTA_ARRAY_NUM := 12
  const REPORT_PERIOD := 5
  const HEARTBEAT_LIMIT := 300
  const THRESHOLD_PER_SECOND := 10
  const QUOTA_FLOAT_PERCENT := 0

  /** One ten-second window of the client's own counters. */
  datatype TimeSum = TimeSum(timekey: nat, counts: Counts)

  /** The client's data for one key, as a value. */
  datatype Local = Local(
    timesum: seq<TimeSum>,
    qarray: seq<nat>,
    index: nat,
    totalquota: nat,
    localquota: nat,
    localquotaver: nat,
    restrainquota: nat,
    nowsum: nat,
    updatetime: nat,
    now: nat,
    lock: nat,
    totalworkernum: nat,
    setquota: nat,
    setsum: nat,
    procquota: nat,
    averq: nat)
  {
    predicate Shaped() { |timesum| == NUM_PER_MIN && |qarray| == QUOTA_ARRAY_NUM }
  }

  function Repeat<T>(x: T, n: nat): (s: seq<T>)
    ensures |s| == n && forall i :: 0 <= i < n ==> s[i] == x
  {
    if n == 0 then [] else Repeat(x, n - 1) + [x]
  }

  /** No quota remembered. */
  function Cleared(): seq<nat> { Repeat(0, QUOTA_ARRAY_NUM) }

  function Fresh(): Local {
    Local(Repeat(TimeSum(0, ZERO), NUM_PER_MIN), Cleared(), 0, 0, 0, 0, 0, 0, 0, 0, 0, 0, 0, 0, 0, 0)
  }

  /** What the server answers. */
  datatype Reply = Reply(
    localq: nat, totalworkernum: nat, setquota: nat, setsum: nat, procquota: nat)

  // ------------------------------------------------------------ the act check

  function Total(q: seq<nat>): nat {
    if q == [] then 0 else Total(q[..|q| - 1]) + q[|q| - 1]
  }

  function Positives(q: seq<nat>): nat {
    if q == [] then 0 else Positives(q[..|q| - 1]) + (if q[|q| - 1] > 0 then 1 else 0)
  }

  /** The floor mean of the positive entries, or 0 when there are none. */
  function Mean(q: seq<nat>): nat {
    if Positives(q) == 0 then 0 else Total(q) / Positives(q)
  }

  /** The quota each worker would get if the total were divided evenly. */
  function EvenShare(l: Local): nat {
    if l.totalworkernum > 0 then l.totalquota / l.totalworkernum else 0
  }

  predicate HeartbeatLost(l: Local, now: nat) {
    now > l.updatetime && now - l.updatetime > HEARTBEAT_LIMIT
  }

  /** What a key's data offers to a key that refers to it. */
  datatype Offer = Offer(restrainquota: nat, localquota: nat, updatetime: nat, totalquota: nat)

  predicate Stands(o: Offer, now: nat) {
    o.restrainquota > 0 && o.updatetime <= now && now - o.updatetime < HEARTBEAT_LIMIT && o.localquota > 0
  }

  /** No division by zero. */
  predicate Scalable(o: Option<Offer>, now: nat) {
    o.Some? && Stands(o.value, now) ==> o.value.totalquota > 0
  }

  /** The other key's quota, scaled by the two total quotas. */
  function Scaled(o: Offer, totalquota: nat): nat
    requires o.totalquota > 0
  {
    o.restrainquota * totalquota / o.totalquota
  }

  const INT32_LIMIT := 0x8000_0000

  /** The value kept of `n` by a signed 32-bit integer. */
  function ToInt32(n: nat): (r: int)
    ensures -INT32_LIMIT <= r < INT32_LIMIT && (r == n <==> n < INT32_LIMIT)
  {
    var low := n % (2 * INT32_LIMIT);
    if low < INT32_LIMIT then low else low - 2 * INT32_LIMIT
  }

  /** What the fallback relies on: the scaled quota in 32 bits, or 0 when there is none or it turns negative. */
  function ReferQuota(o: Option<Offer>, totalquota: nat, now: nat): nat {
    if o.Some? && Stands(o.value, now) && o.value.totalquota > 0
    then var q := ToInt32(Scaled(o.value, totalquota)); if q > 0 then q else 0 else 0
  }

  /** The fallback relies on the scaled quota itself exactly when that fits a signed 32-bit integer. */
  lemma {:induction false} ReferExactIff(o: Offer, totalquota: nat, now: nat)
    requires Stands(o, now) && o.totalquota > 0
    ensures ReferQuota(Some(o), totalquota, now) == Scaled(o, totalquota) <==> Scaled(o, totalquota) < INT32_LIMIT
  {}

  /** As long as it fits, it is the offered quota in the proportion of this key's total quota to the other's, rounded down. */
  lemma {:induction false} ReferIsProportion(o: Offer, totalquota: nat, now: nat)
    requires o.restrainquota > 0 && o.localquota > 0 && o.updatetime <= now < o.updatetime + 300 && o.totalquota > 0
    requires o.restrainquota * totalquota < o.totalquota * INT32_LIMIT
    ensures var q := ReferQuota(Some(o), totalquota, now);
            q * o.totalquota <= o.restrainquota * totalquota < (q + 1) * o.totalquota
  {
    DivBounds(o.restrainquota * totalquota, o.totalquota);
    QuotientReached(INT32_LIMIT - 1, o.restrainquota * totalquota, o.totalquota);
    ReferExactIff(o, totalquota, now);
  }

  /** An offer that is empty, from the future or 300 seconds old is not used. */
  lemma {:induction false} NoOfferUsed(o: Offer, totalquota: nat, now: nat)
    requires o.restrainquota == 0 || o.localquota == 0 || now < o.updatetime || now >= o.updatetime + 300
    ensures ReferQuota(Some(o), totalquota, now) == 0
  {}

  /** A large quota scaled up turns negative, and there is no quota to fall back on. */
  lemma {:induction false} ReferTurnsNegative(o: Offer, now: nat)
    requires Stands(o, now) && o.restrainquota == 1_000_000 && o.totalquota == 1000
    ensures ReferQuota(Some(o), 0x7FFF_FFFF, now) == 0
  {}

  /** A key that refers to itself is offered its own quota, if that fits. */
  lemma {:induction false} OwnOffer(o: Offer, now: nat)
    requires Stands(o, now) && o.totalquota > 0
    ensures ReferQuota(Some(o), o.totalquota, now) == o.restrainquota <==> o.restrainquota < INT32_LIMIT
  {
    DivUnique(o.restrainquota * o.totalquota, o.totalquota, o.restrainquota);
    ReferExactIff(o, o.totalquota, now);
  }

  /** Whether the server's quota cannot be relied on. */
  predicate Unguided(l: Local, now: nat) {
    HeartbeatLost(l, now) || l.localquotaver < THRESHOLD_PER_SECOND
  }

  /** The refusal rule when the server's quota cannot be relied on; `refer` is a related key's quota, or 0. */
  predicate UnguidedRefuses(l: Local, refer: nat) {
    if refer > THRESHOLD_PER_SECOND then l.nowsum > refer
    else EvenShare(l) > THRESHOLD_PER_SECOND && l.nowsum >= EvenShare(l)
  }

  predicate GuidedRefuses(l: Local) {
    l.restrainquota > THRESHOLD_PER_SECOND && l.nowsum > l.restrainquota
  }

  /** Counts one call in its second. */
  function CountInSecond(l: Local, now: nat, totalquota: nat): Local {
    if now != l.now then l.(totalquota := totalquota, now := now, nowsum := 1)
    else l.(totalquota := totalquota, nowsum := l.nowsum + 1)
  }

  /** The data after the act check: a lost heartbeat also clears the remembered quotas. */
  function AfterActCheck(l: Local, now: nat, totalquota: nat): Local {
    var counted := CountInSecond(l, now, totalquota);
    if now == l.now && HeartbeatLost(l, now) then counted.(qarray := Cleared()) else counted
  }

  /** 0 admits, 1 admits above the quota, 2 refuses. */
  function ActVerdict(l: Local, now: nat, totalquota: nat, refer: nat): nat {
    var counted := CountInSecond(l, now, totalquota);
    if now != l.now then 0
    else if Unguided(l, now) then (if UnguidedRefuses(counted, refer) then 2 else 0)
    else if GuidedRefuses(counted) then 2
    else if l.localquotaver > 0 && counted.nowsum > l.localquotaver then 1
    else 0
  }

  // ------------------------------------------------------------ the set check

  function AfterSetCheck(l: Local): Local {
    if l.setquota > 0 && l.setsum > 0 && l.procquota == 0 && l.totalworkernum > 0
    then l.(averq := l.setquota / l.totalworkernum) else l
  }

  /** The per-process quota the set check uses, once it has one. */
  function SetLimit(l: Local): nat {
    if l.procquota > 0 then l.procquota else AfterSetCheck(l).averq
  }

  predicate SetConfigured(l: Local) {
    l.setquota > 0 && l.setsum > 0 && SetLimit(l) > 0
  }

  predicate SetOverloaded(l: Local, nowsum: nat) {
    SetConfigured(l) && nowsum >= SetLimit(l)
  }

  /**
   * Without a process quota a process refuses from its even share of the set quota on: when one
   * call more, in each of the workers, would exceed the set quota.
   */
  lemma {:induction false} ShareRefuses(l: Local, n: nat)
    requires l.setquota > 0 && l.setsum > 0 && l.procquota == 0 && l.totalworkernum > 0
    ensures SetOverloaded(l, n) <==> l.setquota >= l.totalworkernum && (n + 1) * l.totalworkernum > l.setquota
  {
    QuotientReached(n, l.setquota, l.totalworkernum);
    QuotientPositive(l.setquota, l.totalworkernum);
  }

  /** So the limits of all the workers together are at most the set quota, and short of it by less than one each. */
  lemma {:induction false} SharesFitSet(l: Local)
    requires l.setquota > 0 && l.setsum > 0 && l.procquota == 0 && l.totalworkernum > 0
    ensures l.totalworkernum * SetLimit(l) <= l.setquota < l.totalworkernum * SetLimit(l) + l.totalworkernum
  {
    DivBounds(l.setquota, l.totalworkernum);
  }

  /** A process quota is the limit as it is, and an old average is kept while no workers are known. */
  lemma {:induction false} OtherLimits(l: Local, n: nat)
    requires l.setquota > 0 && l.setsum > 0
    ensures l.procquota > 0 ==> (SetOverloaded(l, n) <==> n >= l.procquota) && AfterSetCheck(l).averq == l.averq
    ensures l.procquota == 0 && l.totalworkernum == 0 ==>
              (SetOverloaded(l, n) <==> n >= l.averq > 0) && AfterSetCheck(l).averq == l.averq
  {}

  /** Without a set configuration nobody is refused for the set. */
  lemma {:induction false} NoSetNoRefusal(l: Local, n: nat)
    requires l.setquota == 0 || l.setsum == 0
    ensures !SetOverloaded(l, n) && AfterSetCheck(l).averq == l.averq
  {}

  // ------------------------------------------------------------ the windows

  /** One more call in a window's counters. */
  function CountCall(c: Counts, passed: bool, setRefused: bool): Counts {
    var checked := if passed then c.(sum := c.sum + 1) else c.(refuse := c.refuse + 1);
    if setRefused then checked.(setrefuse := c.setrefuse + 1) else checked
  }

  /** Counts one call in the current ten-second window. */
  function CountInWindow(w: seq<TimeSum>, now: nat, passed: bool, setRefused: bool): seq<TimeSum>
    requires |w| == NUM_PER_MIN
  {
    var i := IndexOf(now);
    var base := if w[i].timekey == KeyOf(now) then w[i].counts else ZERO;
    w[i := TimeSum(KeyOf(now), CountCall(base, passed, setRefused))]
  }

  /** The lines of a report: every window that was ever used. */
  function ReportLines(w: seq<TimeSum>): seq<TimeSum> {
    if w == [] then []
    else ReportLines(w[..|w| - 1]) + (if w[|w| - 1].timekey > 0 then [w[|w| - 1]] else [])
  }

  // ------------------------------------------------------------ a whole call

  /** The verdict of one call, taken before anything is sent. */
  datatype Verdict = Verdict(ret: nat, setRefused: bool) {
    predicate Admitted() { ret < 2 && !setRefused }
  }

  function Judge(l: Local, now: nat, totalquota: nat, refer: nat, setsum: nat): Verdict {
    var ret := ActVerdict(l, now, totalquota, refer);
    Verdict(ret, ret < 2 && SetOverloaded(AfterActCheck(l, now, totalquota), setsum))
  }

  /** A call that passed the act check and sees `setsum` calls of its process is refused for the set exactly then. */
  lemma {:induction false} CallRefusedForSet(l: Local, now: nat, totalquota: nat, refer: nat, setsum: nat)
    requires l.setquota > 0 && l.setsum > 0 && ActVerdict(l, now, totalquota, refer) < 2
    ensures var refused := Judge(l, now, totalquota, refer, setsum).setRefused;
            if l.procquota > 0 then refused <==> setsum >= l.procquota
            else if l.totalworkernum > 0 then
              refused <==> l.setquota >= l.totalworkernum && (setsum + 1) * l.totalworkernum > l.setquota
            else refused <==> setsum >= l.averq > 0
  {
    var m := AfterActCheck(l, now, totalquota);
    OtherLimits(m, setsum);
    if l.procquota == 0 && l.totalworkernum > 0 {
      ShareRefuses(m, setsum);
    }
  }

  /** The data after a call was judged `v`. */
  function AfterVerdict(l: Local, now: nat, totalquota: nat, v: Verdict): Local
    requires l.Shaped()
  {
    var checked := AfterActCheck(l, now, totalquota);
    var judged := if v.ret < 2 then AfterSetCheck(checked) else checked;
    judged.(timesum := CountInWindow(judged.timesum, now, v.ret < 2, v.setRefused))
  }

  predicate WantsReport(l: Local, now: nat) {
    now - l.updatetime >= REPORT_PERIOD && l.lock == 0
  }

  /** A reply that arrived, for a request sent at `now`; a reply without quota only refreshes the heartbeat. */
  function AfterReply(l: Local, now: nat, sameKey: bool, r: Reply): Local
    requires |l.qarray| == QUOTA_ARRAY_NUM
  {
    var l1 := l.(updatetime := now);
    if !sameKey || r.localq == 0 then l1 else
      var q := l.qarray[l.index % QUOTA_ARRAY_NUM := r.localq];
      l1.(index := l.index + 1, qarray := q, localquotaver := Mean(q), restrainquota := Mean(q),
          localquota := r.localq,
          totalworkernum := if r.totalworkernum > 0 then r.totalworkernum else l.totalworkernum,
          setquota := if r.setquota > 0 then r.setquota else l.setquota,
          setsum := if r.setsum > 0 then r.setsum else l.setsum,
          procquota := if r.procquota > 0 then r.procquota else l.procquota)
  }

  // ------------------------------------------------- a call, around its wait

  /** A call up to its end or to the point where it waits for the network. */
  datatype Begun = Begun(local: Local, sum: nat, verdict: Verdict, sent: bool)

  /** A clock behind the last reply lets the call pass unseen; one that waits is not counted for the set yet. */
  function BeginCall(l: Local, sum: nat, now: nat, totalquota: nat, refer: nat): Begun
    requires l.Shaped()
  {
    if now < l.updatetime then Begun(l, sum + 1, Verdict(0, false), false) else
      var v := Judge(l, now, totalquota, refer, sum);
      var after := AfterVerdict(l, now, totalquota, v);
      if WantsReport(after, now) then Begun(after.(lock := 1), sum, v, true)
      else Begun(after, if v.Admitted() then sum + 1 else sum, v, false)
  }

  /** The rest of a call that waited, sent at `sentAt`. */
  function EndCall(l: Local, sentAt: nat, reply: Option<(bool, Reply)>): Local
    requires |l.qarray| == QUOTA_ARRAY_NUM
  {
    (if reply.None? then l else AfterReply(l, sentAt, reply.value.0, reply.value.1)).(lock := 0)
  }
}
