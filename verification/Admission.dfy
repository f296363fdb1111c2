/**
 * How far a set can be over-admitted in one second, when the network lets other calls run
 * between a call's admission and the moment it is counted.
 */
module Admission {
  import opened Optional
  import opened Arith
  import opened LocalQuota
  import ClientQuota

  type Key = string
  type CallId = nat

  /** What a call waiting for the network remembers. */
  datatype Waiting = Waiting(key: Key, sentAt: nat, verdict: Verdict)

  /** One client process. `log` records the second in which each set-level admission was decided. */
  datatype World = World(
    s_now: nat, s_setsum: nat, locals: map<Key, Local>, waiting: map<CallId, Waiting>, log: seq<nat>)

  datatype Op =
    | Call(id: CallId, key: Key, now: nat, totalquota: nat, refer: nat)
    | Resume(id: CallId, reply: Option<(bool, Reply)>)

  predicate AllShaped(locals: map<Key, Local>) {
    forall k :: k in locals ==> locals[k].Shaped()
  }

  function LocalOf(w: World, key: Key): Local {
    if key in w.locals then w.locals[key] else Fresh()
  }

  /** The set-wide count a call at `now` sees. */
  function SumAt(w: World, now: nat): nat {
    if w.s_now == now then w.s_setsum else 0
  }

  /** A call that has begun: it waits for the network when it sent its report, and is over otherwise. */
  function Place(w: World, id: CallId, key: Key, now: nat, b: Begun): World {
    World(now, b.sum, w.locals[key := b.local],
          if b.sent then w.waiting[id := Waiting(key, now, b.verdict)] else w.waiting,
          if b.verdict.Admitted() then w.log + [now] else w.log)
  }

  /** The rest of a call that waited. */
  function Finish(w: World, id: CallId, reply: Option<(bool, Reply)>): World
    requires AllShaped(w.locals) && id in w.waiting && w.waiting[id].key in w.locals
  {
    var c := w.waiting[id];
    World(w.s_now, if c.verdict.Admitted() then w.s_setsum + 1 else w.s_setsum,
          w.locals[c.key := EndCall(w.locals[c.key], c.sentAt, reply)], w.waiting - {id}, w.log)
  }

  /** The clock does not go back, and only calls that wait go on. */
  predicate Possible(w: World, op: Op) {
    match op
    case Call(id, key, now, totalquota, refer) => id !in w.waiting && now >= w.s_now
    case Resume(id, reply) => id in w.waiting
  }

  /** The key's set configuration is in force, and its limit is at most `q`. */
  predicate Legal(w: World, op: Op, q: nat) {
    && Possible(w, op)
    && (op.Call? ==> op.key in w.locals && SetConfigured(w.locals[op.key]) && SetLimit(w.locals[op.key]) <= q)
  }

  // ---------------------------------------------------------------- invariant

  /** The per-key lock and the calls that wait agree, and nothing is from the future. */
  ghost predicate Coherent(w: World) {
    && AllShaped(w.locals)
    && (forall k :: k in w.locals ==> w.locals[k].updatetime <= w.s_now)
    && (forall c :: c in w.waiting ==> w.waiting[c].key in w.locals && w.waiting[c].sentAt <= w.s_now &&
                                       w.locals[w.waiting[c].key].lock != 0)
    && (forall c, d :: c in w.waiting && d in w.waiting && c != d ==> w.waiting[c].key != w.waiting[d].key)
    && (forall i :: 0 <= i < |w.log| ==> w.log[i] <= w.s_now)
  }

  function Step(w: World, op: Op): World
    requires Coherent(w)
    requires op.Resume? ==> op.id in w.waiting
  {
    match op
    case Call(id, key, now, totalquota, refer) =>
      Place(w, id, key, now, BeginCall(LocalOf(w, key), SumAt(w, now), now, totalquota, refer))
    case Resume(id, reply) => Finish(w, id, reply)
  }

  /** What the beginning of a call does to the lock and to the set-wide count. */
  predicate Begins(l: Local, sum: nat, b: Begun) {
    && b.local.Shaped() && b.local.updatetime == l.updatetime
    && (if b.sent then l.lock == 0 && b.local.lock != 0 else b.local.lock == l.lock)
    && b.sum == (if b.verdict.Admitted() && !b.sent then sum + 1 else sum)
    && (SetConfigured(l) && b.verdict.Admitted() ==> sum < SetLimit(l))
  }

  lemma {:induction false} CallBegins(l: Local, sum: nat, now: nat, totalquota: nat, refer: nat)
    requires l.Shaped() && now >= l.updatetime
    ensures Begins(l, sum, BeginCall(l, sum, now, totalquota, refer))
  {}

  lemma {:induction false} PlaceKeepsCoherent(w: World, id: CallId, key: Key, now: nat, b: Begun)
    requires Coherent(w) && id !in w.waiting && now >= w.s_now && Begins(LocalOf(w, key), SumAt(w, now), b)
    ensures Coherent(Place(w, id, key, now, b)) && Place(w, id, key, now, b).locals.Keys == w.locals.Keys + {key}
  {}

  lemma {:induction false} FinishKeepsCoherent(w: World, op: Op)
    requires Coherent(w) && op.Resume? && Possible(w, op)
    ensures Coherent(Step(w, op)) && Step(w, op).locals.Keys == w.locals.Keys
  {}

  /** A call may be the first of its key. */
  lemma {:induction false} MoveKeepsCoherent(w: World, op: Op)
    requires Coherent(w) && Possible(w, op)
    ensures Coherent(Step(w, op)) && Step(w, op).locals.Keys == w.locals.Keys + if op.Call? then {op.key} else {}
  {
    if op.Call? {
      var l, sum := LocalOf(w, op.key), SumAt(w, op.now);
      CallBegins(l, sum, op.now, op.totalquota, op.refer);
      PlaceKeepsCoherent(w, op.id, op.key, op.now, BeginCall(l, sum, op.now, op.totalquota, op.refer));
    } else {
      FinishKeepsCoherent(w, op);
    }
  }

  lemma {:induction false} StepKeepsCoherent(w: World, op: Op, q: nat)
    requires Coherent(w) && Legal(w, op, q)
    ensures Coherent(Step(w, op)) && Step(w, op).locals.Keys == w.locals.Keys
  {
    MoveKeepsCoherent(w, op);
  }

  // ---------------------------------------------------------------- the bound

  /** How many set-level admissions were decided in second `t`. */
  function Count(log: seq<nat>, t: nat): nat {
    if log == [] then 0 else Count(log[..|log| - 1], t) + if log[|log| - 1] == t then 1 else 0
  }

  /** Calls that were admitted and are not counted yet. */
  ghost function Pending(w: World): set<CallId> { WaitingAdmitted(w.waiting) }

  ghost function WaitingAdmitted(waiting: map<CallId, Waiting>): set<CallId> {
    set c | c in waiting && waiting[c].verdict.Admitted()
  }

  lemma {:induction false} CountStep(log: seq<nat>, s: nat, t: nat)
    ensures Count(log + [s], t) == Count(log, t) + if s == t then 1 else 0
  {}

  lemma {:induction false} NothingInTheFuture(log: seq<nat>, t: nat)
    requires forall i :: 0 <= i < |log| ==> log[i] < t
    ensures Count(log, t) == 0
  {
    if log != [] {
      NothingInTheFuture(log[..|log| - 1], t);
    }
  }

  /** What was decided in the current second is counted or pending, and second `t` got at most `bound`. */
  ghost predicate Bounded(w: World, t: nat, bound: nat) {
    Count(w.log, w.s_now) <= w.s_setsum + |Pending(w)| && Count(w.log, t) <= bound
  }

  lemma {:induction false} PendingAtMostWaiting(w: World)
    ensures |Pending(w)| <= |w.waiting|
  {
    SubsetSize(Pending(w), w.waiting.Keys);
  }

  lemma {:induction false} SubsetSize<T>(s: set<T>, t: set<T>)
    requires s <= t
    ensures |s| <= |t|
  {
    if s != {} {
      var x :| x in s;
      SubsetSize(s - {x}, t - {x});
    }
  }

  /** One more waiting call is pending if it was admitted. */
  lemma {:induction false} PendingGrows(waiting: map<CallId, Waiting>, id: CallId, c: Waiting)
    requires id !in waiting
    ensures |WaitingAdmitted(waiting[id := c])| == |WaitingAdmitted(waiting)| + if c.verdict.Admitted() then 1 else 0
  {
    var before, after := WaitingAdmitted(waiting), WaitingAdmitted(waiting[id := c]);
    assert id !in before;
    if c.verdict.Admitted() {
      assert after == before + {id};
    } else {
      assert after == before;
    }
  }

  /** A call that waits joins the pending ones if it was admitted; one that does not is counted at once. */
  lemma {:induction false} PendingAfterPlace(w: World, id: CallId, key: Key, now: nat, b: Begun)
    requires id !in w.waiting && key in w.locals && Begins(w.locals[key], SumAt(w, now), b)
    ensures var w' := Place(w, id, key, now, b);
            w'.s_setsum + |Pending(w')| == SumAt(w, now) + |Pending(w)| + if b.verdict.Admitted() then 1 else 0
  {
    var w' := Place(w, id, key, now, b);
    if b.sent {
      PendingGrows(w.waiting, id, Waiting(key, now, b.verdict));
    } else {
      assert Pending(w') == Pending(w);
    }
  }

  /** What a call at `now` finds: no more was decided in its second than is counted or pending. */
  lemma {:induction false} DecidedSoFar(w: World, now: nat, t: nat, bound: nat)
    requires Coherent(w) && now >= w.s_now && Bounded(w, t, bound)
    ensures Count(w.log, now) <= SumAt(w, now) + |Pending(w)|
  {
    if now > w.s_now {
      NothingInTheFuture(w.log, now);
    }
  }

  lemma {:induction false} PlaceKeepsBounded(w: World, id: CallId, key: Key, now: nat, b: Begun, t: nat, q: nat, slack: nat)
    requires Coherent(w) && id !in w.waiting && now >= w.s_now && Bounded(w, t, q + slack) && |w.waiting| <= slack
    requires key in w.locals && Begins(w.locals[key], SumAt(w, now), b) && (b.verdict.Admitted() ==> SumAt(w, now) < q)
    ensures Bounded(Place(w, id, key, now, b), t, q + slack)
  {
    PendingAtMostWaiting(w);
    DecidedSoFar(w, now, t, q + slack);
    PendingAfterPlace(w, id, key, now, b);
    CountStep(w.log, now, t);
    CountStep(w.log, now, now);
  }

  lemma {:induction false} FinishKeepsCounter(w: World, op: Op)
    requires Coherent(w) && op.Resume? && op.id in w.waiting
    ensures Step(w, op).s_setsum + |Pending(Step(w, op))| == w.s_setsum + |Pending(w)|
  {
    assert Pending(Step(w, op)) == Pending(w) - {op.id};
    assert op.id in Pending(w) <==> w.waiting[op.id].verdict.Admitted();
  }

  lemma {:induction false} StepKeepsBounded(w: World, op: Op, t: nat, q: nat, slack: nat)
    requires Coherent(w) && Legal(w, op, q) && (op.Call? ==> |w.waiting| <= slack) && Bounded(w, t, q + slack)
    ensures Bounded(Step(w, op), t, q + slack)
  {
    if op.Call? {
      var l, sum := w.locals[op.key], SumAt(w, op.now);
      CallBegins(l, sum, op.now, op.totalquota, op.refer);
      PlaceKeepsBounded(w, op.id, op.key, op.now, BeginCall(l, sum, op.now, op.totalquota, op.refer), t, q, slack);
    } else {
      FinishKeepsCounter(w, op);
    }
  }

  /** The lock allows one waiting call per key. */
  lemma {:induction false} OneWaitingPerKey(w: World)
    requires Coherent(w)
    ensures |w.waiting| <= |w.locals|
  {
    InjectionSize(w.waiting, w.locals.Keys);
  }

  lemma {:induction false} InjectionSize(m: map<CallId, Waiting>, keys: set<Key>)
    requires forall c :: c in m ==> m[c].key in keys
    requires forall c, d :: c in m && d in m && c != d ==> m[c].key != m[d].key
    ensures |m| <= |keys|
  {
    if m != map[] {
      var c :| c in m;
      var rest := m - {c};
      assert |rest| == |m| - 1;
      InjectionSize(rest, keys - {m[c].key});
    }
  }

  // ------------------------------------------------------------------- runs

  ghost predicate Next(w: World, op: Op, w': World, q: nat) {
    Coherent(w) && Legal(w, op, q) && w' == Step(w, op)
  }

  /** The states of a run: every step is legal. */
  ghost predicate IsRun(ws: seq<World>, ops: seq<Op>, q: nat) {
    && |ws| == |ops| + 1
    && (forall i :: 0 <= i < |ops| ==> Next(ws[i], ops[i], ws[i + 1], q))
  }

  /** Never more than `slack` calls wait when a call begins. */
  predicate FewWaiting(ws: seq<World>, ops: seq<Op>, slack: nat)
    requires |ws| == |ops| + 1
  {
    forall i :: 0 <= i < |ops| && ops[i].Call? ==> |ws[i].waiting| <= slack
  }

  lemma {:induction false} RunStaysCoherent(ws: seq<World>, ops: seq<Op>, q: nat, n: nat)
    requires IsRun(ws, ops, q) && Coherent(ws[0]) && n <= |ops|
    ensures Coherent(ws[n]) && ws[n].locals.Keys == ws[0].locals.Keys
  {
    if n > 0 {
      RunStaysCoherent(ws, ops, q, n - 1);
      assert Next(ws[n - 1], ops[n - 1], ws[n], q);
      StepKeepsCoherent(ws[n - 1], ops[n - 1], q);
    }
  }

  lemma {:induction false} RunKeepsBounded(ws: seq<World>, ops: seq<Op>, q: nat, slack: nat, n: nat, t: nat)
    requires IsRun(ws, ops, q) && FewWaiting(ws, ops, slack) && Bounded(ws[0], t, q + slack) && n <= |ops|
    ensures Bounded(ws[n], t, q + slack)
  {
    if n > 0 {
      RunKeepsBounded(ws, ops, q, slack, n - 1, t);
      assert Next(ws[n - 1], ops[n - 1], ws[n], q);
      StepKeepsBounded(ws[n - 1], ops[n - 1], t, q, slack);
    }
  }

  lemma {:induction false} FewerThanKeysWait(ws: seq<World>, ops: seq<Op>, q: nat)
    requires IsRun(ws, ops, q) && Coherent(ws[0])
    ensures FewWaiting(ws, ops, |ws[0].locals|)
  {
    forall i | 0 <= i < |ops| ensures |ws[i].waiting| <= |ws[0].locals| {
      RunStaysCoherent(ws, ops, q, i);
      OneWaitingPerKey(ws[i]);
      assert |ws[i].locals| == |ws[i].locals.Keys| == |ws[0].locals.Keys| == |ws[0].locals|;
    }
  }

  /**
   * With every call's set configuration in force and every limit at most `q`, no second ever
   * sees more than `q` plus the number of keys of set-level admissions.
   */
  lemma {:induction false} OverAdmissionAtMostKeys(ws: seq<World>, ops: seq<Op>, q: nat, n: nat, t: nat)
    requires IsRun(ws, ops, q) && Coherent(ws[0]) && ws[0].log == [] && n <= |ops|
    ensures Count(ws[n].log, t) <= q + |ws[0].locals|
  {
    FewerThanKeysWait(ws, ops, q);
    RunKeepsBounded(ws, ops, q, |ws[0].locals|, n, t);
  }

  /** When no call ever begins while another waits, the bound is `q` itself. */
  lemma {:induction false} NoOverAdmissionWithoutWaiting(ws: seq<World>, ops: seq<Op>, q: nat, n: nat, t: nat)
    requires IsRun(ws, ops, q) && FewWaiting(ws, ops, 0) && ws[0].log == [] && n <= |ops|
    ensures Count(ws[n].log, t) <= q
  {
    RunKeepsBounded(ws, ops, q, 0, n, t);
  }

  // -------------------------------------------------- the counter stays in range

  lemma {:induction false} StepKeepsCounter(w: World, op: Op, q: nat, slack: nat)
    requires Coherent(w) && Legal(w, op, q) && (op.Call? ==> |w.waiting| <= slack)
    requires w.s_setsum + |Pending(w)| <= q + slack
    ensures Step(w, op).s_setsum + |Pending(Step(w, op))| <= q + slack
  {
    if op.Call? {
      var l, sum := w.locals[op.key], SumAt(w, op.now);
      CallBegins(l, sum, op.now, op.totalquota, op.refer);
      PendingAtMostWaiting(w);
      PendingAfterPlace(w, op.id, op.key, op.now, BeginCall(l, sum, op.now, op.totalquota, op.refer));
    } else {
      FinishKeepsCounter(w, op);
    }
  }

  /**
   * The set-wide counter never exceeds `q` plus the slack, so the percentage test, which
   * multiplies it by 100 in 32 bits, never overflows when (q + slack) * 100 fits.
   */
  lemma {:induction false} CounterStaysInRange(ws: seq<World>, ops: seq<Op>, q: nat, slack: nat, n: nat)
    requires IsRun(ws, ops, q) && FewWaiting(ws, ops, slack) && n <= |ops|
    requires ws[0].s_setsum + |Pending(ws[0])| <= q + slack
    ensures ws[n].s_setsum + |Pending(ws[n])| <= q + slack
  {
    if n > 0 {
      CounterStaysInRange(ws, ops, q, slack, n - 1);
      assert Next(ws[n - 1], ops[n - 1], ws[n], q);
      StepKeepsCounter(ws[n - 1], ops[n - 1], q, slack);
    }
  }

  // ------------------------------------------------------ the processes of a set

  /** A run of one process of a set, looked at after `n` steps. */
  datatype Member = Member(ws: seq<World>, ops: seq<Op>, n: nat)

  ghost predicate Runs(m: Member, q: nat) {
    m.n <= |m.ops| && IsRun(m.ws, m.ops, q) && Coherent(m.ws[0]) && m.ws[0].log == []
  }

  /** The admissions of a process in second `t`, and the number of its keys. */
  function AdmittedIn(m: Member, t: nat): nat {
    if m.n < |m.ws| then Count(m.ws[m.n].log, t) else 0
  }

  function KeysIn(m: Member): nat {
    if m.ws == [] then 0 else |m.ws[0].locals|
  }

  function Together(ms: seq<Member>, t: nat): nat {
    if ms == [] then 0 else Together(ms[..|ms| - 1], t) + AdmittedIn(ms[|ms| - 1], t)
  }

  function AllKeys(ms: seq<Member>): nat {
    if ms == [] then 0 else AllKeys(ms[..|ms| - 1]) + KeysIn(ms[|ms| - 1])
  }

  lemma {:induction false} MemberAtMost(m: Member, q: nat, t: nat)
    requires Runs(m, q)
    ensures AdmittedIn(m, t) <= q + KeysIn(m)
  {
    OverAdmissionAtMostKeys(m.ws, m.ops, q, m.n, t);
  }

  lemma {:induction false} TogetherAtMost(ms: seq<Member>, q: nat, t: nat)
    requires forall i :: 0 <= i < |ms| ==> Runs(ms[i], q)
    ensures Together(ms, t) <= |ms| * q + AllKeys(ms)
  {
    if ms != [] {
      var k := |ms| - 1;
      TogetherAtMost(ms[..k], q, t);
      MemberAtMost(ms[k], q, t);
      Distribute(k, 1, q);
    }
  }

  /**
   * When the set quota is shared evenly among at least as many workers as there are processes,
   * the processes together admit at most the set quota and one call for each of their keys.
   */
  lemma {:induction false} SetStaysTogether(ms: seq<Member>, setquota: nat, workers: nat, t: nat)
    requires 0 < workers && |ms| <= workers
    requires forall i :: 0 <= i < |ms| ==> Runs(ms[i], setquota / workers)
    ensures Together(ms, t) <= setquota + AllKeys(ms)
  {
    var q := setquota / workers;
    TogetherAtMost(ms, q, t);
    MulMono(|ms|, workers, q);
    DivBounds(setquota, workers);
  }

  /** And that is each process's limit: the share of a set quota, while there is no process quota. */
  lemma {:induction false} ShareIsLimit(l: Local, setquota: nat, workers: nat)
    requires l.setquota <= setquota && l.totalworkernum >= workers > 0 && l.procquota == 0 && l.setquota > 0 && l.setsum > 0
    ensures SetLimit(l) <= setquota / workers
  {
    var q := SetLimit(l);
    QuotientReached(setquota / workers, setquota, workers);
    MulMono(workers, l.totalworkernum, setquota / workers + 1);
    QuotientReached(setquota / workers, l.setquota, l.totalworkernum);
  }

  // --------------------------------------------------------- reachable worlds

  /** A process that has just started. */
  function Started(): World { World(0, 0, map[], map[], []) }

  ghost predicate Moves(w: World, op: Op, w': World) {
    Coherent(w) && Possible(w, op) && w' == Step(w, op)
  }

  /** Any run from the start of the process, with keys and configurations that come in on the way. */
  ghost predicate IsPast(ws: seq<World>, ops: seq<Op>) {
    && |ws| == |ops| + 1 && ws[0] == Started()
    && (forall i :: 0 <= i < |ops| ==> Moves(ws[i], ops[i], ws[i + 1]))
  }

  ghost predicate Reached(w: World) {
    exists ws, ops :: IsPast(ws, ops) && ws[|ops|] == w
  }

  lemma {:induction false} StartIsReached()
    ensures Reached(Started())
  {
    var ws, ops: seq<Op> := [Started()], [];
    assert IsPast(ws, ops);
  }

  lemma {:induction false} PastGrows(ws: seq<World>, ops: seq<Op>, op: Op, w': World)
    requires IsPast(ws, ops) && Moves(ws[|ops|], op, w')
    ensures IsPast(ws + [w'], ops + [op])
  {
    var ws', ops' := ws + [w'], ops + [op];
    forall i | 0 <= i < |ops'| ensures Moves(ws'[i], ops'[i], ws'[i + 1]) {
      if i < |ops| {
        assert Moves(ws[i], ops[i], ws[i + 1]);
      }
    }
  }

  lemma {:induction false} ReachedMore(w: World, op: Op, w': World)
    requires Reached(w) && Moves(w, op, w')
    ensures Reached(w') && Coherent(w')
  {
    var ws, ops :| IsPast(ws, ops) && ws[|ops|] == w;
    PastGrows(ws, ops, op, w');
    assert (ws + [w'])[|ops + [op]|] == w';
    MoveKeepsCoherent(w, op);
  }

  lemma {:induction false} PastIsCoherent(ws: seq<World>, ops: seq<Op>, n: nat)
    requires IsPast(ws, ops) && n <= |ops|
    ensures Coherent(ws[n])
  {
    if n > 0 {
      assert Moves(ws[n - 1], ops[n - 1], ws[n]);
      MoveKeepsCoherent(ws[n - 1], ops[n - 1]);
    }
  }

  lemma {:induction false} ReachedIsCoherent(w: World)
    requires Reached(w)
    ensures Coherent(w)
  {
    var ws, ops :| IsPast(ws, ops) && ws[|ops|] == w;
    PastIsCoherent(ws, ops, |ops|);
  }

  /** The data of every key is what some history of that key alone leaves. */
  ghost predicate AllHistories(locals: map<Key, Local>) {
    forall k :: k in locals ==> HasHistory(locals[k])
  }

  ghost predicate HasHistory(l: Local) { exists ops :: ClientQuota.History(ops) == l }

  lemma {:induction false} HistoryGrows(l: Local, op: ClientQuota.Op)
    requires l.Shaped() && HasHistory(l)
    ensures HasHistory(ClientQuota.Apply(l, op))
  {
    var ops :| ClientQuota.History(ops) == l;
    assert (ops + [op])[..|ops|] == ops;
    assert ClientQuota.History(ops + [op]) == ClientQuota.Apply(l, op);
  }

  lemma {:induction false} FreshHasHistory()
    ensures HasHistory(Fresh())
  {
    assert ClientQuota.History([]) == Fresh();
  }

  lemma {:induction false} MoveKeepsHistories(w: World, op: Op, w': World)
    requires Moves(w, op, w') && AllHistories(w.locals)
    ensures AllHistories(w'.locals)
  {
    if op.Call? {
      FreshHasHistory();
      HistoryGrows(LocalOf(w, op.key), ClientQuota.Call(op.now, op.totalquota, op.refer, SumAt(w, op.now)));
    } else {
      var c := w.waiting[op.id];
      var l := w.locals[c.key];
      HistoryGrows(l, if op.reply.None? then ClientQuota.Silence
                      else ClientQuota.Answer(c.sentAt, op.reply.value.0, op.reply.value.1));
    }
  }

  lemma {:induction false} PastHasHistories(ws: seq<World>, ops: seq<Op>, n: nat)
    requires IsPast(ws, ops) && n <= |ops|
    ensures AllHistories(ws[n].locals)
  {
    if n > 0 {
      PastHasHistories(ws, ops, n - 1);
      assert Moves(ws[n - 1], ops[n - 1], ws[n]);
      MoveKeepsHistories(ws[n - 1], ops[n - 1], ws[n]);
    }
  }

  /** So whatever holds after any history of one key holds for every key of every reachable process. */
  lemma {:induction false} ReachedHasHistories(w: World)
    requires Reached(w)
    ensures AllHistories(w.locals)
  {
    var ws, ops :| IsPast(ws, ops) && ws[|ops|] == w;
    PastHasHistories(ws, ops, |ops|);
  }

  // ------------------------------------------------------- the bound is reached

  /** The names of a client's keys. */
  predicate Distinct(names: seq<Key>) { forall i, j :: 0 <= i < j < |names| ==> names[i] != names[j] }

  lemma {:induction false} SomeNames(keys: nat) returns (names: seq<Key>)
    ensures |names| == keys && Distinct(names)
    ensures forall i :: 0 <= i < keys ==> |names[i]| == i
  {
    names := [];
    if keys > 0 {
      var before := SomeNames(keys - 1);
      names := before + [seq(keys - 1, _ => 'k')];
    }
  }

  ghost function Ids(n: nat): set<CallId> {
    if n == 0 then {} else Ids(n - 1) + {n - 1}
  }

  lemma {:induction false} IdsAre(n: nat)
    ensures |Ids(n)| == n && forall c: nat :: c in Ids(n) <==> c < n
  {
    if n > 0 {
      IdsAre(n - 1);
      assert n - 1 !in Ids(n - 1);
    }
  }

  /** When a key that has a report due at second 60 got its last reply, and one that has none. */
  function SetUpTime(due: bool): nat { if due then 40 else 58 }

  /** The reply that sets the limit of a process. */
  function Grant(q: nat): Reply { Reply(1, 0, q, 1, q) }

  /** The data of a key after its first call and the reply to it. */
  function Client(q: nat, due: bool): Local {
    var at := SetUpTime(due);
    EndCall(BeginCall(Fresh(), 0, at, 0, 0).local, at, Some((true, Grant(q))))
  }

  /** One call on each key that has a report due, and after those only calls on the first key. */
  function Nth(names: seq<Key>, slack: nat, n: nat): Op
    requires slack <= |names| && names != []
  {
    Call(n, names[if n < slack then n else 0], 60, 0, 0)
  }

  predicate Limited(l: Local, q: nat, due: bool, locked: bool) {
    && l.Shaped() && l.setquota == q && l.setsum == 1 && l.procquota == q && l.localquotaver == 1 && l.totalworkernum == 0
    && l.updatetime == SetUpTime(due) && l.lock == if locked then 1 else 0
  }

  /** The first `slack` keys have a report due, and the first `locked` are locked. */
  predicate AllLimited(locals: map<Key, Local>, q: nat, names: seq<Key>, n: nat, slack: nat, locked: nat)
    requires n <= |names|
  {
    forall i :: 0 <= i < n ==> names[i] in locals && Limited(locals[names[i]], q, i < slack, i < locked)
  }

  /** The names from `n` on are not in use. */
  predicate Unused(locals: map<Key, Local>, names: seq<Key>, n: nat) {
    forall j :: n <= j < |names| ==> names[j] !in locals
  }

  lemma {:induction false} NextUsed(locals: map<Key, Local>, names: seq<Key>, n: nat, l: Local)
    requires n < |names| && Distinct(names) && Unused(locals, names, n)
    ensures Unused(locals[names[n] := l], names, n + 1) && |locals[names[n] := l]| == |locals| + 1
  {}

  lemma {:induction false} NextLimited(locals: map<Key, Local>, q: nat, names: seq<Key>, slack: nat, n: nat, l: Local)
    requires n < |names| && Distinct(names) && AllLimited(locals, q, names, n, slack, 0) && Limited(l, q, n < slack, false)
    ensures AllLimited(locals[names[n] := l], q, names, n + 1, slack, 0)
  {}

  lemma {:induction false} FirstMean()
    ensures Mean(Cleared()[0 := 1]) == 1
  {
    ClientQuota.ZerosTotal(QUOTA_ARRAY_NUM);
    ClientQuota.UpdateRing(Cleared(), 0, 1);
  }

  /** The first call of a key waits for the network. */
  lemma {:induction false} FirstCall(at: nat, sum: nat)
    requires at >= REPORT_PERIOD
    ensures var b := BeginCall(Fresh(), sum, at, 0, 0);
            && b.sent && b.local == BeginCall(Fresh(), 0, at, 0, 0).local
            && b.local.Shaped() && b.local.index == 0 && b.local.qarray == Cleared() && b.local.totalworkernum == 0
  {}

  lemma {:induction false} ClientIsLimited(q: nat, due: bool)
    requires q > 0
    ensures Limited(Client(q, due), q, due, false)
  {
    FirstCall(SetUpTime(due), 0);
    FirstMean();
  }

  /** A reachable process with no call waiting. */
  ghost predicate Quiet(w: World, at: nat) {
    Reached(w) && Coherent(w) && w.waiting == map[] && w.s_now <= at
  }

  /** The first call of a key and its reply, whatever else happened before. */
  lemma {:induction false} KeyIsSetUp(w: World, key: Key, q: nat, due: bool) returns (w': World)
    requires Quiet(w, SetUpTime(due)) && key !in w.locals
    ensures Quiet(w', SetUpTime(due)) && w'.locals == w.locals[key := Client(q, due)]
  {
    var at := SetUpTime(due);
    var call, reply := Call(0, key, at, 0, 0), Resume(0, Some((true, Grant(q))));
    FirstCall(at, SumAt(w, at));
    var w1 := Step(w, call);
    ReachedMore(w, call, w1);
    w' := Step(w1, reply);
    ReachedMore(w1, reply, w');
  }

  /** The first keys were set up, and no other. */
  predicate AllSetUp(locals: map<Key, Local>, q: nat, names: seq<Key>, n: nat, slack: nat)
    requires n <= |names|
  {
    |locals| == n && Unused(locals, names, n) && AllLimited(locals, q, names, n, slack, 0)
  }

  lemma {:induction false} NextKeyIsSetUp(w: World, q: nat, names: seq<Key>, slack: nat, n: nat) returns (w': World)
    requires n < |names| && Distinct(names) && q > 0
    requires Quiet(w, SetUpTime(n <= slack)) && AllSetUp(w.locals, q, names, n, slack)
    ensures Quiet(w', SetUpTime(n + 1 <= slack)) && AllSetUp(w'.locals, q, names, n + 1, slack)
  {
    var due := n < slack;
    w' := KeyIsSetUp(w, names[n], q, due);
    ClientIsLimited(q, due);
    NextUsed(w.locals, names, n, Client(q, due));
    NextLimited(w.locals, q, names, slack, n, Client(q, due));
  }

  /** The keys are set up one after the other, those that will have a report due first. */
  lemma {:induction false} KeysAreSetUp(q: nat, names: seq<Key>, slack: nat, n: nat) returns (w: World)
    requires n <= |names| && Distinct(names) && q > 0
    ensures Quiet(w, SetUpTime(n <= slack)) && AllSetUp(w.locals, q, names, n, slack)
  {
    if n == 0 {
      StartIsReached();
      w := Started();
    } else {
      var before := KeysAreSetUp(q, names, slack, n - 1);
      w := NextKeyIsSetUp(before, q, names, slack, n - 1);
    }
  }

  /** Such a key admits the call, and lets it wait when a report is due and none is on its way. */
  lemma {:induction false} LimitedCall(l: Local, q: nat, due: bool, locked: bool, sum: nat)
    requires Limited(l, q, due, locked) && sum < q
    ensures SetConfigured(l) && SetLimit(l) == q
    ensures var b := BeginCall(l, sum, 60, 0, 0);
            && b.verdict == Verdict(0, false) && b.sent == (due && !locked)
            && Limited(b.local, q, due, due || locked) && b.sum == if b.sent then sum else sum + 1
  {}

  /** After `n` calls: all admitted, the first `slack` of them still waiting and the others counted. */
  ghost predicate Busy(w: World, q: nat, names: seq<Key>, slack: nat, n: nat) {
    && w.s_now <= 60 && Count(w.log, 60) == n
    && SumAt(w, 60) == (if n <= slack then 0 else n - slack)
    && w.waiting.Keys == Ids(Min(n, slack))
    && AllLimited(w.locals, q, names, |names|, slack, Min(n, slack))
  }

  /** A process whose keys were set up, before the calls of second 60. */
  ghost predicate Ready(w: World, q: nat, names: seq<Key>, slack: nat) {
    && Coherent(w) && w.s_now < 60 && w.log == [] && w.waiting == map[]
    && AllSetUp(w.locals, q, names, |names|, slack)
  }

  lemma {:induction false} ReadyIsBusy(w: World, q: nat, names: seq<Key>, slack: nat)
    requires Ready(w, q, names, slack)
    ensures Busy(w, q, names, slack, 0) && Coherent(w)
  {}

  /** What the next call finds and does. */
  lemma {:induction false} BusyCall(w: World, q: nat, names: seq<Key>, slack: nat, n: nat, i: nat, op: Op)
    requires Busy(w, q, names, slack, n) && slack <= |names| && names != [] && n < q + slack && q > 0
    requires op == Nth(names, slack, n) && i == if n < slack then n else 0
    ensures op.key in w.locals && Legal(w, op, q) && w.locals[op.key].Shaped()
    ensures CallsNext(w, BeginCall(w.locals[op.key], SumAt(w, 60), 60, 0, 0), q, slack, n, i)
  {
    IdsAre(Min(n, slack));
    assert op.key == names[i];
    LimitedCall(w.locals[names[i]], q, i < slack, i < Min(n, slack), SumAt(w, 60));
  }

  /** The call waits while keys with a report due are left, and is counted after that. */
  predicate CallsNext(w: World, b: Begun, q: nat, slack: nat, n: nat, i: nat) {
    && b.verdict == Verdict(0, false) && b.sent == (n < slack)
    && b.sum == (if b.sent then SumAt(w, 60) else SumAt(w, 60) + 1)
    && Limited(b.local, q, i < slack, i < slack)
  }

  lemma {:induction false} BusyWaits(waiting: map<CallId, Waiting>, slack: nat, n: nat, c: Waiting)
    requires waiting.Keys == Ids(Min(n, slack))
    ensures (if n < slack then waiting[n := c] else waiting).Keys == Ids(Min(n + 1, slack))
  {}

  lemma {:induction false} BusyLocals(locals: map<Key, Local>, q: nat, names: seq<Key>, slack: nat, n: nat, i: nat, l: Local)
    requires Distinct(names) && slack <= |names| && i < |names| && i == if n < slack then n else 0
    requires AllLimited(locals, q, names, |names|, slack, Min(n, slack)) && Limited(l, q, i < slack, i < slack)
    ensures AllLimited(locals[names[i] := l], q, names, |names|, slack, Min(n + 1, slack))
  {}

  lemma {:induction false} BusyPlace(w: World, q: nat, names: seq<Key>, slack: nat, n: nat, i: nat, op: Op, b: Begun)
    requires Busy(w, q, names, slack, n) && Distinct(names) && slack <= |names| && names != []
    requires op == Nth(names, slack, n) && (i == if n < slack then n else 0) && CallsNext(w, b, q, slack, n, i)
    ensures Busy(Place(w, op.id, op.key, 60, b), q, names, slack, n + 1)
  {
    CountStep(w.log, 60, 60);
    BusyWaits(w.waiting, slack, n, Waiting(op.key, 60, b.verdict));
    BusyLocals(w.locals, q, names, slack, n, i, b.local);
  }

  lemma {:induction false} BusyGoesOn(w: World, q: nat, names: seq<Key>, slack: nat, n: nat, op: Op)
    requires Busy(w, q, names, slack, n) && Coherent(w) && Distinct(names)
    requires slack <= |names| && names != [] && n < q + slack && q > 0 && op == Nth(names, slack, n)
    ensures Next(w, op, Step(w, op), q) && Busy(Step(w, op), q, names, slack, n + 1) && Coherent(Step(w, op))
  {
    var i := if n < slack then n else 0;
    BusyCall(w, q, names, slack, n, i, op);
    StepKeepsCoherent(w, op, q);
    BusyPlace(w, q, names, slack, n, i, op, BeginCall(w.locals[op.key], SumAt(w, 60), 60, 0, 0));
  }

  lemma {:induction false} BusyWaitsFew(w: World, q: nat, names: seq<Key>, slack: nat, n: nat)
    requires Busy(w, q, names, slack, n)
    ensures |w.waiting| <= slack
  {
    IdsAre(Min(n, slack));
    assert |w.waiting| == |w.waiting.Keys|;
  }

  function Calls(names: seq<Key>, slack: nat, n: nat): (ops: seq<Op>)
    requires slack <= |names| && names != []
    ensures |ops| == n
  {
    if n == 0 then [] else Calls(names, slack, n - 1) + [Nth(names, slack, n - 1)]
  }

  /** A run of the first `n` calls. */
  ghost predicate IsBusyRun(ws: seq<World>, ops: seq<Op>, q: nat, slack: nat) {
    IsRun(ws, ops, q) && FewWaiting(ws, ops, slack)
  }

  lemma {:induction false} BusyRun(w: World, q: nat, names: seq<Key>, slack: nat, n: nat) returns (ws: seq<World>)
    requires Distinct(names) && slack <= |names| && names != [] && n <= q + slack && q > 0 && Ready(w, q, names, slack)
    ensures IsBusyRun(ws, Calls(names, slack, n), q, slack)
    ensures ws[0] == w && Busy(ws[n], q, names, slack, n) && Coherent(ws[n])
  {
    if n == 0 {
      ReadyIsBusy(w, q, names, slack);
      ws := [w];
    } else {
      var before := BusyRun(w, q, names, slack, n - 1);
      ws := OneMoreCall(before, Calls(names, slack, n - 1), q, names, slack, n - 1);
    }
  }

  lemma {:induction false} OneMoreCall(before: seq<World>, ops: seq<Op>, q: nat, names: seq<Key>, slack: nat, n: nat)
    returns (ws: seq<World>)
    requires Distinct(names) && slack <= |names| && names != [] && n < q + slack && q > 0
    requires IsBusyRun(before, ops, q, slack) && n == |ops| && Busy(before[n], q, names, slack, n) && Coherent(before[n])
    ensures IsBusyRun(ws, ops + [Nth(names, slack, n)], q, slack)
    ensures ws[0] == before[0] && Busy(ws[n + 1], q, names, slack, n + 1) && Coherent(ws[n + 1])
  {
    var w, op := before[n], Nth(names, slack, n);
    BusyWaitsFew(w, q, names, slack, n);
    BusyGoesOn(w, q, names, slack, n, op);
    var w' := Step(w, op);
    RunGrows(before, ops, op, w', q, slack);
    ws := before + [w'];
  }

  lemma {:induction false} RunGrows(ws: seq<World>, ops: seq<Op>, op: Op, w': World, q: nat, slack: nat)
    requires IsRun(ws, ops, q) && FewWaiting(ws, ops, slack)
    requires Next(ws[|ops|], op, w', q) && |ws[|ops|].waiting| <= slack
    ensures IsRun(ws + [w'], ops + [op], q) && FewWaiting(ws + [w'], ops + [op], slack)
  {
    var ws', ops' := ws + [w'], ops + [op];
    forall i | 0 <= i < |ops'| ensures Next(ws'[i], ops'[i], ws'[i + 1], q) {
      if i < |ops| {
        assert Next(ws[i], ops[i], ws[i + 1], q);
      }
    }
    FewWaitingGrows(ws, ops, op, w', slack);
  }

  lemma {:induction false} FewWaitingGrows(ws: seq<World>, ops: seq<Op>, op: Op, w': World, slack: nat)
    requires |ws| == |ops| + 1 && FewWaiting(ws, ops, slack) && |ws[|ops|].waiting| <= slack
    ensures FewWaiting(ws + [w'], ops + [op], slack)
  {}

  // ------------------------------------------------------------- the least bound

  /** A reachable process with `keys` keys, whose log starts now. */
  ghost predicate StartsFrom(w: World, past: World, keys: nat) {
    Reached(past) && w == past.(log := []) && |w.locals| == keys
  }

  /** A run of a client with some keys, from any state it can have reached. */
  ghost predicate RunFrom(ws: seq<World>, ops: seq<Op>, q: nat, keys: nat, slack: nat) {
    IsRun(ws, ops, q) && FewWaiting(ws, ops, slack) && exists past :: StartsFrom(ws[0], past, keys)
  }

  /** No such run ever decides more than `bound` admissions in one second. */
  ghost predicate IsBound(bound: nat, q: nat, keys: nat, slack: nat) {
    forall ws: seq<World>, ops: seq<Op>, n: nat, t: nat ::
      RunFrom(ws, ops, q, keys, slack) && n < |ws| ==> Count(ws[n].log, t) <= bound
  }

  function LeastBound(q: nat, keys: nat, slack: nat): nat {
    if q == 0 || keys == 0 then 0 else q + Min(slack, keys)
  }

  /** Without a key or without a quota no call is legal. */
  lemma {:induction false} NoCall(w: World, op: Op, w': World, q: nat)
    requires Next(w, op, w', q) && (q == 0 || w.locals.Keys == {})
    ensures w'.log == w.log && w'.locals.Keys == w.locals.Keys
  {
    if op.Call? {
      assert false;
    }
  }

  lemma {:induction false} NothingDecided(ws: seq<World>, ops: seq<Op>, q: nat, n: nat)
    requires IsRun(ws, ops, q) && ws[0].log == [] && (q == 0 || ws[0].locals.Keys == {}) && n < |ws|
    ensures ws[n].log == [] && (q == 0 || ws[n].locals.Keys == {})
  {
    if n > 0 {
      NothingDecided(ws, ops, q, n - 1);
      assert Next(ws[n - 1], ops[n - 1], ws[n], q);
      NoCall(ws[n - 1], ops[n - 1], ws[n], q);
    }
  }

  lemma {:induction false} LeastBoundHolds(ws: seq<World>, ops: seq<Op>, q: nat, keys: nat, slack: nat, n: nat, t: nat)
    requires RunFrom(ws, ops, q, keys, slack) && n < |ws|
    ensures Count(ws[n].log, t) <= LeastBound(q, keys, slack)
  {
    var past :| StartsFrom(ws[0], past, keys);
    ReachedIsCoherent(past);
    if q == 0 || keys == 0 {
      assert |ws[0].locals.Keys| == |ws[0].locals|;
      NothingDecided(ws, ops, q, n);
    } else if slack <= keys {
      RunKeepsBounded(ws, ops, q, slack, n, t);
    } else {
      OverAdmissionAtMostKeys(ws, ops, q, n, t);
    }
  }

  /**
   * Whatever the names of the keys: once a process has set them up, a call waits on each of some
   * keys, and then a whole limit is admitted on the first.
   */
  lemma {:induction false} OverAdmissionIsReal(q: nat, names: seq<Key>, slack: nat) returns (ws: seq<World>, ops: seq<Op>)
    requires q > 0 && names != [] && Distinct(names) && slack <= |names|
    ensures RunFrom(ws, ops, q, |names|, slack)
    ensures Count(ws[|ops|].log, 60) == q + slack
  {
    var past := KeysAreSetUp(q, names, slack, |names|);
    var n, w := q + slack, past.(log := []);
    assert StartsFrom(w, past, |names|);
    ws := BusyRun(w, q, names, slack, n);
    ops := Calls(names, slack, n);
  }

  lemma {:induction false} MoreSlack(ws: seq<World>, ops: seq<Op>, q: nat, keys: nat, slack: nat, more: nat)
    requires RunFrom(ws, ops, q, keys, slack) && slack <= more
    ensures RunFrom(ws, ops, q, keys, more)
  {}

  /** Exactly: with at most `slack` calls waiting, `q` and one for each key that may wait is the least bound. */
  lemma {:induction false} BoundIffLeast(bound: nat, q: nat, keys: nat, slack: nat)
    ensures IsBound(bound, q, keys, slack) <==> bound >= LeastBound(q, keys, slack)
  {
    if bound >= LeastBound(q, keys, slack) {
      forall ws: seq<World>, ops: seq<Op>, n: nat, t: nat | RunFrom(ws, ops, q, keys, slack) && n < |ws|
        ensures Count(ws[n].log, t) <= bound
      {
        LeastBoundHolds(ws, ops, q, keys, slack, n, t);
      }
    } else {
      var names := SomeNames(keys);
      var ws, ops := OverAdmissionIsReal(q, names, Min(slack, keys));
      MoreSlack(ws, ops, q, keys, Min(slack, keys), slack);
      assert Count(ws[|ops|].log, 60) > bound;
    }
  }
}
