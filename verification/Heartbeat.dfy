/**
 * The heartbeat that decides whether a process may be given quota: the per-id state
 * machine, the purge of idle ids, and what their combination answers over a whole run.
 */
module Heartbeat {
  import opened ReportMerge

  datatype IdInfo = IdInfo(aquota: nat, updatetime: nat, firsttime: nat)

  const HEARTBEAT_GAP := 30
  const WARMUP := 120
  const IDLE_LIMIT := 1800
  const WIPE_SIZE := 500
  const PURGE_SIZE := 300

  type IdMap = map<Id, IdInfo>

  function Known(m: IdMap, id: Id): IdInfo {
    if id in m then m[id] else IdInfo(0, 0, 0)
  }

  /** One heartbeat of one id at `now`. */
  function Beat(info: IdInfo, now: nat): IdInfo {
    if now >= info.updatetime && now - info.updatetime < HEARTBEAT_GAP then info.(updatetime := now)
    else info.(updatetime := now, firsttime := now)
  }

  predicate Valid(info: IdInfo, now: nat) {
    now >= info.updatetime && now - info.updatetime < HEARTBEAT_GAP && now - info.firsttime > WARMUP
  }

  predicate Idle(info: IdInfo, now: nat) {
    info.updatetime < now && now - info.updatetime > IDLE_LIMIT
  }

  /** The purge of one host's ids: everything when there are too many, else only the idle ones. */
  function Clean(m: IdMap, now: nat): IdMap {
    if |m| > WIPE_SIZE then map[]
    else if |m| > PURGE_SIZE then map id | id in m && !Idle(m[id], now) :: m[id]
    else m
  }

  /** A purge leaves an id alone unless its host has more than 500, or more than 300 and this one is idle for over 1800 seconds. */
  lemma {:induction false} PurgeMeans(m: IdMap, now: nat, id: Id)
    ensures id in Clean(m, now) <==> id in m && |m| <= 500 && (|m| <= 300 || m[id].updatetime + 1800 >= now)
    ensures id in Clean(m, now) ==> Clean(m, now)[id] == m[id]
  {}

  // ---------------------------------------------------------------- whole runs

  datatype Event = Call(id: Id, now: nat) | Purge(now: nat) | Grant(id: Id, aquota: nat)

  function Step(m: IdMap, e: Event): IdMap {
    match e
    case Call(id, now) => m[id := Beat(Known(m, id), now)]
    case Purge(now) => Clean(m, now)
    case Grant(id, aquota) => if id in m then m[id := m[id].(aquota := aquota)] else m
  }

  function Run(h: seq<Event>): IdMap {
    if h == [] then map[] else Step(Run(h[..|h| - 1]), h[|h| - 1])
  }

  /** When the last event that carries a time happened. */
  function Clock(h: seq<Event>): nat {
    if h == [] then 0 else
      var e := h[|h| - 1];
      if e.Grant? then Clock(h[..|h| - 1]) else e.now
  }

  /** The clock never runs backwards and starts late enough. */
  predicate Ordered(h: seq<Event>) {
    h == [] ||
    (var h0, e := h[..|h| - 1], h[|h| - 1];
     Ordered(h0) && (!e.Grant? ==> e.now >= Clock(h0) && e.now >= HEARTBEAT_GAP))
  }

  lemma {:induction false} Snoc(h: seq<Event>, e: Event)
    ensures Run(h + [e]) == Step(Run(h), e)
    ensures Clock(h + [e]) == if e.Grant? then Clock(h) else e.now
    ensures Ordered(h + [e]) <==> Ordered(h) && (!e.Grant? ==> e.now >= Clock(h) && e.now >= HEARTBEAT_GAP)
  {}

  /** The calls of one id, in order, since the map was last wiped whole. */
  function Calls(h: seq<Event>, id: Id): seq<nat> {
    if h == [] then [] else
      var h0, e := h[..|h| - 1], h[|h| - 1];
      if e.Purge? && |Run(h0)| > 500 then []
      else if e.Call? && e.id == id then Calls(h0, id) + [e.now]
      else Calls(h0, id)
  }

  /** `k` starts the maximal chain of calls, at gaps under 30 s, that ends the sequence. */
  predicate StartsChain(ts: seq<nat>, k: nat) {
    && k < |ts|
    && (k > 0 ==> ts[k] >= ts[k - 1] + 30)
    && (forall j :: k < j < |ts| ==> ts[j] < ts[j - 1] + 30)
  }

  /** What the map knows about one id, against that id's calls. */
  ghost predicate Tracks(m: IdMap, id: Id, ts: seq<nat>, clock: nat) {
    && (ts != [] ==> ts[|ts| - 1] <= clock)
    && (id in m ==> ts != [] && m[id].updatetime == ts[|ts| - 1])
    && (id in m ==> exists k: nat :: StartsChain(ts, k) && m[id].firsttime == ts[k])
    && (id !in m && ts != [] ==> ts[|ts| - 1] + HEARTBEAT_GAP <= clock)
  }

  lemma {:induction false} ChainStartIsUnique(ts: seq<nat>, j: nat, k: nat)
    requires StartsChain(ts, j) && StartsChain(ts, k)
    ensures j == k
  {}

  lemma {:induction false} ChainGrows(ts: seq<nat>, k: nat, now: nat)
    requires StartsChain(ts, k)
    ensures now - ts[|ts| - 1] < HEARTBEAT_GAP ==> StartsChain(ts + [now], k)
    ensures now - ts[|ts| - 1] >= HEARTBEAT_GAP ==> StartsChain(ts + [now], |ts|)
  {}

  lemma {:induction false} CallTracks(m: IdMap, id: Id, ts: seq<nat>, clock: nat, now: nat)
    requires Tracks(m, id, ts, clock) && now >= clock && now >= HEARTBEAT_GAP
    ensures Tracks(m[id := Beat(Known(m, id), now)], id, ts + [now], now)
  {
    if ts == [] {
      assert StartsChain([now], 0) && ts + [now] == [now];
    } else if id in m {
      var k: nat :| StartsChain(ts, k) && m[id].firsttime == ts[k];
      ChainGrows(ts, k, now);
    } else {
      assert StartsChain(ts + [now], |ts|);
    }
  }

  lemma {:induction false} StepTracks(h: seq<Event>, e: Event, id: Id)
    requires Ordered(h + [e]) && Tracks(Run(h), id, Calls(h, id), Clock(h))
    ensures Tracks(Run(h + [e]), id, Calls(h + [e], id), Clock(h + [e]))
  {
    assert (h + [e])[..|h|] == h;
    if e.Call? && e.id == id {
      CallTracks(Run(h), id, Calls(h, id), Clock(h), e.now);
    }
  }

  lemma {:induction false} RunTracks(h: seq<Event>, id: Id)
    requires Ordered(h)
    ensures Tracks(Run(h), id, Calls(h, id), Clock(h))
  {
    if h != [] {
      var h0, e := h[..|h| - 1], h[|h| - 1];
      RunTracks(h0, id);
      assert h0 + [e] == h;
      StepTracks(h0, e, id);
    }
  }

  /**
   * The heartbeat answers yes exactly when the maximal chain of calls that ends with this
   * one began more than two minutes ago. Idle purges do not show in `Calls`, so they never
   * change an answer; only a wipe of the whole map does.
   */
  lemma {:induction false} ValidExactlyAfterWarmup(h: seq<Event>, id: Id, now: nat, k: nat)
    requires Ordered(h) && now >= Clock(h) && now >= HEARTBEAT_GAP
    requires StartsChain(Calls(h, id) + [now], k)
    ensures Valid(Known(Run(h), id), now) <==> now - (Calls(h, id) + [now])[k] > 120
  {
    RunTracks(h, id);
    var m, ts := Run(h), Calls(h, id);
    if id in m {
      var j: nat :| StartsChain(ts, j) && m[id].firsttime == ts[j];
      ChainGrows(ts, j, now);
      ChainStartIsUnique(ts + [now], k, if now - ts[|ts| - 1] < HEARTBEAT_GAP then j else |ts|);
    } else if ts != [] {
      assert StartsChain(ts + [now], |ts|);
      ChainStartIsUnique(ts + [now], k, |ts|);
    }
  }

  /** A chain always has a start, so the previous statement always applies. */
  lemma {:induction false} ChainHasStart(ts: seq<nat>) returns (k: nat)
    requires ts != []
    ensures StartsChain(ts, k)
  {
    if |ts| == 1 {
      k := 0;
    } else {
      var init, last := ts[..|ts| - 1], ts[|ts| - 1];
      k := ChainHasStart(init);
      ChainGrows(init, k, last);
      assert init + [last] == ts;
      if last - init[|init| - 1] >= HEARTBEAT_GAP { k := |init|; }
    }
  }
}
