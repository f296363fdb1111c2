/** Answering a quota request: merge the report, check the heartbeat, divide the quota. */
module QueryQuota {
  import opened FiniteSums
  import opened TimeKeys
  import opened ReportMerge
  import opened Apportion
  import opened ServerState
  import H = Heartbeat

  type Ip = string

  const SERVICE_RUNNING_TIME := 300

  datatype WorkerInfo = WorkerInfo(workernum: int, updatetime: nat)

  datatype AllocType = Undone | Average | Dynamic | HeartbeatReset | TooLittleHistory

  function MergeAll(ring: Ring, id: Id, items: seq<Item>): Ring {
    if items == [] then ring else Step(MergeAll(ring, id, items[..|items| - 1]), Report(id, items[|items| - 1]))
  }

  /** What the allocation pass leaves behind: an entry for the process in every bucket it looked at. */
  function TouchEligible(ring: Ring, nowkey: nat, id: Id): Ring {
    seq(NUM_PER_MIN, i requires 0 <= i < NUM_PER_MIN =>
      if Eligible(ring[i], nowkey) then Touch(ring[i], id) else ring[i])
  }

  function IdsOf(mapalloq: map<Ip, H.IdMap>, ip: Ip): H.IdMap {
    if ip in mapalloq then mapalloq[ip] else map[]
  }

  /** Whether the heartbeat lets the process have quota, after the purge of its host's ids. */
  predicate Admissible(mapalloq: map<Ip, H.IdMap>, ip: Ip, id: Id, now: nat) {
    H.Valid(H.Known(H.Clean(IdsOf(mapalloq, ip), now), id), now)
  }

  function IdsBeaten(mapalloq: map<Ip, H.IdMap>, ip: Ip, id: Id, now: nat): H.IdMap {
    H.Step(H.Step(IdsOf(mapalloq, ip), H.Purge(now)), H.Call(id, now))
  }

  function IdsAfter(mapalloq: map<Ip, H.IdMap>, ip: Ip, id: Id, now: nat, aquota: nat): H.IdMap {
    H.Step(IdsBeaten(mapalloq, ip, id, now), H.Grant(id, aquota))
  }

  /** What one request asks of an activity's data: who, what it reports, and when. */
  datatype Request = Request(ip: Ip, id: Id, items: seq<Item>, actquota: nat, now: nat)

  /** The part of the server's state that decides quotas. */
  datatype Server = Server(ring: Ring, alloq: map<Ip, H.IdMap>)

  /** The quota a request is given: none before its heartbeat is warm, and then its share of the merged history. */
  ghost function Answer(s: Server, r: Request): nat {
    if r.actquota > 0 && Admissible(s.alloq, r.ip, r.id, r.now)
    then Share(MergeAll(s.ring, r.id, r.items), KeyOf(r.now), r.id, r.actquota) else 0
  }

  /** The report is merged, the host's ids are purged and beaten, and the answer is remembered. */
  ghost function Serve(s: Server, r: Request): Server {
    if r.actquota == 0 then s else
      var merged := MergeAll(s.ring, r.id, r.items);
      Server(if Admissible(s.alloq, r.ip, r.id, r.now) then TouchEligible(merged, KeyOf(r.now), r.id) else merged,
             s.alloq[r.ip := IdsAfter(s.alloq, r.ip, r.id, r.now, Answer(s, r))])
  }

  function Max(a: int, b: int): (m: int)
    ensures m >= a && m >= b && (m == a || m == b)
  {
    if a < b then b else a
  }

  function Workers(mapworker: map<Ip, WorkerInfo>, ip: Ip): int {
    if ip in mapworker then mapworker[ip].workernum else 0
  }

  method InitBuckets() returns (titem: seq<TimeItem>)
    ensures |titem| == NUM_PER_MIN
    ensures forall i :: 0 <= i < NUM_PER_MIN ==> titem[i].Valid() && titem[i].Contents == EMPTY
    ensures forall i :: 0 <= i < NUM_PER_MIN ==> titem[i].Repr == {titem[i]} && fresh(titem[i])
    ensures forall i, j :: 0 <= i < j < NUM_PER_MIN ==> titem[i] != titem[j]
  {
    titem := [];
    for n := 0 to NUM_PER_MIN
      invariant |titem| == n
      invariant forall i :: 0 <= i < n ==> titem[i].Valid() && titem[i].Contents == EMPTY
      invariant forall i :: 0 <= i < n ==> titem[i].Repr == {titem[i]} && fresh(titem[i])
      invariant forall i, j :: 0 <= i < j < n ==> titem[i] != titem[j]
    {
      var item := new TimeItem();
      titem := titem + [item];
    }
  }

  class QData {
    const titem: seq<TimeItem>
    var mapalloq: map<Ip, H.IdMap>
    var mapworker: map<Ip, WorkerInfo>
    var updatetime: nat

    ghost var Owned: set<object>  // everything the six buckets are made of

    ghost predicate Valid()
      reads this`Owned, Owned
    {
      && |titem| == NUM_PER_MIN
      && this !in Owned
      && (forall i :: 0 <= i < NUM_PER_MIN ==> titem[i] in Owned && titem[i].Repr <= Owned && titem[i].Valid())
      && (forall i, j :: 0 <= i < NUM_PER_MIN && 0 <= j < NUM_PER_MIN && i != j ==> titem[i].Repr !! titem[j].Repr)
    }

    ghost function View(): Ring
      requires Valid()
      reads this`Owned, Owned
    {
      var own := Owned;
      seq(NUM_PER_MIN, i requires 0 <= i < NUM_PER_MIN && |titem| == NUM_PER_MIN && titem[i] in own reads own =>
        titem[i].Contents)
    }

    constructor ()
      ensures Valid() && fresh(Owned)
      ensures forall i :: 0 <= i < NUM_PER_MIN ==> View()[i] == EMPTY
      ensures mapalloq == map[] && mapworker == map[] && updatetime == 0
    {
      var items := InitBuckets();
      titem := items;
      mapalloq, mapworker, updatetime := map[], map[], 0;
      Owned := set t | t in items;
    }

    method MergeItem(procid: Id, item: Item)
      requires Valid() && item.Accepted()
      modifies this`Owned, Owned
      ensures Valid() && fresh(Owned - old(Owned))
      ensures View() == Step(old(View()), Report(procid, item))
    {
      var timekey, index := GetTimeKey(item.timekey);
      var t := titem[index];
      ghost var ring := View();
      MergeReport(t, procid, item);
      forall i | 0 <= i < NUM_PER_MIN && i != index ensures Kept(i, ring[i]) && titem[i].Repr !! t.Repr {
        assert titem[i].Repr !! old(t.Repr);
      }
      Adopt(index, ring);
    }

    /** A bucket that is as it was. */
    ghost predicate Kept(i: nat, b: Bucket)
      requires i < |titem|
      reads this`Owned, Owned
    {
      titem[i] in Owned && titem[i].Repr <= Owned && titem[i].Valid() && titem[i].Contents == b
    }

    /** Takes over the objects of a bucket that was changed; the others are as in `ring`. */
    ghost method Adopt(index: nat, ring: Ring)
      requires index < NUM_PER_MIN == |titem| && this !in Owned + titem[index].Repr
      requires titem[index] in Owned && titem[index].Valid()
      requires forall i :: 0 <= i < NUM_PER_MIN && i != index ==> Kept(i, ring[i]) && titem[i].Repr !! titem[index].Repr
      requires forall i, j :: 0 <= i < NUM_PER_MIN && 0 <= j < NUM_PER_MIN && i != index && j != index && i != j ==>
                 titem[i].Repr !! titem[j].Repr
      modifies this`Owned
      ensures Valid() && Owned == old(Owned) + titem[index].Repr
      ensures View() == ring[index := titem[index].Contents]
    {
      Owned := Owned + titem[index].Repr;
      forall i | 0 <= i < NUM_PER_MIN ensures View()[i] == ring[index := titem[index].Contents][i] {}
    }

    /** A lookup in one bucket. */
    method Find(index: nat, procid: Id) returns (data: ProData)
      requires Valid() && index < NUM_PER_MIN
      modifies this`Owned, Owned
      ensures Valid() && fresh(Owned - old(Owned))
      ensures View() == Step(old(View()), Lookup(procid, index))
      ensures procid in titem[index].mapidnum && data == titem[index].mapidnum[procid]
    {
      var t := titem[index];
      ghost var ring := View();
      data := t.InitStrIntMap(procid);
      forall i | 0 <= i < NUM_PER_MIN && i != index ensures Kept(i, ring[i]) && titem[i].Repr !! t.Repr {
        assert titem[i].Repr !! old(t.Repr);
      }
      Adopt(index, ring);
    }

    method UpdateSum(procid: Id, items: seq<Item>)
      requires Valid()
      modifies this`Owned, Owned
      ensures Valid() && fresh(Owned - old(Owned))
      ensures View() == MergeAll(old(View()), procid, items)
    {
      for i := 0 to |items|
        invariant Valid() && fresh(Owned - old(Owned))
        invariant View() == MergeAll(old(View()), procid, items[..i])
      {
        var item := items[i];
        assert items[..i + 1][..i] == items[..i];
        if item.timekey > 0 && item.reportnum > 0 {
          MergeItem(procid, item);
        }
      }
      assert items[..|items|] == items;
    }

    method CleanReportId(ip: Ip, now: nat)
      modifies this`mapalloq
      ensures mapalloq ==
        if ip in old(mapalloq) then old(mapalloq)[ip := H.Clean(old(mapalloq)[ip], now)] else old(mapalloq)
    {
      if ip in mapalloq {
        var before := mapalloq[ip];
        var tmap := before;
        if |tmap| > H.WIPE_SIZE {
          tmap := map[];
        }
        if |tmap| > H.PURGE_SIZE {
          var todo := tmap.Keys;
          while todo != {}
            invariant todo <= tmap.Keys
            invariant tmap == map id | id in before && (id in todo || !H.Idle(before[id], now)) :: before[id]
            decreases todo
          {
            var id :| id in todo;
            if H.Idle(tmap[id], now) {
              tmap := tmap - {id};
            }
            todo := todo - {id};
          }
          assert tmap == map id | id in before && !H.Idle(before[id], now) :: before[id];
        }
        assert tmap == H.Clean(before, now);
        mapalloq := mapalloq[ip := tmap];
      }
    }

    method ValidID(ip: Ip, id: Id, now: nat) returns (ret: bool)
      modifies this`mapalloq
      ensures mapalloq == old(mapalloq)[ip := H.Step(IdsOf(old(mapalloq), ip), H.Call(id, now))]
      ensures ret == H.Valid(H.Known(IdsOf(old(mapalloq), ip), id), now)
    {
      var ids := if ip in mapalloq then mapalloq[ip] else map[];
      var idinfo := if id in ids then ids[id] else H.IdInfo(0, 0, 0);
      if now >= idinfo.updatetime && now - idinfo.updatetime < H.HEARTBEAT_GAP {
        ret := now > idinfo.firsttime && now - idinfo.firsttime > H.WARMUP;
      } else {
        idinfo := idinfo.(firsttime := now);
        ret := false;
      }
      idinfo := idinfo.(updatetime := now);
      mapalloq := mapalloq[ip := ids[id := idinfo]];
    }

    method AddWorkerItem(ip: Ip, workernum: int, now: nat)
      modifies this`mapworker
      ensures mapworker == old(mapworker)[ip := WorkerInfo(Max(Workers(old(mapworker), ip), workernum), now)]
    {
      if ip !in mapworker {
        mapworker := mapworker[ip := WorkerInfo(0, 0)];
      }
      if workernum > mapworker[ip].workernum {
        mapworker := mapworker[ip := mapworker[ip].(workernum := workernum)];
      }
      mapworker := mapworker[ip := mapworker[ip].(updatetime := now)];
    }

    /** Looks at one bucket and adds the process's history there, if it has any, to the running sums. */
    method Visit(index: nat, procid: Id, nowkey: nat) returns (own: int, all: int, one: nat, parternum: nat)
      requires Valid() && index < NUM_PER_MIN
      modifies this`Owned, Owned
      ensures Valid() && fresh(Owned - old(Owned))
      ensures View() == if Eligible(old(View())[index], nowkey) then Step(old(View()), Lookup(procid, index)) else old(View())
      ensures own == OwnAt(old(View()), nowkey, procid)(index)
      ensures all == TotalAt(old(View()), nowkey, procid)(index)
      ensures one == OneAt(old(View()), nowkey, procid)(index)
      ensures own >= 0 && (one > 0 ==> own > 0 && parternum > 0)
    {
      own, all, one, parternum := 0, 0, 0, 0;
      var targetitem := titem[index];
      ghost var b := targetitem.Contents;
      assert b == View()[index];
      if targetitem.timekey < nowkey && nowkey - targetitem.timekey >= FINE_INTERVAL {
        var tdata := Find(index, procid);
        assert targetitem.Contents == View()[index] == Touch(b, procid);
        assert tdata.sum == Own(b, procid);
        if tdata.sum > 0 {
          own, all, one := tdata.sum, targetitem.sum, 1;
          parternum := |targetitem.mapidnum|;
        }
      }
    }

    /** Visits one more bucket of the walk. */
    method AddVisit(ghost ring: Ring, ghost visited: set<nat>, procid: Id, nowkey: nat, index: nat,
                    historyself: int, historytotal: int, validnum: int, parternum: nat)
      returns (self': int, total': int, num': int, parter': nat, ghost visited': set<nat>)
      requires Valid() && index < NUM_PER_MIN && index !in visited && View() == TouchVisited(ring, nowkey, procid, visited)
      requires Summed(ring, nowkey, procid, visited, historyself, historytotal, validnum, parternum)
      modifies this`Owned, Owned
      ensures Valid() && fresh(Owned - old(Owned))
      ensures visited' == visited + {index} && View() == TouchVisited(ring, nowkey, procid, visited')
      ensures Summed(ring, nowkey, procid, visited', self', total', num', parter')
    {
      visited' := visited + {index};
      VisitOne(ring, nowkey, procid, visited, index);
      var own, all, one, n := Visit(index, procid, nowkey);
      self', total', num' := historyself + own, historytotal + all, validnum + one;
      parter' := if one > 0 then n else parternum;
    }

    /** The allocation pass: walks the ring backwards from the current bucket. */
    method SumHistory(procid: Id, nowkey: nat, nowindex: nat)
      returns (historyself: int, historytotal: int, validnum: int, parternum: nat)
      requires Valid() && nowindex < NUM_PER_MIN
      modifies this`Owned, Owned
      ensures Valid() && fresh(Owned - old(Owned))
      ensures View() == TouchEligible(old(View()), nowkey, procid)
      ensures historyself == HistorySelf(old(View()), nowkey, procid) >= 0
      ensures historytotal == HistoryTotal(old(View()), nowkey, procid)
      ensures validnum == ValidNum(old(View()), nowkey, procid) >= 0
      ensures validnum > 0 ==> parternum > 0 && historyself > 0
    {
      AllVisited(View(), nowkey, procid);
      historyself, historytotal, validnum, parternum := Walk(procid, nowkey, nowindex);
    }

    /** The walk: every position once, one back at a time. */
    method Walk(procid: Id, nowkey: nat, nowindex: nat)
      returns (historyself: int, historytotal: int, validnum: int, parternum: nat)
      requires Valid() && nowindex < NUM_PER_MIN
      modifies this`Owned, Owned
      ensures Valid() && fresh(Owned - old(Owned))
      ensures View() == TouchVisited(old(View()), nowkey, procid, POSITIONS)
      ensures Summed(old(View()), nowkey, procid, POSITIONS, historyself, historytotal, validnum, parternum)
    {
      ghost var ring := View();
      historyself, historytotal, validnum, parternum := 0, 0, 0, 0;
      var beindex := nowindex;
      ghost var visited: set<nat> := {};
      NothingVisited(ring, nowkey, procid, nowindex);
      for l := 0 to NUM_PER_MIN
        invariant Valid() && fresh(Owned - old(Owned))
        invariant beindex == Back(nowindex, l) && visited == BackTo(nowindex, l)
        invariant View() == TouchVisited(ring, nowkey, procid, visited)
        invariant Summed(ring, nowkey, procid, visited, historyself, historytotal, validnum, parternum)
      {
        BackStep(nowindex, l);
        historyself, historytotal, validnum, parternum, visited :=
          AddVisit(ring, visited, procid, nowkey, beindex, historyself, historytotal, validnum, parternum);
        beindex := (beindex - 1 + NUM_PER_MIN) % NUM_PER_MIN;
      }
      BackEverywhere(nowindex);
    }

    method Allocate(procid: Id, actquota: nat, nowkey: nat, nowindex: nat)
      returns (aquota: nat, alloctype: AllocType)
      requires Valid() && nowindex < NUM_PER_MIN
      modifies this`Owned, Owned
      ensures Valid() && fresh(Owned - old(Owned))
      ensures View() == TouchEligible(old(View()), nowkey, procid)
      ensures aquota == Share(old(View()), nowkey, procid, actquota)
      ensures alloctype == if EnoughHistory(old(View()), nowkey, procid) then Dynamic else TooLittleHistory
    {
      var historyself, historytotal, validnum, parternum := SumHistory(procid, nowkey, nowindex);
      aquota, alloctype := Decide(historyself, historytotal, validnum, parternum, actquota);
    }

    /** Purges the host's ids and beats the heartbeat of this one. */
    method CheckId(remoteip: Ip, procid: Id, now: nat) returns (quotavalid: bool)
      modifies this`mapalloq
      ensures quotavalid == Admissible(old(mapalloq), remoteip, procid, now)
      ensures mapalloq == old(mapalloq)[remoteip := IdsBeaten(old(mapalloq), remoteip, procid, now)]
      ensures procid in mapalloq[remoteip]
    {
      CleanReportId(remoteip, now);
      quotavalid := ValidID(remoteip, procid, now);
    }

    /** Remembers the quota last computed for the process. */
    method Remember(remoteip: Ip, procid: Id, aquota: nat)
      requires remoteip in mapalloq && procid in mapalloq[remoteip]
      modifies this`mapalloq
      ensures mapalloq == old(mapalloq)[remoteip := H.Step(old(mapalloq)[remoteip], H.Grant(procid, aquota))]
    {
      var ids := mapalloq[remoteip];
      mapalloq := mapalloq[remoteip := ids[procid := ids[procid].(aquota := aquota)]];
    }

    /** Computes the process's quota, none before its heartbeat is warm, and remembers it. */
    method Grant(remoteip: Ip, procid: Id, quotavalid: bool, actquota: nat, nowkey: nat, nowindex: nat)
      returns (aquota: nat, alloctype: AllocType)
      requires Valid() && nowindex < NUM_PER_MIN && remoteip in mapalloq && procid in mapalloq[remoteip]
      modifies this`Owned, this`mapalloq, Owned
      ensures Valid() && fresh(Owned - old(Owned))
      ensures View() == if quotavalid then TouchEligible(old(View()), nowkey, procid) else old(View())
      ensures aquota == if quotavalid then Share(old(View()), nowkey, procid, actquota) else 0
      ensures mapalloq == old(mapalloq)[remoteip := H.Step(old(mapalloq)[remoteip], H.Grant(procid, aquota))]
    {
      aquota, alloctype := 0, Undone;
      if quotavalid {
        aquota, alloctype := Allocate(procid, actquota, nowkey, nowindex);
      }
      Remember(remoteip, procid, aquota);
    }

    /** Merges the report, beats the heartbeat, and computes and remembers the process's quota. */
    method MergeAndGrant(remoteip: Ip, procid: Id, items: seq<Item>, actquota: nat, now: nat)
      returns (aquota: nat, alloctype: AllocType)
      requires Valid() && actquota > 0
      modifies this`Owned, this`mapalloq, Owned
      ensures Valid() && fresh(Owned - old(Owned))
      ensures var s, r := Server(old(View()), old(mapalloq)), Request(remoteip, procid, items, actquota, now);
              Server(View(), mapalloq) == Serve(s, r) && aquota == Answer(s, r)
    {
      ghost var before := Server(View(), mapalloq);
      var nowkey, nowindex := GetTimeKey(now);
      UpdateSum(procid, items);
      var quotavalid := CheckId(remoteip, procid, now);
      aquota, alloctype := Grant(remoteip, procid, quotavalid, actquota, nowkey, nowindex);
      ServedIs(before, Request(remoteip, procid, items, actquota, now), View(), mapalloq, aquota);
    }

    /**
     * One request. The server's data becomes what `Serve` says, and the reply carries the
     * answer once the service has been up long enough, and nothing before.
     */
    method GetQueryQuota(remoteip: Ip, procid: Id, items: seq<Item>, actquota: nat, hostworkernum: int, now: nat, uptime: nat)
      returns (localq: nat, alloctype: AllocType)
      requires Valid()
      modifies this, Owned
      ensures Valid() && fresh(Owned - old(Owned))
      ensures var s, r := Server(old(View()), old(mapalloq)), Request(remoteip, procid, items, actquota, now);
              && Server(View(), mapalloq) == Serve(s, r)
              && localq == if now > uptime + 300 then Answer(s, r) else 0
      ensures mapworker == if actquota == 0 then old(mapworker) else
                old(mapworker)[remoteip := WorkerInfo(Max(Workers(old(mapworker), remoteip), hostworkernum), now)]
      ensures updatetime == if actquota == 0 then old(updatetime) else now
    {
      localq, alloctype := 0, Undone;
      if actquota > 0 {
        localq, alloctype := MergeAndGrant(remoteip, procid, items, actquota, now);
        AddWorkerItem(remoteip, hostworkernum, now);
        updatetime := now;
      }
      if !(now > uptime && now - uptime > SERVICE_RUNNING_TIME) {
        alloctype := HeartbeatReset;
        localq := 0;
      }
    }
  }

  /** The pieces of a served request, put together. */
  lemma {:induction false} ServedIs(s: Server, r: Request, ring: Ring, alloq: map<Ip, H.IdMap>, aquota: nat)
    requires r.actquota > 0 && aquota == Answer(s, r)
    requires var merged := MergeAll(s.ring, r.id, r.items);
             ring == if Admissible(s.alloq, r.ip, r.id, r.now) then TouchEligible(merged, KeyOf(r.now), r.id) else merged
    requires var ids := IdsBeaten(s.alloq, r.ip, r.id, r.now);
             alloq == s.alloq[r.ip := ids][r.ip := H.Step(ids, H.Grant(r.id, aquota))]
    ensures Server(ring, alloq) == Serve(s, r)
  {}

  /** The decision on a summed history. Nothing is ever divided by zero. */
  method Decide(historyself: nat, historytotal: int, validnum: nat, parternum: nat, actquota: nat)
    returns (aquota: nat, alloctype: AllocType)
    requires validnum > 0 ==> parternum > 0 && historyself > 0
    ensures validnum >= 2 && historytotal > QUOTA_ALLOC_MIN ==>
      alloctype == Dynamic && aquota == Quotient(actquota, historyself, historytotal)
    ensures validnum < 2 || historytotal <= QUOTA_ALLOC_MIN ==> alloctype == TooLittleHistory && aquota == 0
  {
    if validnum >= 2 && historytotal > QUOTA_ALLOC_MIN {
      alloctype := Average;
      aquota := actquota / parternum;
      if historyself > 0 {
        alloctype := Dynamic;
        aquota := actquota * historyself % UINT_RANGE / historytotal;
      }
    } else {
      alloctype := TooLittleHistory;
      aquota := 0;
    }
  }

  /** The ring position `l` steps before `nowindex`. */
  function Back(nowindex: nat, l: nat): nat
    requires l <= NUM_PER_MIN
  {
    if l <= nowindex then nowindex - l else nowindex + NUM_PER_MIN - l
  }

  /** The positions visited in the first `l` steps of the walk. */
  ghost function BackTo(nowindex: nat, l: nat): set<nat>
    requires l <= NUM_PER_MIN
  {
    set j: nat | j < l :: Back(nowindex, j)
  }

  lemma {:induction false} BackStep(nowindex: nat, l: nat)
    requires nowindex < NUM_PER_MIN && l < NUM_PER_MIN
    ensures Back(nowindex, l) < NUM_PER_MIN && Back(nowindex, l) !in BackTo(nowindex, l)
    ensures BackTo(nowindex, l + 1) == BackTo(nowindex, l) + {Back(nowindex, l)}
    ensures Back(nowindex, l + 1) == (Back(nowindex, l) - 1 + NUM_PER_MIN) % NUM_PER_MIN
  {}

  lemma {:induction false} BackEverywhere(nowindex: nat)
    requires nowindex < NUM_PER_MIN
    ensures BackTo(nowindex, NUM_PER_MIN) == POSITIONS
  {
    forall i | i in POSITIONS ensures i in BackTo(nowindex, NUM_PER_MIN) {
      assert Back(nowindex, Back(nowindex, i)) == i;
    }
  }

  lemma {:induction false} NothingVisited(ring: Ring, nowkey: nat, id: Id, nowindex: nat)
    ensures TouchVisited(ring, nowkey, id, {}) == ring && BackTo(nowindex, 0) == {} && Summed(ring, nowkey, id, {}, 0, 0, 0, 0)
  {}

  lemma {:induction false} AllVisited(ring: Ring, nowkey: nat, id: Id)
    ensures TouchVisited(ring, nowkey, id, POSITIONS) == TouchEligible(ring, nowkey, id)
  {}

  function TouchVisited(ring: Ring, nowkey: nat, id: Id, visited: set<nat>): Ring {
    seq(NUM_PER_MIN, i requires 0 <= i < NUM_PER_MIN =>
      if i in visited && Eligible(ring[i], nowkey) then Touch(ring[i], id) else ring[i])
  }

  ghost predicate Summed(ring: Ring, nowkey: nat, id: Id, visited: set<nat>, self: int, total: int, num: int, parternum: nat) {
    && self == Sum(visited, OwnAt(ring, nowkey, id)) && self >= 0
    && total == Sum(visited, TotalAt(ring, nowkey, id))
    && num == Sum(visited, OneAt(ring, nowkey, id)) && num >= 0
    && (num > 0 ==> parternum > 0 && self > 0)
  }

  lemma {:induction false} TouchOne(ring: Ring, nowkey: nat, id: Id, visited: set<nat>, i: nat)
    requires i !in visited && i < NUM_PER_MIN
    ensures var seen := TouchVisited(ring, nowkey, id, visited);
            && seen[i] == ring[i]
            && TouchVisited(ring, nowkey, id, visited + {i}) ==
                 if Eligible(seen[i], nowkey) then Step(seen, Lookup(id, i)) else seen
  {}

  /** Looking at one more bucket adds its history to the sums and nothing else. */
  lemma {:induction false} VisitOne(ring: Ring, nowkey: nat, id: Id, visited: set<nat>, i: nat)
    requires i !in visited && i < NUM_PER_MIN
    ensures var seen := TouchVisited(ring, nowkey, id, visited);
            && TouchVisited(ring, nowkey, id, visited + {i}) ==
                 (if Eligible(seen[i], nowkey) then Step(seen, Lookup(id, i)) else seen)
            && Sum(visited + {i}, OwnAt(ring, nowkey, id)) == Sum(visited, OwnAt(ring, nowkey, id)) + OwnAt(seen, nowkey, id)(i)
            && Sum(visited + {i}, TotalAt(ring, nowkey, id)) == Sum(visited, TotalAt(ring, nowkey, id)) + TotalAt(seen, nowkey, id)(i)
            && Sum(visited + {i}, OneAt(ring, nowkey, id)) == Sum(visited, OneAt(ring, nowkey, id)) + OneAt(seen, nowkey, id)(i)
  {
    var more := visited + {i};
    TouchOne(ring, nowkey, id, visited, i);
    assert more - {i} == visited;
    SumSplit(more, i, OwnAt(ring, nowkey, id));
    SumSplit(more, i, TotalAt(ring, nowkey, id));
    SumSplit(more, i, OneAt(ring, nowkey, id));
  }
}
