/** Every sequence of quota requests leaves the server's ring as some run of reports and lookups would. */
module ServerRuns {
  import opened FiniteSums
  import opened TimeKeys
  import opened ReportMerge
  import opened Conservation
  import opened Apportion
  import opened QueryQuota
  import H = Heartbeat

  /** The server after some requests, from the start. */
  ghost function ServeAll(rs: seq<Request>): Server {
    if rs == [] then Server(Run([]), map[]) else Serve(ServeAll(rs[..|rs| - 1]), rs[|rs| - 1])
  }

  /** The reports of a request, as events. */
  function Reports(id: Id, items: seq<Item>): seq<Event> {
    if items == [] then [] else Reports(id, items[..|items| - 1]) + [Report(id, items[|items| - 1])]
  }

  predicate IsLookup(e: Event) { e.Lookup? }

  lemma {:induction false} RunStep(h: seq<Event>, e: Event)
    ensures Run(h + [e]) == Step(Run(h), e)
  {}

  lemma {:induction false} MergeAllIsRun(h: seq<Event>, id: Id, items: seq<Item>)
    ensures MergeAll(Run(h), id, items) == Run(h + Reports(id, items))
  {
    if items == [] {
      assert h + Reports(id, items) == h;
    } else {
      var init, e := items[..|items| - 1], Report(id, items[|items| - 1]);
      MergeAllIsRun(h, id, init);
      RunStep(h + Reports(id, init), e);
      assert h + Reports(id, items) == h + Reports(id, init) + [e];
    }
  }

  ghost function Below(n: nat): set<nat> { set i | i in POSITIONS && i < n }

  lemma {:induction false} BelowStep(n: nat)
    requires 0 < n <= NUM_PER_MIN
    ensures Below(n) == Below(n - 1) + {n - 1} && n - 1 !in Below(n - 1)
  {}

  lemma {:induction false} LookupsAreRun(h: seq<Event>, nowkey: nat, id: Id, n: nat) returns (ls: seq<Event>)
    requires n <= NUM_PER_MIN
    ensures Run(h + ls) == TouchVisited(Run(h), nowkey, id, Below(n))
    ensures forall e :: e in ls ==> IsLookup(e)
  {
    if n == 0 {
      ls := [];
      assert h + ls == h;
    } else {
      var before := LookupsAreRun(h, nowkey, id, n - 1);
      var seen := TouchVisited(Run(h), nowkey, id, Below(n - 1));
      TouchOne(Run(h), nowkey, id, Below(n - 1), n - 1);
      BelowStep(n);
      if Eligible(seen[n - 1], nowkey) {
        ls := before + [Lookup(id, n - 1)];
        RunStep(h + before, Lookup(id, n - 1));
        assert h + ls == h + before + [Lookup(id, n - 1)];
      } else {
        ls := before;
      }
    }
  }

  /** All the reports of a sequence of requests, in order; a request without quota reports nothing. */
  function AllReports(rs: seq<Request>): seq<Event> {
    if rs == [] then [] else
      var r := rs[|rs| - 1];
      AllReports(rs[..|rs| - 1]) + (if r.actquota == 0 then [] else Reports(r.id, r.items))
  }

  /** The history without its lookups. */
  function OnlyReports(h: seq<Event>): seq<Event> {
    if h == [] then [] else
      OnlyReports(h[..|h| - 1]) + (if IsLookup(h[|h| - 1]) then [] else [h[|h| - 1]])
  }

  lemma {:induction false} OnlyReportsConcat(h: seq<Event>, k: seq<Event>)
    ensures OnlyReports(h + k) == OnlyReports(h) + OnlyReports(k)
  {
    if k == [] {
      assert h + k == h;
    } else {
      var init := k[..|k| - 1];
      OnlyReportsConcat(h, init);
      assert (h + k)[..|h + k| - 1] == h + init;
    }
  }

  lemma {:induction false} NoReportsInLookups(ls: seq<Event>)
    requires forall e :: e in ls ==> IsLookup(e)
    ensures OnlyReports(ls) == []
  {
    if ls != [] {
      NoReportsInLookups(ls[..|ls| - 1]);
    }
  }

  lemma {:induction false} ReportsAreReports(id: Id, items: seq<Item>)
    ensures OnlyReports(Reports(id, items)) == Reports(id, items)
  {
    if items != [] {
      ReportsAreReports(id, items[..|items| - 1]);
      assert OnlyReports([Report(id, items[|items| - 1])]) == [Report(id, items[|items| - 1])] by {
        assert [Report(id, items[|items| - 1])][..0] == [];
      }
      OnlyReportsConcat(Reports(id, items[..|items| - 1]), [Report(id, items[|items| - 1])]);
    }
  }

  /** One request adds its reports to the history, and perhaps lookups. */
  lemma {:induction false} ServeExtends(s: Server, r: Request, h0: seq<Event>) returns (h: seq<Event>)
    requires s.ring == Run(h0) && r.actquota > 0
    ensures Serve(s, r).ring == Run(h) && OnlyReports(h) == OnlyReports(h0) + Reports(r.id, r.items)
  {
    h := h0 + Reports(r.id, r.items);
    MergeAllIsRun(h0, r.id, r.items);
    ReportsAreReports(r.id, r.items);
    OnlyReportsConcat(h0, Reports(r.id, r.items));
    if Admissible(s.alloq, r.ip, r.id, r.now) {
      h := TouchedIsRun(h, KeyOf(r.now), r.id);
    }
  }

  lemma {:induction false} TouchedIsRun(h0: seq<Event>, nowkey: nat, id: Id) returns (h: seq<Event>)
    ensures TouchEligible(Run(h0), nowkey, id) == Run(h) && OnlyReports(h) == OnlyReports(h0)
  {
    var ls := LookupsAreRun(h0, nowkey, id, NUM_PER_MIN);
    NoReportsInLookups(ls);
    OnlyReportsConcat(h0, ls);
    h := h0 + ls;
    assert TouchVisited(Run(h0), nowkey, id, Below(NUM_PER_MIN)) == TouchEligible(Run(h0), nowkey, id);
    assert OnlyReports(h0) + [] == OnlyReports(h0);
  }

  /**
   * Whatever requests were served, the ring is the one left by a run whose reports are
   * exactly the reports received, in order. So every statement about runs holds of the server.
   */
  lemma {:induction false} ServerRingIsARun(rs: seq<Request>) returns (h: seq<Event>)
    ensures ServeAll(rs).ring == Run(h) && OnlyReports(h) == AllReports(rs)
  {
    if rs == [] {
      h := [];
    } else {
      var rs0, r := rs[..|rs| - 1], rs[|rs| - 1];
      h := ServerRingIsARun(rs0);
      if r.actquota > 0 {
        h := ServeExtends(ServeAll(rs0), r, h);
      } else {
        assert AllReports(rs0) + [] == AllReports(rs0);
      }
    }
  }

  /** No reply ever carries more than the whole quota. */
  lemma {:induction false} AnswerAtMostQuota(rs: seq<Request>, r: Request)
    ensures Answer(ServeAll(rs), r) <= r.actquota
  {
    var h := ServerRingIsARun(rs);
    MergeAllIsRun(h, r.id, r.items);
    ShareAtMostQuota(h + Reports(r.id, r.items), KeyOf(r.now), r.id, r.actquota);
  }

  /** Lookups leave no trace in what a run should have counted. */
  lemma {:induction false} LookupsAreInvisible(h: seq<Event>, i: nat, key: nat)
    ensures LatestKey(OnlyReports(h), i) == LatestKey(h, i)
    ensures Reporters(OnlyReports(h), i, key) == Reporters(h, i, key)
    ensures forall id :: Values(OnlyReports(h), i, key, id) == Values(h, i, key, id)
  {
    if h != [] {
      var init, e := h[..|h| - 1], h[|h| - 1];
      LookupsAreInvisible(init, i, key);
      if IsLookup(e) {
        LookupStep(h);
      } else {
        ReportStep(h);
      }
    }
  }

  lemma {:induction false} LookupStep(h: seq<Event>)
    requires h != [] && IsLookup(h[|h| - 1])
    ensures OnlyReports(h) == OnlyReports(h[..|h| - 1])
  {}

  lemma {:induction false} ReportStep(h: seq<Event>)
    requires h != [] && !IsLookup(h[|h| - 1])
    ensures var k := OnlyReports(h);
            k != [] && k[|k| - 1] == h[|h| - 1] && k[..|k| - 1] == OnlyReports(h[..|h| - 1])
  {}

  /**
   * Conservation on the server, after any requests whatever: at every ring position the
   * bucket holds the newest period reported there, and its totals are the latest report of
   * each process plus the final report of every epoch closed by a restart.
   */
  lemma {:induction false} ServerConserves(rs: seq<Request>, i: nat, f: Field)
    requires i < NUM_PER_MIN
    ensures var b, h := ServeAll(rs).ring[i], AllReports(rs);
            var key := LatestKey(h, i);
            b.timekey == key &&
            (key > 0 ==> b.total.Get(f) == TotalContribution(BookOf(h, i, key), Reporters(h, i, key), f))
  {
    var h := ServerRingIsARun(rs);
    var key := LatestKey(h, i);
    LookupsAreInvisible(h, i, key);
    BucketTotals(h, i, f);
    SumCong(Reporters(h, i, key), Shares(BookOf(h, i, key), f), Shares(BookOf(OnlyReports(h), i, key), f));
  }

  // ------------------------------------------------- the heartbeats of a host

  /** What the requests of one host did to its ids. */
  ghost function Beats(rs: seq<Request>, ip: Ip): seq<H.Event> {
    if rs == [] then [] else
      var rs0, r := rs[..|rs| - 1], rs[|rs| - 1];
      if r.ip == ip && r.actquota > 0
      then Beats(rs0, ip) + [H.Purge(r.now), H.Call(r.id, r.now), H.Grant(r.id, Answer(ServeAll(rs0), r))]
      else Beats(rs0, ip)
  }

  /** Requests arrive at a clock that never runs backwards and starts after the first minute. */
  predicate Timely(rs: seq<Request>) {
    forall k :: 0 <= k < |rs| ==> rs[k].now >= 60 && (k > 0 ==> rs[k - 1].now <= rs[k].now)
  }

  /** A purge, a call and a grant, one after the other. */
  lemma {:induction false} RequestBeats(h: seq<H.Event>, id: Id, now: nat, aquota: nat)
    ensures var h1 := h + [H.Purge(now)];
            var h3 := h + [H.Purge(now), H.Call(id, now), H.Grant(id, aquota)];
            && H.Run(h1) == H.Clean(H.Run(h), now)
            && H.Run(h3) == H.Step(H.Step(H.Run(h1), H.Call(id, now)), H.Grant(id, aquota))
            && H.Clock(h1) == H.Clock(h3) == now
            && (H.Ordered(h) && H.Clock(h) <= now && now >= 60 ==> H.Ordered(h1) && H.Ordered(h3))
  {
    var h1, h2 := h + [H.Purge(now)], h + [H.Purge(now)] + [H.Call(id, now)];
    H.Snoc(h, H.Purge(now));
    H.Snoc(h1, H.Call(id, now));
    H.Snoc(h2, H.Grant(id, aquota));
    assert h + [H.Purge(now), H.Call(id, now), H.Grant(id, aquota)] == h2 + [H.Grant(id, aquota)];
  }

  lemma {:induction false} BeatsTrackIds(rs: seq<Request>, ip: Ip)
    ensures IdsOf(ServeAll(rs).alloq, ip) == H.Run(Beats(rs, ip))
  {
    if rs != [] {
      var rs0, r := rs[..|rs| - 1], rs[|rs| - 1];
      BeatsTrackIds(rs0, ip);
      if r.ip == ip && r.actquota > 0 {
        RequestBeats(Beats(rs0, ip), r.id, r.now, Answer(ServeAll(rs0), r));
      }
    }
  }

  lemma {:induction false} BeatsAreOrdered(rs: seq<Request>, ip: Ip)
    requires Timely(rs)
    ensures H.Ordered(Beats(rs, ip)) && H.Clock(Beats(rs, ip)) <= if rs == [] then 0 else rs[|rs| - 1].now
  {
    if rs != [] {
      var rs0, r := rs[..|rs| - 1], rs[|rs| - 1];
      BeatsAreOrdered(rs0, ip);
      if r.ip == ip && r.actquota > 0 {
        RequestBeats(Beats(rs0, ip), r.id, r.now, Answer(ServeAll(rs0), r));
      }
    }
  }

  /** The times of a process's requests since its host's ids were last wiped, the present one included. */
  ghost function CallTimes(rs: seq<Request>, r: Request): seq<nat> {
    H.Calls(Beats(rs, r.ip) + [H.Purge(r.now)], r.id) + [r.now]
  }

  /** The unbroken chain of requests that ends with this one began more than two minutes ago. */
  ghost predicate Warm(rs: seq<Request>, r: Request) {
    exists k: nat :: H.StartsChain(CallTimes(rs, r), k) && r.now - CallTimes(rs, r)[k] > 120
  }

  lemma {:induction false} TimelyBefore(rs: seq<Request>, more: seq<Request>)
    requires Timely(rs + more)
    ensures Timely(rs)
    ensures rs != [] && more != [] ==> rs[|rs| - 1].now <= more[0].now
    ensures more != [] ==> more[0].now >= 60
  {
    var all := rs + more;
    forall j | 0 <= j < |rs| ensures rs[j].now >= 60 && (j > 0 ==> rs[j - 1].now <= rs[j].now) {
      assert all[j] == rs[j] && (j > 0 ==> all[j - 1] == rs[j - 1]);
    }
    if more != [] {
      assert all[|rs|] == more[0] && (rs != [] ==> all[|rs| - 1] == rs[|rs| - 1]);
    }
  }

  /** The heartbeat lets a process have quota exactly when its chain is warm. */
  lemma {:induction false} AdmissibleIffWarm(rs: seq<Request>, r: Request)
    requires Timely(rs + [r])
    ensures Admissible(ServeAll(rs).alloq, r.ip, r.id, r.now) <==> Warm(rs, r)
  {
    var h, ts := Beats(rs, r.ip), CallTimes(rs, r);
    TimelyBefore(rs, [r]);
    BeatsTrackIds(rs, r.ip);
    BeatsAreOrdered(rs, r.ip);
    RequestBeats(h, r.id, r.now, 0);
    var k := H.ChainHasStart(ts);
    H.ValidExactlyAfterWarmup(h + [H.Purge(r.now)], r.id, r.now, k);
    if Warm(rs, r) {
      var j: nat :| H.StartsChain(ts, j) && r.now - ts[j] > 120;
      H.ChainStartIsUnique(ts, j, k);
    }
  }

  /** A process is answered with quota only if its chain is warm, and only from at least two complete buckets that hold it. */
  lemma {:induction false} QuotaNeedsWarmup(rs: seq<Request>, r: Request)
    requires Timely(rs + [r])
    ensures Answer(ServeAll(rs), r) > 0 ==>
      Warm(rs, r) && ValidNum(MergeAll(ServeAll(rs).ring, r.id, r.items), KeyOf(r.now), r.id) >= 2
  {
    AdmissibleIffWarm(rs, r);
  }
}
