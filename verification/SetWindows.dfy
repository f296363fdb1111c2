/** Conservation for the windows of sets, which skip old reports and update in place. */
module SetWindows {
  import opened TimeKeys
  import opened ReportMerge
  import opened Conservation

  function SetStep(ring: Ring, e: Event): Ring {
    match e
    case Report(id, item) =>
      if item.Accepted() then ring[item.Index() := SetMerge(ring[item.Index()], id, item)] else ring
    case Lookup(id, i) =>
      if i < NUM_PER_MIN then ring[i := Touch(ring[i], id)] else ring
  }

  function SetRun(h: seq<Event>): Ring {
    if h == [] then seq(NUM_PER_MIN, _ => EMPTY) else SetStep(SetRun(h[..|h| - 1]), h[|h| - 1])
  }

  /** A skipped report or an event elsewhere leaves the window and its accounts as they are. */
  lemma {:induction false} SetStepKeepsConserved(h: seq<Event>, ring: Ring, e: Event, i: nat)
    requires i < NUM_PER_MIN && Conserved(h, i, ring[i])
    ensures Conserved(h + [e], i, SetStep(ring, e)[i])
  {
    if Hits(e, i) && e.item.Key() < ring[i].timekey {
      OtherEventsKeepConserved(h, e, i, ring[i]);
    } else {
      StepKeepsConserved(h, ring, e, i);
    }
  }

  lemma {:induction false} SetRunIsConserved(h: seq<Event>, i: nat)
    requires i < NUM_PER_MIN
    ensures Conserved(h, i, SetRun(h)[i])
  {
    if h == [] {
      assert SetRun(h)[i] == EMPTY;
    } else {
      var h0, e := h[..|h| - 1], h[|h| - 1];
      SetRunIsConserved(h0, i);
      SetStepKeepsConserved(h0, SetRun(h0), e, i);
      assert h0 + [e] == h;
    }
  }

  /** For every run, a set's window holds the newest period and the contributions of its reporters, as an activity's does. */
  lemma {:induction false} SetTotals(h: seq<Event>, i: nat, f: Field)
    requires i < NUM_PER_MIN
    ensures var b, key := SetRun(h)[i], LatestKey(h, i);
            b.timekey == key && (key > 0 ==> b.total.Get(f) == TotalContribution(BookOf(h, i, key), Reporters(h, i, key), f))
    ensures LatestKey(h, i) > 0 ==> SetRun(h)[i].total.Get(f) == Run(h)[i].total.Get(f)
  {
    SetRunIsConserved(h, i);
    BucketTotals(h, i, f);
    if LatestKey(h, i) > 0 {
      ReportersOnly(h, i, SetRun(h)[i], f);
    }
  }
}
