/** What a client reports is what it decided: its windows count exactly the calls it passed and refused. */
module ClientReports {
  import opened TimeKeys
  import opened ReportMerge
  import opened LocalQuota
  import opened QuotaProtocol
  import C = ClientQuota

  /** The calls a client judged in a history, in order; one behind the last reply is not seen by the checks. */
  function JudgedCalls(ops: seq<C.Op>): seq<Judged> {
    if ops == [] then [] else
      JudgedCalls(ops[..|ops| - 1]) + Judging(C.History(ops[..|ops| - 1]), ops[|ops| - 1])
  }

  function Judging(l: Local, op: C.Op): seq<Judged>
    requires l.Shaped()
  {
    if op.Call? && op.at >= l.updatetime then
      var v := BeginCall(l, op.sum, op.at, op.totalquota, op.refer).verdict;
      [Judged(op.at, v.ret < 2, v.setRefused)]
    else []
  }

  /** The clock does not go back from one judged call to the next, and starts after the first minute. */
  predicate Timely(calls: seq<Judged>) {
    forall i :: 0 <= i < |calls| ==> calls[i].now >= Clock(calls[..i])
  }

  /** A process of the protocol with these calls and windows, before it sends anything. */
  function Counting(calls: seq<Judged>, w: Snapshot): Process { Process(calls, w, [], 0, []) }

  lemma {:induction false} NothingCountedYet()
    ensures Truthful(Counting([], Fresh().timesum))
  {}

  lemma {:induction false} WindowsAfter(l: Local, op: C.Op)
    requires l.Shaped()
    ensures var js := Judging(l, op);
            C.Apply(l, op).timesum ==
              if js == [] then l.timesum else CountInWindow(l.timesum, js[0].now, js[0].passed, js[0].setRefused)
  {}

  lemma {:induction false} JudgingKeepsTruthful(calls: seq<Judged>, l: Local, op: C.Op)
    requires l.Shaped() && Timely(calls + Judging(l, op)) && Truthful(Counting(calls, l.timesum))
    ensures Truthful(Counting(calls + Judging(l, op), C.Apply(l, op).timesum))
  {
    var js := Judging(l, op);
    WindowsAfter(l, op);
    if js == [] {
      assert calls + js == calls;
    } else {
      assert (calls + js)[|calls|] == js[0] && (calls + js)[..|calls|] == calls;
      assert js == [js[0]];
      CallKeepsTruthful(Counting(calls, l.timesum), js[0]);
      assert AfterCall(Counting(calls, l.timesum), js[0]) == Counting(calls + js, C.Apply(l, op).timesum);
    }
  }

  lemma {:induction false} TimelyBefore(calls: seq<Judged>, more: seq<Judged>)
    requires Timely(calls + more)
    ensures Timely(calls)
  {
    forall i | 0 <= i < |calls| ensures calls[i].now >= Clock(calls[..i]) {
      assert (calls + more)[i] == calls[i] && (calls + more)[..i] == calls[..i];
    }
  }

  /** After any history the client's windows are those of a process of the protocol with its judged calls. */
  lemma {:induction false} HistoryIsTruthful(ops: seq<C.Op>)
    requires Timely(JudgedCalls(ops))
    ensures Truthful(Counting(JudgedCalls(ops), C.History(ops).timesum))
  {
    if ops == [] {
      NothingCountedYet();
    } else {
      var init, op := ops[..|ops| - 1], ops[|ops| - 1];
      TimelyBefore(JudgedCalls(init), Judging(C.History(init), op));
      HistoryIsTruthful(init);
      JudgingKeepsTruthful(JudgedCalls(init), C.History(init), op);
    }
  }

  /**
   * A window in use counts the calls of its period: as passed those whose verdict was below 2, as
   * refused the others, and as refused for the set those refused there. And the window of every
   * judged call is in use, for its period or a later one.
   */
  lemma {:induction false} WindowsCountVerdicts(ops: seq<C.Op>, n: nat)
    requires Timely(JudgedCalls(ops)) && n < NUM_PER_MIN
    ensures var t, js := C.History(ops).timesum[n], JudgedCalls(ops);
            t.timekey > 0 ==>
              t.counts == Counts(|PassedIn(js, t.timekey)|, |RefusedIn(js, t.timekey)|, |SetRefusedIn(js, t.timekey)|)
    ensures var w, js := C.History(ops).timesum, JudgedCalls(ops);
            forall i :: 0 <= i < |js| ==> 0 < KeyOf(js[i].now) <= w[IndexOf(js[i].now)].timekey
  {
    HistoryIsTruthful(ops);
    CountedMeans(JudgedCalls(ops), C.History(ops).timesum[n].timekey);
  }

  // ------------------------------------------------------------- the lines sent

  /** The lines of a report as the server's events. */
  function AsEvents(id: Id, ts: seq<TimeSum>): seq<Event>
    requires forall i :: 0 <= i < |ts| ==> InRange(ts[i].counts)
  {
    seq(|ts|, i requires 0 <= i < |ts| && InRange(ts[i].counts) => Report(id, ToItem(ts[i])))
  }

  lemma {:induction false} LinesInRange(w: Snapshot, n: nat)
    requires n <= NUM_PER_MIN && Fits(w)
    ensures forall i :: 0 <= i < |ReportLines(w[..n])| ==> InRange(ReportLines(w[..n])[i].counts)
  {
    if n > 0 {
      assert w[..n][..n - 1] == w[..n - 1];
      LinesInRange(w, n - 1);
    }
  }

  /** What a client sends is what the protocol delivers: one line for each of the first `n` windows in use, in order. */
  lemma {:induction false} ReportIsLines(id: Id, w: Snapshot, n: nat)
    requires n <= NUM_PER_MIN && Fits(w)
    ensures forall i :: 0 <= i < |ReportLines(w[..n])| ==> InRange(ReportLines(w[..n])[i].counts)
    ensures AsEvents(id, ReportLines(w[..n])) == Lines(id, w, n)
  {
    LinesInRange(w, n);
    if n > 0 {
      assert w[..n][..n - 1] == w[..n - 1];
      ReportIsLines(id, w, n - 1);
    }
  }
}
