/** The client as the program keeps it: per-key records updated in place, two process-wide counters. */
module ClientState {
  import opened Optional
  import opened TimeKeys
  import opened ReportMerge
  import opened LocalQuota

  class LocalData {
    const timesum: array<TimeSum>
    const qarray: array<nat>
    var index: nat
    var totalquota: nat
    var localquota: nat
    var localquotaver: nat
    var restrainquota: nat
    var nowsum: nat
    var updatetime: nat
    var now: nat
    var lock: nat
    var totalworkernum: nat
    var setquota: nat
    var setsum: nat
    var procquota: nat
    var averq: nat

    ghost predicate Valid() {
      timesum.Length == NUM_PER_MIN && qarray.Length == QUOTA_ARRAY_NUM
    }

    ghost function View(): Local
      reads this, timesum, qarray
    {
      Local(timesum[..], qarray[..], index, totalquota, localquota, localquotaver, restrainquota, nowsum,
            updatetime, now, lock, totalworkernum, setquota, setsum, procquota, averq)
    }

    constructor ()
      ensures Valid() && View() == Fresh() && fresh(timesum) && fresh(qarray)
    {
      timesum := new TimeSum[NUM_PER_MIN](_ => TimeSum(0, ZERO));
      qarray := new nat[QUOTA_ARRAY_NUM](_ => 0);
      index, totalquota, localquota, localquotaver, restrainquota := 0, 0, 0, 0, 0;
      nowsum, updatetime, now, lock, totalworkernum := 0, 0, 0, 0, 0;
      setquota, setsum, procquota, averq := 0, 0, 0, 0;
    }

    /** The mean of the remembered quotas. */
    method GetAverQ() returns (ret: nat)
      ensures ret == Mean(qarray[..])
    {
      ret := 0;
      var num, quota := 0, 0;
      for i := 0 to qarray.Length
        invariant quota == Total(qarray[..i]) && num == Positives(qarray[..i])
      {
        assert qarray[..i + 1][..i] == qarray[..i];
        if qarray[i] > 0 {
          num := num + 1;
          quota := quota + qarray[i];
        }
      }
      assert qarray[..qarray.Length] == qarray[..];
      if num > 0 {
        ret := quota / num;
      }
    }

    method ClearQuota()
      requires Valid()
      modifies qarray
      ensures qarray[..] == Cleared()
    {
      forall i | 0 <= i < qarray.Length {
        qarray[i] := 0;
      }
    }

    method QSetValid() returns (valid: bool)
      modifies this`averq
      ensures View() == AfterSetCheck(old(View())) && valid == SetConfigured(old(View()))
    {
      valid := false;
      if setquota > 0 && setsum > 0 {
        if procquota == 0 {
          if totalworkernum > 0 {
            averq := setquota / totalworkernum;
          }
        }
        valid := procquota > 0 || averq > 0;
      }
    }

    /** The percentage test refuses exactly at or above the limit; the random band above it is empty. */
    method QSetOverLoad(nowsum: nat) returns (over: bool)
      modifies this`averq
      ensures View() == AfterSetCheck(old(View())) && over == SetOverloaded(old(View()), nowsum)
    {
      over := false;
      var valid := QSetValid();
      if valid {
        var tmp := if procquota > 0 then procquota else averq;
        var percent := nowsum * 100 / tmp;
        PercentTest(nowsum, tmp);
        if percent >= 100 + QUOTA_FLOAT_PERCENT {
          over := true;
        } else if percent >= 100 {
          assert false;
        }
      }
    }

    /** The even division used when there is no server quota. */
    method ProcessByAver() returns (flag: bool, ret: nat)
      ensures flag == (EvenShare(View()) > THRESHOLD_PER_SECOND)
      ensures ret == if flag && nowsum >= EvenShare(View()) then 2 else 0
    {
      flag, ret := false, 0;
      var averquota := 0;
      if totalworkernum > 0 {
        averquota := totalquota / totalworkernum;
      }
      if averquota > THRESHOLD_PER_SECOND {
        flag := true;
        var percent := nowsum * 100 / averquota;
        PercentTest(nowsum, averquota);
        if percent >= 100 + QUOTA_FLOAT_PERCENT {
          ret := 2;
        } else if percent >= 100 {
          assert false;
        }
      }
    }

    /** The fallback to another key's quota; that key may be this one. */
    method ProcessByRefer(refer: LocalData?, now: nat) returns (flag: bool, ret: nat)
      requires Scalable(OfferOf(refer), now)
      ensures var q := ReferQuota(OfferOf(refer), totalquota, now);
              flag == (q > THRESHOLD_PER_SECOND) && ret == if flag && nowsum > q then 2 else 0
    {
      flag, ret := false, 0;
      var referquota: int := 0;
      if refer != null {
        if refer.restrainquota > 0 && refer.updatetime <= now && now - refer.updatetime < HEARTBEAT_LIMIT
           && refer.localquota > 0 {
          referquota := ToInt32(refer.restrainquota * totalquota / refer.totalquota);
        }
      }
      if referquota > THRESHOLD_PER_SECOND {
        flag := true;
        if nowsum > referquota {
          ret := 2;
        }
      }
    }

    /** What the other key offers once this key's total quota is `totalquota`. */
    ghost function Offered(refer: LocalData?, totalquota: nat): Option<Offer>
      reads this, refer
    {
      if refer == this then Some(Offer(restrainquota, localquota, updatetime, totalquota)) else OfferOf(refer)
    }

    /** The fallback is reached, and would divide by zero. */
    ghost predicate WouldDivideByZero(now: nat, totalquota: nat, refer: LocalData?, later: nat)
      requires Valid()
      reads this, timesum, qarray, refer
    {
      now == this.now && Unguided(View(), now) && !Scalable(Offered(refer, totalquota), later)
    }

    /** The fallbacks, one after the other. */
    method FallBack(refer: LocalData?, later: nat) returns (ret: nat)
      requires Scalable(OfferOf(refer), later)
      ensures ret == if UnguidedRefuses(View(), ReferQuota(OfferOf(refer), totalquota, later)) then 2 else 0
    {
      var result;
      result, ret := ProcessByRefer(refer, later);
      if !result {
        result, ret := ProcessByAver();
        if !result {
          ret := 0;
        }
      }
    }

    /** The act check of one call. The other key's data is null when no key is named; its fallback reads the clock again. */
    method ActCheck(now: nat, totalquota: nat, refer: LocalData?, later: nat) returns (ret: nat)
      requires Valid() && now >= updatetime && !WouldDivideByZero(now, totalquota, refer, later)
      modifies this`totalquota, this`now, this`nowsum, qarray
      ensures View() == AfterActCheck(old(View()), now, totalquota)
      ensures var q := ReferQuota(old(Offered(refer, totalquota)), totalquota, later);
              ret == ActVerdict(old(View()), now, totalquota, q)
    {
      if this.totalquota != totalquota {
        this.totalquota := totalquota;
      }
      if now != this.now {
        this.now := now;
        nowsum := 1;
        ret := 0;
      } else {
        nowsum := nowsum + 1;
        var heartbeat := now > updatetime && now - updatetime > HEARTBEAT_LIMIT;
        var threshold := localquotaver < THRESHOLD_PER_SECOND;
        if heartbeat || threshold {
          if heartbeat {
            ClearQuota();
          }
          ret := FallBack(refer, later);
        } else if restrainquota > THRESHOLD_PER_SECOND && nowsum > restrainquota {
          ret := 2;
        } else if localquotaver > 0 && nowsum > localquotaver {
          ret := 1;
        } else {
          ret := 0;
        }
      }
    }

    /** Counts the call in the current window. */
    method UpdateCache(now: nat, ret: nat, setret: bool)
      requires Valid()
      modifies timesum
      ensures timesum[..] == CountInWindow(old(timesum[..]), now, ret < 2, setret)
    {
      var timekey, i := GetTimeKey(now);
      i := i % NUM_PER_MIN;
      var t := timesum[i];
      if t.timekey != timekey {
        timesum[i] := TimeSum(timekey, Counts(if ret < 2 then 1 else 0, if ret < 2 then 0 else 1, if setret then 1 else 0));
      } else {
        var c := t.counts;
        if ret < 2 { c := c.(sum := c.sum + 1); } else { c := c.(refuse := c.refuse + 1); }
        if setret { c := c.(setrefuse := c.setrefuse + 1); }
        timesum[i] := TimeSum(timekey, c);
      }
    }

    /** Both checks of one call, and its count. */
    method JudgeCall(now: nat, totalquota: nat, refer: LocalData?, later: nat, sum: nat) returns (verdict: Verdict)
      requires Valid() && now >= updatetime && !WouldDivideByZero(now, totalquota, refer, later)
      modifies this`totalquota, this`now, this`nowsum, this`averq, timesum, qarray
      ensures var q := ReferQuota(old(Offered(refer, totalquota)), totalquota, later);
              verdict == Judge(old(View()), now, totalquota, q, sum)
      ensures View() == AfterVerdict(old(View()), now, totalquota, verdict)
    {
      var ret := ActCheck(now, totalquota, refer, later);
      var setret := false;
      if ret < 2 {
        setret := QSetOverLoad(sum);
      }
      UpdateCache(now, ret, setret);
      verdict := Verdict(ret, setret);
    }

    /** The report to send: every window that was ever used. */
    method MakeReport() returns (lines: seq<TimeSum>)
      ensures lines == ReportLines(timesum[..])
    {
      lines := [];
      for n := 0 to timesum.Length
        invariant lines == ReportLines(timesum[..n])
      {
        assert timesum[..n + 1][..n] == timesum[..n];
        if timesum[n].timekey > 0 {
          lines := lines + [timesum[n]];
        }
      }
      assert timesum[..timesum.Length] == timesum[..];
    }

    /** Puts a positive reply into the ring and takes the new mean. */
    method Remember(localq: nat)
      requires Valid()
      modifies this`index, this`localquotaver, this`restrainquota, this`localquota, qarray
      ensures var q := old(qarray[..])[old(index) % QUOTA_ARRAY_NUM := localq];
              View() == old(View()).(index := old(index) + 1, qarray := q, localquotaver := Mean(q),
                                     restrainquota := Mean(q), localquota := localq)
    {
      var arrind := index % QUOTA_ARRAY_NUM;
      index := index + 1;
      qarray[arrind] := localq;
      localquotaver := GetAverQ();
      restrainquota := localquotaver * (100 + QUOTA_FLOAT_PERCENT) / 100;
      if localquota != localq {
        localquota := localq;
      }
    }

    /** Takes over the positive fields of a reply. */
    method Adopt(rsp: Reply)
      modifies this`totalworkernum, this`setquota, this`setsum, this`procquota
      ensures totalworkernum == (if rsp.totalworkernum > 0 then rsp.totalworkernum else old(totalworkernum))
      ensures setquota == (if rsp.setquota > 0 then rsp.setquota else old(setquota))
      ensures setsum == (if rsp.setsum > 0 then rsp.setsum else old(setsum))
      ensures procquota == (if rsp.procquota > 0 then rsp.procquota else old(procquota))
    {
      if rsp.totalworkernum > 0 { totalworkernum := rsp.totalworkernum; }
      if rsp.setquota > 0 { setquota := rsp.setquota; }
      if rsp.setsum > 0 { setsum := rsp.setsum; }
      if rsp.procquota > 0 { procquota := rsp.procquota; }
    }

    /** What a reply to the request sent at `now` changes. */
    method Receive(now: nat, sameKey: bool, rsp: Reply)
      requires Valid()
      modifies this, qarray
      ensures View() == AfterReply(old(View()), now, sameKey, rsp)
    {
      updatetime := now;
      if sameKey {
        if rsp.localq > 0 {
          Remember(rsp.localq);
          Adopt(rsp);
        }
      }
    }
  }

  /**
   * The calls of one client process. A call runs `CheckQuota` up to the point where the
   * network would make it wait, and `Resume` afterwards; other calls may run in between.
   */
  class ServiceQua {
    var s_now: nat
    var s_setsum: nat

    constructor ()
      ensures s_now == 0 && s_setsum == 0
    {
      s_now, s_setsum := 0, 0;
    }

    /** A call up to its wait, or to its end when it sends nothing. A clock behind the last reply skips all checks. */
    method CheckQuota(local: LocalData, now: nat, totalquota: nat, refer: LocalData?, later: nat)
      returns (verdict: Verdict, sent: Option<seq<TimeSum>>)
      requires local.Valid() && (now >= local.updatetime ==> !local.WouldDivideByZero(now, totalquota, refer, later))
      modifies this, local, local.timesum, local.qarray
      ensures s_now == now
      ensures var sum := if old(s_now) == now then old(s_setsum) else 0;
              var q := ReferQuota(old(local.Offered(refer, totalquota)), totalquota, later);
              var b := BeginCall(old(local.View()), sum, now, totalquota, q);
              && verdict == b.verdict && local.View() == b.local && s_setsum == b.sum
              && sent == if b.sent then Some(ReportLines(b.local.timesum)) else None
    {
      ghost var before := local.View();
      if s_now != now {
        s_now := now;
        s_setsum := 0;
      }
      assert local.View() == before;
      if now >= local.updatetime {
        verdict := local.JudgeCall(now, totalquota, refer, later, s_setsum);
        sent := Send(local, now, verdict);
      } else {
        verdict, sent := Verdict(0, false), None;
        Finish(verdict);
      }
    }

    /** Sends the report when one is due and none is waiting; otherwise the call ends here. */
    method Send(local: LocalData, now: nat, verdict: Verdict) returns (sent: Option<seq<TimeSum>>)
      requires local.Valid() && now >= local.updatetime
      modifies this`s_setsum, local`lock
      ensures sent == if WantsReport(old(local.View()), now) then Some(ReportLines(local.timesum[..])) else None
      ensures local.View() == if sent.Some? then old(local.View()).(lock := 1) else old(local.View())
      ensures s_setsum == if sent.None? && verdict.Admitted() then old(s_setsum) + 1 else old(s_setsum)
    {
      var delta := now - local.updatetime;
      sent := None;
      if delta >= REPORT_PERIOD && local.lock == 0 {
        local.lock := 1;
        var lines := local.MakeReport();
        sent := Some(lines);
      } else {
        Finish(verdict);
      }
    }

    /** The end of every call: an admitted call is counted only here. */
    method Finish(verdict: Verdict)
      modifies this`s_setsum
      ensures s_setsum == if verdict.Admitted() then old(s_setsum) + 1 else old(s_setsum)
    {
      if verdict.setRefused {
        return;
      }
      if verdict.ret < 2 {
        s_setsum := s_setsum + 1;
      }
    }

    /** The rest of a call that waited: `sentAt` and `verdict` are what it remembered across the wait. */
    method Resume(local: LocalData, sentAt: nat, verdict: Verdict, reply: Option<(bool, Reply)>)
      requires local.Valid()
      modifies this`s_setsum, local, local.qarray
      ensures local.View() == EndCall(old(local.View()), sentAt, reply)
      ensures s_setsum == if verdict.Admitted() then old(s_setsum) + 1 else old(s_setsum)
    {
      match reply {
        case None =>
        case Some((sameKey, rsp)) => local.Receive(sentAt, sameKey, rsp);
      }
      local.lock := 0;
      Finish(verdict);
    }
  }

  /** The fields of a key's data that the fallback of another key reads. */
  ghost function OfferOf(refer: LocalData?): Option<Offer>
    reads refer
  {
    if refer == null then None
    else Some(Offer(refer.restrainquota, refer.localquota, refer.updatetime, refer.totalquota))
  }

  /** A truncated percentage reaches 100 exactly when the count reaches the limit. */
  lemma {:induction false} PercentTest(n: nat, limit: nat)
    requires limit > 0
    ensures n * 100 / limit >= 100 <==> n >= limit
  {}
}
