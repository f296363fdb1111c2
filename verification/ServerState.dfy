/** The server's buckets as the program keeps them: counters and maps updated in place. */
module ServerState {
  import opened TimeKeys
  import opened ReportMerge

  /** The counters of one process in one bucket. */
  class ProData {
    var sum: int
    var refuse: int
    var setrefuse: int

    ghost function View(): Counts reads this { Counts(sum, refuse, setrefuse) }

    constructor (sum: int, refuse: int, setrefuse: int)
      ensures View() == Counts(sum, refuse, setrefuse)
    {
      this.sum, this.refuse, this.setrefuse := sum, refuse, setrefuse;
    }
  }

  /** One bucket. */
  class TimeItem {
    var timekey: nat
    var sum: int
    var refuse: int
    var setrefuse: int
    var mapidnum: map<Id, ProData>
    ghost var Repr: set<object>

    ghost var Contents: Bucket

    ghost predicate Valid()
      reads this, Repr
      ensures Valid() ==> this in Repr
    {
      && this in Repr
      && (forall id :: id in mapidnum ==> mapidnum[id] in Repr)
      && (forall p, q :: p in mapidnum && q in mapidnum && p != q ==> mapidnum[p] != mapidnum[q])
      && Contents == Bucket(timekey, Total(), map id | id in mapidnum :: mapidnum[id].View())
    }

    ghost function Total(): Counts reads this { Counts(sum, refuse, setrefuse) }

    constructor ()
      ensures Valid() && Repr == {this} && Contents == EMPTY
    {
      timekey, sum, refuse, setrefuse := 0, 0, 0, 0;
      mapidnum := map[];
      Repr := {this};
      Contents := EMPTY;
    }

    method InitAll(item: Item, timekey: nat)
      modifies this`timekey, this`sum, this`refuse, this`setrefuse
      ensures this.timekey == timekey && Total() == item.Reported()
    {
      sum := item.reportnum;
      refuse := if item.refuse > 0 then item.refuse else 0;
      setrefuse := if item.setrefuse > 0 then item.setrefuse else 0;
      this.timekey := timekey;
    }

    /** Finds the process's counters, inserting zero ones when there are none. */
    method InitStrIntMap(id: Id) returns (data: ProData)
      requires Valid()
      modifies this
      ensures Valid() && fresh(Repr - old(Repr)) && Contents == Touch(old(Contents), id)
      ensures id in mapidnum && data == mapidnum[id]
    {
      if id !in mapidnum {
        var prodata := new ProData(0, 0, 0);
        mapidnum := mapidnum[id := prodata];
        Repr := Repr + {prodata};
        Contents := Touch(Contents, id);
      }
      data := mapidnum[id];
    }
  }

  /** The objects a nullable reference may stand for. */
  function Target(p: ProData?): set<object> {
    if p == null then {} else {p}
  }

  // The incremental updates. `last` may be the very object that `prociddata` updates.

  method NormalAddSum(titem: TimeItem, last: ProData, item: Item, prociddata: ProData?)
    modifies titem`sum, Target(prociddata)
    ensures titem.sum == old(titem.sum) - old(last.sum) + item.reportnum
    ensures prociddata != null ==> prociddata.View() == old(prociddata.View()).(sum := item.reportnum)
  {
    var sum := item.reportnum;
    titem.sum := titem.sum - last.sum;
    titem.sum := titem.sum + sum;
    if prociddata != null {
      prociddata.sum := sum;
    }
  }

  method NormalAddRefuse(titem: TimeItem, last: ProData, item: Item, prociddata: ProData?)
    modifies titem`refuse, Target(prociddata)
    ensures titem.refuse == old(titem.refuse) - old(last.refuse) + item.Reported().refuse
    ensures prociddata != null ==>
      prociddata.View() == old(prociddata.View()).(refuse := item.Reported().refuse)
  {
    var refuse := if item.refuse > 0 then item.refuse else 0;
    titem.refuse := titem.refuse - last.refuse;
    titem.refuse := titem.refuse + refuse;
    if prociddata != null {
      prociddata.refuse := refuse;
    }
  }

  method NormalAddSetRefuse(titem: TimeItem, last: ProData, item: Item, prociddata: ProData?)
    modifies titem`setrefuse, Target(prociddata)
    ensures titem.setrefuse == old(titem.setrefuse) - old(last.setrefuse) + item.Reported().setrefuse
    ensures prociddata != null ==>
      prociddata.View() == old(prociddata.View()).(setrefuse := item.Reported().setrefuse)
  {
    var setrefuse := if item.setrefuse > 0 then item.setrefuse else 0;
    titem.setrefuse := titem.setrefuse - last.setrefuse;
    titem.setrefuse := titem.setrefuse + setrefuse;
    if prociddata != null {
      prociddata.setrefuse := setrefuse;
    }
  }

  method NormalAddAll(titem: TimeItem, last: ProData, item: Item, prociddata: ProData?)
    modifies titem`sum, titem`refuse, titem`setrefuse, Target(prociddata)
    ensures titem.Total() == Plus(Minus(old(titem.Total()), old(last.View())), item.Reported())
    ensures prociddata != null ==> prociddata.View() == item.Reported()
  {
    NormalAddSum(titem, last, item, prociddata);
    NormalAddRefuse(titem, last, item, prociddata);
    NormalAddSetRefuse(titem, last, item, prociddata);
  }

  method ReSetAddAll(titem: TimeItem, item: Item, prociddata: ProData?)
    modifies titem`sum, titem`refuse, titem`setrefuse, Target(prociddata)
    ensures titem.Total() == Plus(old(titem.Total()), item.Reported())
    ensures prociddata != null ==> prociddata.View() == item.Reported()
  {
    var now := item.Reported();
    titem.sum := titem.sum + now.sum;
    if prociddata != null { prociddata.sum := now.sum; }
    titem.refuse := titem.refuse + now.refuse;
    if prociddata != null { prociddata.refuse := now.refuse; }
    titem.setrefuse := titem.setrefuse + now.setrefuse;
    if prociddata != null { prociddata.setrefuse := now.setrefuse; }
  }

  /** Starts a new period in the bucket with this one report. */
  method StartPeriod(titem: TimeItem, id: Id, item: Item, timekey: nat)
    requires titem.Valid()
    modifies titem
    ensures titem.Valid() && fresh(titem.Repr - old(titem.Repr))
    ensures titem.Contents == Bucket(timekey, item.Reported(), map[id := item.Reported()])
  {
    titem.InitAll(item, timekey);
    var reportpro := new ProData(titem.sum, titem.refuse, titem.setrefuse);
    titem.mapidnum := map[];
    titem.mapidnum := titem.mapidnum[id := reportpro];
    titem.Repr := titem.Repr + {reportpro};
    titem.Contents := Bucket(timekey, item.Reported(), map[id := item.Reported()]);
  }

  /** The totals and the process's counters, with the report on top of the last one or instead of it. */
  method AdvanceTotals(titem: TimeItem, item: Item, last: ProData, prociddata: ProData)
    requires last.View() == prociddata.View()
    modifies titem`sum, titem`refuse, titem`setrefuse, prociddata
    ensures titem.Total() == Advance(old(titem.Total()), old(last.View()), item.Reported())
    ensures prociddata.View() == item.Reported()
  {
    if last.sum == 0 || item.reportnum < last.sum {
      ReSetAddAll(titem, item, prociddata);
    } else if item.reportnum >= last.sum {
      NormalAddAll(titem, last, item, prociddata);
    }
  }

  /** Adds a report to the running period, either on top of the process's counters or instead of them. */
  method Accumulate(titem: TimeItem, id: Id, item: Item, last: ProData, prociddata: ProData)
    requires titem.Valid() && id in titem.mapidnum && prociddata == titem.mapidnum[id]
    requires last.View() == prociddata.View() && (last == prociddata || last !in titem.Repr)
    modifies titem`sum, titem`refuse, titem`setrefuse, titem`Contents, prociddata
    ensures titem.Valid()
    ensures titem.Contents == old(titem.Contents).(
      total := Advance(old(titem.Contents.total), old(last.View()), item.Reported()),
      entries := old(titem.Contents.entries)[id := item.Reported()])
  {
    AdvanceTotals(titem, item, last, prociddata);
    titem.Contents := Bucket(titem.timekey, titem.Total(), titem.Contents.entries[id := item.Reported()]);
  }

  /** Merging a report for an activity: the previous counters are copied before the update. */
  method MergeReport(titem: TimeItem, id: Id, item: Item)
    requires titem.Valid() && item.Accepted()
    modifies titem.Repr
    ensures titem.Valid() && fresh(titem.Repr - old(titem.Repr))
    ensures titem.Contents == Merge(old(titem.Contents), id, item)
  {
    var timekey, index := GetTimeKey(item.timekey);
    var prociddata := titem.InitStrIntMap(id);
    var last := new ProData(prociddata.sum, prociddata.refuse, prociddata.setrefuse);
    assert titem.Contents == Touch(old(titem.Contents), id);
    if titem.timekey == 0 || timekey > titem.timekey {
      StartPeriod(titem, id, item, timekey);
    } else if timekey == titem.timekey {
      Accumulate(titem, id, item, last, prociddata);
    }
  }

  /** Merging a report for a set: stale periods are skipped, and the update reads what it writes. */
  method MergeSetReport(titem: TimeItem, id: Id, item: Item)
    requires titem.Valid() && item.Accepted()
    modifies titem.Repr
    ensures titem.Valid() && fresh(titem.Repr - old(titem.Repr))
    ensures titem.Contents == SetMerge(old(titem.Contents), id, item)
  {
    var timekey, index := GetTimeKey(item.timekey);
    if timekey < titem.timekey {
      return;
    }
    var tmpprocdata := titem.InitStrIntMap(id);
    assert titem.Contents == Touch(old(titem.Contents), id);
    if titem.timekey == 0 || timekey > titem.timekey {
      StartPeriod(titem, id, item, timekey);
    } else if timekey == titem.timekey {
      Accumulate(titem, id, item, tmpprocdata, tmpprocdata);
    }
  }
}
