/**
 * The merge of repeated cumulative reports into a ring of time buckets: what one
 * report does to a bucket, and what a whole run of reports leaves there.
 */
module ReportMerge {
  import opened FiniteSums
  import opened TimeKeys

  /** A process id, "ip_group" in the source. */
  type Id = string

  type int32 = x: int | -0x8000_0000 <= x < 0x8000_0000

  datatype Field = Admitted | Refused | SetRefused

  /** The three cumulative counters a process reports for one bucket. */
  datatype Counts = Counts(sum: int, refuse: int, setrefuse: int) {
    function Get(f: Field): int {
      match f
      case Admitted => sum
      case Refused => refuse
      case SetRefused => setrefuse
    }

    predicate NonNegative() { sum >= 0 && refuse >= 0 && setrefuse >= 0 }

    predicate AtMost(that: Counts) {
      sum <= that.sum && refuse <= that.refuse && setrefuse <= that.setrefuse
    }
  }

  const ZERO := Counts(0, 0, 0)

  function Plus(a: Counts, b: Counts): Counts {
    Counts(a.sum + b.sum, a.refuse + b.refuse, a.setrefuse + b.setrefuse)
  }

  function Minus(a: Counts, b: Counts): Counts {
    Counts(a.sum - b.sum, a.refuse - b.refuse, a.setrefuse - b.setrefuse)
  }

  /** One line of a report: the counters of one bucket, with counts that fit the source's int32. */
  datatype Item = Item(timekey: int, reportnum: int32, refuse: int32, setrefuse: int32) {
    predicate Accepted() { timekey > 0 && reportnum > 0 }

    function Reported(): Counts {
      Counts(reportnum, if refuse > 0 then refuse else 0, if setrefuse > 0 then setrefuse else 0)
    }

    function Key(): nat requires Accepted() { KeyOf(timekey) }

    function Index(): nat requires Accepted() { IndexOf(timekey) }
  }

  /** A server bucket: its period, its totals, and the last counters seen from each process. */
  datatype Bucket = Bucket(timekey: nat, total: Counts, entries: map<Id, Counts>)

  const EMPTY := Bucket(0, ZERO, map[])

  /** A lookup inserts a zero entry when the process has none. */
  function Touch(b: Bucket, id: Id): (r: Bucket)
    ensures id in r.entries
  {
    if id in b.entries then b else b.(entries := b.entries[id := ZERO])
  }

  function Merge(b: Bucket, id: Id, item: Item): Bucket
    requires item.Accepted()
  {
    var touched := Touch(b, id);
    var last, now := touched.entries[id], item.Reported();
    if b.timekey == 0 || item.Key() > b.timekey then
      Bucket(item.Key(), now, map[id := now])
    else if item.Key() < b.timekey then
      touched
    else if last.sum == 0 || now.sum < last.sum then
      Bucket(b.timekey, Plus(b.total, now), touched.entries[id := now])
    else
      Bucket(b.timekey, Plus(Minus(b.total, last), now), touched.entries[id := now])
  }

  /** Windows of a set and of its processes: a report for an older period is skipped without a lookup. */
  function SetMerge(b: Bucket, id: Id, item: Item): Bucket
    requires item.Accepted()
  {
    if item.Key() < b.timekey then b else Merge(b, id, item)
  }

  // ---------------------------------------------------------------- whole runs

  /** What can happen to a ring of buckets: a reported line, or a lookup at one ring position. */
  datatype Event = Report(id: Id, item: Item) | Lookup(id: Id, index: nat)

  type Ring = r: seq<Bucket> | |r| == NUM_PER_MIN witness seq(NUM_PER_MIN, _ => EMPTY)

  function Step(ring: Ring, e: Event): Ring {
    match e
    case Report(id, item) =>
      if item.Accepted() then ring[item.Index() := Merge(ring[item.Index()], id, item)] else ring
    case Lookup(id, i) =>
      if i < NUM_PER_MIN then ring[i := Touch(ring[i], id)] else ring
  }

  function Run(h: seq<Event>): Ring {
    if h == [] then seq(NUM_PER_MIN, _ => EMPTY) else Step(Run(h[..|h| - 1]), h[|h| - 1])
  }

  // ------------------------------------------- what the run should have counted

  predicate Hits(e: Event, i: nat) {
    e.Report? && e.item.Accepted() && e.item.Index() == i
  }

  /** The newest period ever reported at ring position `i`. */
  function LatestKey(h: seq<Event>, i: nat): nat {
    if h == [] then 0 else
      var before, e := LatestKey(h[..|h| - 1], i), h[|h| - 1];
      if Hits(e, i) && e.item.Key() > before then e.item.Key() else before
  }

  /** Everything process `id` reported for period `key`, in order. */
  function Values(h: seq<Event>, i: nat, key: nat, id: Id): seq<Counts> {
    if h == [] then [] else
      var before, e := Values(h[..|h| - 1], i, key, id), h[|h| - 1];
      if Hits(e, i) && e.id == id && e.item.Key() == key then before + [e.item.Reported()] else before
  }

  /** The final counters of every epoch that a restart closed: a report followed by a smaller one. */
  function Closed(vs: seq<Counts>): Counts {
    if |vs| < 2 then ZERO else
      var n := |vs|;
      Plus(Closed(vs[..n - 1]), if vs[n - 1].sum < vs[n - 2].sum then vs[n - 2] else ZERO)
  }

  function Latest(vs: seq<Counts>): Counts {
    if vs == [] then ZERO else vs[|vs| - 1]
  }

  /** What one process contributes: its latest value plus the final value of each closed epoch. */
  function Contribution(vs: seq<Counts>): Counts {
    Plus(Closed(vs), Latest(vs))
  }

  /** The processes that reported for period `key`. */
  function Reporters(h: seq<Event>, i: nat, key: nat): set<Id> {
    if h == [] then {} else
      var before, e := Reporters(h[..|h| - 1], i, key), h[|h| - 1];
      if Hits(e, i) && e.item.Key() == key then before + {e.id} else before
  }

  // ----------------------------------------------- accounts of a single bucket

  /** The reports each process made for the bucket's period. */
  type Book = Id -> seq<Counts>

  ghost function Shares(book: Book, f: Field): Id -> int {
    (id: Id) => Contribution(book(id)).Get(f)
  }

  ghost function TotalContribution(book: Book, ids: set<Id>, f: Field): int {
    Sum(ids, Shares(book, f))
  }

  /** The bucket's totals and entries are what `book` says they should be. */
  ghost predicate Accounts(b: Bucket, book: Book) {
    && (forall id :: id in b.entries ==> b.entries[id] == Latest(book(id)))
    && (forall id :: id !in b.entries ==> book(id) == [])
    && (forall f: Field :: b.total.Get(f) == TotalContribution(book, b.entries.Keys, f))
  }

  lemma {:induction false} AccountsCong(b: Bucket, book: Book, book': Book)
    requires Accounts(b, book) && forall id :: book(id) == book'(id)
    ensures Accounts(b, book')
  {
    forall f: Field ensures b.total.Get(f) == TotalContribution(book', b.entries.Keys, f) {
      SumCong(b.entries.Keys, Shares(book, f), Shares(book', f));
    }
  }

  lemma {:induction false} NoShare(book: Book, id: Id, f: Field)
    requires book(id) == []
    ensures Shares(book, f)(id) == 0
  {}

  lemma {:induction false} ExtendTotal(book: Book, ids: set<Id>, id: Id, f: Field)
    requires id !in ids ==> book(id) == []
    ensures TotalContribution(book, ids + {id}, f) == TotalContribution(book, ids, f)
  {
    if id !in ids {
      NoShare(book, id, f);
      SumExtend(ids, ids + {id}, Shares(book, f));
    } else {
      assert ids + {id} == ids;
    }
  }

  lemma {:induction false} TouchKeepsAccounts(b: Bucket, book: Book, id: Id)
    requires Accounts(b, book)
    ensures Accounts(Touch(b, id), book)
  {
    assert Touch(b, id).entries.Keys == b.entries.Keys + {id};
    forall f: Field ensures b.total.Get(f) == TotalContribution(book, b.entries.Keys + {id}, f) {
      ExtendTotal(book, b.entries.Keys, id, f);
    }
  }

  lemma {:induction false} ClosedGrows(vs: seq<Counts>, v: Counts)
    requires vs != []
    ensures Closed(vs + [v]) == Plus(Closed(vs), if v.sum < Latest(vs).sum then Latest(vs) else ZERO)
  {}

  lemma {:induction false} LatestIsLast(vs: seq<Counts>, v: Counts)
    ensures Latest(vs + [v]) == v
  {}

  /** A total that holds `closed` and `last` advances by one report. */
  lemma {:induction false} AdvanceIs(closed: Counts, last: Counts, v: Counts)
    requires last.sum > 0
    ensures Advance(Plus(closed, last), last, v) == Plus(Plus(closed, if v.sum < last.sum then last else ZERO), v)
  {}

  lemma {:induction false} ContributionGrows(vs: seq<Counts>, v: Counts)
    requires vs == [] || Latest(vs).sum > 0
    ensures Contribution(vs + [v]) == Advance(Contribution(vs), Latest(vs), v)
  {
    LatestIsLast(vs, v);
    if vs == [] {
      assert Closed([v]) == ZERO;
    } else {
      ClosedGrows(vs, v);
      AdvanceIs(Closed(vs), Latest(vs), v);
    }
  }

  /** The running total a bucket moves to when a process adds a report to its book. */
  function Advance(total: Counts, last: Counts, now: Counts): Counts {
    if last.sum == 0 || now.sum < last.sum then Plus(total, now) else Plus(Minus(total, last), now)
  }

  lemma {:induction false} AdvanceTotal(book: Book, book': Book, ids: set<Id>, id: Id, now: Counts, f: Field)
    requires id in ids && (book(id) == [] || Latest(book(id)).sum > 0)
    requires book'(id) == book(id) + [now] && forall x :: x != id ==> book'(x) == book(x)
    ensures TotalContribution(book', ids, f) ==
            TotalContribution(book, ids, f) + Advance(ZERO, Latest(book(id)), now).Get(f)
  {
    ContributionGrows(book(id), now);
    SumUpdate(ids, id, Shares(book, f), Shares(book', f));
  }

  lemma {:induction false} AdvanceField(b: Bucket, book: Book, id: Id, now: Counts, book': Book, f: Field)
    requires Accounts(b, book) && (book(id) == [] || Latest(book(id)).sum > 0)
    requires book'(id) == book(id) + [now] && forall x :: x != id ==> book'(x) == book(x)
    ensures Advance(b.total, Latest(book(id)), now).Get(f) == TotalContribution(book', b.entries.Keys + {id}, f)
  {
    var ids := b.entries.Keys;
    AdvanceShifts(b.total, Latest(book(id)), now, f);
    assert b.total.Get(f) == TotalContribution(book, ids, f);
    ExtendTotal(book, ids, id, f);
    AdvanceTotal(book, book', ids + {id}, id, now, f);
  }

  lemma {:induction false} AdvanceShifts(total: Counts, last: Counts, now: Counts, f: Field)
    ensures Advance(total, last, now).Get(f) == total.Get(f) + Advance(ZERO, last, now).Get(f)
  {}

  lemma {:induction false} AdvanceKeepsAccounts(b: Bucket, book: Book, id: Id, now: Counts, book': Book)
    requires Accounts(b, book) && (book(id) == [] || Latest(book(id)).sum > 0)
    requires book'(id) == book(id) + [now] && forall x :: x != id ==> book'(x) == book(x)
    ensures Accounts(Bucket(b.timekey, Advance(b.total, Latest(book(id)), now), b.entries[id := now]), book')
  {
    assert b.entries[id := now].Keys == b.entries.Keys + {id};
    forall f: Field
      ensures Advance(b.total, Latest(book(id)), now).Get(f) == TotalContribution(book', b.entries.Keys + {id}, f)
    {
      AdvanceField(b, book, id, now, book', f);
    }
  }

  lemma {:induction false} SingleAccount(key: nat, id: Id, now: Counts, book: Book)
    requires forall x :: book(x) == if x == id then [now] else []
    ensures Accounts(Bucket(key, now, map[id := now]), book)
  {
    forall f: Field ensures now.Get(f) == TotalContribution(book, {id}, f) {
      SumSplit({id}, id, Shares(book, f));
      assert {id} - {id} == {};
    }
    assert map[id := now].Keys == {id};
  }

  // ------------------------------------------------------------------ invariant

  ghost function BookOf(h: seq<Event>, i: nat, key: nat): Book {
    (id: Id) => Values(h, i, key, id)
  }

  /** What the bucket at position `i` looks like after run `h`. */
  ghost predicate Conserved(h: seq<Event>, i: nat, b: Bucket) {
    && b.timekey == LatestKey(h, i)
    && (b.timekey > 0 ==> Accounts(b, BookOf(h, i, b.timekey)))
  }

  lemma {:induction false} ValuesArePositive(h: seq<Event>, i: nat, key: nat, id: Id)
    ensures forall v :: v in Values(h, i, key, id) ==> v.sum > 0 && v.NonNegative()
  {
    if h != [] {
      ValuesArePositive(h[..|h| - 1], i, key, id);
    }
  }

  lemma {:induction false} NoValuesBeyondLatest(h: seq<Event>, i: nat, key: nat, id: Id)
    requires key > LatestKey(h, i)
    ensures Values(h, i, key, id) == []
  {
    if h != [] {
      NoValuesBeyondLatest(h[..|h| - 1], i, key, id);
    }
  }

  lemma {:induction false} ValuesStep(h: seq<Event>, e: Event, i: nat, key: nat, id: Id)
    ensures Values(h + [e], i, key, id) ==
            if Hits(e, i) && e.id == id && e.item.Key() == key then Values(h, i, key, id) + [e.item.Reported()]
            else Values(h, i, key, id)
  {}

  lemma {:induction false} NewPeriodIsConserved(h: seq<Event>, i: nat, b: Bucket, id: Id, item: Item)
    requires Conserved(h, i, b) && item.Accepted() && item.Index() == i && item.Key() > b.timekey
    ensures Conserved(h + [Report(id, item)], i, Merge(b, id, item))
  {
    var e, key, now := Report(id, item), item.Key(), item.Reported();
    assert (h + [e])[..|h|] == h;
    var book := BookOf(h + [e], i, key);
    forall x: Id ensures book(x) == if x == id then [now] else [] {
      NoValuesBeyondLatest(h, i, key, x);
      ValuesStep(h, e, i, key, x);
    }
    SingleAccount(key, id, now, book);
  }

  lemma {:induction false} TouchThenSet(b: Bucket, id: Id, now: Counts)
    ensures Touch(b, id).entries[id := now] == b.entries[id := now]
  {}

  lemma {:induction false} SamePeriodIsConserved(h: seq<Event>, i: nat, b: Bucket, id: Id, item: Item)
    requires Conserved(h, i, b) && item.Accepted() && item.Index() == i
    requires item.Key() == b.timekey && b.timekey > 0
    ensures Conserved(h + [Report(id, item)], i, Merge(b, id, item))
  {
    var e, key, now := Report(id, item), item.Key(), item.Reported();
    assert (h + [e])[..|h|] == h;
    var book, book' := BookOf(h, i, key), BookOf(h + [e], i, key);
    forall x: Id
      ensures book'(x) == if x == id then book(x) + [now] else book(x)
    {
      ValuesStep(h, e, i, key, x);
    }
    ValuesArePositive(h, i, key, id);
    AdvanceKeepsAccounts(b, book, id, now, book');
    TouchKeepsAccounts(b, book, id);
    TouchThenSet(b, id, now);
  }

  lemma {:induction false} OtherEventsKeepConserved(h: seq<Event>, e: Event, i: nat, b: Bucket)
    requires Conserved(h, i, b)
    requires !Hits(e, i) || e.item.Key() < b.timekey
    ensures Conserved(h + [e], i, b) && Conserved(h + [e], i, Touch(b, e.id))
  {
    assert (h + [e])[..|h|] == h;
    if b.timekey > 0 {
      var book, book' := BookOf(h, i, b.timekey), BookOf(h + [e], i, b.timekey);
      forall x: Id ensures book(x) == book'(x) {
        ValuesStep(h, e, i, b.timekey, x);
      }
      AccountsCong(b, book, book');
      TouchKeepsAccounts(b, book', e.id);
    }
  }

  /** What an event does at one position. */
  function StepAt(b: Bucket, e: Event, i: nat): Bucket {
    if Hits(e, i) then Merge(b, e.id, e.item) else if e == Lookup(e.id, i) then Touch(b, e.id) else b
  }

  lemma {:induction false} StepIsAt(ring: Ring, e: Event, i: nat)
    requires i < NUM_PER_MIN
    ensures Step(ring, e)[i] == StepAt(ring[i], e, i)
  {}

  lemma {:induction false} AtKeepsConserved(h: seq<Event>, b: Bucket, e: Event, i: nat)
    requires Conserved(h, i, b)
    ensures Conserved(h + [e], i, StepAt(b, e, i))
  {
    assert (h + [e])[..|h|] == h;
    if Hits(e, i) && e.item.Key() > b.timekey {
      NewPeriodIsConserved(h, i, b, e.id, e.item);
    } else if Hits(e, i) && e.item.Key() == b.timekey {
      if b.timekey > 0 {
        SamePeriodIsConserved(h, i, b, e.id, e.item);
      }
    } else {
      OtherEventsKeepConserved(h, e, i, b);
    }
  }

  lemma {:induction false} StepKeepsConserved(h: seq<Event>, ring: Ring, e: Event, i: nat)
    requires i < NUM_PER_MIN && Conserved(h, i, ring[i])
    ensures Conserved(h + [e], i, Step(ring, e)[i])
  {
    AtKeepsConserved(h, ring[i], e, i);
    StepIsAt(ring, e, i);
  }

  lemma {:induction false} RunIsConserved(h: seq<Event>, i: nat)
    requires i < NUM_PER_MIN
    ensures Conserved(h, i, Run(h)[i])
  {
    if h == [] {
      assert Run(h)[i] == EMPTY;
    } else {
      var h0, e := h[..|h| - 1], h[|h| - 1];
      RunIsConserved(h0, i);
      StepKeepsConserved(h0, Run(h0), e, i);
      assert h0 + [e] == h;
    }
  }
}
