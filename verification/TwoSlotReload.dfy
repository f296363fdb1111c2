/** Two slots per configuration file: how long a handed-out slot stays as it is. */
module TwoSlotReload {
  import opened Optional
  const SLOTS := 2
  const MIN_LIFETIME := 180

  datatype Item = Item(data: Option<string>, fileTime: nat, loadTime: nat)

  datatype Entry = Entry(slots: seq<Item>, cur: nat)

  type Files = map<string, Entry>

  /** The outcomes of a load, in the order of their numbers. */
  datatype Flag = Unset | FirstSuccess | Updated | TooFrequent | InMemory | UpdateFailed | FirstFailed

  /** One call: the file's time if it exists, the clock when the call looks at it, when it has read the file and
      when it ends, and what reading the file gives. */
  datatype Request = Request(key: string, stat: Option<nat>, now: nat, read: nat, done: nat, content: Option<string>)

  datatype Reloaded = Reloaded(files: Files, flag: Flag)

  predicate Shaped(e: Entry) { |e.slots| == SLOTS && e.cur < SLOTS }

  predicate AllShaped(files: Files) { forall k :: k in files ==> Shaped(files[k]) }

  function Current(e: Entry): Item
    requires Shaped(e)
  {
    e.slots[e.cur]
  }

  const EMPTY_SLOT := Item(None, 0, 0)

  function Reload(files: Files, r: Request): (s: Reloaded)
    requires AllShaped(files)
    ensures AllShaped(s.files)
  {
    if r.stat.None? then Reloaded(files, Unset)
    else if r.key !in files then
      match r.content
      case None => Reloaded(files, FirstFailed)
      case Some(d) => Reloaded(files[r.key := Entry([Item(Some(d), r.stat.value, r.read), EMPTY_SLOT], 0)], FirstSuccess)
    else
      var e := files[r.key];
      if Current(e).fileTime >= r.stat.value then Reloaded(files, InMemory)
      else if r.now - Current(e).loadTime < MIN_LIFETIME then Reloaded(files, TooFrequent)
      else match r.content
        case None => Reloaded(files, UpdateFailed)
        case Some(d) =>
          var next := (e.cur + 1) % SLOTS;
          Reloaded(files[r.key := Entry(e.slots[next := Item(Some(d), r.stat.value, r.read)], next)], Updated)
  }

  // ------------------------------------------------------------- whole runs

  /** What happens to a slot: its data is written between two moments, or a pointer to it is handed out. */
  datatype Event =
    | Wrote(key: string, index: nat, from: nat)
    | Handed(key: string, index: nat, time: nat)

  datatype State = State(files: Files, history: seq<Event>, clock: nat, latest: map<string, string>)

  const INITIAL := State(map[], [], 0, map[])

  predicate Writes(flag: Flag) { flag == FirstSuccess || flag == Updated }

  /** The events of a call, and the content loaded last for each key. */
  function Step(st: State, r: Request): State
    requires AllShaped(st.files)
  {
    var s := Reload(st.files, r);
    var wrote := if Writes(s.flag) then [Wrote(r.key, s.files[r.key].cur, r.now)] else [];
    var handed := if r.stat.Some? && r.key in s.files then [Handed(r.key, s.files[r.key].cur, r.done)] else [];
    State(s.files, st.history + wrote + handed, r.done, if Writes(s.flag) then st.latest[r.key := r.content.value] else st.latest)
  }

  /** Nothing is written over a slot within its lifetime. */
  predicate LongLived(h: seq<Event>) {
    forall i, j :: 0 <= i < j < |h| && h[i].Handed? && h[j].Wrote? && h[j].key == h[i].key && h[j].index == h[i].index
                   ==> h[j].from >= h[i].time + MIN_LIFETIME
  }

  /** A slot handed out is the current one, or another was loaded after that. */
  predicate Covered(st: State, e: Event)
    requires AllShaped(st.files)
  {
    e.Handed? ==>
      && e.time <= st.clock && e.key in st.files
      && (e.index == st.files[e.key].cur || e.time <= Current(st.files[e.key]).loadTime)
  }

  predicate Safe(st: State) {
    && AllShaped(st.files)
    && st.latest.Keys == st.files.Keys
    && (forall k :: k in st.files ==>
          Current(st.files[k]).data == Some(st.latest[k]) && Current(st.files[k]).loadTime <= st.clock)
    && (forall i :: 0 <= i < |st.history| ==> Covered(st, st.history[i]))
    && LongLived(st.history)
  }

  predicate Clocked(clock: nat, r: Request) { clock <= r.now <= r.read <= r.done }

  /** An event stays covered whatever a call does. */
  lemma {:induction false} StaysCovered(st: State, r: Request, e: Event)
    requires Safe(st) && Clocked(st.clock, r) && Covered(st, e)
    ensures Covered(Step(st, r), e)
  {}

  /** A slot that is written was handed out long enough ago. */
  lemma {:induction false} WrittenLate(st: State, r: Request, e: Event)
    requires Safe(st) && Clocked(st.clock, r) && Covered(st, e) && e.Handed? && e.key == r.key
    requires var s := Reload(st.files, r); Writes(s.flag) && s.files[r.key].cur == e.index
    ensures r.now >= e.time + MIN_LIFETIME
  {}

  lemma {:induction false} HistoryGrows(st: State, r: Request)
    requires Safe(st) && Clocked(st.clock, r)
    ensures LongLived(Step(st, r).history)
  {
    var h := Step(st, r).history;
    var n := |st.history|;
    forall i, j | 0 <= i < j < |h| && h[i].Handed? && h[j].Wrote? && h[j].key == h[i].key && h[j].index == h[i].index
      ensures h[j].from >= h[i].time + MIN_LIFETIME
    {
      if j < n {
        assert h[i] == st.history[i] && h[j] == st.history[j];
      } else {
        assert j == n && h[i] == st.history[i];
        WrittenLate(st, r, h[i]);
      }
    }
  }

  /** The file of a call holds in its current slot what was loaded last, and the others are left alone. */
  lemma {:induction false} FileStaysCurrent(st: State, r: Request, k: string)
    requires Safe(st) && Clocked(st.clock, r) && k in Step(st, r).files
    ensures var st' := Step(st, r);
            k in st'.latest && Shaped(st'.files[k]) &&
            Current(st'.files[k]).data == Some(st'.latest[k]) && Current(st'.files[k]).loadTime <= st'.clock
  {
    if k != r.key {
      assert k in st.files && Step(st, r).files[k] == st.files[k] && Step(st, r).latest[k] == st.latest[k];
    }
  }

  lemma {:induction false} SameKeys(st: State, r: Request)
    requires Safe(st) && Clocked(st.clock, r)
    ensures Step(st, r).latest.Keys == Step(st, r).files.Keys
  {}

  /** The new events of a call are covered. */
  lemma {:induction false} NewEventCovered(st: State, r: Request, i: nat)
    requires Safe(st) && Clocked(st.clock, r) && |st.history| <= i < |Step(st, r).history|
    ensures Covered(Step(st, r), Step(st, r).history[i])
  {}

  lemma {:induction false} StepKeepsSafe(st: State, r: Request)
    requires Safe(st) && Clocked(st.clock, r)
    ensures Safe(Step(st, r))
  {
    HistoryGrows(st, r);
    SameKeys(st, r);
    var st' := Step(st, r);
    forall k | k in st'.files
      ensures Current(st'.files[k]).data == Some(st'.latest[k]) && Current(st'.files[k]).loadTime <= st'.clock
    {
      FileStaysCurrent(st, r, k);
    }
    forall i | 0 <= i < |st'.history| ensures Covered(st', st'.history[i]) {
      if i < |st.history| {
        assert st'.history[i] == st.history[i];
        StaysCovered(st, r, st.history[i]);
      } else {
        NewEventCovered(st, r, i);
      }
    }
  }

  function Run(rs: seq<Request>): State
    requires AllClocked(rs)
    ensures AllShaped(Run(rs).files) && Run(rs).clock == ClockOf(rs)
  {
    if rs == [] then INITIAL else Step(Run(rs[..|rs| - 1]), rs[|rs| - 1])
  }

  function ClockOf(rs: seq<Request>): nat { if rs == [] then 0 else rs[|rs| - 1].done }

  /** The clock never goes back, within calls and between them. */
  predicate AllClocked(rs: seq<Request>) {
    rs != [] ==> AllClocked(rs[..|rs| - 1]) && Clocked(ClockOf(rs[..|rs| - 1]), rs[|rs| - 1])
  }

  /** In every run, data handed out is not written over within three minutes, and the current slot of every file
      holds what was loaded for it last. */
  lemma {:induction false} EveryRunIsSafe(rs: seq<Request>)
    requires AllClocked(rs)
    ensures Safe(Run(rs))
  {
    if rs != [] {
      EveryRunIsSafe(rs[..|rs| - 1]);
      StepKeepsSafe(Run(rs[..|rs| - 1]), rs[|rs| - 1]);
    }
  }

  const FIRST := Request("set", Some(1), 0, 0, 0, Some("a"))
  const AGAIN := Request("set", Some(1), 180, 180, 180, None)
  const SECOND := Request("set", Some(2), 180, 180, 180, Some("b"))
  const THIRD := Request("set", Some(3), 360, 360, 360, Some("c"))

  /** The three minutes are exact: here a slot handed out at second 180 is written over at second 360. */
  lemma {:induction false} LifetimeIsExact()
    ensures var h := Step(Step(Step(Step(INITIAL, FIRST), AGAIN), SECOND), THIRD).history;
            |h| == 7 && h[2] == Handed("set", 0, 180) && h[5] == Wrote("set", 0, 180 + MIN_LIFETIME)
  {
    var s1 := Step(INITIAL, FIRST);
    assert s1.history == [Wrote("set", 0, 0), Handed("set", 0, 0)];
    var s2 := Step(s1, AGAIN);
    assert s2.history == s1.history + [Handed("set", 0, 180)];
    var s3 := Step(s2, SECOND);
    assert s3.history == s2.history + [Wrote("set", 1, 180), Handed("set", 1, 180)];
    var s4 := Step(s3, THIRD);
    assert s4.history == s3.history + [Wrote("set", 0, 360), Handed("set", 0, 360)];
  }

  // -------------------------------------------------------------- the loader

  class Loader {
    var files: Files
    ghost var state: State

    ghost predicate Valid()
      reads this
    {
      Safe(state) && state.files == files
    }

    constructor ()
      ensures Valid() && state == INITIAL
    {
      files := map[];
      state := INITIAL;
    }

    /** Loads a file if it is new or newer; hands out the current slot if there is one. */
    method Load(r: Request) returns (ret: int, flag: Flag, index: nat)
      requires Valid() && Clocked(state.clock, r)
      modifies this
      ensures Valid() && state == Step(old(state), r)
      ensures ret == if r.stat.None? then -1 else if r.key in files then 0 else 1
      ensures flag == Reload(old(files), r).flag
      ensures ret == 0 ==> index == files[r.key].cur && files[r.key].slots[index].data == Some(state.latest[r.key])
    {
      StepKeepsSafe(state, r);
      state := Step(state, r);
      flag, index := Unset, 0;
      match r.stat {
        case None => return -1, flag, index;
        case Some(fileTime) =>
          if r.key !in files {
            match r.content {
              case Some(d) =>
                flag := FirstSuccess;
                files := files[r.key := Entry([Item(Some(d), fileTime, r.read), EMPTY_SLOT], 0)];
              case None => flag := FirstFailed;
            }
          } else {
            flag := Renew(r, fileTime);
          }
      }
      if r.key in files {
        index := files[r.key].cur;
        ret := 0;
      } else {
        ret := 1;
      }
    }

    /** Loads a newer file into the slot that is not current. */
    method Renew(r: Request, fileTime: nat) returns (flag: Flag)
      requires AllShaped(files) && r.key in files && r.stat == Some(fileTime)
      modifies this`files
      ensures Reloaded(files, flag) == Reload(old(files), r)
    {
      var e := files[r.key];
      if e.slots[e.cur].fileTime < fileTime {
        if r.now - e.slots[e.cur].loadTime < MIN_LIFETIME {
          flag := TooFrequent;
        } else {
          match r.content {
            case Some(d) =>
              flag := Updated;
              var next := (e.cur + 1) % SLOTS;
              files := files[r.key := Entry(e.slots[next := Item(Some(d), fileTime, r.read)], next)];
            case None => flag := UpdateFailed;
          }
        }
      } else {
        flag := InMemory;
      }
    }
  }
}
