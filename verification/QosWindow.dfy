/** The 30-second window of successes and failures, against the log of everything that was recorded. */
module QosWindow {
  import opened Optional
  const SLOTS := 30
  const RATIO := 100
  const WINDOW := 6
  const THRESHOLD := 50
  const ERROR_RATE := 10
  const TWO32 := 0x1_0000_0000

  datatype Event = Event(time: nat, ok: bool)

  datatype Slot = Slot(time: nat, suc: nat, fail: nat)

  // ---------------------------------------------------------------- the log

  /** The clock does not go back, and it started before the first event. */
  predicate Timed(log: seq<Event>) {
    (forall i :: 0 <= i < |log| ==> log[i].time > 0) &&
    (forall i, j :: 0 <= i < j < |log| ==> log[i].time <= log[j].time)
  }

  predicate NotAfter(log: seq<Event>, t: int) { forall i :: 0 <= i < |log| ==> log[i].time <= t }

  predicate Recorded(log: seq<Event>, t: int) { exists i :: 0 <= i < |log| && log[i].time == t }

  predicate IsAt(e: Event, t: int, ok: bool) { e.time == t && e.ok == ok }

  /** How many events of a kind a second has. */
  function Count(log: seq<Event>, t: int, ok: bool): nat {
    if log == [] then 0
    else Count(log[..|log| - 1], t, ok) + if IsAt(log[|log| - 1], t, ok) then 1 else 0
  }

  /** What a check at second `t` with window `w` looks at: the seconds before `t` in the window, and, as long as
      nothing is recorded at `t` itself, the second thirty seconds ago. */
  predicate InWindow(e: Event, t: int, w: nat, idle: bool) {
    1 <= t - e.time < w || (idle && w > 0 && t - e.time == SLOTS)
  }

  function CountWindow(log: seq<Event>, t: int, w: nat, idle: bool, ok: bool): nat {
    if log == [] then 0
    else CountWindow(log[..|log| - 1], t, w, idle, ok) +
         if InWindow(log[|log| - 1], t, w, idle) && log[|log| - 1].ok == ok then 1 else 0
  }

  function InLog(log: seq<Event>, t: int, w: nat, ok: bool): nat {
    CountWindow(log, t, w, !Recorded(log, t), ok)
  }

  // ------------------------------------------------------------------ slots

  /** A slot holds the latest second of its residue that has events, with all of them; or nothing was recorded. */
  predicate Agrees(slot: Slot, log: seq<Event>, index: nat) {
    if slot.time == 0 then
      slot.suc == slot.fail == 0 && forall i :: 0 <= i < |log| ==> log[i].time % SLOTS != index
    else
      && slot.time % SLOTS == index
      && Recorded(log, slot.time)
      && (forall i :: 0 <= i < |log| && log[i].time % SLOTS == index ==> log[i].time <= slot.time)
      && slot.suc == Count(log, slot.time, true)
      && slot.fail == Count(log, slot.time, false)
  }

  function Tally(slot: Slot, ok: bool): nat { if ok then slot.suc else slot.fail }

  lemma {:induction false} NoneThere(log: seq<Event>, t: int, ok: bool)
    requires !Recorded(log, t)
    ensures Count(log, t, ok) == 0
  {
    if log != [] {
      var init := log[..|log| - 1];
      assert forall i :: 0 <= i < |init| ==> init[i] == log[i];
      NoneThere(init, t, ok);
      assert log[|log| - 1].time != t;
    }
  }

  /** Seconds of the same residue are a multiple of thirty apart. */
  lemma {:induction false} SameResidue(t: int, p: int)
    requires t % SLOTS == p % SLOTS && p < t
    ensures t - p >= SLOTS
  {}

  lemma {:induction false} ResidueOf(t: int, i: nat, p: int)
    requires 0 < i < SLOTS && p % SLOTS == (t - i) % SLOTS && p <= t
    ensures p < t && (t - p <= SLOTS ==> p == t - i) && (p <= t - i || p > t - i + SLOTS || p == t - i + SLOTS)
  {}

  /** What a slot adds to a check. */
  function Share(slot: Slot, t: int, ok: bool): nat {
    if t > slot.time && t - slot.time <= SLOTS then Tally(slot, ok) else 0
  }

  /** The slot `i` seconds back adds exactly the events of that second. */
  lemma {:induction false} OtherSlot(slot: Slot, log: seq<Event>, t: int, i: nat, ok: bool)
    requires 0 < i < SLOTS && Agrees(slot, log, (t - i) % SLOTS) && NotAfter(log, t)
    ensures Share(slot, t, ok) == Count(log, t - i, ok)
  {
    if slot.time == 0 {
      NoneThere(log, t - i, ok);
    } else {
      ResidueOf(t, i, slot.time);
      if slot.time != t - i {
        NoneThere(log, t - i, ok);
      }
    }
  }

  /** The slot of the current second adds the events of thirty seconds ago, unless it is in use again. */
  lemma {:induction false} OwnSlot(slot: Slot, log: seq<Event>, t: int, ok: bool)
    requires Agrees(slot, log, t % SLOTS) && NotAfter(log, t)
    ensures Share(slot, t, ok) == if Recorded(log, t) then 0 else Count(log, t - SLOTS, ok)
  {
    ThirtyBack(t);
    if slot.time == 0 {
      NoneThere(log, t - SLOTS, ok);
    } else if slot.time < t {
      SameResidue(t, slot.time);
      if slot.time < t - SLOTS {
        NoneThere(log, t - SLOTS, ok);
      }
    }
  }

  lemma {:induction false} ThirtyBack(t: int)
    ensures (t - SLOTS) % SLOTS == t % SLOTS
  {}

  // ---------------------------------------------------- a window, second by second

  lemma {:induction false} WindowStart(log: seq<Event>, t: int, idle: bool, ok: bool)
    ensures CountWindow(log, t, 0, idle, ok) == 0
    ensures CountWindow(log, t, 1, idle, ok) == if idle then Count(log, t - SLOTS, ok) else 0
  {
    if log != [] {
      WindowStart(log[..|log| - 1], t, idle, ok);
    }
  }

  lemma {:induction false} WindowGrows(log: seq<Event>, t: int, w: nat, idle: bool, ok: bool)
    requires 0 < w < SLOTS
    ensures CountWindow(log, t, w + 1, idle, ok) == CountWindow(log, t, w, idle, ok) + Count(log, t - w, ok)
  {
    if log != [] {
      WindowGrows(log[..|log| - 1], t, w, idle, ok);
    }
  }

  // ----------------------------------------------------------- recording an event

  lemma {:induction false} RecordedMore(log: seq<Event>, e: Event, t: int)
    ensures Recorded(log + [e], t) <==> Recorded(log, t) || e.time == t
  {
    var more := log + [e];
    if Recorded(log, t) {
      var i :| 0 <= i < |log| && log[i].time == t;
      assert more[i].time == t;
    }
    if e.time == t {
      assert more[|log|].time == t;
    }
  }

  lemma {:induction false} CountMore(log: seq<Event>, e: Event, t: int, ok: bool)
    ensures Count(log + [e], t, ok) == Count(log, t, ok) + if IsAt(e, t, ok) then 1 else 0
  {}

  /** The slot of an event after recording it. */
  function Updated(slot: Slot, e: Event): Slot {
    var stale := slot.time == 0 || (e.time > slot.time && e.time - slot.time >= SLOTS);
    var base := if stale then Slot(e.time, 0, 0) else slot;
    if e.ok then base.(suc := base.suc + 1) else base.(fail := base.fail + 1)
  }

  lemma {:induction false} OwnSlotUpdated(slot: Slot, log: seq<Event>, e: Event)
    requires Agrees(slot, log, e.time % SLOTS) && NotAfter(log, e.time) && e.time > 0
    ensures Agrees(Updated(slot, e), log + [e], e.time % SLOTS)
  {
    var r := Updated(slot, e);
    RecordedMore(log, e, e.time);
    CountMore(log, e, e.time, true);
    CountMore(log, e, e.time, false);
    if slot.time == 0 || slot.time < e.time {
      if slot.time != 0 {
        SameResidue(e.time, slot.time);
      }
      NoneThere(log, e.time, true);
      NoneThere(log, e.time, false);
    }
    assert r.time == e.time;
  }

  lemma {:induction false} OtherSlotUnchanged(slot: Slot, log: seq<Event>, e: Event, index: nat)
    requires Agrees(slot, log, index) && index != e.time % SLOTS
    ensures Agrees(slot, log + [e], index)
  {
    if slot.time != 0 {
      RecordedMore(log, e, slot.time);
      CountMore(log, e, slot.time, true);
      CountMore(log, e, slot.time, false);
    }
  }

  predicate Consistent(slots: seq<Slot>, log: seq<Event>) {
    |slots| == SLOTS && Timed(log) && forall i :: 0 <= i < SLOTS ==> Agrees(slots[i], log, i)
  }

  /** Recording an event changes one slot, and all agree with the longer log. */
  lemma {:induction false} SlotsAfter(slots: seq<Slot>, log: seq<Event>, e: Event)
    requires Consistent(slots, log) && NotAfter(log, e.time) && e.time > 0
    ensures Consistent(slots[e.time % SLOTS := Updated(slots[e.time % SLOTS], e)], log + [e])
  {
    OwnSlotUpdated(slots[e.time % SLOTS], log, e);
    forall i | 0 <= i < SLOTS && i != e.time % SLOTS ensures Agrees(slots[i], log + [e], i) {
      OtherSlotUnchanged(slots[i], log, e, i);
    }
  }

  // -------------------------------------------------------------- the decision

  function Wrapped(n: nat): (r: nat)
    ensures r < TWO32
  {
    n % TWO32
  }

  /** The flow configuration, or its defaults. */
  datatype Flux = Flux(winlen: nat, errnum: nat, errnumrate: nat)

  function WindowLength(flux: Option<Flux>): (w: nat)
    ensures 1 <= w <= SLOTS
  {
    if flux.Some? && 0 < flux.value.winlen <= SLOTS then flux.value.winlen else WINDOW
  }

  function ErrorThreshold(flux: Option<Flux>): (n: nat)
    ensures n > 0
  {
    if flux.Some? && flux.value.errnum > 0 then flux.value.errnum else THRESHOLD
  }

  function ErrorRate(flux: Option<Flux>): (r: nat)
    ensures 0 < r < RATIO
  {
    if flux.Some? && 0 < flux.value.errnumrate < RATIO then flux.value.errnumrate else ERROR_RATE
  }

  /** The two sides of the rate, in products of 32 bits. */
  predicate Outweighs(fail: nat, suc: nat, rate: nat)
    requires rate <= RATIO
  {
    Wrapped(fail * (RATIO - rate)) > Wrapped(rate * suc)
  }

  /** Whether the counted outcomes ask for a warning. */
  predicate Alarming(suc: nat, fail: nat, threshold: nat, rate: nat)
    requires rate <= RATIO
  {
    fail > threshold && Outweighs(fail, suc, rate)
  }

  /** As long as the products fit, a check is alarmed exactly when the failures exceed both the threshold and the
      configured percentage of all calls. */
  lemma {:induction false} AlarmingIsARate(suc: nat, fail: nat, threshold: nat, rate: nat)
    requires rate <= RATIO && RATIO * (suc + fail) < TWO32
    ensures Alarming(suc, fail, threshold, rate) <==> fail > threshold && RATIO * fail > rate * (suc + fail)
  {
    assert fail * (RATIO - rate) == RATIO * fail - rate * fail;
    assert rate * (suc + fail) == rate * suc + rate * fail;
    Fits(fail, RATIO - rate, suc + fail);
    Fits(suc, rate, suc + fail);
  }

  lemma {:induction false} SmallerFactor(n: nat, factor: nat, most: nat)
    requires factor <= most
    ensures 0 <= n * factor <= n * most
  {}

  lemma {:induction false} NotWrapped(n: nat)
    requires n < TWO32
    ensures Wrapped(n) == n
  {}

  lemma {:induction false} Fits(n: nat, factor: nat, total: nat)
    requires n <= total && factor <= RATIO && RATIO * total < TWO32
    ensures Wrapped(n * factor) == n * factor
  {
    SmallerFactor(n, factor, RATIO);
    NotWrapped(n * factor);
  }

  lemma {:induction false} SumsDecide(log: seq<Event>, now: nat, flux: Option<Flux>, suc: nat, fail: nat)
    requires suc == Wrapped(InLog(log, now, WindowLength(flux), true)) && fail == Wrapped(InLog(log, now, WindowLength(flux), false))
    ensures AlarmedBy(log, now, flux) <==>
            fail > ErrorThreshold(flux) && Outweighs(fail, suc, ErrorRate(flux))
  {}

  /** The configuration in force: a window of 1 to 30 seconds, a positive number of failures and 1 to 99 percent, or 6, 50 and 10. */
  predicate Configured(flux: Option<Flux>, w: nat, n: nat, r: nat) {
    && w == (if flux.Some? && 1 <= flux.value.winlen <= 30 then flux.value.winlen else 6)
    && n == (if flux.Some? && flux.value.errnum >= 1 then flux.value.errnum else 50)
    && r == (if flux.Some? && 1 <= flux.value.errnumrate <= 99 then flux.value.errnumrate else 10)
  }

  /** Whether a check at second `now` is alarmed by what is in the log. */
  predicate AlarmedBy(log: seq<Event>, now: nat, flux: Option<Flux>) {
    var w := WindowLength(flux);
    Alarming(Wrapped(InLog(log, now, w, true)), Wrapped(InLog(log, now, w, false)), ErrorThreshold(flux), ErrorRate(flux))
  }

  /**
   * A check is alarmed exactly when the last `w` seconds have more than `n` failures and these are
   * more than `r` percent of all calls, as long as a hundred times their number fits 32 bits.
   */
  lemma {:induction false} AlarmMeans(log: seq<Event>, now: nat, flux: Option<Flux>, w: nat, n: nat, r: nat)
    requires Configured(flux, w, n, r) && 100 * (InLog(log, now, w, true) + InLog(log, now, w, false)) < 0x1_0000_0000
    ensures var suc, fail := InLog(log, now, w, true), InLog(log, now, w, false);
            AlarmedBy(log, now, flux) <==> fail > n && 100 * fail > r * (suc + fail)
  {
    var suc, fail := InLog(log, now, w, true), InLog(log, now, w, false);
    NotWrapped(suc);
    NotWrapped(fail);
    AlarmingIsARate(suc, fail, n, r);
  }

  lemma {:induction false} WrapAdds(total: nat, x: nat)
    ensures Wrapped(Wrapped(total) + x) == Wrapped(total + x) && Wrapped(Wrapped(total)) == Wrapped(total)
  {}

  // ---------------------------------------------------------------- the window

  class Window {
    const item: array<Slot>
    var updatetime: nat
    ghost var log: seq<Event>

    ghost predicate Valid()
      reads this, item
    {
      item.Length == SLOTS && Consistent(item[..], log)
    }

    constructor ()
      ensures Valid() && log == [] && fresh(item)
    {
      item := new Slot[30](_ => Slot(0, 0, 0));
      updatetime := 0;
      log := [];
    }

    /** Records an outcome at the current second. */
    method UpdateQos(now: nat, ret: int)
      requires Valid() && now > 0 && NotAfter(log, now)
      modifies this, item
      ensures Valid() && log == old(log) + [Event(now, ret == 0)] && updatetime == now
    {
      var index := now % SLOTS;
      ghost var e := Event(now, ret == 0);
      SlotsAfter(item[..], log, e);
      var slot := item[index];
      if slot.time == 0 || (now > slot.time && now - slot.time >= SLOTS) {
        slot := Slot(now, 0, 0);
      }
      if ret == 0 {
        slot := slot.(suc := slot.suc + 1);
      } else {
        slot := slot.(fail := slot.fail + 1);
      }
      assert slot == Updated(item[index], e);
      item[index] := slot;
      assert item[..] == old(item[..])[index := slot];
      updatetime := now;
      log := log + [e];
    }

    /** Sums the window at the current second. */
    method SumWindow(now: nat, winlen: nat) returns (suc: nat, fail: nat)
      requires Valid() && NotAfter(log, now) && 1 <= winlen <= SLOTS
      ensures suc == Wrapped(InLog(log, now, winlen, true)) && fail == Wrapped(InLog(log, now, winlen, false))
    {
      ghost var idle := !Recorded(log, now);
      suc, fail := 0, 0;
      var index, i := now % SLOTS, 0;
      WindowStart(log, now, idle, true);
      WindowStart(log, now, idle, false);
      while i < winlen
        invariant i <= winlen && index == (now - i) % SLOTS
        invariant suc == Wrapped(CountWindow(log, now, i, idle, true))
        invariant fail == Wrapped(CountWindow(log, now, i, idle, false))
      {
        var slot := item[index];
        SlotAdds(slot, log, now, i, true);
        SlotAdds(slot, log, now, i, false);
        suc, fail := AddSlot(slot, now, suc, fail);
        PreviousIndex(now, i);
        index := (index - 1 + SLOTS) % SLOTS;
        i := i + 1;
      }
    }

    static method AddSlot(slot: Slot, now: nat, suc: nat, fail: nat) returns (suc': nat, fail': nat)
      requires suc < TWO32 && fail < TWO32
      ensures suc' == Wrapped(suc + Share(slot, now, true)) && fail' == Wrapped(fail + Share(slot, now, false))
    {
      if now > slot.time && now - slot.time <= SLOTS {
        suc', fail' := Wrapped(suc + slot.suc), Wrapped(fail + slot.fail);
      } else {
        suc', fail' := suc, fail;
      }
    }

    /** Whether a call may pass; `hit` is the outcome of the random draw for alarmed keys. */
    method CheckQos(now: nat, flux: Option<Flux>, hit: bool) returns (pass: bool)
      requires Valid() && NotAfter(log, now)
      ensures pass <==> hit || !AlarmedBy(log, now, flux)
    {
      var suc, fail := SumWindow(now, WindowLength(flux));
      SumsDecide(log, now, flux, suc, fail);
      pass := true;
      if fail > ErrorThreshold(flux) {
        if Outweighs(fail, suc, ErrorRate(flux)) {
          pass := hit;
        }
      }
    }
  }

  /** One more slot is one more second of the window. */
  lemma {:induction false} Secondwise(slot: Slot, log: seq<Event>, t: nat, i: nat, ok: bool)
    requires i < SLOTS && Agrees(slot, log, (t - i) % SLOTS) && NotAfter(log, t)
    ensures var idle := !Recorded(log, t);
            CountWindow(log, t, i + 1, idle, ok) == CountWindow(log, t, i, idle, ok) + Share(slot, t, ok)
  {
    var idle := !Recorded(log, t);
    if i == 0 {
      WindowStart(log, t, idle, ok);
      OwnSlot(slot, log, t, ok);
    } else {
      WindowGrows(log, t, i, idle, ok);
      OtherSlot(slot, log, t, i, ok);
    }
  }

  lemma {:induction false} SlotAdds(slot: Slot, log: seq<Event>, t: nat, i: nat, ok: bool)
    requires i < SLOTS && Agrees(slot, log, (t - i) % SLOTS) && NotAfter(log, t)
    ensures var idle := !Recorded(log, t);
            Wrapped(Wrapped(CountWindow(log, t, i, idle, ok)) + Share(slot, t, ok)) ==
            Wrapped(CountWindow(log, t, i + 1, idle, ok))
  {
    Secondwise(slot, log, t, i, ok);
    WrapAdds(CountWindow(log, t, i, !Recorded(log, t), ok), Share(slot, t, ok));
  }

  lemma {:induction false} PreviousIndex(t: int, i: nat)
    ensures ((t - i) % SLOTS - 1 + SLOTS) % SLOTS == (t - (i + 1)) % SLOTS
  {}
}
