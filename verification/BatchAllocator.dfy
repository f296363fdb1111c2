/** A free-list allocator over pages that are filled one after the other. */
module BatchAllocator {
  import opened Optional
  import opened Arith

  /** The place of an allocation: a page and the first of its cells there. */
  datatype Slot = Slot(page: nat, offset: nat)

  /** A page, how many of its cells are used, and where it is full. */
  datatype Batch = Batch(page: nat, used: nat, end: nat)

  /** The first word of each slot, where the free list keeps its links. */
  type Memory = map<Slot, Option<Slot>>

  // ------------------------------------------------------------ fresh slots

  predicate Full(b: Batch) { b.used == b.end }

  /** Pages in the order of the list, the newest first. */
  predicate Numbered(bs: seq<Batch>) { forall i :: 0 <= i < |bs| ==> bs[i].page == |bs| - 1 - i }

  /** The first page from `i` on with room, or the end of the list. */
  function WithRoom(bs: seq<Batch>, i: nat): (j: nat)
    requires i <= |bs|
    ensures i <= j <= |bs| && (j < |bs| ==> !Full(bs[j])) && forall k :: i <= k < j ==> Full(bs[k])
    decreases |bs| - i
  {
    if i == |bs| || !Full(bs[i]) then i else WithRoom(bs, i + 1)
  }

  datatype Fresh = Fresh(batches: seq<Batch>, current: nat, slot: Slot)

  /** Takes the next cells of the current page, or of a later one with room, or of a new page at the head. */
  function Bump(bs: seq<Batch>, current: nat, per: nat, perPage: nat): Fresh
    requires current < |bs|
  {
    var i := WithRoom(bs, current);
    var bs', j := if i < |bs| then bs else [Batch(|bs|, 0, perPage)] + bs, if i < |bs| then i else 0;
    Fresh(bs'[j := bs'[j].(used := bs'[j].used + per)], j, Slot(bs'[j].page, bs'[j].used))
  }

  /** Allocations without any release, from the dummy page on. */
  function FreshRun(per: nat, perPage: nat, n: nat): (f: Fresh)
    ensures f.current < |f.batches|
    decreases n
  {
    if n == 0 then Fresh([Batch(0, 0, 0)], 0, Slot(0, 0))
    else var f := FreshRun(per, perPage, n - 1); Bump(f.batches, f.current, per, perPage)
  }

  /** A slot lies within the memory of its page: room for `perPage` allocations, none on the dummy page. */
  predicate Inside(s: Slot, per: nat, perPage: nat) { s.page > 0 && s.offset + per <= perPage * per }

  /** Only the head page has room. */
  ghost predicate HeadOnly(bs: seq<Batch>, per: nat) {
    && bs != [] && Numbered(bs)
    && (forall i :: 0 < i < |bs| ==> Full(bs[i]))
    && (forall i :: 0 <= i < |bs| ==> bs[i].used <= bs[i].end && Divides(per, bs[i].used))
  }

  ghost predicate Divides(d: nat, n: nat) { exists q: nat :: d * q == n }

  /** Multiples of `d` that are not equal are at least `d` apart. */
  lemma {:induction false} Apart(d: nat, a: nat, b: nat)
    requires Divides(d, a) && Divides(d, b) && a < b
    ensures a + d <= b
  {
    var p: nat :| d * p == a;
    var q: nat :| d * q == b;
    if p >= q {
      MulMono(q, p, d);
      assert false;
    }
    MulMono(p + 1, q, d);
    Distribute(p, 1, d);
  }

  lemma {:induction false} DividesNext(d: nat, a: nat)
    requires Divides(d, a)
    ensures Divides(d, a + d)
  {
    var q: nat :| d * q == a;
    Distribute(q, 1, d);
    assert d * (q + 1) == a + d;
  }

  lemma {:induction false} DividesNothing(d: nat)
    ensures Divides(d, 0)
  {
    assert d * 0 == 0;
  }

  /** As long as allocations divide a page, every fresh slot ends within the cells of its page. */
  lemma {:induction false} BumpKeeps(bs: seq<Batch>, per: nat, perPage: nat)
    requires HeadOnly(bs, per) && per > 0 && perPage > 0 && Divides(per, perPage)
    requires forall i :: 0 <= i < |bs| ==> Divides(per, bs[i].end)
    ensures var f := Bump(bs, 0, per, perPage);
            HeadOnly(f.batches, per) && f.current == 0 && f.slot.offset + per <= f.batches[0].end &&
            f.slot.page == f.batches[0].page
    ensures forall i :: 0 <= i < |Bump(bs, 0, per, perPage).batches| ==> Divides(per, Bump(bs, 0, per, perPage).batches[i].end)
  {
    DividesNothing(per);
    var i := WithRoom(bs, 0);
    if i < |bs| {
      assert i == 0;
      Apart(per, bs[0].used, bs[0].end);
      DividesNext(per, bs[0].used);
    } else {
      Apart(per, 0, perPage);
      DividesNext(per, 0);
    }
  }

  predicate PageSizes(bs: seq<Batch>, perPage: nat) {
    bs != [] && forall i :: 0 <= i < |bs| ==> bs[i].end == if bs[i].page == 0 then 0 else perPage
  }

  lemma {:induction false} BumpKeepsSizes(bs: seq<Batch>, per: nat, perPage: nat)
    requires HeadOnly(bs, per) && PageSizes(bs, perPage) && perPage > 0
    ensures PageSizes(Bump(bs, 0, per, perPage).batches, perPage)
    ensures Bump(bs, 0, per, perPage).slot.page > 0
  {}

  lemma {:induction false} SizesDivide(bs: seq<Batch>, per: nat, perPage: nat)
    requires PageSizes(bs, perPage) && Divides(per, perPage)
    ensures forall i :: 0 <= i < |bs| ==> Divides(per, bs[i].end)
  {
    DividesNothing(per);
  }

  lemma {:induction false} BumpIsGood(bs: seq<Batch>, per: nat, perPage: nat)
    requires HeadOnly(bs, per) && PageSizes(bs, perPage) && per > 0 && perPage > 0 && Divides(per, perPage)
    ensures var f := Bump(bs, 0, per, perPage);
            && f.current == 0 && HeadOnly(f.batches, per) && PageSizes(f.batches, perPage)
            && f.slot.page > 0 && f.slot.offset + per <= perPage
  {
    SizesDivide(bs, per, perPage);
    BumpKeeps(bs, per, perPage);
    BumpKeepsSizes(bs, per, perPage);
  }

  lemma {:induction false} RunIsGood(per: nat, perPage: nat, n: nat)
    requires per > 0 && perPage > 0 && Divides(per, perPage)
    ensures var f := FreshRun(per, perPage, n);
            f.current == 0 && HeadOnly(f.batches, per) && PageSizes(f.batches, perPage) &&
            (n > 0 ==> f.slot.page > 0 && f.slot.offset + per <= perPage)
    decreases n
  {
    DividesNothing(per);
    if n > 0 {
      RunIsGood(per, perPage, n - 1);
      BumpIsGood(FreshRun(per, perPage, n - 1).batches, per, perPage);
    }
  }

  /** When they do not divide it, the used cells step over the end of the first page and go on for ever. */
  lemma {:induction false} RunOvershoots(per: nat, perPage: nat, n: nat)
    requires per > 0 && perPage > 0 && !Divides(per, perPage) && n > 0
    ensures FreshRun(per, perPage, n) ==
            Fresh([Batch(1, per * n, perPage), Batch(0, 0, 0)], 0, Slot(1, per * (n - 1)))
    decreases n
  {
    var start := FreshRun(per, perPage, 0);
    if n == 1 {
      assert WithRoom(start.batches, 0) == 1;
      assert per * 1 == per && per * 0 == 0;
    } else {
      RunOvershoots(per, perPage, n - 1);
      assert per * (n - 1) != perPage;
      Distribute(n - 1, 1, per);
    }
  }

  /** Every slot of every run is inside its page exactly when the objects of an allocation divide the page. */
  lemma {:induction false} InsideIffDivides(per: nat, perPage: nat)
    requires per > 0 && perPage > 0
    ensures (forall n: nat :: n > 0 ==> Inside(FreshRun(per, perPage, n).slot, per, perPage)) <==> Divides(per, perPage)
  {
    if Divides(per, perPage) {
      forall n: nat | n > 0 ensures Inside(FreshRun(per, perPage, n).slot, per, perPage) {
        RunIsGood(per, perPage, n);
        MulMono(1, per, perPage);
      }
    } else {
      RunOvershoots(per, perPage, perPage + 1);
      assert !Inside(FreshRun(per, perPage, perPage + 1).slot, per, perPage);
    }
  }

  // -------------------------------------------------------------- the free list

  /** The free list from a head through the links in memory. */
  predicate Chain(memory: Memory, head: Option<Slot>, free: seq<Slot>)
    decreases |free|
  {
    if free == [] then head == None
    else head == Some(free[0]) && free[0] in memory && Chain(memory, memory[free[0]], free[1..])
  }

  /** Writing to a slot that is not free leaves the free list as it is. */
  lemma {:induction false} ChainKept(memory: Memory, head: Option<Slot>, free: seq<Slot>, s: Slot, word: Option<Slot>)
    requires Chain(memory, head, free) && s !in free
    ensures Chain(memory[s := word], head, free)
    decreases |free|
  {
    if free != [] {
      ChainKept(memory, memory[free[0]], free[1..], s, word);
    }
  }

  predicate Distinct(free: seq<Slot>) { forall i, j :: 0 <= i < j < |free| ==> free[i] != free[j] }

  /** A slot that has been issued: a multiple of the allocation size below the used cells of its page. */
  ghost predicate Issued(bs: seq<Batch>, per: nat, s: Slot) {
    exists i :: 0 <= i < |bs| && bs[i].page == s.page && s.offset < bs[i].used && Divides(per, s.offset)
  }

  lemma {:induction false} IssuedMore(bs: seq<Batch>, per: nat, perPage: nat, s: Slot)
    requires HeadOnly(bs, per) && per > 0
    ensures var f := Bump(bs, 0, per, perPage);
            (Issued(f.batches, per, s) <==> Issued(bs, per, s) || s == f.slot) && !Issued(bs, per, f.slot)
  {
    var f := Bump(bs, 0, per, perPage);
    var i := WithRoom(bs, 0);
    if i < |bs| {
      HeadIssues(bs, per, s);
    } else {
      assert ([Batch(|bs|, 0, perPage)] + bs)[0 := Batch(|bs|, per, perPage)] == [Batch(|bs|, per, perPage)] + bs;
      NewPageIssues(bs, per, perPage, s);
    }
  }

  lemma {:induction false} HeadIssues(bs: seq<Batch>, per: nat, s: Slot)
    requires HeadOnly(bs, per) && per > 0
    ensures var bs' := bs[0 := bs[0].(used := bs[0].used + per)];
            var slot := Slot(bs[0].page, bs[0].used);
            (Issued(bs', per, s) <==> Issued(bs, per, s) || s == slot) && !Issued(bs, per, slot)
  {
    var bs' := bs[0 := bs[0].(used := bs[0].used + per)];
    if Issued(bs', per, s) {
      var k :| 0 <= k < |bs'| && bs'[k].page == s.page && s.offset < bs'[k].used && Divides(per, s.offset);
      if k == 0 && s.offset > bs[0].used {
        Apart(per, bs[0].used, s.offset);
        assert false;
      }
      assert bs[k].page == s.page;
    }
    if Issued(bs, per, s) {
      var k :| 0 <= k < |bs| && bs[k].page == s.page && s.offset < bs[k].used && Divides(per, s.offset);
      assert bs'[k].page == s.page;
    }
    assert bs'[0].page == bs[0].page;
  }

  lemma {:induction false} NewPageIssues(bs: seq<Batch>, per: nat, perPage: nat, s: Slot)
    requires HeadOnly(bs, per) && per > 0
    ensures var bs' := [Batch(|bs|, per, perPage)] + bs;
            (Issued(bs', per, s) <==> Issued(bs, per, s) || s == Slot(|bs|, 0)) && !Issued(bs, per, Slot(|bs|, 0))
  {
    DividesNothing(per);
    var bs' := [Batch(|bs|, per, perPage)] + bs;
    if Issued(bs', per, s) {
      var k :| 0 <= k < |bs'| && bs'[k].page == s.page && s.offset < bs'[k].used && Divides(per, s.offset);
      if k == 0 {
        if s.offset > 0 {
          Apart(per, 0, s.offset);
          assert false;
        }
      } else {
        assert bs[k - 1].page == s.page;
      }
    }
    if Issued(bs, per, s) {
      var k :| 0 <= k < |bs| && bs[k].page == s.page && s.offset < bs[k].used && Divides(per, s.offset);
      assert bs'[k + 1].page == s.page;
    }
    assert bs'[0].page == |bs|;
  }

  /** Two different issued slots have no cell in common. */
  predicate Overlap(s: Slot, t: Slot, per: nat) { s.page == t.page && s.offset < t.offset + per && t.offset < s.offset + per }

  lemma {:induction false} IssuedApart(bs: seq<Batch>, per: nat, s: Slot, t: Slot)
    requires per > 0 && Issued(bs, per, s) && Issued(bs, per, t)
    ensures Overlap(s, t, per) <==> s == t
  {
    if s.page == t.page {
      if s.offset < t.offset {
        Apart(per, s.offset, t.offset);
      } else if t.offset < s.offset {
        Apart(per, t.offset, s.offset);
      }
    }
  }

  // -------------------------------------------------------------- the allocator

  /** Everything issued is either in use or in the free list, and nothing else is. */
  ghost predicate Accounted(bs: seq<Batch>, per: nat, live: set<Slot>, free: seq<Slot>) {
    && Distinct(free)
    && (forall s :: s in live ==> s !in free)
    && (forall s :: Issued(bs, per, s) <==> s in live || s in free)
  }

  class Allocator {
    const per: nat
    const perPage: nat
    var batches: seq<Batch>
    var currentBatch: nat
    var freeHead: Option<Slot>
    var memory: Memory
    ghost var live: set<Slot>
    ghost var free: seq<Slot>

    ghost predicate Valid()
      reads this
    {
      && per > 0 && perPage >= 16 && Divides(per, perPage)
      && currentBatch == 0
      && HeadOnly(batches, per) && PageSizes(batches, perPage)
      && Chain(memory, freeHead, free)
      && Accounted(batches, per, live, free)
    }

    /** The allocator starts on a dummy page that is full from the beginning. */
    constructor (objectPerAllocation: nat, objectsPerPage: nat)
      requires objectPerAllocation > 0 && objectsPerPage >= 16 && Divides(objectPerAllocation, objectsPerPage)
      ensures Valid() && live == {} && per == objectPerAllocation && perPage == objectsPerPage
    {
      per, perPage := objectPerAllocation, objectsPerPage;
      batches, currentBatch := [Batch(0, 0, 0)], 0;
      freeHead, memory := None, map[];
      live, free := {}, [];
      new;
      DividesNothing(per);
    }

    /** A slot that is not in use, inside its page, and clear of every slot in use; nothing is written to any slot. */
    method Allocate() returns (s: Slot)
      requires Valid()
      modifies this`batches, this`currentBatch, this`freeHead, this`live, this`free
      ensures Valid() && live == old(live) + {s} && s !in old(live)
      ensures s.page > 0 && s.offset + per <= perPage
      ensures forall t :: t in old(live) ==> !Overlap(s, t, per)
      ensures old(free) != [] ==> s == old(free[0]) && free == old(free[1..]) && batches == old(batches)
      ensures old(free) == [] ==> free == []
      ensures memory == old(memory)
    {
      match freeHead {
        case Some(head) =>
          s := head;
          freeHead := memory[s];
          TakeFree(batches, per, live, free);
          free := free[1..];
          live := live + {s};
        case None =>
          s := AllocateFresh();
      }
      IssuedInside(batches, per, perPage, s);
      forall t | t in old(live) ensures !Overlap(s, t, per) {
        IssuedApart(batches, per, s, t);
      }
    }

    /** Takes the next cells of the first page with room, after adding a page when there is none. */
    method AllocateFresh() returns (s: Slot)
      requires Valid() && free == []
      modifies this`batches, this`currentBatch, this`live
      ensures Valid() && live == old(live) + {s} && s !in old(live)
    {
      BumpKeepsAll(batches, per, perPage, live);
      s := TakeCells();
      live := live + {s};
    }

    method TakeCells() returns (s: Slot)
      requires currentBatch < |batches|
      modifies this`batches, this`currentBatch
      ensures Fresh(batches, currentBatch, s) == Bump(old(batches), old(currentBatch), per, perPage)
    {
      while currentBatch < |batches| && batches[currentBatch].used == batches[currentBatch].end
        invariant currentBatch <= |batches| && batches == old(batches)
        invariant WithRoom(batches, currentBatch) == WithRoom(batches, old(currentBatch))
      {
        currentBatch := currentBatch + 1;
      }
      if currentBatch == |batches| {
        batches, currentBatch := [Batch(|batches|, 0, perPage)] + batches, 0;
      }
      s := Slot(batches[currentBatch].page, batches[currentBatch].used);
      batches := batches[currentBatch := batches[currentBatch].(used := batches[currentBatch].used + per)];
    }

    /** Gives a slot back; it becomes the head of the free list, and only its own first word is written. */
    method Release(s: Slot)
      requires Valid() && s in live
      modifies this`memory, this`freeHead, this`live, this`free
      ensures Valid() && live == old(live) - {s} && free == [s] + old(free)
      ensures freeHead == Some(s) && memory == old(memory)[s := old(freeHead)]
    {
      ChainKept(memory, freeHead, free, s, freeHead);
      memory := memory[s := freeHead];
      freeHead := Some(s);
      PutBack(batches, per, live, free, s);
      free := [s] + free;
      live := live - {s};
    }

    /** The owner of a slot in use may write anything to it. */
    method Write(s: Slot, word: Option<Slot>)
      requires Valid() && s in live
      modifies this`memory
      ensures Valid() && memory == old(memory)[s := word]
    {
      ChainKept(memory, freeHead, free, s, word);
      memory := memory[s := word];
    }
  }

  lemma {:induction false} TakeFree(bs: seq<Batch>, per: nat, live: set<Slot>, free: seq<Slot>)
    requires Accounted(bs, per, live, free) && free != []
    ensures Accounted(bs, per, live + {free[0]}, free[1..]) && free[0] !in live && Issued(bs, per, free[0])
  {}

  lemma {:induction false} PutBack(bs: seq<Batch>, per: nat, live: set<Slot>, free: seq<Slot>, s: Slot)
    requires Accounted(bs, per, live, free) && s in live
    ensures Accounted(bs, per, live - {s}, [s] + free)
  {}

  lemma {:induction false} IssuedInside(bs: seq<Batch>, per: nat, perPage: nat, s: Slot)
    requires per > 0 && HeadOnly(bs, per) && PageSizes(bs, perPage) && Divides(per, perPage) && Issued(bs, per, s)
    ensures s.page > 0 && s.offset + per <= perPage
  {
    var i :| 0 <= i < |bs| && bs[i].page == s.page && s.offset < bs[i].used && Divides(per, s.offset);
    Apart(per, s.offset, bs[i].used);
  }

  lemma {:induction false} BumpKeepsAll(bs: seq<Batch>, per: nat, perPage: nat, live: set<Slot>)
    requires HeadOnly(bs, per) && PageSizes(bs, perPage) && per > 0 && perPage > 0 && Divides(per, perPage)
    requires Accounted(bs, per, live, [])
    ensures var f := Bump(bs, 0, per, perPage);
            HeadOnly(f.batches, per) && PageSizes(f.batches, perPage) && f.current == 0 &&
            f.slot !in live && Accounted(f.batches, per, live + {f.slot}, [])
  {
    DividesNothing(per);
    BumpKeeps(bs, per, perPage);
    var f := Bump(bs, 0, per, perPage);
    IssuedMore(bs, per, perPage, f.slot);
    forall s ensures Issued(f.batches, per, s) <==> s in live + {f.slot} {
      IssuedMore(bs, per, perPage, s);
    }
  }
}
