/**
 What one call of `ip_queue_recycle` does with any in-range list, repeats and stale entries included, when
 nothing interferes.
 */
module SlotRecycle {
  import opened SlotArea
  import opened SlotConsumerSteps
  import opened SlotInvariant
  import opened SlotTheorems
  import opened Words

  /** The distinct indices of `list` that are INUSE. */
  function Freed(list: seq<nat>, slots: seq<Slot>): set<nat>
    requires Below(list, |slots|)
  {
    set x | x in list && x < |slots| && slots[x].state.InUse?
  }

  /** Those that belong to `q`. */
  function Mine(list: seq<nat>, slots: seq<Slot>, q: CpuQueue): set<nat>
    requires Below(list, |slots|)
  {
    set x | x in Freed(list, slots) && q.start <= x < q.end
  }

  function UsedSlots(slots: seq<Slot>, x: nat): seq<Slot>
    requires x < |slots|
  {
    slots[x := slots[x].(state := Used)]
  }

  /** The first entry of a list, INUSE or not. */
  lemma FirstEntry(list: seq<nat>, i: nat, slots: seq<Slot>)
    requires Below(list, |slots|) && i < |list|
    ensures Below(list[i..], |slots|) && Below(list[i + 1..], |slots|)
    ensures list[i..] == [list[i]] + list[i + 1..]
    ensures !slots[list[i]].state.InUse? ==> Freed(list[i..], slots) == Freed(list[i + 1..], slots)
    ensures slots[list[i]].state.InUse? ==>
      && list[i] !in Freed(list[i + 1..], UsedSlots(slots, list[i]))
      && Freed(list[i..], slots) == Freed(list[i + 1..], UsedSlots(slots, list[i])) + {list[i]}
  {
  }

  lemma MineRest(list: seq<nat>, i: nat, slots: seq<Slot>, q: CpuQueue)
    requires Below(list, |slots|) && i < |list| && slots[list[i]].state.InUse?
    ensures var x := list[i]; var rest := Mine(list[i + 1..], UsedSlots(slots, x), q);
      && x !in rest
      && Mine(list[i..], slots, q) == rest + (if q.start <= x < q.end then {x} else {})
  {
    FirstEntry(list, i, slots);
  }

  ghost predicate RoomFor(a: Area, list: seq<nat>)
    requires Below(list, |a.slots|)
  {
    forall c :: 0 <= c < |a.cpus| ==>
      |a.cpus[c].idle| + |Mine(list, a.slots, a.cpus[c])| <= a.cpus[c].cap
  }

  /** `mine` went to the idle queue; the rest of the CPU's data is as it was. */
  ghost predicate GotBack(q: CpuQueue, q': CpuQueue, mine: set<nat>) {
    q' == q.(idle := q'.idle) && multiset(q'.idle) == multiset(q.idle) + multiset(mine)
  }

  /** `n` entries of which `freed` gave an index back, each for the first time. */
  function CountsAfter(k: Counts, n: nat, freed: nat): Counts {
    k.(recycled := (k.recycled + freed) % U64_MOD, recycleInvalid := (k.recycleInvalid + n - freed) % U32_MOD)
  }

  ghost predicate SlotsAfter(slots: seq<Slot>, list: seq<nat>, slots': seq<Slot>)
    requires Below(list, |slots|)
  {
    && |slots'| == |slots|
    && forall x :: 0 <= x < |slots| ==>
         slots'[x] == if x in Freed(list, slots) then slots[x].(state := Used) else slots[x]
  }

  /** What recycling the entries of `list` makes of `a`, all of it. */
  ghost predicate Recycled(a: Area, list: seq<nat>, b: Area)
    requires Below(list, |a.slots|)
  {
    && |b.cpus| == |a.cpus|
    && (forall c :: 0 <= c < |a.cpus| ==> GotBack(a.cpus[c], b.cpus[c], Mine(list, a.slots, a.cpus[c])))
    && SlotsAfter(a.slots, list, b.slots)
    && b.idxArray == a.idxArray && b.idxNum == a.idxNum
    && b.counts == CountsAfter(a.counts, |list|, |Freed(list, a.slots)|)
  }

  /** The caller's list afterwards: from `i` on, the first entry for each INUSE index is zeroed. */
  ghost predicate Zeroed(slots: seq<Slot>, list: seq<nat>, i: nat, final: seq<nat>)
    requires Below(list, |slots|)
  {
    && |final| == |list|
    && forall j :: 0 <= j < |list| ==>
         final[j] == if j >= i && slots[list[j]].state.InUse? && list[j] !in list[i..j] then 0 else list[j]
  }

  lemma NothingRecycled(a: Area)
    ensures Recycled(a, [], a)
  {
    assert Freed([], a.slots) == {};
    forall c | 0 <= c < |a.cpus| ensures GotBack(a.cpus[c], a.cpus[c], Mine([], a.slots, a.cpus[c])) {
      assert Mine([], a.slots, a.cpus[c]) == {};
    }
  }

  ghost predicate Outcome(a: Area, list: seq<nat>, i: nat, r: (Area, Consumer))
    requires Below(list, |a.slots|) && i <= |list|
  {
    Recycled(a, list[i..], r.0) && r.1.Quiet? && Zeroed(a.slots, list, i, r.1.list)
  }

  lemma EndOfList(a: Area, list: seq<nat>)
    requires Indexed(a) && Below(list, |a.slots|)
    ensures Outcome(a, list, |list|, FinishConsumer(a, Recycling(list, |list|)))
  {
    ConsumerGoesOn(a, Recycling(list, |list|));
    assert list[|list|..] == [];
    NothingRecycled(a);
  }

  /** For any in-range list, repeats and stale entries included: each distinct INUSE index in it goes to the
      idle queue of the one CPU that owns it, once, and is counted once; every other entry is counted as
      invalid; the list is zeroed where an index was given back; nothing else changes. */
  lemma {:induction false} RecycleReturnsEachOnce(a: Area, list: seq<nat>, i: nat)
    requires Indexed(a) && Ranges(a) && Below(list, |a.slots|) && i <= |list|
    requires RoomFor(a, list[i..])
    ensures Outcome(a, list, i, FinishConsumer(a, Recycling(list, i)))
    decreases |list| - i
  {
    if i == |list| {
      EndOfList(a, list);
    } else if !a.slots[list[i]].state.InUse? {
      var b := StaleStep(a, list, i);
      StaleRoom(a, list, i, b);
      SameRangesKeepsRanges(a, b);
      RecycleReturnsEachOnce(b, list, i + 1);
      StaleOutcome(a, list, i, b, FinishConsumer(b, Recycling(list, i + 1)));
    } else {
      var b := EntryFreed(a, list, i);
      var list' := list[i := 0];
      assert list'[i + 1..] == list[i + 1..];
      FreedRoom(a, list, i, b);
      SameRangesKeepsRanges(a, b);
      RecycleReturnsEachOnce(b, list', i + 1);
      FreedOutcome(a, list, i, b, FinishConsumer(b, Recycling(list', i + 1)));
    }
  }

  lemma StaleAct(a: Area, list: seq<nat>, i: nat)
    requires Indexed(a) && Below(list, |a.slots|) && i < |list| && !a.slots[list[i]].state.InUse?
    ensures ConsumerAct(a, Recycling(list, i))
         == (a.(counts := a.counts.(recycleInvalid := (a.counts.recycleInvalid + 1) % U32_MOD)),
             Recycling(list, i + 1))
  {
  }

  lemma StaleStep(a: Area, list: seq<nat>, i: nat) returns (b: Area)
    requires Indexed(a) && Below(list, |a.slots|) && i < |list| && !a.slots[list[i]].state.InUse?
    ensures b == a.(counts := a.counts.(recycleInvalid := (a.counts.recycleInvalid + 1) % U32_MOD))
    ensures Indexed(b) && SameRanges(a, b)
    ensures FinishConsumer(a, Recycling(list, i)) == FinishConsumer(b, Recycling(list, i + 1))
  {
    StaleAct(a, list, i);
    ConsumerGoesOn(a, Recycling(list, i));
    b := ConsumerAct(a, Recycling(list, i)).0;
  }

  lemma StaleOutcome(a: Area, list: seq<nat>, i: nat, b: Area, r: (Area, Consumer))
    requires Below(list, |a.slots|) && i < |list| && !a.slots[list[i]].state.InUse?
    requires b == a.(counts := a.counts.(recycleInvalid := (a.counts.recycleInvalid + 1) % U32_MOD))
    requires Outcome(b, list, i + 1, r)
    ensures Outcome(a, list, i, r)
  {
    StaleThenRest(a, list, i, b, r.0);
    StaleZeroes(a.slots, list, i, r.1.list);
  }

  lemma FreedOutcome(a: Area, list: seq<nat>, i: nat, b: Area, r: (Area, Consumer))
    requires Ranges(a) && Below(list, |a.slots|) && i < |list| && a.slots[list[i]].state.InUse?
    requires OneBack(a, list[i], b) && Below(list[i := 0], |b.slots|) && Outcome(b, list[i := 0], i + 1, r)
    ensures Outcome(a, list, i, r)
  {
    assert list[i := 0][i + 1..] == list[i + 1..];
    FreedThenRest(a, list, i, b, r.0);
    FreedZeroes(a.slots, list, i, r.1.list);
  }

  lemma StaleZeroes(slots: seq<Slot>, list: seq<nat>, i: nat, final: seq<nat>)
    requires Below(list, |slots|) && i < |list| && !slots[list[i]].state.InUse?
    requires Zeroed(slots, list, i + 1, final)
    ensures Zeroed(slots, list, i, final)
  {
    forall j | i < j < |list| && slots[list[j]].state.InUse?
      ensures list[j] in list[i..j] <==> list[j] in list[i + 1..j]
    {
      assert list[i..j] == [list[i]] + list[i + 1..j];
    }
  }

  lemma FreedZeroes(slots: seq<Slot>, list: seq<nat>, i: nat, final: seq<nat>)
    requires Below(list, |slots|) && i < |list| && slots[list[i]].state.InUse?
    requires Below(list[i := 0], |slots|) && Zeroed(UsedSlots(slots, list[i]), list[i := 0], i + 1, final)
    ensures Zeroed(slots, list, i, final)
  {
    forall j | i < j < |list|
      ensures list[i := 0][i + 1..j] == list[i + 1..j]
      ensures list[j] in list[i..j] <==> list[j] == list[i] || list[j] in list[i + 1..j]
    {
      assert list[i..j] == [list[i]] + list[i + 1..j];
    }
  }

  // ----- A stale entry

  lemma StaleRoom(a: Area, list: seq<nat>, i: nat, b: Area)
    requires Below(list, |a.slots|) && i < |list| && !a.slots[list[i]].state.InUse?
    requires b.cpus == a.cpus && b.slots == a.slots && RoomFor(a, list[i..])
    ensures RoomFor(b, list[i + 1..])
  {
    FirstEntry(list, i, a.slots);
    forall c | 0 <= c < |a.cpus|
      ensures |b.cpus[c].idle| + |Mine(list[i + 1..], b.slots, b.cpus[c])| <= b.cpus[c].cap
    {
      assert Mine(list[i..], a.slots, a.cpus[c]) == Mine(list[i + 1..], a.slots, a.cpus[c]);
    }
  }

  lemma StaleCounts(k: Counts, n: nat, freed: nat)
    ensures CountsAfter(k.(recycleInvalid := (k.recycleInvalid + 1) % U32_MOD), n, freed)
         == CountsAfter(k, n + 1, freed)
  {
    WrappedIn(k.recycleInvalid + 1, n - freed, U32_MOD);
  }

  lemma StaleThenRest(a: Area, list: seq<nat>, i: nat, b: Area, e: Area)
    requires Below(list, |a.slots|) && i < |list| && !a.slots[list[i]].state.InUse?
    requires b == a.(counts := a.counts.(recycleInvalid := (a.counts.recycleInvalid + 1) % U32_MOD))
    requires Recycled(b, list[i + 1..], e)
    ensures Recycled(a, list[i..], e)
  {
    FirstEntry(list, i, a.slots);
    StaleCounts(a.counts, |list[i + 1..]|, |Freed(list[i + 1..], a.slots)|);
    forall c | 0 <= c < |a.cpus| ensures GotBack(a.cpus[c], e.cpus[c], Mine(list[i..], a.slots, a.cpus[c])) {
      assert Mine(list[i..], a.slots, a.cpus[c]) == Mine(list[i + 1..], a.slots, a.cpus[c]);
      assert GotBack(b.cpus[c], e.cpus[c], Mine(list[i + 1..], b.slots, b.cpus[c]));
    }
  }

  // ----- An entry that gives its index back

  /** `b` is `a` with one index given back to its owner. */
  ghost predicate OneBack(a: Area, x: nat, b: Area)
    requires x < |a.slots|
  {
    var o := Owner(a.cpus, x);
    && o < |a.cpus|
    && b == a.(cpus := a.cpus[o := a.cpus[o].(idle := a.cpus[o].idle + [x])], slots := UsedSlots(a.slots, x),
               counts := a.counts.(recycled := (a.counts.recycled + 1) % U64_MOD))
  }

  lemma FreeingActs(a: Area, list: seq<nat>, i: nat)
    requires Indexed(a) && Below(list, |a.slots|) && i < |list| && a.slots[list[i]].state.InUse?
    requires Owner(a.cpus, list[i]) < |a.cpus|
    ensures ConsumerAct(a, Recycling(list, i)) == (a, Freeing(list, i))
    ensures ConsumerAct(a, Freeing(list, i)) == (a.(slots := UsedSlots(a.slots, list[i])), Returning(list, i))
  {
  }

  lemma ReturningActs(a: Area, list: seq<nat>, i: nat, b: Area)
    requires Indexed(a) && ConsumerOk(a, Returning(list, i))
    requires var o := Owner(a.cpus, list[i]);
      && |a.cpus[o].idle| < a.cpus[o].cap
      && b == a.(cpus := a.cpus[o := a.cpus[o].(idle := a.cpus[o].idle + [list[i]])],
                 counts := a.counts.(recycled := (a.counts.recycled + 1) % U64_MOD))
    ensures ConsumerAct(a, Returning(list, i)) == (b, Recycling(list[i := 0], i + 1))
  {
  }

  lemma EntryFreed(a: Area, list: seq<nat>, i: nat) returns (b: Area)
    requires Indexed(a) && Ranges(a) && Below(list, |a.slots|) && i < |list|
    requires a.slots[list[i]].state.InUse? && RoomFor(a, list[i..])
    ensures OneBack(a, list[i], b) && Indexed(b) && SameRanges(a, b)
    ensures FinishConsumer(a, Recycling(list, i)) == FinishConsumer(b, Recycling(list[i := 0], i + 1))
  {
    OwnerHasRoom(a, list, i);
    b := EntryGivenBack(a, list, i);
  }

  lemma EntryGivenBack(a: Area, list: seq<nat>, i: nat) returns (b: Area)
    requires Indexed(a) && Below(list, |a.slots|) && i < |list| && a.slots[list[i]].state.InUse?
    requires var o := Owner(a.cpus, list[i]); o < |a.cpus| && |a.cpus[o].idle| < a.cpus[o].cap
    ensures OneBack(a, list[i], b) && Indexed(b) && SameRanges(a, b)
    ensures FinishConsumer(a, Recycling(list, i)) == FinishConsumer(b, Recycling(list[i := 0], i + 1))
  {
    var o := Owner(a.cpus, list[i]);
    var c := a.(slots := UsedSlots(a.slots, list[i]));
    b := c.(cpus := c.cpus[o := c.cpus[o].(idle := c.cpus[o].idle + [list[i]])],
            counts := c.counts.(recycled := (c.counts.recycled + 1) % U64_MOD));
    FreeingActs(a, list, i);
    ReturningActs(c, list, i, b);
    ConsumerGoesOn(a, Recycling(list, i));
    ConsumerGoesOn(a, Freeing(list, i));
    ConsumerGoesOn(c, Returning(list, i));
  }

  lemma OwnerHasRoom(a: Area, list: seq<nat>, i: nat)
    requires Ranges(a) && Below(list, |a.slots|) && i < |list|
    requires a.slots[list[i]].state.InUse? && RoomFor(a, list[i..])
    ensures var o := Owner(a.cpus, list[i]); o < |a.cpus| && |a.cpus[o].idle| < a.cpus[o].cap
  {
    var o := Owner(a.cpus, list[i]);
    assert list[i..][0] == list[i];
    assert list[i] in Mine(list[i..], a.slots, a.cpus[o]);
    assert |Mine(list[i..], a.slots, a.cpus[o])| >= 1;
  }

  lemma FreedRoom(a: Area, list: seq<nat>, i: nat, b: Area)
    requires Ranges(a) && Below(list, |a.slots|) && i < |list|
    requires a.slots[list[i]].state.InUse? && RoomFor(a, list[i..]) && OneBack(a, list[i], b)
    ensures RoomFor(b, list[i + 1..])
  {
    forall c | 0 <= c < |b.cpus|
      ensures |b.cpus[c].idle| + |Mine(list[i + 1..], b.slots, b.cpus[c])| <= b.cpus[c].cap
    {
      MineRest(list, i, a.slots, a.cpus[c]);
      assert Mine(list[i + 1..], b.slots, b.cpus[c]) == Mine(list[i + 1..], b.slots, a.cpus[c]);
    }
  }

  lemma FreedCpu(a: Area, list: seq<nat>, i: nat, b: Area, c: nat, q: CpuQueue)
    requires Ranges(a) && Below(list, |a.slots|) && i < |list| && a.slots[list[i]].state.InUse? && c < |a.cpus|
    requires OneBack(a, list[i], b) && GotBack(b.cpus[c], q, Mine(list[i + 1..], b.slots, b.cpus[c]))
    ensures GotBack(a.cpus[c], q, Mine(list[i..], a.slots, a.cpus[c]))
  {
    var x, o := list[i], Owner(a.cpus, list[i]);
    MineRest(list, i, a.slots, a.cpus[c]);
    var rest := Mine(list[i + 1..], b.slots, a.cpus[c]);
    assert Mine(list[i + 1..], b.slots, b.cpus[c]) == rest;
    if c == o {
      assert multiset(b.cpus[c].idle) == multiset(a.cpus[c].idle) + multiset{x};
      assert multiset(Mine(list[i..], a.slots, a.cpus[c])) == multiset(rest) + multiset{x};
    } else {
      Apart(a, c, o);
      assert Mine(list[i..], a.slots, a.cpus[c]) == rest;
    }
  }

  lemma FreedCounts(k: Counts, n: nat, freed: nat)
    ensures CountsAfter(k.(recycled := (k.recycled + 1) % U64_MOD), n, freed) == CountsAfter(k, n + 1, freed + 1)
  {
    WrappedIn(k.recycled + 1, freed, U64_MOD);
  }

  lemma FreedSlotsAfter(slots: seq<Slot>, list: seq<nat>, i: nat, slots': seq<Slot>)
    requires Below(list, |slots|) && i < |list| && slots[list[i]].state.InUse?
    requires Below(list[i + 1..], |slots|) && SlotsAfter(UsedSlots(slots, list[i]), list[i + 1..], slots')
    ensures Below(list[i..], |slots|) && SlotsAfter(slots, list[i..], slots')
  {
    FirstEntry(list, i, slots);
  }

  lemma FreedCountsAfter(k: Counts, list: seq<nat>, i: nat, slots: seq<Slot>)
    requires Below(list, |slots|) && i < |list| && slots[list[i]].state.InUse?
    ensures Below(list[i..], |slots|) && Below(list[i + 1..], |slots|)
    ensures CountsAfter(k.(recycled := (k.recycled + 1) % U64_MOD), |list[i + 1..]|,
                        |Freed(list[i + 1..], UsedSlots(slots, list[i]))|)
         == CountsAfter(k, |list[i..]|, |Freed(list[i..], slots)|)
  {
    var n, freed := |list[i + 1..]|, Freed(list[i + 1..], UsedSlots(slots, list[i]));
    assert |list[i..]| == n + 1 && |Freed(list[i..], slots)| == |freed| + 1 by {
      FirstEntry(list, i, slots);
    }
    FreedCounts(k, n, |freed|);
  }

  lemma FreedThenRest(a: Area, list: seq<nat>, i: nat, b: Area, e: Area)
    requires Ranges(a) && Below(list, |a.slots|) && i < |list| && a.slots[list[i]].state.InUse?
    requires OneBack(a, list[i], b) && Recycled(b, list[i + 1..], e)
    ensures Recycled(a, list[i..], e)
  {
    FreedSlotsAfter(a.slots, list, i, e.slots);
    FreedCountsAfter(a.counts, list, i, a.slots);
    forall c | 0 <= c < |a.cpus| ensures GotBack(a.cpus[c], e.cpus[c], Mine(list[i..], a.slots, a.cpus[c])) {
      FreedCpu(a, list, i, b, c, e.cpus[c]);
    }
  }

  /** Whenever no idle index is INUSE or queued twice there is room for any list. */
  lemma CleanHasRoom(a: Area, list: seq<nat>)
    requires Indexed(a) && Ranges(a) && Below(list, |a.slots|)
    requires forall c :: 0 <= c < |a.cpus| ==>
      && Within(a.cpus[c].idle, a.cpus[c]) && NoRepeats(a.cpus[c].idle)
      && forall i :: 0 <= i < |a.cpus[c].idle| ==> !a.slots[a.cpus[c].idle[i]].state.InUse?
    ensures RoomFor(a, list)
  {
    forall c | 0 <= c < |a.cpus| ensures |a.cpus[c].idle| + |Mine(list, a.slots, a.cpus[c])| <= a.cpus[c].cap {
      CleanQueueHasRoom(a.cpus[c], Mine(list, a.slots, a.cpus[c]));
    }
  }

  lemma CleanQueueHasRoom(q: CpuQueue, mine: set<nat>)
    requires q.start < q.end && q.end - q.start <= q.cap && Within(q.idle, q) && NoRepeats(q.idle)
    requires forall i :: 0 <= i < |q.idle| ==> q.idle[i] !in mine
    requires forall x :: x in mine ==> q.start <= x < q.end
    ensures |q.idle| + |mine| <= q.cap
  {
    var idle := Members(q.idle);
    SetBag(q.idle);
    assert idle !! mine;
    assert |idle + mine| == |idle| + |mine|;
    SubsetSize(idle + mine, Span(q.start, q.end));
  }

  lemma {:induction false} SubsetSize(s: set<nat>, u: set<int>)
    requires forall x :: x in s ==> x in u
    ensures |s| <= |u|
  {
    if s != {} {
      var x :| x in s;
      SubsetSize(s - {x}, u - {x});
    }
  }
}
