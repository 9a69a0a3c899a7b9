/**
 Whole calls: `ip_queue_put`, `ip_queue_move2dma` and `ip_queue_recycle`, when nothing interferes, are runs
 the theorems about runs cover; and what a put does.
 */
module SlotCalls {
  import opened Packets
  import opened SlotArea
  import opened SlotRuns
  import opened SlotTheorems
  import opened SlotWorld
  import opened Words

  // ----- Calls are runs

  lemma ActDecreases(a: Area, k: Consumer)
    requires Indexed(a) && ConsumerOk(a, k) && !k.Quiet?
    ensures var r := ConsumerAct(a, k);
      || Remaining(r.0, r.1) < Remaining(a, k)
      || (Remaining(r.0, r.1) == Remaining(a, k) && r.1.Rank() < k.Rank())
  {
  }

  lemma PutDecreases(a: Area, c: nat, p: Producer)
    requires Indexed(a) && c < |a.cpus| && ProducerOk(a, p) && !p.Resting?
    ensures var r := ProducerAct(a, c, p);
      || (p.Searching() && !r.1.Searching())
      || (p.Searching() == r.1.Searching() && p.Searching() && |r.0.cpus[c].idle| < |a.cpus[c].idle|)
      || (p.Searching() == r.1.Searching() && (p.Searching() ==> r.0.cpus[c].idle == a.cpus[c].idle)
          && r.1.Rank() < p.Rank())
  {
  }

  lemma ProduceActs(w: World, c: nat)
    requires Shaped(w) && Enabled(w, Produce(c))
    ensures var v := Apply(w, Produce(c));
      && (v.area, v.producers[c]) == ProducerAct(w.area, c, w.producers[c])
      && v.producers == w.producers[c := v.producers[c]] && v.mover == w.mover && v.recycler == w.recycler
  {
  }

  lemma {:induction false} PutIsARun(w: World, c: nat) returns (acts: seq<Action>)
    requires Shaped(w) && c < |w.producers|
    ensures Run(w, acts)
    ensures var v := After(w, acts);
      && v.area == FinishPut(w.area, c, w.producers[c])
      && v.producers == w.producers[c := Resting] && v.mover == w.mover && v.recycler == w.recycler
    decreases w.producers[c].Searching(),
      if w.producers[c].Searching() then |w.area.cpus[c].idle| else 0, w.producers[c].Rank()
  {
    if w.producers[c].Resting? {
      acts := [];
    } else {
      PutGoesOn(w.area, c, w.producers[c]);
      PutDecreases(w.area, c, w.producers[c]);
      ProduceActs(w, c);
      var rest := PutIsARun(Apply(w, Produce(c)), c);
      acts := [Produce(c)] + rest;
      Prepended(w, Produce(c), rest);
    }
  }

  lemma {:induction false} MoveIsARun(w: World) returns (acts: seq<Action>)
    requires Shaped(w)
    ensures Run(w, acts)
    ensures var v := After(w, acts);
      (v.area, v.mover) == FinishConsumer(w.area, w.mover) && v.recycler == w.recycler
    decreases Remaining(w.area, w.mover), w.mover.Rank()
  {
    if w.mover.Quiet? {
      acts := [];
    } else {
      ActDecreases(w.area, w.mover);
      ConsumerGoesOn(w.area, w.mover);
      var rest := MoveIsARun(Apply(w, MoveOn));
      acts := [MoveOn] + rest;
      Prepended(w, MoveOn, rest);
    }
  }

  ghost predicate MayEnter(w: World, x: nat)
    requires Shaped(w) && x < |w.area.slots|
  {
    w.area.slots[x].state.InUse? ==> HeldByOwner(w, x)
  }

  ghost predicate MayEnterFrom(w: World, list: seq<nat>, from: nat)
    requires Shaped(w) && Below(list, |w.area.slots|)
  {
    forall j :: from <= j < |list| ==> MayEnter(w, list[j])
  }

  /** A list may be recycled in one go if each entry that reads INUSE is held; repeats are harmless then. */
  ghost predicate MayRecycle(w: World)
    requires Shaped(w)
  {
    match w.recycler
    case Recycling(list, i) => MayEnterFrom(w, list, i)
    case Freeing(list, i) => MayEnterFrom(w, list, i)
    case Returning(list, i) => MayEnterFrom(w, list, i + 1)
    case _ => true
  }

  /** The thread marks nothing INUSE. */
  lemma NothingNewInUse(w: World, x: nat)
    requires Shaped(w) && Enabled(w, RecycleOn) && x < |w.area.slots|
    ensures Apply(w, RecycleOn).area.slots[x].state.InUse? ==> w.area.slots[x].state.InUse?
  {
  }

  lemma EntryStays(w: World, x: nat)
    requires Shaped(w) && Enabled(w, RecycleOn) && x < |w.area.slots| && MayEnter(w, x)
    ensures MayEnter(Apply(w, RecycleOn), x)
  {
    NothingNewInUse(w, x);
    if w.recycler.Freeing? && w.recycler.list[w.recycler.i] == x {
      FreeApply(w, x, Owner(w.area.cpus, x));
    } else if HeldByOwner(w, x) {
      HeldStays(w, RecycleOn, x);
    }
  }

  lemma MayRecycleStays(w: World)
    requires Shaped(w) && Enabled(w, RecycleOn) && MayRecycle(w)
    ensures Disciplined(w, RecycleOn) && MayRecycle(Apply(w, RecycleOn))
  {
    ListGoesOn(w);
    var list := w.recycler.list;
    forall j | 0 <= j < |list| && MayEnter(w, list[j]) ensures MayEnter(Apply(w, RecycleOn), list[j]) {
      EntryStays(w, list[j]);
    }
  }

  /** Whatever the list, a recycle is a run; with `MayRecycle` it keeps the consumer's side. */
  lemma {:induction false} RecycleIsARun(w: World) returns (acts: seq<Action>)
    requires Shaped(w)
    ensures FreeRun(w, acts) && (MayRecycle(w) ==> KeepsSide(w, acts))
    ensures var v := After(w, acts);
      && (v.area, v.recycler) == FinishConsumer(w.area, w.recycler) && v.mover == w.mover
      && v.producers == w.producers
    decreases Remaining(w.area, w.recycler), w.recycler.Rank()
  {
    if w.recycler.Quiet? {
      acts := [];
    } else {
      if MayRecycle(w) {
        MayRecycleStays(w);
      }
      ActDecreases(w.area, w.recycler);
      ConsumerGoesOn(w.area, w.recycler);
      var rest := RecycleIsARun(Apply(w, RecycleOn));
      acts := [RecycleOn] + rest;
      Prepended(w, RecycleOn, rest);
    }
  }

  // ----- Put

  /** The slot filled and marked. */
  function FilledArea(a: Area, pkt: KeyInfo, s: nat): Area
    requires s < |a.slots|
  {
    a.(slots := a.slots[s := Slot(pkt, (a.slots[s].times + 1) % TIMES_MOD, InUse)])
  }

  /** What a put makes of the area, given a usable index. */
  function Stored(a: Area, c: nat, pkt: KeyInfo, s: nat): Area
    requires c < |a.cpus| && s < |a.slots|
  {
    var q := a.cpus[c].(ready := a.cpus[c].ready + [s]);
    WithCpu(FilledArea(a, pkt, s), c, q.(alarm := AlarmAfter(q)))
    .(counts := a.counts.(queued := (a.counts.queued + 1) % U64_MOD))
  }

  lemma RestingStays(a: Area, c: nat)
    requires Indexed(a) && c < |a.cpus|
    ensures FinishPut(a, c, Resting) == a
  {
  }

  lemma AlarmActs(a: Area, c: nat)
    requires Indexed(a) && c < |a.cpus|
    ensures ProducerAct(a, c, Alarming) == (WithCpu(a, c, a.cpus[c].(alarm := AlarmAfter(a.cpus[c]))), Resting)
  {
  }

  lemma AlarmedAfter(a: Area, c: nat)
    requires Indexed(a) && c < |a.cpus|
    ensures FinishPut(a, c, Alarming) == WithCpu(a, c, a.cpus[c].(alarm := AlarmAfter(a.cpus[c])))
  {
    AlarmActs(a, c);
    PutGoesOn(a, c, Alarming);
    RestingStays(ProducerAct(a, c, Alarming).0, c);
  }

  lemma StoredAfter(a: Area, c: nat, seen: nat)
    requires Indexed(a) && c < |a.cpus|
    ensures var b := a.(counts := a.counts.(queued := (seen + 1) % U64_MOD));
      Indexed(b) && FinishPut(a, c, CountStoring(seen)) == FinishPut(b, c, Alarming)
  {
    PutGoesOn(a, c, CountStoring(seen));
  }

  lemma LoadedAfter(a: Area, c: nat)
    requires Indexed(a) && c < |a.cpus|
    ensures FinishPut(a, c, CountLoading) == FinishPut(a, c, CountStoring(a.counts.queued))
  {
    PutGoesOn(a, c, CountLoading);
  }

  lemma MissedAfter(a: Area, c: nat)
    requires Indexed(a) && c < |a.cpus|
    ensures FinishPut(a, c, MissLoading) == a.(counts := a.counts.(getFail := (a.counts.getFail + 1) % U32_MOD))
  {
    PutGoesOn(a, c, MissLoading);
    PutGoesOn(a, c, MissStoring(a.counts.getFail));
  }

  lemma WritingActs(a: Area, c: nat, pkt: KeyInfo, s: nat)
    requires Indexed(a) && c < |a.cpus| && s < |a.slots| && !a.slots[s].state.InUse?
    ensures ProducerAct(a, c, Checking(pkt, s)) == (a, Filling(pkt, s))
    ensures var r := ProducerAct(a, c, Filling(pkt, s));
      && r.1 == Marking(pkt, s)
      && ProducerAct(r.0, c, Marking(pkt, s)) == (FilledArea(a, pkt, s), Queueing(pkt, s))
  {
    var a2 := ProducerAct(a, c, Filling(pkt, s)).0;
    assert a2.slots[s := FilledArea(a, pkt, s).slots[s]] == FilledArea(a, pkt, s).slots;
  }

  lemma FilledAfter(a: Area, c: nat, pkt: KeyInfo, s: nat)
    requires Indexed(a) && c < |a.cpus| && s < |a.slots| && !a.slots[s].state.InUse?
    ensures var b := FilledArea(a, pkt, s);
      Indexed(b) && SameRanges(a, b) && FinishPut(a, c, Checking(pkt, s)) == FinishPut(b, c, Queueing(pkt, s))
  {
    WritingActs(a, c, pkt, s);
    PutGoesOn(a, c, Checking(pkt, s));
    PutGoesOn(a, c, Filling(pkt, s));
    PutGoesOn(ProducerAct(a, c, Filling(pkt, s)).0, c, Marking(pkt, s));
  }

  /** The index enters ready and is counted; or goes back to idle; or is lost. */
  function Queued(a: Area, c: nat, s: nat): Area
    requires c < |a.cpus|
  {
    var q := a.cpus[c];
    if |q.ready| < q.cap then
      WithCpu(a, c, q.(ready := q.ready + [s])).(counts := a.counts.(queued := (a.counts.queued + 1) % U64_MOD))
    else if |q.idle| < q.cap then WithCpu(a, c, q.(idle := q.idle + [s]))
    else a
  }

  lemma QueueingActs(a: Area, c: nat, pkt: KeyInfo, s: nat)
    requires Indexed(a) && c < |a.cpus| && s < |a.slots|
    ensures ProducerAct(a, c, Queueing(pkt, s))
         == if |a.cpus[c].ready| < a.cpus[c].cap
            then (WithCpu(a, c, a.cpus[c].(ready := a.cpus[c].ready + [s])), CountLoading)
            else (Queued(a, c, s), Alarming)
  {
  }

  lemma QueuedAfter(a: Area, c: nat, pkt: KeyInfo, s: nat)
    requires Indexed(a) && c < |a.cpus| && s < |a.slots|
    ensures Indexed(Queued(a, c, s)) && SameRanges(a, Queued(a, c, s))
    ensures FinishPut(a, c, Queueing(pkt, s)) == FinishPut(Queued(a, c, s), c, Alarming)
  {
    var q := a.cpus[c];
    QueueingActs(a, c, pkt, s);
    PutGoesOn(a, c, Queueing(pkt, s));
    if |q.ready| < q.cap {
      CountedAfter(WithCpu(a, c, q.(ready := q.ready + [s])), c);
    }
  }

  lemma CountedAfter(a: Area, c: nat)
    requires Indexed(a) && c < |a.cpus|
    ensures var b := a.(counts := a.counts.(queued := (a.counts.queued + 1) % U64_MOD));
      Indexed(b) && FinishPut(a, c, CountLoading) == FinishPut(b, c, Alarming)
  {
    LoadedAfter(a, c);
    StoredAfter(a, c, a.counts.queued);
  }

  lemma FoundIsQueued(a: Area, c: nat, pkt: KeyInfo, s: nat)
    requires Indexed(a) && c < |a.cpus| && s < |a.slots| && !a.slots[s].state.InUse?
    ensures var b := Queued(FilledArea(a, pkt, s), c, s);
      FinishPut(a, c, Checking(pkt, s)) == WithCpu(b, c, b.cpus[c].(alarm := AlarmAfter(b.cpus[c])))
  {
    FilledAfter(a, c, pkt, s);
    QueuedAfter(FilledArea(a, pkt, s), c, pkt, s);
    AlarmedAfter(Queued(FilledArea(a, pkt, s), c, s), c);
  }

  lemma FoundIsStored(a: Area, c: nat, pkt: KeyInfo, s: nat)
    requires Indexed(a) && c < |a.cpus| && s < |a.slots|
    requires !a.slots[s].state.InUse? && |a.cpus[c].ready| < a.cpus[c].cap
    ensures FinishPut(a, c, Checking(pkt, s)) == Stored(a, c, pkt, s)
  {
    FoundIsQueued(a, c, pkt, s);
  }

  /** An INUSE index is counted, and another fetched. */
  lemma ClashAfter(a: Area, c: nat, pkt: KeyInfo, s: nat)
    requires Indexed(a) && c < |a.cpus| && s < |a.slots| && a.slots[s].state.InUse?
    ensures var b := a.(counts := a.counts.(getInvalid := (a.counts.getInvalid + 1) % U32_MOD));
      Indexed(b) && FinishPut(a, c, Checking(pkt, s)) == FinishPut(b, c, Fetching(pkt))
  {
    PutGoesOn(a, c, Checking(pkt, s));
    PutGoesOn(a, c, ClashLoading(pkt));
    PutGoesOn(a, c, ClashStoring(pkt, a.counts.getInvalid));
  }

  /** A put whose oldest idle index is not INUSE: the index gets the packet and goes to the back of
      the ready queue; with none idle only the miss is counted. */
  lemma PutStores(a: Area, c: nat, pkt: KeyInfo)
    requires Indexed(a) && c < |a.cpus|
    requires a.cpus[c].idle != [] ==>
      !a.slots[a.cpus[c].idle[0]].state.InUse? && |a.cpus[c].ready| < a.cpus[c].cap
    ensures var q, b := a.cpus[c], FinishPut(a, c, Fetching(pkt));
      if q.idle == [] then
        b == a.(counts := a.counts.(getFail := (a.counts.getFail + 1) % U32_MOD))
      else
        b == Stored(WithCpu(a, c, q.(idle := q.idle[1..])), c, pkt, q.idle[0])
  {
    var q := a.cpus[c];
    PutGoesOn(a, c, Fetching(pkt));
    if q.idle == [] {
      MissedAfter(a, c);
    } else {
      FoundIsStored(WithCpu(a, c, q.(idle := q.idle[1..])), c, pkt, q.idle[0]);
    }
  }
}
