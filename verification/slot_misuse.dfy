/**
 The ipshark2 packet queue under a consumer that recycles what it was never handed: how the queue breaks, and
 what still holds. The retry loop of `ip_queue_put` ends whatever is recycled meanwhile.
 */
module SlotMisuse {
  import opened Packets
  import opened SlotArea
  import opened SlotCalls
  import opened SlotInvariant
  import opened SlotRecycle
  import opened SlotRuns
  import opened SlotTheorems
  import opened SlotWorld

  // ----- Recycling an index that still waits

  /** A whole put. */
  lemma PutCall(w: World, c: nat, pkt: KeyInfo) returns (acts: seq<Action>)
    requires Shaped(w) && c < |w.producers| && w.producers[c].Resting?
    ensures FreeRun(w, acts)
    ensures var v := After(w, acts);
      && v.area == FinishPut(w.area, c, Fetching(pkt)) && v.producers == w.producers
      && v.mover == w.mover && v.recycler == w.recycler
  {
    var rest := PutIsARun(Apply(w, Offer(c, pkt)), c);
    Prepended(w, Offer(c, pkt), rest);
    acts := [Offer(c, pkt)] + rest;
  }

  /** A whole recycle of any list. */
  lemma RecycleCall(w: World, list: seq<nat>) returns (acts: seq<Action>)
    requires Shaped(w) && w.recycler.Quiet? && Below(list, |w.area.slots|)
    ensures FreeRun(w, acts)
    ensures var v := After(w, acts);
      && v.area == FinishConsumer(w.area, Recycling(list, 0)).0 && v.producers == w.producers
      && v.mover == w.mover && v.recycler == FinishConsumer(w.area, Recycling(list, 0)).1
  {
    var rest := RecycleIsARun(Apply(w, Recycle(list)));
    Prepended(w, Recycle(list), rest);
    acts := [Recycle(list)] + rest;
  }

  /** A CPU all of whose `n` indices are idle, the first of them `s`. */
  ghost predicate AllIdle(a: Area, c: nat, s: nat)
    requires c < |a.cpus|
  {
    && Indexed(a) && Ranges(a) && s == a.cpus[c].start && a.cpus[c].ready == []
    && a.cpus[c].idle == Ascending(a.cpus[c].start, a.cpus[c].end)
    && forall x :: a.cpus[c].start <= x < a.cpus[c].end ==> a.slots[x].state == Free
  }

  /** The oldest idle index is `s`, and its slot is free. */
  lemma HeadIsFree(a: Area, c: nat, s: nat)
    requires c < |a.cpus| && AllIdle(a, c, s)
    ensures var q := a.cpus[c];
      && s < q.end <= |a.slots| && 0 < q.cap && !a.slots[s].state.InUse?
      && q.idle != [] && q.idle[0] == s && q.idle[1..] == Ascending(s + 1, q.end)
  {
  }

  /** What storing a packet in slot `s` leaves. */
  lemma StoredFields(a: Area, c: nat, pkt: KeyInfo, s: nat)
    requires Indexed(a) && c < |a.cpus| && s < |a.slots|
    ensures var b := Stored(a, c, pkt, s);
      && SameRanges(a, b) && b.slots[s].state.InUse? && b.slots[s].info == pkt
      && b.cpus[c].ready == a.cpus[c].ready + [s] && b.cpus[c].idle == a.cpus[c].idle
      && forall x :: 0 <= x < |a.slots| && x != s ==> b.slots[x] == a.slots[x]
  {
  }

  lemma FirstPut(a: Area, c: nat, s: nat, pkt: KeyInfo)
    requires c < |a.cpus| && AllIdle(a, c, s)
    ensures var b := FinishPut(a, c, Fetching(pkt));
      && SameRanges(a, b) && s < |b.slots| && b.slots[s].state.InUse? && b.slots[s].info == pkt
      && b.cpus[c].ready == [s] && s < a.cpus[c].end && b.cpus[c].idle == Ascending(s + 1, a.cpus[c].end)
      && forall x :: 0 <= x < |a.slots| && x != s ==> b.slots[x] == a.slots[x]
  {
    var q := a.cpus[c];
    HeadIsFree(a, c, s);
    PutStores(a, c, pkt);
    StoredFields(WithCpu(a, c, q.(idle := q.idle[1..])), c, pkt, s);
    assert [] + [s] == [s];
  }

  /** One index recycled from ready: it is in idle as well, marked USED. */
  lemma RecycledFromReady(a: Area, c: nat, s: nat)
    requires Indexed(a) && Ranges(a) && c < |a.cpus| && a.cpus[c].start <= s < a.cpus[c].end
    requires a.slots[s].state.InUse? && |a.cpus[c].idle| < a.cpus[c].cap
    ensures var r := FinishConsumer(a, Recycling([s], 0));
      && r.1.Quiet? && Indexed(r.0) && SameRanges(a, r.0)
      && r.0.cpus[c] == a.cpus[c].(idle := a.cpus[c].idle + [s])
      && r.0.slots == UsedSlots(a.slots, s)
  {
    var o := Owner(a.cpus, s);
    Apart(a, c, o);
    var b := EntryGivenBack(a, [s], 0);
    var list := [s][0 := 0];
    assert |list| == 1;
    ConsumerGoesOn(b, Recycling(list, 1));
  }

  /** The second packet on a CPU of two slots whose first index was recycled too early. */
  lemma SecondPut(a: Area, c: nat, s: nat, pkt: KeyInfo)
    requires Indexed(a) && c < |a.cpus| && s + 1 < |a.slots|
    requires a.cpus[c].idle == [s + 1, s] && a.cpus[c].ready == [s] && a.cpus[c].cap >= 2
    requires !a.slots[s].state.InUse? && !a.slots[s + 1].state.InUse?
    ensures var b := FinishPut(a, c, Fetching(pkt));
      b.cpus[c].idle == [s] && b.cpus[c].ready == [s, s + 1] && !b.slots[s].state.InUse?
  {
    PutStores(a, c, pkt);
  }

  /** The third packet is written over the first. */
  lemma ThirdPut(a: Area, c: nat, s: nat, pkt: KeyInfo)
    requires Indexed(a) && c < |a.cpus| && s < |a.slots|
    requires a.cpus[c].idle == [s] && a.cpus[c].ready != [] && a.cpus[c].ready[0] == s && !a.slots[s].state.InUse?
    ensures var b := FinishPut(a, c, Fetching(pkt));
      b.cpus[c].ready != [] && b.cpus[c].ready[0] == s && b.slots[s].info == pkt
  {
    PutGoesOn(a, c, Fetching(pkt));
    FoundIsQueued(WithCpu(a, c, a.cpus[c].(idle := a.cpus[c].idle[1..])), c, pkt, s);
  }

  lemma ThirdOverFirst(a: Area, c: nat, s: nat, pkt2: KeyInfo, pkt3: KeyInfo)
    requires Indexed(a) && c < |a.cpus| && s + 1 < |a.slots|
    requires a.cpus[c].idle == [s + 1, s] && a.cpus[c].ready == [s] && a.cpus[c].cap >= 2
    requires !a.slots[s].state.InUse? && !a.slots[s + 1].state.InUse?
    ensures var b := FinishPut(FinishPut(a, c, Fetching(pkt2)), c, Fetching(pkt3));
      b.cpus[c].ready != [] && b.cpus[c].ready[0] == s && b.slots[s].info == pkt3
  {
    SecondPut(a, c, s, pkt2);
    ThirdPut(FinishPut(a, c, Fetching(pkt2)), c, s, pkt3);
  }

  /** The area after both: the index is in idle as well as in ready. */
  ghost predicate TwicePlaced(a: Area, c: nat, s: nat, b: Area)
    requires c < |a.cpus|
  {
    && SameRanges(a, b)
    && b.cpus[c].idle == Ascending(s + 1, if s + 1 <= a.cpus[c].end then a.cpus[c].end else s + 1) + [s]
    && b.cpus[c].ready == [s]
    && forall x :: a.cpus[c].start <= x < a.cpus[c].end && x < |b.slots| ==> !b.slots[x].state.InUse?
  }

  lemma UsedAgain(a: Area, c: nat, s: nat, b: Area, r: Area)
    requires c < |a.cpus| && AllIdle(a, c, s) && SameRanges(a, b) && s < |a.slots|
    requires b.cpus[c].ready == [s] && s < a.cpus[c].end && b.cpus[c].idle == Ascending(s + 1, a.cpus[c].end)
    requires forall x :: 0 <= x < |a.slots| && x != s ==> b.slots[x] == a.slots[x]
    requires SameRanges(b, r) && r.cpus[c] == b.cpus[c].(idle := b.cpus[c].idle + [s])
    requires r.slots == UsedSlots(b.slots, s)
    ensures TwicePlaced(a, c, s, r)
  {
  }

  lemma PutThenRecycled(a: Area, c: nat, s: nat, pkt: KeyInfo)
    requires c < |a.cpus| && AllIdle(a, c, s)
    ensures s < |a.slots|
    ensures TwicePlaced(a, c, s, FinishConsumer(FinishPut(a, c, Fetching(pkt)), Recycling([s], 0)).0)
  {
    FirstPut(a, c, s, pkt);
    var b := FinishPut(a, c, Fetching(pkt));
    SameRangesKeepsRanges(a, b);
    RecycledFromReady(b, c, s);
    UsedAgain(a, c, s, b, FinishConsumer(b, Recycling([s], 0)).0);
  }

  /** A put, then its index recycled at once. */
  lemma PutAndRecycled(w: World, c: nat, s: nat, pkt: KeyInfo) returns (acts: seq<Action>)
    requires Shaped(w) && c < |w.producers| && w.producers[c].Resting? && w.recycler.Quiet?
    requires AllIdle(w.area, c, s)
    ensures FreeRun(w, acts)
    ensures var v := After(w, acts);
      TwicePlaced(w.area, c, s, v.area) && v.producers == w.producers && v.mover == w.mover
  {
    var acts0 := PutCall(w, c, pkt);
    var v := After(w, acts0);
    PutThenRecycled(w.area, c, s, pkt);
    var acts1 := RecycleCall(v, [s]);
    RunsJoin(w, acts0, acts1);
    acts := acts0 + acts1;
  }

  /** From any creation: a packet is put, and its index recycled while it waits. The index is then in idle and
      in ready at once, and ownership is gone. */
  lemma TwoHomes(a: Area, c: nat, pkt: KeyInfo) returns (acts: seq<Action>)
    requires Created(a) && c < |a.cpus|
    ensures FreeRun(Start(a), acts)
    ensures var w, s := After(Start(a), acts), a.cpus[c].start;
      && |w.area.cpus| == |w.logs| == |a.cpus|
      && s in w.area.cpus[c].idle && s in w.area.cpus[c].ready && !OwnedAt(w, c, s)
  {
    var s := a.cpus[c].start;
    acts := PutAndRecycled(Start(a), c, s, pkt);
    var q := After(Start(a), acts).area.cpus[c];
    assert q.idle[|q.idle| - 1] == s && q.ready[0] == s;
  }

  lemma TwoPuts(w: World, c: nat, pkt2: KeyInfo, pkt3: KeyInfo) returns (acts: seq<Action>)
    requires Shaped(w) && c < |w.producers| && w.producers[c].Resting?
    ensures FreeRun(w, acts)
    ensures var v := After(w, acts);
      v.area == FinishPut(FinishPut(w.area, c, Fetching(pkt2)), c, Fetching(pkt3)) && v.mover == w.mover
  {
    var acts2 := PutCall(w, c, pkt2);
    var acts3 := PutCall(After(w, acts2), c, pkt3);
    RunsJoin(w, acts2, acts3);
    acts := acts2 + acts3;
  }

  lemma TwoSlots(a: Area, c: nat, s: nat, b: Area)
    requires c < |a.cpus| && Ranges(a) && s == a.cpus[c].start && a.cpus[c].end == s + 2 && TwicePlaced(a, c, s, b)
    ensures s + 1 < |b.slots| && b.cpus[c].idle == [s + 1, s] && b.cpus[c].cap >= 2
    ensures !b.slots[s].state.InUse? && !b.slots[s + 1].state.InUse?
  {
    assert Ascending(s + 1, s + 2) == [s + 1];
  }

  /** And what the consumer sees of it, on a CPU with two slots: three packets arrive, and the index of the
      first is recycled before the second. Nothing was delivered yet, the first packet's index waits at the
      front of ready as it should, and its slot has the third packet. */
  lemma FirstPacketLost(a: Area, c: nat, pkt1: KeyInfo, pkt2: KeyInfo, pkt3: KeyInfo) returns (acts: seq<Action>)
    requires Created(a) && c < |a.cpus| && a.cpus[c].end == a.cpus[c].start + 2
    ensures FreeRun(Start(a), acts)
    ensures var w, s := After(Start(a), acts), a.cpus[c].start;
      && |w.area.cpus| == |a.cpus| && w.mover == Start(a).mover && s < |w.area.slots|
      && w.area.cpus[c].ready != [] && w.area.cpus[c].ready[0] == s && w.area.slots[s].info == pkt3
  {
    var w, s := Start(a), a.cpus[c].start;
    var acts0 := PutAndRecycled(w, c, s, pkt1);
    var v := After(w, acts0);
    var acts1 := TwoPuts(v, c, pkt2, pkt3);
    TwoSlots(a, c, s, v.area);
    ThirdOverFirst(v.area, c, s, pkt2, pkt3);
    RunsJoin(w, acts0, acts1);
    acts := acts0 + acts1;
  }

  // ----- The retry loop under any recycling

  /** Whatever is recycled, idle indices and the index of a put lie in the range of their CPU. */
  ghost predicate Homed(w: World)
    requires Shaped(w)
  {
    forall c :: 0 <= c < |w.logs| ==> HomedAt(w.area.cpus[c], w.producers[c])
  }

  ghost predicate HomedAt(q: CpuQueue, p: Producer) {
    Within(q.idle, q) && (p.HasIdx() ==> q.start <= p.idx < q.end)
  }

  lemma StartHomed(a: Area)
    requires Created(a)
    ensures Homed(Start(a))
  {
  }

  lemma ProducerStaysHome(a: Area, c: nat, p: Producer)
    requires Indexed(a) && c < |a.cpus| && ProducerOk(a, p) && HomedAt(a.cpus[c], p)
    ensures var r := ProducerAct(a, c, p);
      && HomedAt(r.0.cpus[c], r.1) && forall d :: 0 <= d < |a.cpus| && d != c ==> r.0.cpus[d] == a.cpus[d]
  {
  }

  lemma ProduceHomed(w: World, c: nat)
    requires Shaped(w) && Homed(w) && Enabled(w, Produce(c))
    ensures Homed(Apply(w, Produce(c)))
  {
    assert HomedAt(w.area.cpus[c], w.producers[c]);
    ProducerStaysHome(w.area, c, w.producers[c]);
  }

  /** Only the owner of the index on its way back gets anything. */
  lemma RecyclerFills(a: Area, k: Consumer)
    requires Indexed(a) && ConsumerOk(a, k) && !k.Moving?
    ensures var b := ConsumerAct(a, k).0;
      && |b.cpus| == |a.cpus|
      && forall c :: 0 <= c < |a.cpus| ==>
           || b.cpus[c] == a.cpus[c]
           || (k.Returning? && c == Owner(a.cpus, k.list[k.i])
               && b.cpus[c] == a.cpus[c].(idle := a.cpus[c].idle + [k.list[k.i]]))
  {
  }

  lemma RecycleHomed(w: World)
    requires Shaped(w) && Homed(w) && Enabled(w, RecycleOn)
    ensures Homed(Apply(w, RecycleOn))
  {
    RecycledFields(w);
    RecyclerFills(w.area, w.recycler);
    forall c | 0 <= c < |w.logs| ensures HomedAt(Apply(w, RecycleOn).area.cpus[c], w.producers[c]) {
      assert HomedAt(w.area.cpus[c], w.producers[c]);
    }
  }

  lemma StepHomed(w: World, act: Action)
    requires Shaped(w) && Homed(w) && Enabled(w, act)
    ensures Homed(Apply(w, act))
  {
    if act.Produce? {
      ProduceHomed(w, act.cpu);
    } else if act.RecycleOn? {
      RecycleHomed(w);
    }
  }

  function CountInUse(s: seq<nat>, slots: seq<Slot>): nat
    requires Below(s, |slots|)
  {
    if s == [] then 0 else (if slots[s[0]].state.InUse? then 1 else 0) + CountInUse(s[1..], slots)
  }

  lemma {:induction false} FewerInUse(s: seq<nat>, slots: seq<Slot>, slots': seq<Slot>)
    requires Below(s, |slots|) && |slots'| == |slots|
    requires forall i :: 0 <= i < |s| ==> slots'[s[i]].state.InUse? ==> slots[s[i]].state.InUse?
    ensures CountInUse(s, slots') <= CountInUse(s, slots) <= |s|
  {
    if s != [] {
      FewerInUse(s[1..], slots, slots');
    }
  }

  lemma {:induction false} OneMoreInUse(s: seq<nat>, x: nat, slots: seq<Slot>)
    requires Below(s, |slots|) && x < |slots|
    ensures Below(s + [x], |slots|)
    ensures CountInUse(s + [x], slots) == CountInUse(s, slots) + if slots[x].state.InUse? then 1 else 0
  {
    if s == [] {
      assert s + [x] == [x];
    } else {
      assert (s + [x])[1..] == s[1..] + [x];
      OneMoreInUse(s[1..], x, slots);
    }
  }

  /** An index on its way back to CPU `c`, INUSE although it was marked USED: it was used again since. */
  function Coming(w: World, c: nat): nat
    requires Shaped(w)
  {
    if w.recycler.Returning? && Owner(w.area.cpus, w.recycler.list[w.recycler.i]) == c
       && w.area.slots[w.recycler.list[w.recycler.i]].state.InUse?
    then 1 else 0
  }

  /** The INUSE indices the put of CPU `c` may still meet. */
  function Ahead(w: World, c: nat): nat
    requires Shaped(w) && c < |w.logs|
  {
    CountInUse(w.area.cpus[c].idle, w.area.slots) + (if Meets(w, c) then 1 else 0) + Coming(w, c)
  }

  predicate Meets(w: World, c: nat)
    requires Shaped(w) && c < |w.logs|
  {
    w.producers[c].Checking? && w.area.slots[w.producers[c].idx].state.InUse?
  }

  /** How often the put of CPU `c` drops an INUSE index along a run. */
  ghost function Met(w: World, acts: seq<Action>, c: nat): nat
    requires Shaped(w) && FreeRun(w, acts) && c < |w.logs|
    decreases |acts|
  {
    if acts == [] then 0
    else (if acts[0] == Produce(c) && Meets(w, c) then 1 else 0) + Met(Apply(w, acts[0]), acts[1..], c)
  }

  lemma OwnStep(w: World, c: nat)
    requires Shaped(w) && Enabled(w, Produce(c)) && w.producers[c].Searching()
    ensures var v := Apply(w, Produce(c));
      v.producers[c].Searching() ==> Ahead(v, c) + (if Meets(w, c) then 1 else 0) <= Ahead(w, c)
    ensures Meets(w, c) ==> Apply(w, Produce(c)).producers[c].Searching()
  {
    var v := Apply(w, Produce(c));
    assert v.area.slots == w.area.slots;
    if w.producers[c].Fetching? && w.area.cpus[c].idle != [] {
      assert v.area.cpus[c].idle == w.area.cpus[c].idle[1..] && v.producers[c].idx == w.area.cpus[c].idle[0];
    }
    assert Coming(v, c) == Coming(w, c) by {
      RetFrame(w, v);
      if w.recycler.Returning? {
        OwnerSame(w.area.cpus, v.area.cpus, w.recycler.list[w.recycler.i]);
      }
    }
  }

  /** Another CPU writes slots of its own range only. */
  lemma OtherPut(w: World, c: nat, d: nat)
    requires Shaped(w) && Homed(w) && Enabled(w, Produce(d)) && c < |w.logs| && c != d
    ensures var v := Apply(w, Produce(d));
      && v.area.cpus[c] == w.area.cpus[c] && v.producers[c] == w.producers[c] && v.recycler == w.recycler
      && SameRanges(w.area, v.area)
      && forall x :: w.area.cpus[c].start <= x < w.area.cpus[c].end ==> v.area.slots[x] == w.area.slots[x]
  {
    assert HomedAt(w.area.cpus[d], w.producers[d]);
    Apart(w.area, c, d);
  }

  lemma SameAhead(w: World, v: World, c: nat)
    requires Shaped(w) && Shaped(v) && c < |w.logs| == |v.logs| && HomedAt(w.area.cpus[c], w.producers[c])
    requires SameRanges(w.area, v.area) && v.recycler == w.recycler
    requires v.area.cpus[c].idle == w.area.cpus[c].idle && v.producers[c] == w.producers[c]
    requires forall x :: w.area.cpus[c].start <= x < w.area.cpus[c].end ==> v.area.slots[x] == w.area.slots[x]
    ensures Ahead(v, c) <= Ahead(w, c) && (Meets(v, c) <==> Meets(w, c))
  {
    FewerInUse(w.area.cpus[c].idle, w.area.slots, v.area.slots);
    if w.recycler.Returning? {
      OwnerSame(w.area.cpus, v.area.cpus, w.recycler.list[w.recycler.i]);
    }
  }

  lemma ReturningAhead(w: World, c: nat)
    requires Shaped(w) && w.recycler.Returning? && c < |w.logs|
    ensures Ahead(Apply(w, RecycleOn), c) <= Ahead(w, c)
  {
    var v, x := Apply(w, RecycleOn), w.recycler.list[w.recycler.i];
    assert v.area.slots == w.area.slots && !v.recycler.Returning?;
    RecyclerFills(w.area, w.recycler);
    OneMoreInUse(w.area.cpus[c].idle, x, w.area.slots);
  }

  /** The thread marks nothing INUSE; an index it has just freed is not. */
  lemma FreesOnly(a: Area, k: Consumer)
    requires Indexed(a) && ConsumerOk(a, k) && !k.Moving? && !k.Returning?
    ensures var r := ConsumerAct(a, k);
      && r.0.cpus == a.cpus && |r.0.slots| == |a.slots|
      && (forall x :: 0 <= x < |a.slots| && r.0.slots[x].state.InUse? ==> a.slots[x].state.InUse?)
      && (r.1.Returning? ==> !r.0.slots[r.1.list[r.1.i]].state.InUse?)
  {
  }

  lemma ElseAhead(w: World, c: nat)
    requires Shaped(w) && Enabled(w, RecycleOn) && !w.recycler.Returning? && c < |w.logs|
    ensures Ahead(Apply(w, RecycleOn), c) <= Ahead(w, c)
  {
    RecycledFields(w);
    FreesOnly(w.area, w.recycler);
    FewerInUse(w.area.cpus[c].idle, w.area.slots, Apply(w, RecycleOn).area.slots);
  }

  lemma RecycleAhead(w: World, c: nat)
    requires Shaped(w) && Enabled(w, RecycleOn) && c < |w.logs|
    ensures var v := Apply(w, RecycleOn); v.producers[c] == w.producers[c] && Ahead(v, c) <= Ahead(w, c)
  {
    if w.recycler.Returning? {
      ReturningAhead(w, c);
    } else {
      ElseAhead(w, c);
    }
  }

  lemma AheadFalls(w: World, act: Action, c: nat)
    requires Shaped(w) && Homed(w) && Enabled(w, act) && c < |w.logs| && w.producers[c].Searching()
    requires !(act.Offer? && act.cpu == c)
    ensures var v := Apply(w, act); var met := if act == Produce(c) && Meets(w, c) then 1 else 0;
      if v.producers[c].Searching() then Ahead(v, c) + met <= Ahead(w, c) else met == 0
  {
    assert HomedAt(w.area.cpus[c], w.producers[c]);
    if act == Produce(c) {
      OwnStep(w, c);
    } else if act.Produce? {
      OtherPut(w, c, act.cpu);
      SameAhead(w, Apply(w, act), c);
    } else if act.RecycleOn? {
      RecycleAhead(w, c);
    } else {
      SameAheadElse(w, act, c);
    }
  }

  lemma SameAheadElse(w: World, act: Action, c: nat)
    requires Shaped(w) && Enabled(w, act) && c < |w.logs| && HomedAt(w.area.cpus[c], w.producers[c])
    requires !act.Produce? && !act.RecycleOn? && !(act.Offer? && act.cpu == c)
    ensures Apply(w, act).producers[c] == w.producers[c] && Ahead(Apply(w, act), c) <= Ahead(w, c)
  {
    var v := Apply(w, act);
    if act.Recycle? {
      FewerInUse(w.area.cpus[c].idle, w.area.slots, v.area.slots);
    } else {
      SameAhead(w, v, c);
    }
  }

  /** No packet arrives on CPU `c`. */
  ghost predicate NoOffer(acts: seq<Action>, c: nat) {
    forall i :: 0 <= i < |acts| ==> !(acts[i].Offer? && acts[i].cpu == c)
  }

  lemma StaysDone(w: World, act: Action, c: nat)
    requires Shaped(w) && Enabled(w, act) && c < |w.logs| && !w.producers[c].Searching()
    requires !(act.Offer? && act.cpu == c)
    ensures !Apply(w, act).producers[c].Searching() && !(act == Produce(c) && Meets(w, c))
  {
  }

  lemma {:induction false} MetIsBounded(w: World, acts: seq<Action>, c: nat)
    requires Shaped(w) && Homed(w) && FreeRun(w, acts) && c < |w.logs| && NoOffer(acts, c)
    ensures Met(w, acts, c) <= if w.producers[c].Searching() then Ahead(w, c) else 0
    decreases |acts|
  {
    if acts != [] {
      var v := Apply(w, acts[0]);
      StepHomed(w, acts[0]);
      MetIsBounded(v, acts[1..], c);
      if w.producers[c].Searching() {
        AheadFalls(w, acts[0], c);
      } else {
        StaysDone(w, acts[0], c);
      }
    }
  }

  lemma {:induction false} RunHomed(w: World, acts: seq<Action>)
    requires Shaped(w) && Homed(w) && FreeRun(w, acts)
    ensures Homed(After(w, acts))
    decreases |acts|
  {
    if acts != [] {
      StepHomed(w, acts[0]);
      RunHomed(Apply(w, acts[0]), acts[1..]);
    }
  }

  /** With no discipline at all, and while another thread refills idle, one put meets at most as many INUSE
      indices as idle held when its packet arrived, and one that was then on its way back. */
  lemma RetriesAreBounded(a: Area, before: seq<Action>, c: nat, pkt: KeyInfo, during: seq<Action>)
    requires Created(a) && FreeRun(Start(a), before)
    requires Enabled(After(Start(a), before), Offer(c, pkt))
    requires FreeRun(Apply(After(Start(a), before), Offer(c, pkt)), during) && NoOffer(during, c)
    ensures var u := After(Start(a), before);
      && c < |Apply(u, Offer(c, pkt)).logs|
      && Met(Apply(u, Offer(c, pkt)), during, c)
         <= |u.area.cpus[c].idle| + if Ret(u, c) != {} then 1 else 0
  {
    var u := After(Start(a), before);
    var v := Apply(u, Offer(c, pkt));
    StartHomed(a);
    RunHomed(Start(a), before);
    StepHomed(u, Offer(c, pkt));
    MetIsBounded(v, during, c);
    FewerInUse(v.area.cpus[c].idle, v.area.slots, v.area.slots);
  }
}
