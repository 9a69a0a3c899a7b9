/**
 What the ipshark2 packet queue guarantees after any run from a fresh area. Every theorem ranges over all
 interleavings of all producers with a thread that fetches and a thread that recycles.
 */
module SlotTheorems {
  import opened SlotArea
  import opened SlotInvariant
  import opened SlotRuns
  import opened SlotWorld

  ghost predicate RunOf(a: Area, acts: seq<Action>) {
    Created(a) && Run(Start(a), acts)
  }

  ghost function Reached(a: Area, acts: seq<Action>): (w: World)
    requires RunOf(a, acts)
    ensures Shaped(w)
  {
    After(Start(a), acts)
  }

  lemma ReachedIsSafe(a: Area, acts: seq<Action>)
    requires RunOf(a, acts)
    ensures Safe(Reached(a, acts))
  {
    StartIsSafe(a);
    RunIsSafe(Start(a), acts);
  }

  /** In how many of the five places of CPU `c` the index `x` is. */
  ghost function HomeCount(w: World, c: nat, x: nat): nat
    requires Shaped(w) && c < |w.logs|
  {
    var q, p := w.area.cpus[c], w.producers[c];
    (if x in q.idle then 1 else 0) + (if p.HasIdx() && p.idx == x then 1 else 0)
    + (if x in q.ready then 1 else 0) + (if x in w.logs[c].held then 1 else 0)
    + (if x in Ret(w, c) then 1 else 0)
  }

  /** Index `x` and CPU `c`: one home if in range, none else, queued at most once, and the state of the slot
      says which side the index is on. */
  ghost predicate OwnedAt(w: World, c: nat, x: nat)
    requires Shaped(w) && c < |w.logs|
  {
    var q, slots := w.area.cpus[c], w.area.slots;
    && NoRepeats(q.idle) && NoRepeats(q.ready)
    && HomeCount(w, c, x) == (if q.start <= x < q.end then 1 else 0)
    && (x in q.ready || x in w.logs[c].held ==> x < |slots| && slots[x].state.InUse?)
    && (x in q.idle ==> x < |slots| && !slots[x].state.InUse?)
  }

  ghost predicate Owned(w: World)
    requires Shaped(w)
  {
    forall c: nat, x: nat :: c < |w.logs| ==> OwnedAt(w, c, x)
  }

  lemma OneHome(w: World, c: nat, x: nat)
    requires Shaped(w) && c < |w.logs| && LocalAt(w, c)
    ensures OwnedAt(w, c, x)
  {
    var q, p, g, ret := w.area.cpus[c], w.producers[c], w.logs[c], Ret(w, c);
    Places(q, p, g, ret);
    if q.start <= x < q.end {
      assert x in multiset(Span(q.start, q.end));
      assert x in multiset(InFlight(p)) ==> p.HasIdx() && p.idx == x;
    }
  }

  lemma InvIsOwned(w: World)
    requires Inv(w)
    ensures Owned(w)
  {
    forall c: nat, x: nat | c < |w.logs| ensures OwnedAt(w, c, x) {
      assert LocalAt(w, c);
      OneHome(w, c, x);
    }
  }

  /** Ownership in every reachable state. */
  lemma Ownership(a: Area, acts: seq<Action>)
    requires RunOf(a, acts)
    ensures Owned(Reached(a, acts)) && |Reached(a, acts).logs| == |a.cpus|
  {
    ReachedIsSafe(a, acts);
    AreaStays(Start(a), acts);
    InvIsOwned(Reached(a, acts));
  }

  /** An INUSE index nobody handed out is in the ready queue or about to enter it. */
  lemma Elsewhere(q: CpuQueue, p: Producer, g: Log, slots: seq<Slot>, x: nat)
    requires Fits(q, p, slots) && Partition(q, p, g, {}) && States(q, p, g, {}, slots)
    requires q.start <= x < q.end && slots[x].state.InUse? && x !in g.held
    ensures x in q.ready || (p.Queueing? && p.idx == x)
  {
    assert x in multiset(Span(q.start, q.end));
    assert x in multiset(InFlight(p)) ==> p.HasIdx() && p.idx == x;
    assert forall i :: 0 <= i < |q.idle| ==> q.idle[i] != x;
  }

  /** To mark an INUSE index USED while the consumer does not hold it breaks ownership at once: the index is
      then both on its way to the consumer and on its way back. To mark one it holds does not. */
  lemma FreeingIsSafeIffHeld(w: World)
    requires Inv(w) && w.recycler.Freeing?
    requires w.area.slots[w.recycler.list[w.recycler.i]].state.InUse?
    ensures Owned(Apply(w, RecycleOn)) <==> HoldsFreed(w)
  {
    var v, x := Apply(w, RecycleOn), w.recycler.list[w.recycler.i];
    var o := Owner(w.area.cpus, x);
    if HoldsFreed(w) {
      FreeKeeps(w);
      InvIsOwned(v);
    } else {
      assert LocalAt(w, o);
      RetOther(w);
      Elsewhere(w.area.cpus[o], w.producers[o], w.logs[o], w.area.slots, x);
      FreeApply(w, x, o);
      assert HomeCount(v, o, x) >= 2;
      assert !OwnedAt(v, o, x);
    }
  }

  lemma {:induction false} AreaStays(w: World, acts: seq<Action>)
    requires Shaped(w) && FreeRun(w, acts)
    ensures SameRanges(w.area, After(w, acts).area) && After(w, acts).base == w.base
    decreases |acts|
  {
    if acts != [] {
      AreaStays(Apply(w, acts[0]), acts[1..]);
    }
  }

  /** Delivery: the packets handed out on a CPU are a prefix of those accepted there; the rest is
      what the ready slots hold now, in order; a held slot still has the packet handed out. */
  lemma Delivery(a: Area, acts: seq<Action>, c: nat)
    requires RunOf(a, acts) && c < |a.cpus|
    ensures var w := Reached(a, acts);
      && c < |w.logs| && Below(w.area.cpus[c].ready, |w.area.slots|)
      && w.logs[c].delivered <= w.logs[c].accepted
      && w.logs[c].accepted == w.logs[c].delivered + Tag(w.area.cpus[c].ready, w.area.slots)
      && (forall x :: x in w.logs[c].held ==>
            x < |w.area.slots| && w.area.slots[x].info == w.logs[c].held[x])
  {
    ReachedIsSafe(a, acts);
    AreaStays(Start(a), acts);
    assert LocalAt(Reached(a, acts), c);
  }

  /** Between delivery and recycle no step of any party changes anything in the slot. */
  lemma HeldSlotsStayPut(w: World, act: Action, c: nat, x: nat)
    requires Safe(w) && Enabled(w, act)
    requires c < |w.logs| && x in w.logs[c].held && x in Apply(w, act).logs[c].held
    ensures x < |w.area.slots| && Apply(w, act).area.slots[x] == w.area.slots[x]
  {
    assert LocalAt(w, c);
    Places(w.area.cpus[c], w.producers[c], w.logs[c], Ret(w, c));
    if act.Produce? {
      assert LocalAt(w, act.cpu);
      WritesOwnSlot(w, act.cpu);
      Apart(w.area, c, act.cpu);
    } else if act.RecycleOn? {
      FreesListed(w, c, x);
    } else {
      LeavesSlots(w, act);
    }
  }

  lemma LeavesSlots(w: World, act: Action)
    requires Shaped(w) && Enabled(w, act) && !act.Produce? && !act.RecycleOn?
    ensures Apply(w, act).area.slots == w.area.slots
  {
  }

  /** The consumer holds `x` now and after every step of the run. */
  ghost predicate HeldAlong(w: World, acts: seq<Action>, c: nat, x: nat)
    requires Shaped(w) && FreeRun(w, acts)
    decreases |acts|
  {
    && c < |w.logs| && x in w.logs[c].held
    && (acts == [] || HeldAlong(Apply(w, acts[0]), acts[1..], c, x))
  }

  /** From delivery to recycling, over any run, the slot is exactly what was delivered. */
  lemma {:induction false} SlotStaysWhileHeld(w: World, acts: seq<Action>, c: nat, x: nat)
    requires Safe(w) && Run(w, acts) && HeldAlong(w, acts, c, x)
    ensures x < |w.area.slots| == |After(w, acts).area.slots|
    ensures After(w, acts).area.slots[x] == w.area.slots[x]
    decreases |acts|
  {
    AreaStays(w, acts);
    if acts == [] {
      assert LocalAt(w, c);
    } else {
      HeldSlotsStayPut(w, acts[0], c, x);
      StepIsSafe(w, acts[0]);
      SlotStaysWhileHeld(Apply(w, acts[0]), acts[1..], c, x);
    }
  }

  lemma WritesAt(a: Area, c: nat, p: Producer)
    requires Indexed(a) && c < |a.cpus| && ProducerOk(a, p)
    ensures var b := ProducerAct(a, c, p).0;
      forall y :: 0 <= y < |a.slots| && b.slots[y] != a.slots[y] ==> p.HasIdx() && y == p.idx
  {
  }

  lemma WritesOwnSlot(w: World, d: nat)
    requires Shaped(w) && d < |w.logs| && LocalAt(w, d) && Enabled(w, Produce(d))
    ensures var v, p, q := Apply(w, Produce(d)), w.producers[d], w.area.cpus[d];
      forall y :: 0 <= y < |w.area.slots| && v.area.slots[y] != w.area.slots[y] ==>
        p.HasIdx() && y == p.idx && q.start <= y < q.end && y !in w.logs[d].held
  {
    ProducedFields(w, d);
    WritesAt(w.area, d, w.producers[d]);
    Places(w.area.cpus[d], w.producers[d], w.logs[d], Ret(w, d));
  }

  lemma FreesListed(w: World, c: nat, x: nat)
    requires Shaped(w) && Enabled(w, RecycleOn) && c < |w.logs| && x < |w.area.slots|
    requires w.area.cpus[c].start <= x < w.area.cpus[c].end
    requires x in Apply(w, RecycleOn).logs[c].held
    ensures Apply(w, RecycleOn).area.slots[x] == w.area.slots[x]
  {
    if w.recycler.Freeing? {
      var y := w.recycler.list[w.recycler.i];
      FreeApply(w, y, Owner(w.area.cpus, y));
      Apart(w.area, c, Owner(w.area.cpus, y));
    }
  }

  lemma Apart(a: Area, c: nat, d: nat)
    requires Ranges(a) && c < |a.cpus| && d < |a.cpus|
    ensures c == d || a.cpus[c].end <= a.cpus[d].start || a.cpus[d].end <= a.cpus[c].start
  {
    assert c < d ==> a.cpus[c].end <= a.cpus[d].start;
    assert d < c ==> a.cpus[d].end <= a.cpus[c].start;
  }

  /** No fetched index is INUSE, every filled index finds room in ready and every returned one in idle. */
  ghost predicate DefensesIdle(w: World)
    requires Shaped(w)
  {
    && (forall c :: 0 <= c < |w.producers| ==> DefenseIdle(w, c))
    && (w.recycler.Returning? ==>
          var o := Owner(w.area.cpus, w.recycler.list[w.recycler.i]);
          o < |w.area.cpus| && |w.area.cpus[o].idle| < w.area.cpus[o].cap)
  }

  ghost predicate DefenseIdle(w: World, c: nat)
    requires Shaped(w) && c < |w.producers|
  {
    var p, q := w.producers[c], w.area.cpus[c];
    && (p.Checking? ==> !w.area.slots[p.idx].state.InUse?)
    && (p.Queueing? ==> |q.ready| < q.cap)
  }

  lemma CpuDefenseIdle(w: World, c: nat)
    requires Shaped(w) && c < |w.logs| && LocalAt(w, c)
    ensures DefenseIdle(w, c)
    ensures Ret(w, c) != {} ==> |w.area.cpus[c].idle| < w.area.cpus[c].cap
  {
    Places(w.area.cpus[c], w.producers[c], w.logs[c], Ret(w, c));
  }

  /** The branches that guard against misuse are never taken, in no reachable state, and the two counters
      of misuse stay what creation found. */
  lemma NoDefensiveBranch(a: Area, acts: seq<Action>)
    requires RunOf(a, acts)
    ensures var w := Reached(a, acts);
      && w.area.counts.getInvalid == a.counts.getInvalid && w.area.counts.putFail == a.counts.putFail
      && DefensesIdle(w)
  {
    var w := Reached(a, acts);
    ReachedIsSafe(a, acts);
    AreaStays(Start(a), acts);
    forall c | 0 <= c < |w.producers| ensures DefenseIdle(w, c) {
      assert LocalAt(w, c);
      CpuDefenseIdle(w, c);
    }
    if w.recycler.Returning? {
      var o := Owner(w.area.cpus, w.recycler.list[w.recycler.i]);
      assert LocalAt(w, o);
      CpuDefenseIdle(w, o);
    }
  }

  /** A packet is turned away only while every slot of its CPU waits, is held or is on its way back. */
  lemma DropsOnlyWhenFull(a: Area, acts: seq<Action>, c: nat)
    requires RunOf(a, acts) && c < |Reached(a, acts).logs|
    ensures var w := Reached(a, acts); var q := w.area.cpus[c];
      w.producers[c].Fetching? && q.idle == [] ==>
        |q.ready| + |w.logs[c].held| + |Ret(w, c)| == q.end - q.start
  {
    var w := Reached(a, acts);
    ReachedIsSafe(a, acts);
    assert LocalAt(w, c);
    Places(w.area.cpus[c], w.producers[c], w.logs[c], Ret(w, c));
  }

  lemma OnlyAFetchDrops(w: World, act: Action, c: nat)
    requires Shaped(w) && Enabled(w, act) && c < |w.logs|
    ensures var v := Apply(w, act);
      && |v.logs| == |w.logs|
      && v.logs[c].dropped == w.logs[c].dropped
         + if act == Produce(c) && w.producers[c].Fetching? && w.area.cpus[c].idle == [] then 1 else 0
  {
  }

  /** So a step of any party drops a packet on a CPU only in such a state, and only one. */
  lemma StepDropsOnlyWhenFull(a: Area, acts: seq<Action>, act: Action, c: nat)
    requires RunOf(a, acts) && Enabled(Reached(a, acts), act) && c < |Reached(a, acts).logs|
    ensures var w := Reached(a, acts); var q, v := w.area.cpus[c], Apply(w, act);
      && |v.logs| == |w.logs|
      && (v.logs[c].dropped == w.logs[c].dropped
          || (v.logs[c].dropped == w.logs[c].dropped + 1 && act == Produce(c)
              && |q.ready| + |w.logs[c].held| + |Ret(w, c)| == q.end - q.start))
  {
    DropsOnlyWhenFull(a, acts, c);
    OnlyAFetchDrops(Reached(a, acts), act, c);
  }

  // ----- A consumer that names only indices it holds, each once

  ghost predicate HeldByOwner(w: World, x: nat)
    requires Shaped(w)
  {
    var o := Owner(w.area.cpus, x);
    o < |w.logs| && x in w.logs[o].held
  }

  ghost predicate ListHeld(w: World, list: seq<nat>, from: nat)
    requires Shaped(w)
  {
    && (forall j :: from <= j < |list| ==> HeldByOwner(w, list[j]))
    && (forall i, j :: from <= i < j < |list| ==> list[i] != list[j])
  }

  ghost predicate Pledged(w: World)
    requires Shaped(w)
  {
    match w.recycler
    case Recycling(list, i) => ListHeld(w, list, i)
    case Freeing(list, i) => ListHeld(w, list, i)
    case Returning(list, i) => ListHeld(w, list, i + 1)
    case _ => true
  }

  ghost predicate Careful(w: World, act: Action)
    requires Shaped(w)
  {
    act.Recycle? ==> ListHeld(w, act.list, 0)
  }

  ghost predicate CarefulRun(w: World, acts: seq<Action>)
    requires Shaped(w)
    decreases |acts|
  {
    acts == [] ||
    (Enabled(w, acts[0]) && Careful(w, acts[0]) && CarefulRun(Apply(w, acts[0]), acts[1..]))
  }

  lemma RecycleOnKeepsHeld(w: World, o: nat, x: nat)
    requires Shaped(w) && Enabled(w, RecycleOn) && o < |w.logs| && x in w.logs[o].held
    requires w.recycler.Freeing? ==> w.recycler.list[w.recycler.i] != x
    ensures x in RecycledLogs(w)[o].held
  {
  }

  /** Only freeing takes an index from the consumer, and only the one being freed. */
  lemma HeldStays(w: World, act: Action, x: nat)
    requires Shaped(w) && Enabled(w, act) && HeldByOwner(w, x)
    requires act.RecycleOn? && w.recycler.Freeing? ==> w.recycler.list[w.recycler.i] != x
    ensures HeldByOwner(Apply(w, act), x)
  {
    var o := Owner(w.area.cpus, x);
    OwnerSame(w.area.cpus, Apply(w, act).area.cpus, x);
    if act.RecycleOn? {
      RecycleOnKeepsHeld(w, o, x);
    } else {
      OthersKeepHeld(w, act, o, x);
    }
  }

  lemma ListHeldStays(w: World, act: Action, list: seq<nat>, from: nat)
    requires Shaped(w) && Enabled(w, act) && ListHeld(w, list, from)
    requires act.RecycleOn? && w.recycler.Freeing? ==>
      forall j :: from <= j < |list| ==> list[j] != w.recycler.list[w.recycler.i]
    ensures ListHeld(Apply(w, act), list, from)
  {
    forall j | from <= j < |list| ensures HeldByOwner(Apply(w, act), list[j]) {
      HeldStays(w, act, list[j]);
    }
  }

  lemma PledgeDisciplines(w: World, act: Action)
    requires Shaped(w) && Enabled(w, act) && Pledged(w)
    ensures Disciplined(w, act)
  {
    if w.recycler.Recycling? && w.recycler.i < |w.recycler.list| {
      assert HeldByOwner(w, w.recycler.list[w.recycler.i]);
    }
  }

  /** The list and place the recycling thread has after a step of its own. */
  lemma ListGoesOn(w: World)
    requires Shaped(w) && Enabled(w, RecycleOn)
    ensures var k, k' := w.recycler, Apply(w, RecycleOn).recycler;
      if k.Recycling? then
        k'.Quiet? || k' == Freeing(k.list, k.i) || k' == Recycling(k.list, k.i + 1)
      else if k.Freeing? then
        k' == Returning(k.list, k.i) || k' == Recycling(k.list, k.i + 1)
      else k' == Recycling(k.list[k.i := 0], k.i + 1)
  {
  }

  lemma ListWaits(w: World, act: Action)
    requires Shaped(w) && Enabled(w, act) && !act.Recycle? && !act.RecycleOn?
    ensures Apply(w, act).recycler == w.recycler
  {
  }

  /** Another party's step. */
  lemma PledgeWaits(w: World, act: Action)
    requires Shaped(w) && Enabled(w, act) && !act.Recycle? && !act.RecycleOn? && Pledged(w)
    ensures Pledged(Apply(w, act))
  {
    ListWaits(w, act);
    var k := w.recycler;
    if !k.Quiet? {
      ListHeldStays(w, act, k.list, if k.Returning? then k.i + 1 else k.i);
    }
  }

  /** A step of the thread itself. */
  lemma PledgeGoesOn(w: World)
    requires Shaped(w) && Enabled(w, RecycleOn) && Pledged(w)
    ensures Pledged(Apply(w, RecycleOn))
  {
    var k := w.recycler;
    ListGoesOn(w);
    ListHeldStays(w, RecycleOn, k.list, if k.Recycling? then k.i else k.i + 1);
    if k.Returning? {
      ListTail(Apply(w, RecycleOn), k.list, k.i);
    }
  }

  lemma ListTail(w: World, list: seq<nat>, i: nat)
    requires Shaped(w) && i < |list| && ListHeld(w, list, i + 1)
    ensures ListHeld(w, list[i := 0], i + 1)
  {
  }

  lemma PledgeStays(w: World, act: Action)
    requires Shaped(w) && Enabled(w, act) && Careful(w, act) && Pledged(w)
    ensures Disciplined(w, act) && Pledged(Apply(w, act))
  {
    PledgeDisciplines(w, act);
    if act.Recycle? {
      ListHeldStays(w, act, act.list, 0);
    } else if act.RecycleOn? {
      PledgeGoesOn(w);
    } else {
      PledgeWaits(w, act);
    }
  }

  /** A list checked once, before the call, is enough: each index held, none twice. Whatever the
      producers do meanwhile, every entry is then still held when it is recycled. */
  lemma {:induction false} CarefulIsDisciplined(w: World, acts: seq<Action>)
    requires Shaped(w) && Pledged(w) && CarefulRun(w, acts)
    ensures Run(w, acts)
    decreases |acts|
  {
    if acts != [] {
      PledgeStays(w, acts[0]);
      CarefulIsDisciplined(Apply(w, acts[0]), acts[1..]);
    }
  }
}
