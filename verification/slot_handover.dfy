/**
 What the consumer can read after a fetch. While `ip_queue_move2dma` runs, producers go on queueing and
 another thread may go on recycling; still the index array ends up with exactly the indices this fetch
 delivered, CPU by CPU in order, and each that was not freed meanwhile is held and its slot has its packet.
 */
module SlotHandover {
  import opened Collections
  import opened Packets
  import opened SlotArea
  import opened SlotInvariant
  import opened SlotRuns
  import opened SlotTheorems
  import opened SlotWorld

  function Indices(log: seq<(nat, KeyInfo)>): (s: seq<nat>)
    ensures |s| == |log| && forall i :: 0 <= i < |log| ==> s[i] == log[i].0
  {
    seq(|log|, i requires 0 <= i < |log| => log[i].0)
  }

  ghost predicate NoLess(logs: seq<Log>, since: seq<nat>) {
    |since| == |logs| && forall c :: 0 <= c < |logs| ==> since[c] <= |logs[c].delivered|
  }

  /** The indices each CPU delivered past `since`, CPU by CPU. */
  ghost function HandedOver(logs: seq<Log>, since: seq<nat>): seq<nat>
    requires NoLess(logs, since)
  {
    if logs == [] then []
    else Indices(logs[0].delivered[since[0]..]) + HandedOver(logs[1..], since[1..])
  }

  lemma {:induction false} NothingHandedOver(logs: seq<Log>, since: seq<nat>)
    requires NoLess(logs, since) && forall c :: 0 <= c < |logs| ==> since[c] == |logs[c].delivered|
    ensures HandedOver(logs, since) == []
  {
    if logs != [] {
      NothingHandedOver(logs[1..], since[1..]);
    }
  }

  lemma TailOfIndices(log: seq<(nat, KeyInfo)>, more: seq<(nat, KeyInfo)>, n: nat)
    requires n <= |log|
    ensures Indices((log + more)[n..]) == Indices(log[n..]) + Indices(more)
  {
    assert (log + more)[n..] == log[n..] + more;
  }

  /** A CPU delivers more, and none after it has delivered anything yet. */
  lemma {:induction false} HandsOverMore(logs: seq<Log>, since: seq<nat>, c: nat, g: Log, more: seq<(nat, KeyInfo)>)
    requires NoLess(logs, since) && c < |logs| && g.delivered == logs[c].delivered + more
    requires forall d :: c < d < |logs| ==> since[d] == |logs[d].delivered|
    ensures NoLess(logs[c := g], since)
    ensures HandedOver(logs[c := g], since) == HandedOver(logs, since) + Indices(more)
    decreases c
  {
    var logs' := logs[c := g];
    if c == 0 {
      NothingHandedOver(logs[1..], since[1..]);
      TailOfIndices(logs[0].delivered, more, since[0]);
      assert logs'[1..] == logs[1..];
    } else {
      HandsOverMore(logs[1..], since[1..], c - 1, g, more);
      assert logs'[1..] == logs[1..][c - 1 := g];
      Associate(Indices(logs[0].delivered[since[0]..]), HandedOver(logs[1..], since[1..]), Indices(more));
    }
  }

  lemma {:induction false} SameHandedOver(logs: seq<Log>, logs': seq<Log>, since: seq<nat>)
    requires NoLess(logs, since) && |logs'| == |logs|
    requires forall c :: 0 <= c < |logs| ==> logs'[c].delivered == logs[c].delivered
    ensures NoLess(logs', since) && HandedOver(logs', since) == HandedOver(logs, since)
  {
    if logs != [] {
      SameHandedOver(logs[1..], logs'[1..], since[1..]);
    }
  }

  // ----- The index array

  /** How much of the index array counts: what is copied so far, or what the finished fetch left. */
  ghost function Written(w: World): nat { if w.mover.Moving? then w.mover.copied else w.area.idxNum }

  ghost predicate Exposed(w: World)
    requires Shaped(w)
  {
    && NoLess(w.logs, w.last.since)
    && Written(w) <= IDX_ARRAY_SIZE
    && w.area.idxArray[..Written(w)] == HandedOver(w.logs, w.last.since)
    && (w.mover.Moving? ==>
          forall c :: w.mover.cpu <= c < |w.logs| ==> w.last.since[c] == |w.logs[c].delivered|)
  }

  lemma ExposedFrame(w: World, v: World)
    requires Shaped(w) && Shaped(v) && Exposed(w)
    requires SameDelivered(w, v)
    ensures Exposed(v)
  {
    SameHandedOver(w.logs, v.logs, w.last.since);
  }

  lemma FrontGrows(s: seq<nat>, copied: nat, more: seq<nat>)
    requires copied + |more| <= |s|
    ensures (s[..copied] + more + s[copied + |more|..])[..copied + |more|] == s[..copied] + more
  {
  }

  lemma TaggedIndices(s: seq<nat>, slots: seq<Slot>)
    requires Below(s, |slots|)
    ensures Indices(Tag(s, slots)) == s
  {
  }

  lemma MoveExposes(w: World)
    requires Shaped(w) && Exposed(w) && Enabled(w, MoveOn)
    ensures Exposed(Apply(w, MoveOn))
  {
    var v, c := Apply(w, MoveOn), w.mover.cpu;
    if c < |w.area.cpus| && w.area.cpus[c].ready != [] {
      var q, num := w.area.cpus[c], w.mover.num;
      var n: nat := if |q.ready| < num then |q.ready| else num;
      var taken := q.ready[..n];
      MoveApply(w, c, n);
      HandsOverMore(w.logs, w.last.since, c, v.logs[c], Tag(taken, w.area.slots));
      TaggedIndices(taken, w.area.slots);
      FrontGrows(w.area.idxArray, w.mover.copied, taken);
    }
  }

  lemma FetchExposes(w: World)
    requires Shaped(w) && Enabled(w, Fetch)
    ensures Exposed(Apply(w, Fetch))
  {
    var v := Apply(w, Fetch);
    NothingHandedOver(v.logs, v.last.since);
  }

  ghost predicate SameDelivered(w: World, v: World) {
    && v.mover == w.mover && v.area.idxArray == w.area.idxArray && v.area.idxNum == w.area.idxNum
    && v.last.since == w.last.since && |v.logs| == |w.logs|
    && forall c :: 0 <= c < |w.logs| ==> v.logs[c].delivered == w.logs[c].delivered
  }

  lemma RecycleKeepsDelivered(w: World)
    requires Shaped(w) && Enabled(w, RecycleOn)
    ensures SameDelivered(w, Apply(w, RecycleOn))
  {
  }

  lemma OthersKeepDelivered(w: World, act: Action)
    requires Shaped(w) && Enabled(w, act) && !act.MoveOn? && !act.Fetch? && !act.RecycleOn?
    ensures SameDelivered(w, Apply(w, act))
  {
  }

  lemma StepExposes(w: World, act: Action)
    requires Shaped(w) && Exposed(w) && Enabled(w, act)
    ensures Exposed(Apply(w, act))
  {
    if act.MoveOn? {
      MoveExposes(w);
    } else if act.Fetch? {
      FetchExposes(w);
    } else {
      if act.RecycleOn? {
        RecycleKeepsDelivered(w);
      } else {
        OthersKeepDelivered(w, act);
      }
      ExposedFrame(w, Apply(w, act));
    }
  }

  lemma {:induction false} RunExposes(w: World, acts: seq<Action>)
    requires Shaped(w) && Exposed(w) && FreeRun(w, acts)
    ensures Exposed(After(w, acts))
    decreases |acts|
  {
    if acts != [] {
      StepExposes(w, acts[0]);
      RunExposes(Apply(w, acts[0]), acts[1..]);
    }
  }

  lemma StartExposed(a: Area)
    requires Created(a)
    ensures Exposed(Start(a))
  {
    NothingHandedOver(Start(a).logs, Start(a).last.since);
  }

  // ----- What became of the delivered packets

  /** An entry delivered was freed since the fetch began, or is held as it was delivered. */
  ghost predicate StillThere(e: (nat, KeyInfo), g: Log, freed: set<nat>) {
    e.0 in freed || (e.0 in g.held && g.held[e.0] == e.1)
  }

  ghost predicate RecentAt(g: Log, since: nat, freed: set<nat>) {
    forall j :: since <= j < |g.delivered| ==> StillThere(g.delivered[j], g, freed)
  }

  ghost predicate Recent(w: World)
    requires Shaped(w)
  {
    forall c :: 0 <= c < |w.logs| ==> RecentAt(w.logs[c], w.last.since[c], w.last.freed)
  }

  lemma MoveRecent(g: Log, since: nat, freed: set<nat>, q: CpuQueue, n: nat, slots: seq<Slot>)
    requires RecentAt(g, since, freed) && n <= |q.ready| && Below(q.ready, |slots|)
    requires forall x :: x in g.held ==> x !in q.ready
    ensures RecentAt(LogMove(g, q, n, slots), since, freed)
  {
    var g', taken := LogMove(g, q, n, slots), q.ready[..n];
    forall j | since <= j < |g'.delivered| ensures StillThere(g'.delivered[j], g', freed) {
      if j < |g.delivered| {
        assert g'.delivered[j] == g.delivered[j] && StillThere(g.delivered[j], g, freed);
        if g.delivered[j].0 !in freed {
          assert g.delivered[j].0 !in taken;
        }
      } else {
        var i := j - |g.delivered|;
        assert taken[i] in taken && g'.delivered[j] == (taken[i], slots[taken[i]].info);
      }
    }
  }

  lemma FreeRecent(g: Log, since: nat, freed: set<nat>, x: nat)
    requires RecentAt(g, since, freed)
    ensures RecentAt(g.(held := g.held - {x}), since, freed + {x})
  {
    var g' := g.(held := g.held - {x});
    forall j | since <= j < |g.delivered| ensures StillThere(g.delivered[j], g', freed + {x}) {
      assert StillThere(g.delivered[j], g, freed);
    }
  }

  lemma MoreFreed(g: Log, since: nat, freed: set<nat>, x: nat)
    requires RecentAt(g, since, freed)
    ensures RecentAt(g, since, freed + {x})
  {
    forall j | since <= j < |g.delivered| ensures StillThere(g.delivered[j], g, freed + {x}) {
      assert StillThere(g.delivered[j], g, freed);
    }
  }

  lemma MoveKeepsRecent(w: World)
    requires Inv(w) && Recent(w) && Enabled(w, MoveOn)
    ensures Recent(Apply(w, MoveOn))
  {
    var c := w.mover.cpu;
    if c < |w.area.cpus| && w.area.cpus[c].ready != [] {
      var q, num := w.area.cpus[c], w.mover.num;
      var n: nat := if |q.ready| < num then |q.ready| else num;
      MoveApply(w, c, n);
      assert LocalAt(w, c);
      Places(q, w.producers[c], w.logs[c], Ret(w, c));
      MoveRecent(w.logs[c], w.last.since[c], w.last.freed, q, n, w.area.slots);
    }
  }

  lemma RecycleKeepsRecent(w: World)
    requires Shaped(w) && Recent(w) && Enabled(w, RecycleOn)
    ensures Recent(Apply(w, RecycleOn))
  {
    var v := Apply(w, RecycleOn);
    if w.recycler.Freeing? {
      var x := w.recycler.list[w.recycler.i];
      var o := Owner(w.area.cpus, x);
      FreeApply(w, x, o);
      FreeRecent(w.logs[o], w.last.since[o], w.last.freed, x);
      forall c | 0 <= c < |w.logs| && c != o ensures RecentAt(v.logs[c], v.last.since[c], v.last.freed) {
        MoreFreed(w.logs[c], w.last.since[c], w.last.freed, x);
      }
    } else {
      SameRecords(w);
      forall c | 0 <= c < |w.logs| ensures RecentAt(v.logs[c], v.last.since[c], v.last.freed) {
        RecentFrame(w.logs[c], v.logs[c], w.last.since[c], w.last.freed);
      }
    }
  }

  lemma SameRecords(w: World)
    requires Shaped(w) && Enabled(w, RecycleOn) && !w.recycler.Freeing?
    ensures var v := Apply(w, RecycleOn);
      && v.last == w.last && |v.logs| == |w.logs|
      && forall c :: 0 <= c < |w.logs| ==>
           v.logs[c].delivered == w.logs[c].delivered && v.logs[c].held == w.logs[c].held
  {
  }

  lemma RecentFrame(g: Log, g': Log, since: nat, freed: set<nat>)
    requires RecentAt(g, since, freed) && g'.delivered == g.delivered && g'.held == g.held
    ensures RecentAt(g', since, freed)
  {
    forall j | since <= j < |g'.delivered| ensures StillThere(g'.delivered[j], g', freed) {
      assert StillThere(g.delivered[j], g, freed);
    }
  }

  lemma ProducersKeepRecords(w: World, act: Action)
    requires Shaped(w) && Enabled(w, act) && !act.MoveOn? && !act.Fetch? && !act.RecycleOn?
    ensures var v := Apply(w, act);
      && v.last == w.last && |v.logs| == |w.logs|
      && forall c :: 0 <= c < |w.logs| ==>
           v.logs[c].delivered == w.logs[c].delivered && v.logs[c].held == w.logs[c].held
  {
  }

  lemma StepKeepsRecent(w: World, act: Action)
    requires Inv(w) && Recent(w) && Enabled(w, act)
    ensures Recent(Apply(w, act))
  {
    var v := Apply(w, act);
    if act.MoveOn? {
      MoveKeepsRecent(w);
    } else if act.RecycleOn? {
      RecycleKeepsRecent(w);
    } else if !act.Fetch? {
      ProducersKeepRecords(w, act);
      forall c | 0 <= c < |w.logs| ensures RecentAt(v.logs[c], v.last.since[c], v.last.freed) {
        RecentFrame(w.logs[c], v.logs[c], w.last.since[c], w.last.freed);
      }
    }
  }

  lemma {:induction false} RunKeepsRecent(w: World, acts: seq<Action>)
    requires Safe(w) && Recent(w) && Run(w, acts)
    ensures Recent(After(w, acts))
    decreases |acts|
  {
    if acts != [] {
      StepKeepsRecent(w, acts[0]);
      StepIsSafe(w, acts[0]);
      RunKeepsRecent(Apply(w, acts[0]), acts[1..]);
    }
  }

  // ----- One fetch

  ghost predicate NoFetch(acts: seq<Action>) {
    forall i :: 0 <= i < |acts| ==> !acts[i].Fetch?
  }

  lemma {:induction false} SinceStays(w: World, acts: seq<Action>)
    requires Shaped(w) && FreeRun(w, acts) && NoFetch(acts)
    ensures After(w, acts).last.since == w.last.since
    decreases |acts|
  {
    if acts != [] {
      assert Apply(w, acts[0]).last.since == w.last.since;
      SinceStays(Apply(w, acts[0]), acts[1..]);
    }
  }

  /** The slot of an index just handed over: unless it was freed since the fetch began it is INUSE, held by
      the consumer, and has the packet that was logged with it. */
  ghost predicate Readable(w: World, c: nat, j: nat)
    requires Shaped(w) && c < |w.logs| && j < |w.logs[c].delivered|
  {
    var e := w.logs[c].delivered[j];
    e.0 !in w.last.freed ==>
      && e.0 in w.logs[c].held && e.0 < |w.area.slots|
      && w.area.slots[e.0].state.InUse? && w.area.slots[e.0].info == e.1
  }

  lemma RecentIsReadable(w: World, c: nat, j: nat)
    requires Inv(w) && Recent(w) && c < |w.logs| && w.last.since[c] <= j < |w.logs[c].delivered|
    ensures Readable(w, c, j)
  {
    assert LocalAt(w, c);
    assert RecentAt(w.logs[c], w.last.since[c], w.last.freed);
    assert StillThere(w.logs[c].delivered[j], w.logs[c], w.last.freed);
  }

  /** The handover theorem. From any reachable state a fetch begins; whatever producers do meanwhile, and
      whatever held indices another thread recycles, when the fetch is over the index array holds exactly the
      indices delivered since it began, CPU by CPU, and the consumer reads the logged packets there. */
  lemma FetchHandsOver(a: Area, before: seq<Action>, during: seq<Action>)
    requires RunOf(a, before) && Reached(a, before).mover.Quiet?
    requires Run(Apply(Reached(a, before), Fetch), during) && NoFetch(during)
    requires After(Apply(Reached(a, before), Fetch), during).mover.Quiet?
    ensures var u := Reached(a, before); var w := After(Apply(u, Fetch), during); var since := Delivered(u.logs);
      && NoLess(w.logs, since) && w.area.idxNum <= 128
      && w.area.idxArray[..w.area.idxNum] == HandedOver(w.logs, since)
      && forall c: nat, j: nat :: c < |w.logs| && since[c] <= j < |w.logs[c].delivered| ==> Readable(w, c, j)
  {
    var u := Reached(a, before);
    var v := Apply(u, Fetch);
    var w := After(v, during);
    ReachedIsSafe(a, before);
    StepIsSafe(u, Fetch);
    FetchExposes(u);
    RunExposes(v, during);
    RunIsSafe(v, during);
    RunKeepsRecent(v, during);
    SinceStays(v, during);
    forall c: nat, j: nat | c < |w.logs| && w.last.since[c] <= j < |w.logs[c].delivered|
      ensures Readable(w, c, j)
    {
      RecentIsReadable(w, c, j);
    }
  }

  /** In every reachable state, a fetch under way or not, what counts of the index array is what has been
      delivered since the last fetch began. */
  lemma ArrayIsDelivered(a: Area, acts: seq<Action>)
    requires RunOf(a, acts)
    ensures Exposed(Reached(a, acts))
  {
    StartExposed(a);
    RunExposes(Start(a), acts);
  }
}
