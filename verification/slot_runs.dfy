/**
 Whole runs of the ipshark2 packet queue. Every interleaving of the producers with a thread that fetches and
 a thread that recycles an INUSE index only while the consumer holds it keeps the invariant, from any fresh
 area on.
 */
module SlotRuns {
  import opened Packets
  import opened SharedCounter
  import opened SlotArea
  import opened SlotWorld
  import opened Words
  import opened SlotInvariant
  import opened SlotSteps
  import opened SlotConsumerSteps

  lemma {:induction false} TotalUpdate(f: Log -> nat, logs: seq<Log>, c: nat, g: Log)
    requires c < |logs|
    ensures Total(f, logs[c := g]) == Total(f, logs) - f(logs[c]) + f(g)
  {
    if c == 0 {
      assert logs[c := g][1..] == logs[1..];
    } else {
      assert logs[c := g][1..] == logs[1..][c - 1 := g];
      TotalUpdate(f, logs[1..], c - 1, g);
    }
  }

  /** The three totals after one log is replaced. */
  lemma Totals(logs: seq<Log>, c: nat, g: Log)
    requires c < |logs|
    ensures Total(CountedOf, logs[c := g]) == Total(CountedOf, logs) - logs[c].counted + g.counted
    ensures Total(ReturnedOf, logs[c := g]) == Total(ReturnedOf, logs) - logs[c].returned + g.returned
    ensures Total(MissedOf, logs[c := g]) == Total(MissedOf, logs) - logs[c].missed + g.missed
  {
    TotalUpdate(CountedOf, logs, c, g);
    TotalUpdate(ReturnedOf, logs, c, g);
    TotalUpdate(MissedOf, logs, c, g);
  }

  /** Between `w` and `v` only CPU `c0` and slots of its range change. */
  ghost predicate OnlyCpu(w: World, v: World, c0: nat)
    requires Shaped(w) && Shaped(v) && c0 < |w.logs|
  {
    && SameRanges(w.area, v.area) && |v.logs| == |w.logs|
    && OnlyRange(w.area.slots, v.area.slots, w.area.cpus[c0])
    && forall c :: 0 <= c < |w.logs| && c != c0 ==>
         && v.area.cpus[c] == w.area.cpus[c] && v.producers[c] == w.producers[c]
         && v.logs[c] == w.logs[c] && Ret(v, c) == Ret(w, c)
  }

  lemma OtherCpus(w: World, v: World, c0: nat)
    requires Inv(w) && Shaped(v) && c0 < |w.logs| && OnlyCpu(w, v, c0)
    requires LocalAt(v, c0)
    ensures forall c :: 0 <= c < |v.logs| ==> LocalAt(v, c)
  {
    forall c | 0 <= c < |v.logs| && c != c0 ensures LocalAt(v, c) {
      assert LocalAt(w, c);
      var q := w.area.cpus[c];
      assert c < c0 ==> q.end <= w.area.cpus[c0].start;
      assert c0 < c ==> w.area.cpus[c0].end <= q.start;
      LocalFrame(q, w.producers[c], w.logs[c], Ret(w, c), w.area.slots, v.area.slots);
    }
  }

  lemma RetFrame(w: World, v: World)
    requires Shaped(w) && Shaped(v) && SameRanges(w.area, v.area) && v.recycler == w.recycler
    ensures forall c: nat :: Ret(v, c) == Ret(w, c)
  {
    if w.recycler.Returning? {
      OwnerSame(w.area.cpus, v.area.cpus, w.recycler.list[w.recycler.i]);
    }
  }

  // ----- A packet arrives

  lemma OfferLocal(q: CpuQueue, pkt: KeyInfo, g: Log, ret: set<int>, slots: seq<Slot>)
    requires Local(q, Resting, g, ret, slots)
    ensures Local(q, Fetching(pkt), g.(offered := g.offered + 1), ret, slots)
  {
    assert InFlight(Fetching(pkt)) == InFlight(Resting);
  }

  lemma OfferCounted(w: World, c: nat, pkt: KeyInfo)
    requires Shaped(w) && Counted(w) && Enabled(w, Offer(c, pkt))
    ensures Counted(Apply(w, Offer(c, pkt)))
  {
    ElseKeeps(w.area.counts, w.base, w.tally, w.producers, c, Fetching(pkt), w.area.counts);
    Totals(w.logs, c, w.logs[c].(offered := w.logs[c].offered + 1));
  }

  lemma LocalIsAt(v: World, c: nat, q: CpuQueue, p: Producer, g: Log, ret: set<int>, slots: seq<Slot>)
    requires Shaped(v) && c < |v.logs| && Local(q, p, g, ret, slots)
    requires v.area.cpus[c] == q && v.producers[c] == p && v.logs[c] == g && v.area.slots == slots
    requires Ret(v, c) == ret
    ensures LocalAt(v, c)
  {
  }

  lemma OfferFields(w: World, c: nat, pkt: KeyInfo)
    requires Shaped(w) && Enabled(w, Offer(c, pkt))
    ensures var v := Apply(w, Offer(c, pkt));
      && v.area == w.area && v.producers == w.producers[c := Fetching(pkt)]
      && v.logs == w.logs[c := w.logs[c].(offered := w.logs[c].offered + 1)]
      && forall d: nat :: Ret(v, d) == Ret(w, d)
  {
    RetFrame(w, Apply(w, Offer(c, pkt)));
  }

  lemma OfferAt(w: World, c: nat, pkt: KeyInfo)
    requires Shaped(w) && Enabled(w, Offer(c, pkt)) && LocalAt(w, c)
    ensures LocalAt(Apply(w, Offer(c, pkt)), c)
  {
    var g := w.logs[c].(offered := w.logs[c].offered + 1);
    OfferLocal(w.area.cpus[c], pkt, w.logs[c], Ret(w, c), w.area.slots);
    OfferFields(w, c, pkt);
    LocalIsAt(Apply(w, Offer(c, pkt)), c, w.area.cpus[c], Fetching(pkt), g, Ret(w, c), w.area.slots);
  }

  lemma OfferOnly(w: World, c: nat, pkt: KeyInfo)
    requires Shaped(w) && Enabled(w, Offer(c, pkt))
    ensures OnlyCpu(w, Apply(w, Offer(c, pkt)), c)
  {
    OfferFields(w, c, pkt);
  }

  lemma OfferKeeps(w: World, c: nat, pkt: KeyInfo)
    requires Inv(w) && Enabled(w, Offer(c, pkt))
    ensures Inv(Apply(w, Offer(c, pkt)))
  {
    OfferCounted(w, c, pkt);
    OfferAt(w, c, pkt);
    OfferOnly(w, c, pkt);
    OtherCpus(w, Apply(w, Offer(c, pkt)), c);
  }

  // ----- A producer goes one step on

  lemma LoadKeeps(counts: Counts, base: Counts, t: Tally, producers: seq<Producer>, c: nat, p': Producer)
    requires |producers| == |t.marks| && SharedCounted(counts, base, t, producers) && c < |producers|
    requires producers[c].CountLoading? ==> p' == CountStoring(counts.queued)
    requires producers[c].MissLoading? ==> p' == MissStoring(counts.getFail)
    requires producers[c].CountLoading? || producers[c].MissLoading?
    ensures SharedCounted(counts, base, TallyProduce(t, c, producers[c]), producers[c := p'])
  {
  }

  /** The value in one CPU's hand stays what it was, whoever stores. */
  lemma OthersLoaded(base: Counts, t: Tally, producers: seq<Producer>, c: nat, p': Producer, q: nat, m: nat)
    requires |producers| == |t.marks| && c < |producers| && q <= |t.queued| && m <= |t.missed|
    requires forall d :: 0 <= d < |producers| ==> SeenAt(producers[d], t, t.marks[d], base)
    requires !p'.CountStoring? && !p'.MissStoring?
    ensures forall d :: 0 <= d < |producers| ==>
      && SeenAt(producers[c := p'][d], t.(queued := t.queued + [q]), t.marks[d], base)
      && SeenAt(producers[c := p'][d], t.(missed := t.missed + [m]), t.marks[d], base)
  {
    forall d | 0 <= d < |producers| && d != c
      ensures SeenAt(producers[d], t.(queued := t.queued + [q]), t.marks[d], base)
      ensures SeenAt(producers[d], t.(missed := t.missed + [m]), t.marks[d], base)
    {
      if producers[d].CountStoring? {
        StaysLoaded(producers[d].seen, base.queued, U64_MOD, t.queued, t.marks[d], q);
      } else if producers[d].MissStoring? {
        StaysLoaded(producers[d].seen, base.getFail, U32_MOD, t.missed, t.marks[d], m);
      }
    }
  }

  lemma CountStored(counts: Counts, base: Counts, t: Tally, producers: seq<Producer>, c: nat, p': Producer,
                    counts': Counts, t': Tally)
    requires |producers| == |t.marks| && SharedCounted(counts, base, t, producers) && c < |producers|
    requires !p'.CountStoring? && !p'.MissStoring? && t.marks[c] <= |t.queued|
    requires counts'.getFail == counts.getFail && t' == t.(queued := t.queued + [t.marks[c]])
    requires Shows(counts'.queued, base.queued, U64_MOD, t'.queued)
    ensures SharedCounted(counts', base, t', producers[c := p'])
  {
    OthersLoaded(base, t, producers, c, p', t.marks[c], 0);
  }

  lemma CountStoreKeeps(counts: Counts, base: Counts, t: Tally, producers: seq<Producer>, c: nat, p': Producer,
                        counts': Counts)
    requires |producers| == |t.marks| && SharedCounted(counts, base, t, producers) && c < |producers|
    requires !p'.CountStoring? && !p'.MissStoring? && producers[c].CountStoring?
    requires counts' == counts.(queued := (producers[c].seen + 1) % U64_MOD)
    ensures SharedCounted(counts', base, TallyProduce(t, c, producers[c]), producers[c := p'])
  {
    assert SeenAt(producers[c], t, t.marks[c], base);
    StoreShows(producers[c].seen, base.queued, U64_MOD, t.queued, t.marks[c]);
    CountStored(counts, base, t, producers, c, p', counts', TallyProduce(t, c, producers[c]));
  }

  lemma MissStored(counts: Counts, base: Counts, t: Tally, producers: seq<Producer>, c: nat, p': Producer,
                   counts': Counts, t': Tally)
    requires |producers| == |t.marks| && SharedCounted(counts, base, t, producers) && c < |producers|
    requires !p'.CountStoring? && !p'.MissStoring? && t.marks[c] <= |t.missed|
    requires counts'.queued == counts.queued && t' == t.(missed := t.missed + [t.marks[c]])
    requires Shows(counts'.getFail, base.getFail, U32_MOD, t'.missed)
    ensures SharedCounted(counts', base, t', producers[c := p'])
  {
    OthersLoaded(base, t, producers, c, p', 0, t.marks[c]);
  }

  lemma MissStoreKeeps(counts: Counts, base: Counts, t: Tally, producers: seq<Producer>, c: nat, p': Producer,
                       counts': Counts)
    requires |producers| == |t.marks| && SharedCounted(counts, base, t, producers) && c < |producers|
    requires !p'.CountStoring? && !p'.MissStoring? && producers[c].MissStoring?
    requires counts' == counts.(getFail := (producers[c].seen + 1) % U32_MOD)
    ensures SharedCounted(counts', base, TallyProduce(t, c, producers[c]), producers[c := p'])
  {
    assert SeenAt(producers[c], t, t.marks[c], base);
    StoreShows(producers[c].seen, base.getFail, U32_MOD, t.missed, t.marks[c]);
    MissStored(counts, base, t, producers, c, p', counts', TallyProduce(t, c, producers[c]));
  }

  lemma ElseKeeps(counts: Counts, base: Counts, t: Tally, producers: seq<Producer>, c: nat, p': Producer,
                  counts': Counts)
    requires |producers| == |t.marks| && SharedCounted(counts, base, t, producers) && c < |producers|
    requires !p'.CountStoring? && !p'.MissStoring?
    requires counts'.queued == counts.queued && counts'.getFail == counts.getFail
    ensures SharedCounted(counts', base, t, producers[c := p'])
  {
  }

  /** One step of a put on the counters. */
  lemma ProduceShared(a: Area, c: nat, base: Counts, t: Tally, producers: seq<Producer>)
    requires Indexed(a) && c < |a.cpus| == |producers| == |t.marks| && ProducerOk(a, producers[c])
    requires SharedCounted(a.counts, base, t, producers)
    requires !producers[c].ClashLoading? && !producers[c].ClashStoring?
    ensures var r := ProducerAct(a, c, producers[c]);
      && SharedCounted(r.0.counts, base, TallyProduce(t, c, producers[c]), producers[c := r.1])
      && r.0.counts == a.counts.(queued := r.0.counts.queued, getFail := r.0.counts.getFail)
  {
    var p, r := producers[c], ProducerAct(a, c, producers[c]);
    if p.CountLoading? || p.MissLoading? {
      LoadKeeps(a.counts, base, t, producers, c, r.1);
    } else if p.CountStoring? {
      CountStoreKeeps(a.counts, base, t, producers, c, r.1, r.0.counts);
    } else if p.MissStoring? {
      MissStoreKeeps(a.counts, base, t, producers, c, r.1, r.0.counts);
    } else {
      ElseKeeps(a.counts, base, t, producers, c, r.1, r.0.counts);
    }
  }

  lemma ProduceTotals(t: Tally, logs: seq<Log>, c: nat, q: CpuQueue, p: Producer)
    requires c < |logs| == |t.marks|
    requires |t.queued| == Total(CountedOf, logs) && |t.missed| == Total(MissedOf, logs)
    ensures var t', logs' := TallyProduce(t, c, p), logs[c := LogProduce(logs[c], q, p)];
      && |t'.queued| == Total(CountedOf, logs') && |t'.missed| == Total(MissedOf, logs')
      && Total(ReturnedOf, logs') == Total(ReturnedOf, logs)
  {
    Totals(logs, c, LogProduce(logs[c], q, p));
  }

  lemma ProduceCounts(a: Area, c: nat, base: Counts, t: Tally, producers: seq<Producer>, logs: seq<Log>)
    requires Indexed(a) && c < |a.cpus| == |producers| == |t.marks| == |logs| && ProducerOk(a, producers[c])
    requires CountsRight(a.counts, base, t, producers, logs)
    requires !producers[c].ClashLoading? && !producers[c].ClashStoring?
    ensures var p, r := producers[c], ProducerAct(a, c, producers[c]);
      CountsRight(r.0.counts, base, TallyProduce(t, c, p), producers[c := r.1],
                  logs[c := LogProduce(logs[c], a.cpus[c], p)])
  {
    var p, r := producers[c], ProducerAct(a, c, producers[c]);
    ProduceShared(a, c, base, t, producers);
    ProduceTotals(t, logs, c, a.cpus[c], p);
    StillRight(a.counts, r.0.counts, base, t, TallyProduce(t, c, p), producers, producers[c := r.1], logs,
               logs[c := LogProduce(logs[c], a.cpus[c], p)]);
  }

  lemma StillRight(counts: Counts, counts': Counts, base: Counts, t: Tally, t': Tally, producers: seq<Producer>,
                   producers': seq<Producer>, logs: seq<Log>, logs': seq<Log>)
    requires |producers| == |t.marks| && CountsRight(counts, base, t, producers, logs)
    requires |producers'| == |t'.marks| && SharedCounted(counts', base, t', producers')
    requires counts' == counts.(queued := counts'.queued, getFail := counts'.getFail)
    requires |t'.queued| == Total(CountedOf, logs') && |t'.missed| == Total(MissedOf, logs')
    requires Total(ReturnedOf, logs') == Total(ReturnedOf, logs)
    ensures CountsRight(counts', base, t', producers', logs')
  {
  }

  lemma ProduceCounted(w: World, c: nat)
    requires Shaped(w) && Counted(w) && Enabled(w, Produce(c))
    requires !w.producers[c].ClashLoading? && !w.producers[c].ClashStoring?
    ensures Counted(Apply(w, Produce(c)))
  {
    ProduceCounts(w.area, c, w.base, w.tally, w.producers, w.logs);
  }

  lemma OthersStay(a: Area, c: nat, p: Producer)
    requires Indexed(a) && c < |a.cpus| && ProducerOk(a, p)
    ensures forall d :: 0 <= d < |a.cpus| && d != c ==> ProducerAct(a, c, p).0.cpus[d] == a.cpus[d]
  {
  }

  lemma ProduceOnly(w: World, c: nat)
    requires Shaped(w) && Enabled(w, Produce(c))
    requires OnlyRange(w.area.slots, Apply(w, Produce(c)).area.slots, w.area.cpus[c])
    ensures OnlyCpu(w, Apply(w, Produce(c)), c)
  {
    ProducedFields(w, c);
    OthersStay(w.area, c, w.producers[c]);
    RetFrame(w, Apply(w, Produce(c)));
  }

  lemma ProduceAt(w: World, c: nat)
    requires Inv(w) && Enabled(w, Produce(c))
    ensures LocalAt(Apply(w, Produce(c)), c)
    ensures OnlyRange(w.area.slots, Apply(w, Produce(c)).area.slots, w.area.cpus[c])
  {
    var v := Apply(w, Produce(c));
    assert LocalAt(w, c);
    ProducerLocal(w.area, c, w.producers[c], w.logs[c], Ret(w, c));
    ProducedFields(w, c);
    RetFrame(w, v);
    LocalIsAt(v, c, v.area.cpus[c], v.producers[c], v.logs[c], Ret(w, c), v.area.slots);
  }

  lemma ProduceKeeps(w: World, c: nat)
    requires Inv(w) && Enabled(w, Produce(c))
    ensures Inv(Apply(w, Produce(c)))
  {
    assert LocalAt(w, c);
    ProduceCounted(w, c);
    ProduceAt(w, c);
    ProduceOnly(w, c);
    OtherCpus(w, Apply(w, Produce(c)), c);
  }

  // ----- The consumer goes one step on

  /** A recycling thread about to free an index frees one the consumer holds. */
  ghost predicate HoldsFreed(w: World)
    requires Shaped(w)
  {
    w.recycler.Freeing? ==>
      var x := w.recycler.list[w.recycler.i];
      x in w.logs[Owner(w.area.cpus, x)].held
  }

  lemma RetOther(w: World)
    requires Shaped(w) && !w.recycler.Returning?
    ensures forall c: nat :: Ret(w, c) == {}
  {
  }

  /** Counters of the module stay, but for the stale entries counted. */
  ghost predicate SameTally(w: World, v: World) {
    && v.tally == w.tally && v.base == w.base && v.producers == w.producers
    && v.area.counts == w.area.counts.(recycled := v.area.counts.recycled,
                                       recycleInvalid := v.area.counts.recycleInvalid)
  }

  lemma SkipKeeps(w: World, v: World)
    requires Inv(w) && Shaped(v) && SameTally(w, v) && v.logs == w.logs
    requires v.area.cpus == w.area.cpus && v.area.slots == w.area.slots
    requires v.area.counts.recycled == w.area.counts.recycled
    requires forall c :: 0 <= c < |w.logs| ==> Ret(v, c) == Ret(w, c)
    ensures Inv(v)
  {
    forall c | 0 <= c < |v.logs| ensures LocalAt(v, c) {
      assert LocalAt(w, c);
      LocalIsAt(v, c, w.area.cpus[c], w.producers[c], w.logs[c], Ret(w, c), w.area.slots);
    }
  }

  /** `v` is `w` with CPU `c` now `q`, its log now `g`, and slots changed in its range only. */
  ghost predicate Replaced(w: World, v: World, c: nat, q: CpuQueue, g: Log)
    requires Shaped(w) && Shaped(v) && c < |w.logs|
  {
    && v.area.cpus == w.area.cpus[c := q] && v.logs == w.logs[c := g]
    && SameTally(w, v)
    && OnlyRange(w.area.slots, v.area.slots, w.area.cpus[c])
    && SameRanges(w.area, v.area)
    && forall d :: 0 <= d < |w.logs| && d != c ==> Ret(v, d) == Ret(w, d)
  }

  lemma ReplacedCounted(w: World, v: World, c: nat, g: Log)
    requires Shaped(w) && Shaped(v) && Counted(w) && SameTally(w, v) && c < |w.logs| && v.logs == w.logs[c := g]
    requires g.counted == w.logs[c].counted && g.missed == w.logs[c].missed
    requires if g.returned == w.logs[c].returned + 1
      then v.area.counts.recycled == (w.area.counts.recycled + 1) % U64_MOD
      else g.returned == w.logs[c].returned && v.area.counts.recycled == w.area.counts.recycled
    ensures Counted(v)
  {
    Totals(w.logs, c, g);
    OneMoreWraps(w.base.recycled + Total(ReturnedOf, w.logs), U64_MOD);
  }

  lemma ReplacedKeeps(w: World, v: World, c: nat, q: CpuQueue, g: Log)
    requires Inv(w) && Shaped(v) && c < |w.logs| && Replaced(w, v, c, q, g)
    requires Local(q, w.producers[c], g, Ret(v, c), v.area.slots) && Counted(v)
    ensures Inv(v)
  {
    LocalIsAt(v, c, q, w.producers[c], g, Ret(v, c), v.area.slots);
    OtherCpus(w, v, c);
  }

  lemma MoveApply(w: World, c: nat, n: nat)
    requires Shaped(w) && w.mover.Moving? && w.mover.cpu == c < |w.area.cpus|
    requires w.area.cpus[c].ready != []
    requires n == if |w.area.cpus[c].ready| < w.mover.num then |w.area.cpus[c].ready| else w.mover.num
    ensures var v, q := Apply(w, MoveOn), w.area.cpus[c];
      && Replaced(w, v, c, q.(ready := q.ready[n..]), LogMove(w.logs[c], q, n, w.area.slots))
      && v.area.slots == w.area.slots && v.area.counts == w.area.counts && Ret(v, c) == Ret(w, c)
      && v.area.idxArray == w.area.idxArray[..w.mover.copied] + q.ready[..n] + w.area.idxArray[w.mover.copied + n..]
      && v.mover.Moving? && v.mover.copied == w.mover.copied + n && v.mover.cpu > c
  {
    RetFrame(w, Apply(w, MoveOn));
  }

  lemma MoveKeeps(w: World)
    requires Inv(w) && w.mover.Moving?
    ensures Inv(Apply(w, MoveOn))
  {
    var v := Apply(w, MoveOn);
    var c := w.mover.cpu;
    RetFrame(w, v);
    if c == |w.area.cpus| || w.area.cpus[c].ready == [] {
      SkipKeeps(w, v);
    } else {
      var q, num := w.area.cpus[c], w.mover.num;
      var n: nat := if |q.ready| < num then |q.ready| else num;
      var g' := LogMove(w.logs[c], q, n, w.area.slots);
      assert LocalAt(w, c);
      MoveApply(w, c, n);
      MoveLocal(q, w.producers[c], w.logs[c], Ret(w, c), w.area.slots, n);
      ReplacedCounted(w, v, c, g');
      ReplacedKeeps(w, v, c, q.(ready := q.ready[n..]), g');
    }
  }

  lemma FreeApply(w: World, x: nat, o: nat)
    requires Shaped(w) && w.recycler.Freeing? && x == w.recycler.list[w.recycler.i]
    requires o == Owner(w.area.cpus, x)
    ensures o < |w.logs|
    ensures var v := Apply(w, RecycleOn);
      && Replaced(w, v, o, w.area.cpus[o], w.logs[o].(held := w.logs[o].held - {x}))
      && v.area.slots == FreedSlots(w.area.slots, x) && v.area.counts == w.area.counts
      && Ret(v, o) == {x} && v.last == w.last.(freed := w.last.freed + {x})
  {
    RetOther(w);
  }

  lemma FreeKeeps(w: World)
    requires Inv(w) && w.recycler.Freeing? && HoldsFreed(w)
    ensures Inv(Apply(w, RecycleOn))
  {
    var v := Apply(w, RecycleOn);
    var x := w.recycler.list[w.recycler.i];
    var o := Owner(w.area.cpus, x);
    var g' := w.logs[o].(held := w.logs[o].held - {x});
    FreeApply(w, x, o);
    RetOther(w);
    assert LocalAt(w, o);
    FreeLocal(w.area.cpus[o], w.producers[o], w.logs[o], w.area.slots, x);
    ReplacedCounted(w, v, o, g');
    ReplacedKeeps(w, v, o, w.area.cpus[o], g');
  }

  lemma ReturnApply(w: World, x: nat, o: nat)
    requires Shaped(w) && w.recycler.Returning? && x == w.recycler.list[w.recycler.i]
    requires o == Owner(w.area.cpus, x) && |w.area.cpus[o].idle| < w.area.cpus[o].cap
    ensures o < |w.logs| && Ret(w, o) == {x}
    ensures var v := Apply(w, RecycleOn);
      && Replaced(w, v, o, w.area.cpus[o].(idle := w.area.cpus[o].idle + [x]),
                  w.logs[o].(returned := w.logs[o].returned + 1))
      && v.area.slots == w.area.slots && Ret(v, o) == {}
      && v.area.counts == w.area.counts.(recycled := (w.area.counts.recycled + 1) % U64_MOD)
  {
    RetOther(Apply(w, RecycleOn));
  }

  lemma ReturnKeeps(w: World)
    requires Inv(w) && w.recycler.Returning?
    ensures Inv(Apply(w, RecycleOn))
  {
    var x := w.recycler.list[w.recycler.i];
    var o := Owner(w.area.cpus, x);
    var q', g' := w.area.cpus[o].(idle := w.area.cpus[o].idle + [x]),
                  w.logs[o].(returned := w.logs[o].returned + 1);
    assert LocalAt(w, o);
    ReturnLocal(w.area.cpus[o], q', w.producers[o], w.logs[o], g', Ret(w, o), w.area.slots, x);
    ReturnApply(w, x, o);
    ReplacedCounted(w, Apply(w, RecycleOn), o, g');
    ReplacedKeeps(w, Apply(w, RecycleOn), o, q', g');
  }

  // ----- Every step, every run

  ghost predicate Safe(w: World) {
    Inv(w) && HoldsFreed(w)
  }

  lemma RecycleOnKeeps(w: World)
    requires Safe(w) && Enabled(w, RecycleOn) && Disciplined(w, RecycleOn)
    ensures Safe(Apply(w, RecycleOn))
  {
    if w.recycler.Freeing? {
      FreeKeeps(w);
    } else if w.recycler.Returning? {
      ReturnKeeps(w);
    } else {
      RetOther(w);
      RetOther(Apply(w, RecycleOn));
      SkipKeeps(w, Apply(w, RecycleOn));
    }
  }

  /** Only the recycling thread takes indices from the consumer. */
  lemma OthersKeepHeld(w: World, act: Action, o: nat, x: nat)
    requires Shaped(w) && Enabled(w, act) && !act.RecycleOn? && o < |w.logs| && x in w.logs[o].held
    ensures x in Apply(w, act).logs[o].held
  {
  }

  lemma OthersLeaveHeld(w: World, act: Action)
    requires Safe(w) && Enabled(w, act) && (act.Offer? || act.Produce? || act.MoveOn?)
    ensures HoldsFreed(Apply(w, act))
  {
    var v := Apply(w, act);
    if w.recycler.Freeing? {
      var x := w.recycler.list[w.recycler.i];
      OwnerSame(w.area.cpus, v.area.cpus, x);
      OthersKeepHeld(w, act, Owner(w.area.cpus, x), x);
    }
  }

  /** The step theorem: any step any party may take keeps the queue safe. */
  lemma StepIsSafe(w: World, act: Action)
    requires Safe(w) && Enabled(w, act) && Disciplined(w, act)
    ensures Safe(Apply(w, act))
  {
    match act
    case Offer(c, pkt) => OfferKeeps(w, c, pkt); OthersLeaveHeld(w, act);
    case Produce(c) => ProduceKeeps(w, c); OthersLeaveHeld(w, act);
    case MoveOn => MoveKeeps(w); OthersLeaveHeld(w, act);
    case RecycleOn => RecycleOnKeeps(w);
    case Fetch => StartingKeeps(w, act);
    case Recycle(_) => StartingKeeps(w, act);
  }

  /** A call begins. */
  lemma StartingKeeps(w: World, act: Action)
    requires Safe(w) && Enabled(w, act) && (act.Fetch? || act.Recycle?)
    ensures Safe(Apply(w, act))
  {
    var v := Apply(w, act);
    if act.Fetch? {
      RetFrame(w, v);
    } else {
      RetOther(w);
      RetOther(v);
    }
    SkipKeeps(w, v);
  }

  lemma {:induction false} RunIsSafe(w: World, acts: seq<Action>)
    requires Safe(w) && Run(w, acts)
    ensures Safe(After(w, acts))
    decreases |acts|
  {
    if acts != [] {
      StepIsSafe(w, acts[0]);
      RunIsSafe(Apply(w, acts[0]), acts[1..]);
    }
  }

  // ----- The state a successful creation leaves

  function Ascending(lo: nat, hi: nat): (s: seq<nat>)
    requires lo <= hi
    ensures |s| == hi - lo && forall i :: 0 <= i < |s| ==> s[i] == lo + i
  {
    seq(hi - lo, i requires 0 <= i < hi - lo => lo + i)
  }

  /** Counters may have any values: they outlive the queues. */
  ghost predicate Created(a: Area) {
    && Indexed(a) && Ranges(a) && a.idxNum == 0
    && (forall i :: 0 <= i < |a.slots| ==> a.slots[i].times == 0 && a.slots[i].state == Free)
    && (forall c :: 0 <= c < |a.cpus| ==>
          a.cpus[c].idle == Ascending(a.cpus[c].start, a.cpus[c].end) && a.cpus[c].ready == [])
  }

  function Start(a: Area): World {
    World(a, seq(|a.cpus|, _ => Resting), Quiet([]), Quiet([]), seq(|a.cpus|, _ => EMPTY_LOG),
          Tally([], [], seq(|a.cpus|, _ => 0)), LastFetch(seq(|a.cpus|, _ => 0), {}), a.counts)
  }

  const EMPTY_LOG := Log(0, 0, [], [], map[], 0, 0, 0)

  lemma StartPartition(q: CpuQueue)
    requires q.start <= q.end && q.idle == Ascending(q.start, q.end) && q.ready == []
    ensures Partition(q, Resting, EMPTY_LOG, {})
  {
    SetBag(q.idle);
    forall i: int | q.start <= i < q.end ensures i in q.idle {
      assert q.idle[i - q.start] == i;
    }
    assert Members(q.idle) == Span(q.start, q.end);
    assert InFlight(Resting) == [];
    assert EMPTY_LOG.held.Keys == {};
  }

  lemma StartLogged(q: CpuQueue, slots: seq<Slot>)
    requires Fits(q, Resting, slots) && q.ready == []
    requires forall i :: 0 <= i < |slots| ==> slots[i].times == 0
    ensures Logged(q, Resting, EMPTY_LOG, {}, slots)
  {
    assert Tag(q.ready, slots) == [];
    assert EMPTY_LOG.accepted == [] && EMPTY_LOG.delivered == [];
    assert |EMPTY_LOG.held| == 0;
    assert forall i: int :: Puts([], i) == 0;
  }

  lemma StartLocal(q: CpuQueue, slots: seq<Slot>)
    requires Fits(q, Resting, slots) && q.idle == Ascending(q.start, q.end) && q.ready == []
    requires forall i :: 0 <= i < |slots| ==> slots[i].times == 0 && slots[i].state == Free
    ensures Local(q, Resting, EMPTY_LOG, {}, slots)
  {
    StartPartition(q);
    StartLogged(q, slots);
  }

  lemma {:induction false} NothingYet(f: Log -> nat, n: nat)
    requires f(EMPTY_LOG) == 0
    ensures Total(f, seq(n, _ => EMPTY_LOG)) == 0
  {
    if n > 0 {
      NothingYet(f, n - 1);
      assert seq(n, _ => EMPTY_LOG)[1..] == seq(n - 1, _ => EMPTY_LOG);
    }
  }

  lemma StartCounted(a: Area)
    requires Created(a)
    ensures Counted(Start(a))
  {
    NothingYet(CountedOf, |a.cpus|);
    NothingYet(ReturnedOf, |a.cpus|);
    NothingYet(MissedOf, |a.cpus|);
    assert Chain([], 0) == {};
  }

  lemma StartIsSafe(a: Area)
    requires Created(a)
    ensures Safe(Start(a))
  {
    var w := Start(a);
    StartCounted(a);
    forall c | 0 <= c < |w.logs| ensures LocalAt(w, c) {
      StartLocal(a.cpus[c], a.slots);
    }
  }
}
