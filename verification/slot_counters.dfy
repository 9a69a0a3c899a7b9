/**
 The counters of the ipshark2 packet queue over whole runs. `queue_times` and `getfail` are incremented by
 every CPU without a lock, and no creation resets them, so each theorem counts from the values creation
 found and says what overwritten stores cost.
 */
module SlotCounters {
  import opened Packets
  import opened SharedCounter
  import opened SlotArea
  import opened SlotCalls
  import opened SlotInvariant
  import opened SlotRuns
  import opened SlotTheorems
  import opened SlotWorld
  import opened Words

  /** Slots of the CPUs from `c` on that wait, are held, or are being recycled. */
  ghost function Outstanding(w: World, c: nat): nat
    requires Shaped(w) && c <= |w.logs|
    decreases |w.logs| - c
  {
    if c == |w.logs| then 0
    else |w.area.cpus[c].ready| + |w.logs[c].held| + |Ret(w, c)| + Outstanding(w, c + 1)
  }

  /** Puts that have queued their packet and not yet stored the counter. */
  function BeforeStore(producers: seq<Producer>): nat {
    if producers == [] then 0 else Uncounted(producers[0]) + BeforeStore(producers[1..])
  }

  /** Puts that have dropped their packet and not yet stored the counter. */
  function BeforeMiss(producers: seq<Producer>): nat {
    if producers == [] then 0 else Unmissed(producers[0]) + BeforeMiss(producers[1..])
  }

  function DroppedOf(g: Log): nat { g.dropped }

  lemma TotalFrom(f: Log -> nat, logs: seq<Log>, c: nat)
    requires c < |logs|
    ensures Total(f, logs[c..]) == f(logs[c]) + Total(f, logs[c + 1..])
  {
    assert logs[c..][0] == logs[c] && logs[c..][1..] == logs[c + 1..];
  }

  lemma BeforeFrom(producers: seq<Producer>, c: nat)
    requires c < |producers|
    ensures BeforeStore(producers[c..]) == Uncounted(producers[c]) + BeforeStore(producers[c + 1..])
    ensures BeforeMiss(producers[c..]) == Unmissed(producers[c]) + BeforeMiss(producers[c + 1..])
  {
    assert producers[c..][0] == producers[c] && producers[c..][1..] == producers[c + 1..];
  }

  lemma OutstandingAt(q: CpuQueue, p: Producer, g: Log, ret: set<int>, slots: seq<Slot>)
    requires Fits(q, p, slots) && Logged(q, p, g, ret, slots)
    ensures g.counted + Uncounted(p) == g.returned + |q.ready| + |g.held| + |ret|
    ensures g.missed + Unmissed(p) == g.dropped
  {
    assert |Tag(q.ready, slots)| == |q.ready|;
  }

  lemma {:induction false} OutstandingTotal(w: World, c: nat)
    requires Inv(w) && c <= |w.logs|
    ensures Total(CountedOf, w.logs[c..]) + BeforeStore(w.producers[c..])
         == Total(ReturnedOf, w.logs[c..]) + Outstanding(w, c)
    ensures Total(MissedOf, w.logs[c..]) + BeforeMiss(w.producers[c..]) == Total(DroppedOf, w.logs[c..])
    decreases |w.logs| - c
  {
    if c < |w.logs| {
      assert LocalAt(w, c);
      OutstandingAt(w.area.cpus[c], w.producers[c], w.logs[c], Ret(w, c), w.area.slots);
      OutstandingTotal(w, c + 1);
      TotalFrom(CountedOf, w.logs, c);
      TotalFrom(ReturnedOf, w.logs, c);
      TotalFrom(MissedOf, w.logs, c);
      TotalFrom(DroppedOf, w.logs, c);
      BeforeFrom(w.producers, c);
    }
  }

  lemma WholeTotals(w: World)
    requires Inv(w)
    ensures Total(CountedOf, w.logs) + BeforeStore(w.producers) == Total(ReturnedOf, w.logs) + Outstanding(w, 0)
    ensures Total(MissedOf, w.logs) + BeforeMiss(w.producers) == Total(DroppedOf, w.logs)
  {
    OutstandingTotal(w, 0);
    assert w.logs[0..] == w.logs && w.producers[0..] == w.producers;
  }

  // ----- Conservation

  /** What is on its way, counted late, or overwritten. */
  ghost function Unseen(w: World): nat
    requires Sound(w.tally.queued)
  {
    BeforeStore(w.producers) + |Overwritten(w.tally.queued)|
  }

  /** `queue_times - recycle_times` has grown from `base` by what is outstanding, less what is unseen. */
  ghost predicate Balanced(w: World, base: Counts)
    requires Shaped(w) && Sound(w.tally.queued)
  {
    (w.area.counts.queued - w.area.counts.recycled) % 0x1_0000_0000_0000_0000
    == (base.queued - base.recycled + Outstanding(w, 0) - Unseen(w)) % 0x1_0000_0000_0000_0000
  }

  lemma Moved(q: nat, r: nat, start: nat, begin: nat, stores: nat, lost: nat, back: nat, late: nat, out: nat)
    requires q == (start + stores - lost) % U64_MOD && r == (begin + back) % U64_MOD
    requires stores + late == back + out
    ensures (q - r) % U64_MOD == (start - begin + out - (late + lost)) % U64_MOD
  {
    Apart64(start + stores - lost, begin + back);
  }

  /** What the two words show. */
  ghost predicate WordsShow(w: World, stores: nat, lost: nat, back: nat) {
    && w.area.counts.queued == (w.base.queued + stores - lost) % U64_MOD
    && w.area.counts.recycled == (w.base.recycled + back) % U64_MOD
  }

  lemma InvShowsWords(w: World)
    requires Inv(w)
    ensures Sound(w.tally.queued)
    ensures WordsShow(w, |w.tally.queued|, |Overwritten(w.tally.queued)|, Total(ReturnedOf, w.logs))
  {
    ShowsTrueLessOverwritten(w.area.counts.queued, w.base.queued, U64_MOD, w.tally.queued);
  }

  lemma WordsBalance(w: World, stores: nat, lost: nat, back: nat, late: nat, out: nat)
    requires WordsShow(w, stores, lost, back) && stores + late == back + out
    ensures (w.area.counts.queued - w.area.counts.recycled) % U64_MOD
         == (w.base.queued - w.base.recycled + out - (late + lost)) % U64_MOD
  {
    Moved(w.area.counts.queued, w.area.counts.recycled, w.base.queued, w.base.recycled, stores, lost, back, late, out);
  }

  lemma InvIsBalanced(w: World)
    requires Inv(w)
    ensures Sound(w.tally.queued) && Balanced(w, w.base)
  {
    InvShowsWords(w);
    WholeTotals(w);
    WordsBalance(w, |w.tally.queued|, |Overwritten(w.tally.queued)|, Total(ReturnedOf, w.logs),
                 BeforeStore(w.producers), Outstanding(w, 0));
  }

  /** Conservation over every run: since creation `queue_times - recycle_times` has grown by the slots that
      wait or are with the consumer, less the stores not made yet and the stores overwritten. */
  lemma Conservation(a: Area, acts: seq<Action>)
    requires RunOf(a, acts)
    ensures Sound(Reached(a, acts).tally.queued) && Balanced(Reached(a, acts), a.counts)
  {
    ReachedIsSafe(a, acts);
    AreaStays(Start(a), acts);
    InvIsBalanced(Reached(a, acts));
  }

  /** The two counters have moved apart by exactly the slots that wait or are with the consumer. */
  ghost predicate Exact(w: World, base: Counts)
    requires Shaped(w)
  {
    (w.area.counts.queued - w.area.counts.recycled) % 0x1_0000_0000_0000_0000
    == (base.queued - base.recycled + Outstanding(w, 0)) % 0x1_0000_0000_0000_0000
  }

  lemma ExactIff(a: Area, acts: seq<Action>)
    requires RunOf(a, acts)
    ensures var w := Reached(a, acts); Sound(w.tally.queued) && (Exact(w, a.counts) <==> Unseen(w) % U64_MOD == 0)
  {
    Conservation(a, acts);
    var w := Reached(a, acts);
    SameIffMultiple(a.counts.queued - a.counts.recycled + Outstanding(w, 0), Unseen(w));
  }

  /** The counters as they stand, not counted from creation, give the slots that wait or are with the
      consumer. */
  ghost predicate ShowsInUse(w: World)
    requires Shaped(w)
  {
    (w.area.counts.queued - w.area.counts.recycled) % 0x1_0000_0000_0000_0000 == Outstanding(w, 0) % 0x1_0000_0000_0000_0000
  }

  /** They do exactly when what they differed by at creation makes up for what is unseen. */
  lemma AbsoluteBalanceIff(a: Area, acts: seq<Action>)
    requires RunOf(a, acts)
    ensures var w := Reached(a, acts);
      && Sound(w.tally.queued)
      && (ShowsInUse(w) <==> (Unseen(w) - (a.counts.queued - a.counts.recycled)) % U64_MOD == 0)
  {
    Conservation(a, acts);
    var w := Reached(a, acts);
    SameIffMultiple(Outstanding(w, 0), Unseen(w) - (a.counts.queued - a.counts.recycled));
  }

  lemma {:induction false} AllStored(producers: seq<Producer>)
    requires forall c :: 0 <= c < |producers| ==> Uncounted(producers[c]) == 0
    ensures BeforeStore(producers) == 0
  {
    if producers != [] {
      AllStored(producers[1..]);
    }
  }

  lemma NothingUnseen(a: Area)
    requires Created(a)
    ensures Sound(Start(a).tally.queued) && Unseen(Start(a)) == 0
  {
    AllStored(Start(a).producers);
  }

  /** Right after a creation they do exactly if it found them equal. */
  lemma ShowsAtStartIff(a: Area)
    requires Created(a)
    ensures RunOf(a, []) && (ShowsInUse(Reached(a, [])) <==> a.counts.queued == a.counts.recycled)
  {
    AbsoluteBalanceIff(a, []);
    NothingUnseen(a);
    SameIffMultiple(0, -(a.counts.queued - a.counts.recycled));
  }

  /** A creation, one put, and a creation again: `ip_queue_exit` and `ip_queue_create` leave the counters as
      they are, so the new queue has one slot too many in use from its start. */
  lemma CreatedAgain(before: Area, c: nat, pkt: KeyInfo, a: Area)
    requires Created(before) && c < |before.cpus| && before.counts.queued == before.counts.recycled
    requires Created(a) && a.counts == FinishPut(before, c, Fetching(pkt)).counts
    ensures RunOf(a, []) && !ShowsInUse(Reached(a, []))
  {
    PutStores(before, c, pkt);
    assert a.counts.queued == (before.counts.queued + 1) % U64_MOD;
    ShowsAtStartIff(a);
  }

  ghost predicate MissesShow(w: World, base: Counts)
    requires Sound(w.tally.missed)
  {
    w.area.counts.getFail
    == (base.getFail + Total(DroppedOf, w.logs) - BeforeMiss(w.producers) - |Overwritten(w.tally.missed)|) % 0x1_0000_0000
  }

  lemma InvShowsMisses(w: World)
    requires Inv(w)
    ensures Sound(w.tally.missed) && MissesShow(w, w.base)
  {
    WholeTotals(w);
    ShowsTrueLessOverwritten(w.area.counts.getFail, w.base.getFail, U32_MOD, w.tally.missed);
  }

  /** In every reachable state `getfail` has grown by the packets dropped, less the stores not made yet and
      the stores overwritten. */
  lemma MissesCounted(a: Area, acts: seq<Action>)
    requires RunOf(a, acts)
    ensures Sound(Reached(a, acts).tally.missed) && MissesShow(Reached(a, acts), a.counts)
  {
    ReachedIsSafe(a, acts);
    AreaStays(Start(a), acts);
    InvShowsMisses(Reached(a, acts));
  }

  // ----- What is counted on one CPU only

  /** A slot's `times` counts its packets modulo 2^24; every packet offered on a CPU was accepted,
      dropped, or is being put. */
  ghost predicate CountsFit(q: CpuQueue, p: Producer, g: Log, slots: seq<Slot>) {
    && q.end <= |slots|
    && (forall i :: q.start <= i < q.end ==> slots[i].times == (Puts(g.accepted, i) + Marked(p, i)) % 0x100_0000)
    && g.offered == |g.accepted| + g.dropped + Pending(p)
  }

  lemma LocalCounts(q: CpuQueue, p: Producer, g: Log, ret: set<int>, slots: seq<Slot>)
    requires Fits(q, p, slots) && Logged(q, p, g, ret, slots)
    ensures CountsFit(q, p, g, slots)
  {
  }

  lemma CountsOfCpu(a: Area, acts: seq<Action>, c: nat)
    requires RunOf(a, acts) && c < |Reached(a, acts).logs|
    ensures var w := Reached(a, acts); CountsFit(w.area.cpus[c], w.producers[c], w.logs[c], w.area.slots)
  {
    var w := Reached(a, acts);
    ReachedIsSafe(a, acts);
    assert LocalAt(w, c);
    LocalCounts(w.area.cpus[c], w.producers[c], w.logs[c], Ret(w, c), w.area.slots);
  }

  // ----- When nothing is overwritten

  /** Whenever a CPU stores `queue_times`, there have been as many stores as when it loaded it: no store of
      another CPU falls between. */
  ghost predicate NoStoreBetween(w: World, acts: seq<Action>)
    requires Shaped(w) && FreeRun(w, acts)
    decreases |acts|
  {
    acts != [] ==>
      && (acts[0].Produce? && w.producers[acts[0].cpu].CountStoring? ==>
            w.tally.marks[acts[0].cpu] == |w.tally.queued|)
      && NoStoreBetween(Apply(w, acts[0]), acts[1..])
  }

  lemma StoresGrow(w: World, act: Action)
    requires Shaped(w) && Enabled(w, act)
    ensures var v := Apply(w, act);
      if act.Produce? && w.producers[act.cpu].CountStoring?
      then v.tally.queued == w.tally.queued + [w.tally.marks[act.cpu]]
      else v.tally.queued == w.tally.queued
  {
  }

  lemma {:induction false} StoresOfRun(w: World, acts: seq<Action>)
    requires Shaped(w) && FreeRun(w, acts)
    ensures w.tally.queued <= After(w, acts).tally.queued
    ensures NoStoreBetween(w, acts) <==> UndisturbedFrom(After(w, acts).tally.queued, |w.tally.queued|)
    decreases |acts|
  {
    if acts != [] {
      var v := Apply(w, acts[0]);
      StoresGrow(w, acts[0]);
      StoresOfRun(v, acts[1..]);
      if acts[0].Produce? && w.producers[acts[0].cpu].CountStoring? {
        OneStoreMore(After(w, acts).tally.queued, w.tally.queued, w.tally.marks[acts[0].cpu]);
      }
    }
  }

  /** Once every put has stored its count, and with fewer than 2^64 puts, the balance is exact if and only
      if no store of another CPU fell between a load and its store. */
  lemma ExactIffUndisturbed(a: Area, acts: seq<Action>)
    requires RunOf(a, acts) && BeforeStore(Reached(a, acts).producers) == 0
    requires |Reached(a, acts).tally.queued| < U64_MOD
    ensures Exact(Reached(a, acts), a.counts) <==> NoStoreBetween(Start(a), acts)
  {
    ExactIff(a, acts);
    StoresFromStart(a, acts);
    FewOverwritten(Reached(a, acts).tally.queued);
  }

  lemma StoresFromStart(a: Area, acts: seq<Action>)
    requires RunOf(a, acts)
    ensures NoStoreBetween(Start(a), acts) <==> UndisturbedFrom(Reached(a, acts).tally.queued, 0)
  {
    StoresOfRun(Start(a), acts);
  }

  // ----- A count is lost

  /** What a put on CPU `c` may have changed by the time it stores the counter. */
  ghost predicate OnTheWay(w: World, v: World, c: nat)
    requires Shaped(w) && Shaped(v) && c < |w.logs| == |v.logs|
  {
    && v.area.counts == w.area.counts && v.tally.queued == w.tally.queued
    && v.mover == w.mover && v.recycler == w.recycler
    && forall d :: 0 <= d < |w.logs| && d != c ==>
         && v.producers[d] == w.producers[d] && v.logs[d] == w.logs[d] && v.area.cpus[d] == w.area.cpus[d]
         && v.tally.marks[d] == w.tally.marks[d]
  }

  predicate Storing(p: Producer) { p.Checking? || p.Filling? || p.Marking? || p.Queueing? || p.CountLoading? }

  ghost predicate MayStep(w: World, c: nat)
    requires Shaped(w)
  {
    && c < |w.producers| && DefenseIdle(w, c)
    && (Storing(w.producers[c]) || (w.producers[c].Fetching? && w.area.cpus[c].idle != []))
  }

  lemma OnTheWayOn(w: World, c: nat)
    requires Shaped(w) && MayStep(w, c)
    ensures OnTheWay(w, Apply(w, Produce(c)), c)
  {
  }

  lemma NextPc(w: World, c: nat)
    requires Shaped(w) && MayStep(w, c)
    ensures var p, p' := w.producers[c], Apply(w, Produce(c)).producers[c];
      && (if p.CountLoading? then p' == CountStoring(w.area.counts.queued) else Storing(p'))
      && (p.Queueing? <==> p'.CountLoading?)
      && (p.Fetching? || p'.Rank() < p.Rank())
  {
  }

  lemma NextLog(w: World, c: nat)
    requires Shaped(w) && MayStep(w, c)
    ensures var v := Apply(w, Produce(c));
      && |v.logs[c].accepted| == |w.logs[c].accepted| + (if w.producers[c].Queueing? then 1 else 0)
      && (w.producers[c].CountLoading? ==> v.tally.marks[c] == |w.tally.queued|)
  {
  }

  lemma OneStep(w: World, c: nat)
    requires Safe(w) && c < |w.producers|
    requires Storing(w.producers[c]) || (w.producers[c].Fetching? && w.area.cpus[c].idle != [])
    ensures MayStep(w, c) && Safe(Apply(w, Produce(c)))
  {
    StepIsSafe(w, Produce(c));
    assert LocalAt(w, c);
    CpuDefenseIdle(w, c);
  }

  lemma OnTheWayTwice(w: World, v: World, u: World, c: nat)
    requires Shaped(w) && Shaped(v) && Shaped(u) && c < |w.logs| == |v.logs| == |u.logs|
    requires OnTheWay(w, v, c) && OnTheWay(v, u, c)
    ensures OnTheWay(w, u, c)
  {
  }

  /** A put runs up to the store of the counter. */
  lemma {:induction false} UpToTheStore(w: World, c: nat) returns (acts: seq<Action>)
    requires Safe(w) && c < |w.producers| && Storing(w.producers[c])
    ensures Run(w, acts)
    ensures var v := After(w, acts);
      && Safe(v) && |v.logs| == |w.logs| && OnTheWay(w, v, c)
      && v.producers[c] == CountStoring(w.area.counts.queued) && v.tally.marks[c] == |w.tally.queued|
      && |v.logs[c].accepted| == |w.logs[c].accepted| + (if w.producers[c].CountLoading? then 0 else 1)
    decreases w.producers[c].Rank()
  {
    var v := Apply(w, Produce(c));
    OneStep(w, c);
    OnTheWayOn(w, c);
    NextPc(w, c);
    NextLog(w, c);
    var rest := [];
    if !w.producers[c].CountLoading? {
      rest := UpToTheStore(v, c);
      OnTheWayTwice(w, v, After(v, rest), c);
    }
    acts := [Produce(c)] + rest;
    Prepended(w, Produce(c), rest);
  }

  lemma Offered(w: World, c: nat, pkt: KeyInfo)
    requires Safe(w) && c < |w.producers| && w.producers[c].Resting?
    ensures var v := Apply(w, Offer(c, pkt));
      && Safe(v) && OnTheWay(w, v, c) && v.producers[c] == Fetching(pkt) && v.area == w.area
      && v.logs[c].accepted == w.logs[c].accepted
  {
    StepIsSafe(w, Offer(c, pkt));
  }

  /** A packet arrives and its put runs up to the store of the counter. */
  lemma OfferedToTheStore(w: World, c: nat, pkt: KeyInfo) returns (acts: seq<Action>)
    requires Safe(w) && c < |w.producers| && w.producers[c].Resting? && w.area.cpus[c].idle != []
    ensures Run(w, acts)
    ensures var v := After(w, acts);
      && Safe(v) && |v.logs| == |w.logs| && OnTheWay(w, v, c)
      && v.producers[c] == CountStoring(w.area.counts.queued) && v.tally.marks[c] == |w.tally.queued|
      && |v.logs[c].accepted| == |w.logs[c].accepted| + 1
  {
    var v := Apply(w, Offer(c, pkt));
    Offered(w, c, pkt);
    var rest := FetchedToTheStore(v, c);
    OnTheWayTwice(w, v, After(v, rest), c);
    Prepended(w, Offer(c, pkt), rest);
    acts := [Offer(c, pkt)] + rest;
  }

  lemma FetchedToTheStore(w: World, c: nat) returns (acts: seq<Action>)
    requires Safe(w) && c < |w.producers| && w.producers[c].Fetching? && w.area.cpus[c].idle != []
    ensures Run(w, acts)
    ensures var v := After(w, acts);
      && Safe(v) && |v.logs| == |w.logs| && OnTheWay(w, v, c)
      && v.producers[c] == CountStoring(w.area.counts.queued) && v.tally.marks[c] == |w.tally.queued|
      && |v.logs[c].accepted| == |w.logs[c].accepted| + 1
  {
    var v := Apply(w, Produce(c));
    OneStep(w, c);
    OnTheWayOn(w, c);
    NextPc(w, c);
    NextLog(w, c);
    var rest := UpToTheStore(v, c);
    OnTheWayTwice(w, v, After(v, rest), c);
    Prepended(w, Produce(c), rest);
    acts := [Produce(c)] + rest;
  }

  lemma StoreNext(w: World, c: nat, q: nat)
    requires Shaped(w) && c < |w.producers| && w.producers[c] == CountStoring(q)
    ensures var v := Apply(w, Produce(c));
      && v.area.counts.queued == (q + 1) % U64_MOD && v.tally.marks == w.tally.marks
      && v.tally.queued == w.tally.queued + [w.tally.marks[c]] && v.producers == w.producers[c := Alarming]
      && |v.logs| == |w.logs| && forall d :: 0 <= d < |w.logs| ==> v.logs[d].accepted == w.logs[d].accepted
  {
  }

  /** Both CPUs store, one after the other, what they loaded before. */
  lemma BothStore(w: World, q: nat) returns (acts: seq<Action>)
    requires Shaped(w) && |w.logs| >= 2 && w.tally.queued == [] && w.tally.marks[0] == w.tally.marks[1] == 0
    requires w.producers[0] == w.producers[1] == CountStoring(q)
    ensures Run(w, acts)
    ensures var v := After(w, acts);
      && v.area.counts.queued == (q + 1) % U64_MOD && v.tally.queued == [0, 0]
      && |v.logs| == |w.logs| && v.logs[0].accepted == w.logs[0].accepted && v.logs[1].accepted == w.logs[1].accepted
      && v.producers == w.producers[0 := Alarming][1 := Alarming]
  {
    var w1 := Apply(w, Produce(0));
    var w2 := Apply(w1, Produce(1));
    StoreNext(w, 0, q);
    StoreNext(w1, 1, q);
    Prepended(w1, Produce(1), []);
    Prepended(w, Produce(0), [Produce(1)] + []);
    acts := [Produce(0)] + ([Produce(1)] + []);
  }

  /** Both puts up to their stores. */
  lemma BothLoad(w: World, pkt0: KeyInfo, pkt1: KeyInfo) returns (acts: seq<Action>)
    requires Safe(w) && |w.logs| >= 2 && w.producers[0].Resting? && w.producers[1].Resting?
    requires w.area.cpus[0].idle != [] && w.area.cpus[1].idle != []
    ensures Run(w, acts)
    ensures var v := After(w, acts);
      && Safe(v) && |v.logs| == |w.logs| && v.tally.queued == w.tally.queued && v.area.counts == w.area.counts
      && v.tally.marks[0] == v.tally.marks[1] == |w.tally.queued|
      && v.producers[0] == v.producers[1] == CountStoring(w.area.counts.queued)
      && (forall d :: 2 <= d < |w.logs| ==> v.producers[d] == w.producers[d])
      && |v.logs[0].accepted| == |w.logs[0].accepted| + 1 && |v.logs[1].accepted| == |w.logs[1].accepted| + 1
  {
    var acts0 := OfferedToTheStore(w, 0, pkt0);
    var v := After(w, acts0);
    var acts1 := OfferedToTheStore(v, 1, pkt1);
    RunsJoin(w, acts0, acts1);
    acts := acts0 + acts1;
  }

  ghost predicate OneLost(w: World, base: Counts)
    requires Shaped(w)
  {
    && |w.logs| >= 2 && |w.logs[0].accepted| == |w.logs[1].accepted| == 1
    && BeforeStore(w.producers) == 0 && w.tally.queued == [0, 0]
    && w.area.counts.queued == (base.queued + 1) % U64_MOD
  }

  lemma StoresThatLose(v: World, base: Counts) returns (acts: seq<Action>)
    requires Safe(v) && |v.logs| >= 2 && v.tally.queued == [] && v.tally.marks[0] == v.tally.marks[1] == 0
    requires v.producers[0] == v.producers[1] == CountStoring(base.queued)
    requires forall d :: 2 <= d < |v.producers| ==> v.producers[d].Resting?
    requires |v.logs[0].accepted| == |v.logs[1].accepted| == 1
    ensures Run(v, acts) && OneLost(After(v, acts), base)
  {
    acts := BothStore(v, base.queued);
    BothStored(v.producers);
  }

  lemma RunThatLoses(w: World, pkt0: KeyInfo, pkt1: KeyInfo) returns (acts: seq<Action>)
    requires Safe(w) && |w.logs| >= 2 && w.tally.queued == []
    requires forall d :: 0 <= d < |w.logs| ==> w.producers[d].Resting? && w.logs[d].accepted == []
    requires w.area.cpus[0].idle != [] && w.area.cpus[1].idle != []
    ensures Run(w, acts) && OneLost(After(w, acts), w.area.counts)
  {
    var acts0 := BothLoad(w, pkt0, pkt1);
    var acts1 := StoresThatLose(After(w, acts0), w.area.counts);
    RunsJoin(w, acts0, acts1);
    acts := acts0 + acts1;
  }

  lemma BothStored(producers: seq<Producer>)
    requires |producers| >= 2 && forall d :: 2 <= d < |producers| ==> producers[d].Resting?
    ensures BeforeStore(producers[0 := Alarming][1 := Alarming]) == 0
  {
    AllStored(producers[0 := Alarming][1 := Alarming]);
  }

  lemma StartRests(a: Area)
    requires Created(a)
    ensures var w := Start(a);
      && Safe(w) && |w.logs| == |a.cpus| && w.tally.queued == [] && w.area == a
      && forall d :: 0 <= d < |w.logs| ==>
           w.producers[d].Resting? && w.logs[d].accepted == [] && w.area.cpus[d].idle != []
  {
    StartIsSafe(a);
  }

  lemma OneUnseen(w: World, base: Counts)
    requires Shaped(w) && OneLost(w, base)
    ensures Sound(w.tally.queued) && Unseen(w) == 1
  {
    SecondOverwritesFirst();
  }

  /** Two packets accepted on two CPUs, and one counted: each CPU loads the counter before the other stores
      it. From any creation, for any two packets. */
  lemma LosesOne(a: Area, pkt0: KeyInfo, pkt1: KeyInfo) returns (acts: seq<Action>)
    requires Created(a) && |a.cpus| >= 2
    ensures RunOf(a, acts)
    ensures OneLost(Reached(a, acts), a.counts) && !Exact(Reached(a, acts), a.counts)
  {
    StartRests(a);
    acts := RunThatLoses(Start(a), pkt0, pkt1);
    OneUnseen(Reached(a, acts), a.counts);
    ExactIff(a, acts);
  }
}
