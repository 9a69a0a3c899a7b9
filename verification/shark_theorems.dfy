/**
 What the counters of the ipshark queue say over every run, what they lose, and that whole calls are runs.
 */
module SharkTheorems {
  import opened Packets
  import opened SharedCounter
  import opened SharkQueue
  import opened SharkWorld
  import opened Words

  /** Puts that took their packet, dropped it, or have not asked the FIFO, and have stored no counter yet. */
  function BeforeStore(putters: seq<Putter>): nat {
    if putters == [] then 0 else Late(putters[0]) + BeforeStore(putters[1..])
  }

  function BeforeDrop(putters: seq<Putter>): nat {
    if putters == [] then 0 else LateDrop(putters[0]) + BeforeDrop(putters[1..])
  }

  function BeforePut(putters: seq<Putter>): nat {
    if putters == [] then 0 else PendingPut(putters[0]) + BeforePut(putters[1..])
  }

  lemma {:induction false} SumsAgree(fifos: seq<Fifo>, putters: seq<Putter>, logs: seq<Log>)
    requires |fifos| == |putters| == |logs|
    requires forall c :: 0 <= c < |logs| ==> CpuFits(fifos[c], putters[c], logs[c])
    ensures Total(CountedOf, logs) + BeforeStore(putters) == Total(GotOf, logs) + |Flat(fifos)|
    ensures Total(MissedOf, logs) + BeforeDrop(putters) == Total(DroppedOf, logs)
    ensures Total(TriedOf, logs) == Total(GotOf, logs) + |Flat(fifos)| + Total(DroppedOf, logs) + BeforePut(putters)
  {
    if logs != [] {
      assert CpuFits(fifos[0], putters[0], logs[0]);
      forall c | 0 <= c < |logs[1..]| ensures CpuFits(fifos[1..][c], putters[1..][c], logs[1..][c]) {
        assert CpuFits(fifos[c + 1], putters[c + 1], logs[c + 1]);
      }
      SumsAgree(fifos[1..], putters[1..], logs[1..]);
    }
  }

  lemma ReachedInv(ncpu: nat, acts: seq<Action>)
    requires Run(Start(ncpu), acts)
    ensures Inv(Reached(ncpu, acts))
  {
    StartInv(ncpu);
    RunInv(Start(ncpu), acts);
  }

  lemma ShownPuts(w: World)
    requires Shaped(w) && Counted(w)
    ensures Sound(w.tally.puts) && Sound(w.tally.drops)
    ensures w.q.putPkts == (Total(CountedOf, w.logs) - |Overwritten(w.tally.puts)|) % U64_MOD
    ensures w.q.unQueued == (Total(MissedOf, w.logs) - |Overwritten(w.tally.drops)|) % U64_MOD
    ensures w.q.getPkts == (Total(GotOf, w.logs) - Uncounted(w.getter)) % U64_MOD
  {
    ShowsTrueLessOverwritten(w.q.putPkts, 0, U64_MOD, w.tally.puts);
    ShowsTrueLessOverwritten(w.q.unQueued, 0, U64_MOD, w.tally.drops);
  }

  /** Packets put less packets got, as the counters give it. */
  ghost predicate PutLessGot(w: World)
    requires Sound(w.tally.puts)
  {
    (w.q.putPkts - w.q.getPkts) % 0x1_0000_0000_0000_0000
    == (|Flat(w.q.fifos)| + Uncounted(w.getter) - BeforeStore(w.putters) - |Overwritten(w.tally.puts)|) % 0x1_0000_0000_0000_0000
  }

  lemma Moved(puts: nat, gets: nat, stores: nat, lost: nat, got: nat, out: nat, late: nat, waits: nat)
    requires puts == (stores - lost) % U64_MOD && gets == (got - out) % U64_MOD && stores + late == got + waits
    ensures (puts - gets) % U64_MOD == (waits + out - late - lost) % U64_MOD
  {
    Apart64(stores - lost, got - out);
  }

  lemma PutLessGotOf(w: World)
    requires Shaped(w) && AllFit(w) && Counted(w)
    ensures Sound(w.tally.puts) && PutLessGot(w)
  {
    SumsAgree(w.q.fifos, w.putters, w.logs);
    ShownPuts(w);
    Moved(w.q.putPkts, w.q.getPkts, Total(CountedOf, w.logs), |Overwritten(w.tally.puts)|, Total(GotOf, w.logs),
          Uncounted(w.getter), BeforeStore(w.putters), |Flat(w.q.fifos)|);
  }

  /** Over every run, `put_pkts - get_pkts` is what waits on all CPUs, and what a get under way has copied, less
      the stores not made yet and the stores overwritten. */
  lemma PutLessGotWaits(ncpu: nat, acts: seq<Action>)
    requires Run(Start(ncpu), acts)
    ensures Sound(Reached(ncpu, acts).tally.puts) && PutLessGot(Reached(ncpu, acts))
  {
    ReachedInv(ncpu, acts);
    PutLessGotOf(Reached(ncpu, acts));
  }

  ghost predicate TriesShow(w: World)
    requires Sound(w.tally.puts) && Sound(w.tally.drops)
  {
    (w.q.putPkts + w.q.unQueued) % 0x1_0000_0000_0000_0000
    == (Total(TriedOf, w.logs) - BeforePut(w.putters) - BeforeStore(w.putters) - BeforeDrop(w.putters)
        - |Overwritten(w.tally.puts)| - |Overwritten(w.tally.drops)|) % 0x1_0000_0000_0000_0000
  }

  lemma Summed(x: nat, y: nat, a: int, b: int)
    requires x == a % U64_MOD && y == b % U64_MOD
    ensures (x + y) % U64_MOD == (a + b) % U64_MOD
  {
    WrappedIn(a, y, U64_MOD);
    WrappedIn(b, a, U64_MOD);
  }

  lemma TriesShowOf(w: World)
    requires Shaped(w) && AllFit(w) && Counted(w)
    ensures Sound(w.tally.puts) && Sound(w.tally.drops) && TriesShow(w)
  {
    SumsAgree(w.q.fifos, w.putters, w.logs);
    ShownPuts(w);
    Summed(w.q.putPkts, w.q.unQueued, Total(CountedOf, w.logs) - |Overwritten(w.tally.puts)|,
           Total(MissedOf, w.logs) - |Overwritten(w.tally.drops)|);
  }

  /** Over every run, `put_pkts` and `un_queued_pkts` together are the packets tried, less what is under way
      and the stores overwritten. */
  lemma TriesAreCounted(ncpu: nat, acts: seq<Action>)
    requires Run(Start(ncpu), acts)
    ensures var w := Reached(ncpu, acts); Sound(w.tally.puts) && Sound(w.tally.drops) && TriesShow(w)
  {
    ReachedInv(ncpu, acts);
    TriesShowOf(Reached(ncpu, acts));
  }

  /** A packet is taken if fewer than 16384 wait on its CPU and dropped if 16384 do; no other step takes or drops
      one. */
  ghost predicate TakesOrDrops(w: World, act: Action, c: nat, g: Log, g': Log)
    requires Shaped(w) && c < |w.logs|
  {
    if act == Put(c) && w.putters[c].Putting? then
      if |w.q.fifos[c].items| < 16384 then
        g'.accepted == g.accepted + [w.putters[c].info] && g'.dropped == g.dropped
      else
        |w.q.fifos[c].items| == 16384 && g'.accepted == g.accepted && g'.dropped == g.dropped + 1
    else g'.accepted == g.accepted && g'.dropped == g.dropped
  }

  lemma PutTakesOrDrops(w: World, d: nat, c: nat)
    requires Shaped(w) && Enabled(w, Put(d)) && c < |w.logs| && |w.q.fifos[c].items| <= 16384
    ensures TakesOrDrops(w, Put(d), c, w.logs[c], Apply(w, Put(d)).logs[c])
  {
  }

  lemma GetTakesNone(w: World, c: nat)
    requires Shaped(w) && Enabled(w, Get) && c < |w.logs|
    ensures TakesOrDrops(w, Get, c, w.logs[c], Apply(w, Get).logs[c])
  {
  }

  /** In every reachable state and for every step. */
  lemma DropsOnlyWhenFull(ncpu: nat, acts: seq<Action>, act: Action, c: nat)
    requires Run(Start(ncpu), acts) && Enabled(Reached(ncpu, acts), act) && c < ncpu
    ensures var w := Reached(ncpu, acts); TakesOrDrops(w, act, c, w.logs[c], Apply(w, act).logs[c])
  {
    ReachedInv(ncpu, acts);
    StepTakesOrDrops(Reached(ncpu, acts), act, c);
  }

  lemma StepTakesOrDrops(w: World, act: Action, c: nat)
    requires Shaped(w) && AllFit(w) && Enabled(w, act) && c < |w.logs|
    ensures TakesOrDrops(w, act, c, w.logs[c], Apply(w, act).logs[c])
  {
    assert CpuFits(w.q.fifos[c], w.putters[c], w.logs[c]);
    match act
    case Put(d) => PutTakesOrDrops(w, d, c);
    case Get => GetTakesNone(w, c);
    case _ =>
  }

  // ----- When nothing is overwritten

  ghost predicate StoresPuts(w: World, act: Action) {
    act.Put? && act.cpu < |w.putters| && w.putters[act.cpu].Storing? && w.putters[act.cpu].taken
  }

  /** Whenever a CPU stores `put_pkts` there have been as many stores as when it loaded it. */
  ghost predicate NoStoreBetween(w: World, acts: seq<Action>)
    requires Shaped(w) && Run(w, acts)
    decreases |acts|
  {
    acts != [] ==>
      && (StoresPuts(w, acts[0]) ==> w.tally.marks[acts[0].cpu] == |w.tally.puts|)
      && NoStoreBetween(Apply(w, acts[0]), acts[1..])
  }

  lemma StoresGrow(w: World, act: Action)
    requires Shaped(w) && Enabled(w, act)
    ensures Apply(w, act).tally.puts
         == if StoresPuts(w, act) then w.tally.puts + [w.tally.marks[act.cpu]] else w.tally.puts
  {
  }

  lemma {:induction false} StoresOfRun(w: World, acts: seq<Action>)
    requires Shaped(w) && Run(w, acts)
    ensures w.tally.puts <= After(w, acts).tally.puts
    ensures NoStoreBetween(w, acts) <==> UndisturbedFrom(After(w, acts).tally.puts, |w.tally.puts|)
    decreases |acts|
  {
    if acts != [] {
      var v := Apply(w, acts[0]);
      StoresGrow(w, acts[0]);
      StoresOfRun(v, acts[1..]);
      if StoresPuts(w, acts[0]) {
        OneStoreMore(After(w, acts).tally.puts, w.tally.puts, w.tally.marks[acts[0].cpu]);
      }
    }
  }

  ghost predicate AtRest(w: World) {
    w.getter.Away? && forall c :: 0 <= c < |w.putters| ==> Late(w.putters[c]) == 0
  }

  lemma {:induction false} NoneLate(putters: seq<Putter>)
    requires forall c :: 0 <= c < |putters| ==> Late(putters[c]) == 0
    ensures BeforeStore(putters) == 0
  {
    if putters != [] {
      NoneLate(putters[1..]);
    }
  }

  ghost predicate Exact(w: World) {
    (w.q.putPkts - w.q.getPkts) % 0x1_0000_0000_0000_0000 == |Flat(w.q.fifos)| % 0x1_0000_0000_0000_0000
  }

  /** With no call counting and fewer than 2^64 puts, `put_pkts - get_pkts` is exactly what waits if and only if
      no store of another CPU fell between a load and its store. */
  lemma ExactIffUndisturbed(ncpu: nat, acts: seq<Action>)
    requires Run(Start(ncpu), acts) && AtRest(Reached(ncpu, acts))
    requires |Reached(ncpu, acts).tally.puts| < U64_MOD
    ensures Exact(Reached(ncpu, acts)) <==> NoStoreBetween(Start(ncpu), acts)
  {
    PutLessGotWaits(ncpu, acts);
    ExactIffNoneLost(Reached(ncpu, acts));
    StoresOfRun(Start(ncpu), acts);
    FewOverwritten(Reached(ncpu, acts).tally.puts);
  }

  lemma ExactIffNoneLost(w: World)
    requires Sound(w.tally.puts) && PutLessGot(w) && AtRest(w)
    ensures Exact(w) <==> |Overwritten(w.tally.puts)| % U64_MOD == 0
  {
    NoneLate(w.putters);
    SameIffMultiple(|Flat(w.q.fifos)|, |Overwritten(w.tally.puts)|);
  }

  // ----- A count is lost

  lemma Prepended(w: World, act: Action, rest: seq<Action>)
    requires Shaped(w) && Enabled(w, act) && Run(Apply(w, act), rest)
    ensures Run(w, [act] + rest) && After(w, [act] + rest) == After(Apply(w, act), rest)
  {
    assert ([act] + rest)[1..] == rest;
  }

  /** Both CPUs have loaded `put_pkts` and not stored it; nobody else has done anything. */
  ghost predicate BothLoaded(w: World, info0: KeyInfo, info1: KeyInfo)
    requires Shaped(w)
  {
    && |w.putters| >= 2 && w.putters[0] == w.putters[1] == Storing(true, 0)
    && (forall c :: 2 <= c < |w.putters| ==> w.putters[c].Resting?)
    && w.getter.Away? && w.q.getPkts == 0
    && w.tally.puts == [] && w.tally.marks[0] == w.tally.marks[1] == 0
    && w.q.fifos[0].items == [info0] && w.q.fifos[1].items == [info1]
  }

  /** Two packets wait, no call is counting, and the counters show one. */
  ghost predicate OneLost(w: World, info0: KeyInfo, info1: KeyInfo)
    requires Shaped(w)
  {
    && |w.putters| >= 2 && AtRest(w) && w.tally.puts == [0, 0]
    && w.q.fifos[0].items == [info0] && w.q.fifos[1].items == [info1]
    && w.q.putPkts == 1 && w.q.getPkts == 0
  }

  /** A put up to the store of the counter. */
  lemma PutToTheStore(w: World, c: nat, info: KeyInfo) returns (acts: seq<Action>)
    requires Shaped(w) && c < |w.putters| && w.putters[c].Resting? && w.q.fifos[c].items == []
    ensures Run(w, acts)
    ensures var v := After(w, acts);
      && v.q == w.q.(fifos := w.q.fifos[c := Fifo([info], w.q.fifos[c].alarm)])
      && v.putters == w.putters[c := Storing(true, w.q.putPkts)] && v.getter == w.getter
      && v.tally == w.tally.(marks := w.tally.marks[c := |w.tally.puts|])
  {
    var w1 := Apply(w, Offer(c, info));
    var w2 := Apply(w1, Put(c));
    assert w2.putters[c] == Loading(true);
    assert [] + [info] == [info];
    Prepended(w2, Put(c), []);
    Prepended(w1, Put(c), [Put(c)] + []);
    acts := [Put(c)] + ([Put(c)] + []);
    Prepended(w, Offer(c, info), acts);
    acts := [Offer(c, info)] + acts;
  }

  lemma BothLoad(ncpu: nat, info0: KeyInfo, info1: KeyInfo) returns (acts: seq<Action>)
    requires ncpu >= 2
    ensures Run(Start(ncpu), acts) && BothLoaded(Reached(ncpu, acts), info0, info1)
  {
    var acts0 := PutToTheStore(Start(ncpu), 0, info0);
    var v := Reached(ncpu, acts0);
    var acts1 := PutToTheStore(v, 1, info1);
    Joins(Start(ncpu), acts0, acts1);
    acts := acts0 + acts1;
  }

  lemma BothStore(w: World, info0: KeyInfo, info1: KeyInfo) returns (acts: seq<Action>)
    requires Shaped(w) && BothLoaded(w, info0, info1)
    ensures Run(w, acts) && OneLost(After(w, acts), info0, info1)
  {
    var v := Apply(w, Put(0));
    StoresGrow(w, Put(0));
    StoresGrow(v, Put(1));
    Prepended(v, Put(1), []);
    Prepended(w, Put(0), [Put(1)] + []);
    acts := [Put(0)] + ([Put(1)] + []);
  }

  lemma LostIsInexact(w: World, info0: KeyInfo, info1: KeyInfo)
    requires Shaped(w) && Inv(w) && OneLost(w, info0, info1)
    ensures !Exact(w)
  {
    PutLessGotOf(w);
    NoneLate(w.putters);
    SecondOverwritesFirst();
    SameIffMultiple(|Flat(w.q.fifos)|, 1);
  }

  /** Two CPUs put one packet each; each loads the counter before the other stores it. Two packets wait and
      `put_pkts - get_pkts` is 1. */
  lemma LosesOne(ncpu: nat, info0: KeyInfo, info1: KeyInfo) returns (acts: seq<Action>)
    requires ncpu >= 2
    ensures Run(Start(ncpu), acts)
    ensures var w := Reached(ncpu, acts); OneLost(w, info0, info1) && !Exact(w)
  {
    var acts0 := BothLoad(ncpu, info0, info1);
    var acts1 := BothStore(Reached(ncpu, acts0), info0, info1);
    Joins(Start(ncpu), acts0, acts1);
    acts := acts0 + acts1;
    ReachedInv(ncpu, acts);
    LostIsInexact(Reached(ncpu, acts), info0, info1);
  }

  // ----- Whole calls are runs

  /** An uninterrupted put does what `PutTo` says. */
  lemma PutIsARun(w: World, c: nat, info: KeyInfo) returns (acts: seq<Action>)
    requires Shaped(w) && c < |w.putters| && w.putters[c].Resting?
    ensures Run(w, acts)
    ensures After(w, acts).q == PutTo(w.q, c, info).0 && After(w, acts).putters == w.putters
  {
    var w1 := Apply(w, Offer(c, info));
    var w2 := Apply(w1, Put(c));
    var w3 := Apply(w2, Put(c));
    var w4 := Apply(w3, Put(c));
    var w5 := Apply(w4, Put(c));
    Prepended(w4, Put(c), []);
    Prepended(w3, Put(c), [Put(c)] + []);
    Prepended(w2, Put(c), [Put(c)] + ([Put(c)] + []));
    acts := [Put(c)] + ([Put(c)] + ([Put(c)] + []));
    Prepended(w1, Put(c), acts);
    acts := [Put(c)] + acts;
    Prepended(w, Offer(c, info), acts);
    acts := [Offer(c, info)] + acts;
    var f := w.q.fifos[c];
    assert w5.q.fifos == w.q.fifos[c := w5.q.fifos[c]];
    assert w5.putters == w.putters;
  }

  /** The scan from CPU `cpu` on, uninterrupted. */
  lemma {:induction false} ScanIsARun(w: World) returns (acts: seq<Action>)
    requires Shaped(w) && w.getter.Scanning?
    ensures Run(w, acts)
    ensures var v := After(w, acts); var e := Ends(w.q.fifos, w.getter.out, w.getter.cpu, w.getter.left);
      && v.getter == Ending(e.1) && v.q == w.q.(fifos := e.0)
    decreases |w.q.fifos| - w.getter.cpu
  {
    var v, k := Apply(w, Get), w.getter;
    if k.cpu == |w.q.fifos| {
      EndsAtEnd(w.q.fifos, k.out, k.left);
      acts := [Get] + [];
      Prepended(w, Get, []);
    } else {
      ScanOn(w.q, k);
      var rest := ScanIsARun(v);
      acts := [Get] + rest;
      Prepended(w, Get, rest);
    }
  }

  lemma ScanOn(q: Queues, k: Getter)
    requires k.Scanning? && k.cpu < |q.fifos|
    ensures var r := GetAct(q, k);
      && r.1.Scanning? && r.1.cpu > k.cpu && r.0 == q.(fifos := r.0.fifos)
      && Ends(r.0.fifos, r.1.out, r.1.cpu, r.1.left) == Ends(q.fifos, k.out, k.cpu, k.left)
  {
    var r, items := GetAct(q, k), q.fifos[k.cpu].items;
    if items == [] {
      EndsPastEmpty(q.fifos, k.out, k.cpu, k.left);
    } else {
      var m := Min(k.left, |items|);
      EndsOn(q.fifos, k.out, k.cpu, k.left, r.0.fifos, r.1.out, m);
      if k.left - m == 0 {
        EndsWhenFull(r.0.fifos, r.1.out, k.cpu + 1);
        EndsWhenFull(r.0.fifos, r.1.out, |q.fifos|);
      }
    }
  }

  /** An uninterrupted get does what `GetFrom` says, and returns what it says. */
  lemma GetIsARun(w: World, n: nat) returns (acts: seq<Action>)
    requires Shaped(w) && w.getter.Away?
    ensures Run(w, acts)
    ensures var v := After(w, acts); v.getter.Away? && (v.q, v.returned) == GetFrom(w.q, n)
  {
    var w1 := Apply(w, Ask(n));
    var rest := ScanIsARun(w1);
    var v := After(w1, rest);
    EndsAtStart(w.q.fifos, n);
    var last := [Get] + [];
    Prepended(v, Get, []);
    Joins(w1, rest, last);
    Prepended(w, Ask(n), rest + last);
    acts := [Ask(n)] + (rest + last);
  }

  lemma {:induction false} Joins(w: World, acts: seq<Action>, more: seq<Action>)
    requires Shaped(w) && Run(w, acts) && Run(After(w, acts), more)
    ensures Run(w, acts + more) && After(w, acts + more) == After(After(w, acts), more)
    decreases |acts|
  {
    if acts == [] {
      assert acts + more == more;
    } else {
      Joins(Apply(w, acts[0]), acts[1..], more);
      Prepended(w, acts[0], acts[1..] + more);
      assert acts + more == [acts[0]] + (acts[1..] + more);
    }
  }
}
