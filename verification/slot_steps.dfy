/**
 Every step of `ip_queue_put` keeps the invariant of its CPU. Each transition is proved for
 the partition, the slot states and the logs apart, then put together.
 */
module SlotSteps {
  import opened Packets
  import opened SlotArea
  import opened SlotWorld
  import opened SlotInvariant

  lemma PutsAppend(log: seq<(nat, KeyInfo)>, e: (nat, KeyInfo), i: int)
    ensures Puts(log + [e], i) == Puts(log, i) + if e.0 == i then 1 else 0
  {
    assert (log + [e])[..|log|] == log;
  }

  lemma TagFrame(s: seq<nat>, slots: seq<Slot>, slots': seq<Slot>)
    requires Below(s, |slots|) && |slots'| == |slots|
    requires forall i :: 0 <= i < |s| ==> slots'[s[i]].info == slots[s[i]].info
    ensures Tag(s, slots') == Tag(s, slots)
  {
  }

  // ----- A slot outside the range changes

  lemma StatesFrame(q: CpuQueue, p: Producer, g: Log, ret: set<int>, slots: seq<Slot>, slots': seq<Slot>)
    requires Fits(q, p, slots) && Placed(q, p, g, ret) && States(q, p, g, ret, slots)
    requires |slots'| == |slots| && forall i :: q.start <= i < q.end ==> slots'[i] == slots[i]
    ensures States(q, p, g, ret, slots')
  {
  }

  lemma LoggedFrame(q: CpuQueue, p: Producer, g: Log, ret: set<int>, slots: seq<Slot>, slots': seq<Slot>)
    requires Fits(q, p, slots) && Within(q.ready, q) && Logged(q, p, g, ret, slots)
    requires |slots'| == |slots| && forall i :: q.start <= i < q.end ==> slots'[i] == slots[i]
    ensures Logged(q, p, g, ret, slots')
  {
    TagFrame(q.ready, slots, slots');
  }

  /** The invariant of a CPU looks at no slot outside the range of that CPU. */
  lemma LocalFrame(q: CpuQueue, p: Producer, g: Log, ret: set<int>, slots: seq<Slot>, slots': seq<Slot>)
    requires Local(q, p, g, ret, slots)
    requires |slots'| == |slots| && forall i :: q.start <= i < q.end ==> slots'[i] == slots[i]
    ensures Local(q, p, g, ret, slots')
  {
    Places(q, p, g, ret);
    StatesFrame(q, p, g, ret, slots, slots');
    LoggedFrame(q, p, g, ret, slots, slots');
  }

  // ----- An index leaves the idle queue

  lemma FetchPartition(q: CpuQueue, pkt: KeyInfo, g: Log, ret: set<int>)
    requires q.start <= q.end && q.idle != []
    requires Partition(q, Fetching(pkt), g, ret)
    ensures Partition(q.(idle := q.idle[1..]), Checking(pkt, q.idle[0]), g, ret)
  {
    assert q.idle == InFlight(Checking(pkt, q.idle[0])) + q.idle[1..];
  }

  lemma FetchStates(q: CpuQueue, pkt: KeyInfo, g: Log, ret: set<int>, slots: seq<Slot>)
    requires Fits(q, Fetching(pkt), slots) && q.idle != [] && States(q, Fetching(pkt), g, ret, slots)
    ensures var q', p' := q.(idle := q.idle[1..]), Checking(pkt, q.idle[0]);
      Fits(q', p', slots) && States(q', p', g, ret, slots)
  {
  }

  lemma FetchLogged(q: CpuQueue, q': CpuQueue, p: Producer, p': Producer, g: Log, ret: set<int>, slots: seq<Slot>)
    requires Fits(q, p, slots) && p.Fetching? && Logged(q, p, g, ret, slots)
    requires Fits(q', p', slots) && p'.Checking? && q' == q.(idle := q'.idle)
    ensures Logged(q', p', g, ret, slots)
  {
    forall i | q.start <= i < q.end
      ensures slots[i].times == (Puts(g.accepted, i) + Marked(p', i)) % TIMES_MOD
    {
      assert Marked(p', i) == Marked(p, i) == 0;
    }
  }

  // ----- The slot is filled, then marked

  function FilledSlots(slots: seq<Slot>, i: nat, pkt: KeyInfo): seq<Slot>
    requires i < |slots|
  {
    slots[i := slots[i].(info := pkt)]
  }

  lemma FillStates(q: CpuQueue, p: Producer, g: Log, ret: set<int>, slots: seq<Slot>)
    requires Fits(q, p, slots) && p.Filling? && Placed(q, p, g, ret) && States(q, p, g, ret, slots)
    ensures States(q, Marking(p.pkt, p.idx), g, ret, FilledSlots(slots, p.idx, p.pkt))
  {
  }

  /** Slots of the range may change where the logs do not look. */
  lemma RefilledLogged(q: CpuQueue, p: Producer, p': Producer, g: Log, ret: set<int>, slots: seq<Slot>,
                       slots': seq<Slot>)
    requires Fits(q, p, slots) && Fits(q, p', slots') && Logged(q, p, g, ret, slots)
    requires p.HasIdx() && p'.HasIdx() && !p.Queueing? && !p'.Queueing? && |slots'| == |slots|
    requires Tag(q.ready, slots') == Tag(q.ready, slots)
    requires forall i :: q.start <= i < q.end ==> slots'[i].times == slots[i].times
    ensures Logged(q, p', g, ret, slots')
  {
    forall i | q.start <= i < q.end
      ensures slots'[i].times == (Puts(g.accepted, i) + Marked(p', i)) % TIMES_MOD
    {
      assert slots'[i].times == slots[i].times && Marked(p', i) == Marked(p, i) == 0;
    }
  }

  lemma FillLogged(q: CpuQueue, p: Producer, g: Log, ret: set<int>, slots: seq<Slot>)
    requires Fits(q, p, slots) && p.Filling? && Placed(q, p, g, ret) && Logged(q, p, g, ret, slots)
    ensures Logged(q, Marking(p.pkt, p.idx), g, ret, FilledSlots(slots, p.idx, p.pkt))
  {
    var slots' := FilledSlots(slots, p.idx, p.pkt);
    forall i | 0 <= i < |q.ready| ensures slots'[q.ready[i]].info == slots[q.ready[i]].info {
      assert q.ready[i] in q.ready && q.ready[i] != p.idx;
    }
    TagFrame(q.ready, slots, slots');
    RefilledLogged(q, p, Marking(p.pkt, p.idx), g, ret, slots, slots');
  }

  function MarkedSlots(slots: seq<Slot>, i: nat): seq<Slot>
    requires i < |slots|
  {
    slots[i := slots[i].(times := (slots[i].times + 1) % TIMES_MOD, state := InUse)]
  }

  lemma MarkStates(q: CpuQueue, p: Producer, g: Log, ret: set<int>, slots: seq<Slot>)
    requires Fits(q, p, slots) && p.Marking? && Placed(q, p, g, ret) && States(q, p, g, ret, slots)
    ensures States(q, Queueing(p.pkt, p.idx), g, ret, MarkedSlots(slots, p.idx))
  {
    assert forall i :: 0 <= i < |q.idle| ==> q.idle[i] in q.idle && q.idle[i] != p.idx;
  }

  lemma OnceMore(t: nat, n: nat)
    requires t == n % TIMES_MOD
    ensures (t + 1) % TIMES_MOD == (n + 1) % TIMES_MOD
  {
  }

  lemma MarkTimes(slots: seq<Slot>, accepted: seq<(nat, KeyInfo)>, p: Producer, i: nat)
    requires p.Marking? && p.idx < |slots| && i < |slots|
    requires slots[i].times == Puts(accepted, i) % TIMES_MOD
    ensures MarkedSlots(slots, p.idx)[i].times
         == (Puts(accepted, i) + Marked(Queueing(p.pkt, p.idx), i)) % TIMES_MOD
  {
    if i == p.idx {
      OnceMore(slots[i].times, Puts(accepted, i));
    }
  }

  lemma MarkLogged(q: CpuQueue, p: Producer, g: Log, ret: set<int>, slots: seq<Slot>)
    requires Fits(q, p, slots) && p.Marking? && Logged(q, p, g, ret, slots)
    ensures Logged(q, Queueing(p.pkt, p.idx), g, ret, MarkedSlots(slots, p.idx))
  {
    var p', slots' := Queueing(p.pkt, p.idx), MarkedSlots(slots, p.idx);
    TagFrame(q.ready, slots, slots');
    forall i | q.start <= i < q.end
      ensures slots'[i].times == (Puts(g.accepted, i) + Marked(p', i)) % TIMES_MOD
    {
      assert slots[i].times == (Puts(g.accepted, i) + Marked(p, i)) % TIMES_MOD && Marked(p, i) == 0;
      MarkTimes(slots, g.accepted, p, i);
    }
  }

  // ----- The index enters the ready queue

  lemma QueuePartition(q: CpuQueue, p: Producer, g: Log, g': Log, ret: set<int>)
    requires q.start <= q.end && p.Queueing? && Partition(q, p, g, ret) && g'.held == g.held
    ensures Partition(q.(ready := q.ready + [p.idx]), CountLoading, g', ret)
  {
    assert InFlight(p) == [p.idx] && InFlight(CountLoading) == [];
  }

  lemma QueueStates(q: CpuQueue, p: Producer, g: Log, g': Log, ret: set<int>, slots: seq<Slot>)
    requires Fits(q, p, slots) && p.Queueing? && States(q, p, g, ret, slots) && g'.held == g.held
    ensures Fits(q.(ready := q.ready + [p.idx]), CountLoading, slots)
    ensures States(q.(ready := q.ready + [p.idx]), CountLoading, g', ret, slots)
  {
  }

  lemma QueueLogged(q: CpuQueue, p: Producer, g: Log, ret: set<int>, slots: seq<Slot>)
    requires Fits(q, p, slots) && p.Queueing? && slots[p.idx].info == p.pkt && Logged(q, p, g, ret, slots)
    requires Fits(q.(ready := q.ready + [p.idx]), CountLoading, slots)
    ensures Logged(q.(ready := q.ready + [p.idx]), CountLoading,
                   g.(accepted := g.accepted + [(p.idx, p.pkt)]), ret, slots)
  {
    var q', g' := q.(ready := q.ready + [p.idx]), g.(accepted := g.accepted + [(p.idx, p.pkt)]);
    assert Tag(q'.ready, slots) == Tag(q.ready, slots) + [(p.idx, p.pkt)];
    forall i | q.start <= i < q.end
      ensures slots[i].times == (Puts(g'.accepted, i) + Marked(CountLoading, i)) % TIMES_MOD
    {
      PutsAppend(g.accepted, (p.idx, p.pkt), i);
    }
  }

  // ----- Any step of a producer

  predicate OnlyRange(slots: seq<Slot>, slots': seq<Slot>, q: CpuQueue) {
    && |slots'| == |slots|
    && forall i :: 0 <= i < |slots| && !(q.start <= i < q.end) ==> slots'[i] == slots[i]
  }

  /** `b` and `p'` come one step after `a` and `p` on CPU `c`: the invariant of the CPU still holds, no
      slot of another CPU is touched, and none of the defensive branches is taken. */
  ghost predicate StepOk(a: Area, c: nat, p: Producer, g: Log, ret: set<int>, b: Area, p': Producer)
    requires c < |a.cpus| == |b.cpus|
  {
    && Local(b.cpus[c], p', LogProduce(g, a.cpus[c], p), ret, b.slots)
    && OnlyRange(a.slots, b.slots, a.cpus[c])
    && (p.Checking? ==> p'.Filling?)
    && (p.Queueing? ==> |a.cpus[c].ready| < a.cpus[c].cap)
  }

  ghost predicate Stepped(a: Area, c: nat, p: Producer, g: Log, ret: set<int>)
    requires Indexed(a) && c < |a.cpus| && ProducerOk(a, p)
  {
    var r := ProducerAct(a, c, p);
    StepOk(a, c, p, g, ret, r.0, r.1)
  }

  /** Neither of two program counters has written to a slot, and they hold the same index if any. */
  predicate SameHold(p: Producer, p': Producer) {
    && InFlight(p') == InFlight(p) && (p'.HasIdx() <==> p.HasIdx()) && (p.HasIdx() ==> p'.idx == p.idx)
    && !p.Marking? && !p.Queueing? && !p'.Marking? && !p'.Queueing?
  }

  lemma QuietStates(q: CpuQueue, q': CpuQueue, p: Producer, p': Producer, g: Log, g': Log, ret: set<int>,
                    slots: seq<Slot>)
    requires Fits(q, p, slots) && States(q, p, g, ret, slots)
    requires q' == q.(alarm := q'.alarm) && SameHold(p, p') && g'.held == g.held
    ensures Fits(q', p', slots) && States(q', p', g', ret, slots)
  {
  }

  /** The logs differ in the counts at most, and each packet counted is where it was. */
  ghost predicate SameCounts(p: Producer, p': Producer, g: Log, g': Log) {
    && g' == g.(dropped := g'.dropped, counted := g'.counted, missed := g'.missed)
    && g.dropped + Pending(p) == g'.dropped + Pending(p')
    && g.counted + Uncounted(p) == g'.counted + Uncounted(p')
    && g.missed + Unmissed(p) - g.dropped == g'.missed + Unmissed(p') - g'.dropped
  }

  lemma NoneMarked(p: Producer, p': Producer)
    requires SameHold(p, p')
    ensures forall i: int :: Marked(p, i) == Marked(p', i) == 0
  {
  }

  lemma SameSums(q: CpuQueue, p: Producer, p': Producer, g: Log, g': Log, ret: set<int>, slots: seq<Slot>)
    requires Fits(q, p, slots) && Logged(q, p, g, ret, slots) && SameCounts(p, p', g, g')
    ensures g'.offered == |g'.accepted| + g'.dropped + Pending(p')
    ensures |g'.delivered| == |g'.held| + |ret| + g'.returned
    ensures |g'.accepted| == g'.counted + Uncounted(p') && g'.dropped == g'.missed + Unmissed(p')
  {
  }

  lemma QuietLogged(q: CpuQueue, q': CpuQueue, p: Producer, p': Producer, g: Log, g': Log, ret: set<int>,
                    slots: seq<Slot>)
    requires Fits(q, p, slots) && Logged(q, p, g, ret, slots) && Fits(q', p', slots)
    requires q' == q.(alarm := q'.alarm) && SameHold(p, p') && SameCounts(p, p', g, g')
    ensures Logged(q', p', g', ret, slots)
  {
    NoneMarked(p, p');
    SameSums(q, p, p', g, g', ret, slots);
  }

  /** Only the program counter, the counts and the alarm move. */
  lemma QuietLocal(q: CpuQueue, q': CpuQueue, p: Producer, p': Producer, g: Log, g': Log, ret: set<int>,
                   slots: seq<Slot>)
    requires Local(q, p, g, ret, slots) && SameHold(p, p') && !p'.ClashLoading? && !p'.ClashStoring?
    requires q' == q.(alarm := q'.alarm) && SameCounts(p, p', g, g')
    ensures Local(q', p', g', ret, slots)
  {
    QuietStates(q, q', p, p', g, g', ret, slots);
    QuietLogged(q, q', p, p', g, g', ret, slots);
  }

  lemma StepFetch(a: Area, c: nat, p: Producer, g: Log, ret: set<int>)
    requires Indexed(a) && c < |a.cpus| && p.Fetching? && Local(a.cpus[c], p, g, ret, a.slots)
    ensures Stepped(a, c, p, g, ret)
  {
    var q, r := a.cpus[c], ProducerAct(a, c, p);
    if q.idle == [] {
      QuietLocal(q, q, p, MissLoading, g, g.(dropped := g.dropped + 1), ret, a.slots);
    } else {
      FetchPartition(q, p.pkt, g, ret);
      FetchStates(q, p.pkt, g, ret, a.slots);
      FetchLogged(q, r.0.cpus[c], p, r.1, g, ret, a.slots);
      assert r.0.cpus[c] == q.(idle := q.idle[1..]) && r.1 == Checking(p.pkt, q.idle[0]);
    }
  }

  /** A step that neither takes, fills nor queues an index. */
  predicate IsQuiet(p: Producer) {
    || p.Resting? || p.Checking? || p.Alarming? || p.CountLoading? || p.CountStoring?
    || p.MissLoading? || p.MissStoring?
  }

  lemma StepQuiet(a: Area, c: nat, p: Producer, g: Log, ret: set<int>)
    requires Indexed(a) && c < |a.cpus| && IsQuiet(p) && Local(a.cpus[c], p, g, ret, a.slots)
    ensures Stepped(a, c, p, g, ret)
  {
    var q, r := a.cpus[c], ProducerAct(a, c, p);
    QuietLocal(q, r.0.cpus[c], p, r.1, g, LogProduce(g, q, p), ret, a.slots);
  }

  lemma StepFill(a: Area, c: nat, p: Producer, g: Log, ret: set<int>, b: Area, p': Producer)
    requires Indexed(a) && c < |a.cpus| && p.Filling? && Local(a.cpus[c], p, g, ret, a.slots)
    requires b == a.(slots := FilledSlots(a.slots, p.idx, p.pkt)) && p' == Marking(p.pkt, p.idx)
    ensures StepOk(a, c, p, g, ret, b, p')
  {
    var q := a.cpus[c];
    Places(q, p, g, ret);
    assert InFlight(p') == InFlight(p);
    FillStates(q, p, g, ret, a.slots);
    FillLogged(q, p, g, ret, a.slots);
  }

  lemma StepMark(a: Area, c: nat, p: Producer, g: Log, ret: set<int>, b: Area, p': Producer)
    requires Indexed(a) && c < |a.cpus| && p.Marking? && Local(a.cpus[c], p, g, ret, a.slots)
    requires b == a.(slots := MarkedSlots(a.slots, p.idx)) && p' == Queueing(p.pkt, p.idx)
    ensures StepOk(a, c, p, g, ret, b, p')
  {
    var q := a.cpus[c];
    Places(q, p, g, ret);
    assert InFlight(p') == InFlight(p);
    MarkStates(q, p, g, ret, a.slots);
    MarkLogged(q, p, g, ret, a.slots);
  }

  lemma StepQueue(a: Area, c: nat, p: Producer, g: Log, ret: set<int>)
    requires Indexed(a) && c < |a.cpus| && p.Queueing? && Local(a.cpus[c], p, g, ret, a.slots)
    ensures Stepped(a, c, p, g, ret)
  {
    var q := a.cpus[c];
    Places(q, p, g, ret);
    var g' := LogProduce(g, q, p);
    QueuePartition(q, p, g, g', ret);
    QueueStates(q, p, g, g', ret, a.slots);
    QueueLogged(q, p, g, ret, a.slots);
  }

  lemma FillActs(a: Area, c: nat, p: Producer)
    requires Indexed(a) && c < |a.cpus| && p.Filling? && p.idx < |a.slots|
    ensures ProducerAct(a, c, p) == (a.(slots := FilledSlots(a.slots, p.idx, p.pkt)), Marking(p.pkt, p.idx))
  {
  }

  lemma MarkActs(a: Area, c: nat, p: Producer)
    requires Indexed(a) && c < |a.cpus| && p.Marking? && p.idx < |a.slots|
    ensures ProducerAct(a, c, p) == (a.(slots := MarkedSlots(a.slots, p.idx)), Queueing(p.pkt, p.idx))
  {
  }

  lemma StepWrite(a: Area, c: nat, p: Producer, g: Log, ret: set<int>)
    requires Indexed(a) && c < |a.cpus| && (p.Filling? || p.Marking?)
    requires Local(a.cpus[c], p, g, ret, a.slots)
    ensures Stepped(a, c, p, g, ret)
  {
    if p.Filling? {
      FillActs(a, c, p);
      StepFill(a, c, p, g, ret, a.(slots := FilledSlots(a.slots, p.idx, p.pkt)), Marking(p.pkt, p.idx));
    } else {
      MarkActs(a, c, p);
      StepMark(a, c, p, g, ret, a.(slots := MarkedSlots(a.slots, p.idx)), Queueing(p.pkt, p.idx));
    }
  }

  lemma ProducerLocal(a: Area, c: nat, p: Producer, g: Log, ret: set<int>)
    requires Indexed(a) && c < |a.cpus|
    requires Local(a.cpus[c], p, g, ret, a.slots)
    ensures ProducerOk(a, p)
    ensures Stepped(a, c, p, g, ret)
  {
    match p
    case Fetching(_) => StepFetch(a, c, p, g, ret);
    case Filling(_, _) => StepWrite(a, c, p, g, ret);
    case Marking(_, _) => StepWrite(a, c, p, g, ret);
    case Queueing(_, _) => StepQueue(a, c, p, g, ret);
    case _ => StepQuiet(a, c, p, g, ret);
  }
}
