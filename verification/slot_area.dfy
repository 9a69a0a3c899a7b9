/**
 The shared slot area of ipshark2 and the code that moves indices through it,
 cut into the steps another context can observe between.

 A slot index travels idle -> producer -> ready -> consumer -> idle. The two kfifos
 of a CPU are bounded FIFOs (`seq` plus `cap`). `ProducerAct` is one step of
 `ip_queue_put` on one CPU, `ConsumerAct` one step of `ip_queue_move2dma` or
 `ip_queue_recycle`; `Finish...` runs them to the end with nothing in between.
 No discipline of the consumer is assumed here: every defensive branch is present.
 */
module SlotArea {
  import opened Packets
  import opened Words

  datatype MemState = Free | InUse | Used

  /** `struct ip_key_info_wrap`; `times` is a 24-bit field. */
  datatype Slot = Slot(info: KeyInfo, times: nat, state: MemState)

  /** `struct queue_data`: the CPU owns the slots [start, end). */
  datatype CpuQueue = CpuQueue(
    start: nat, end: nat, cap: nat, idle: seq<nat>, ready: seq<nat>, alarm: bool)

  /** The counters of the module. They are static: no creation resets them. */
  datatype Counts = Counts(
    queued: U64, recycled: U64, putFail: U32, getFail: U32, getInvalid: U32, recycleInvalid: U32)

  datatype Area = Area(
    cpus: seq<CpuQueue>, slots: seq<Slot>, idxArray: seq<nat>, idxNum: nat, counts: Counts)

  const TIMES_MOD: nat := 0x100_0000
  const IDX_ARRAY_SIZE: nat := 128

  /** Where `ip_queue_put` stands on a CPU, with what it holds in its locals. A counter shared by all CPUs
      is incremented by a load, which leaves the value in a register (`seen`), and a store. */
  datatype Producer =
    | Resting
    | Fetching(pkt: KeyInfo)
    | Checking(pkt: KeyInfo, idx: nat)
    | ClashLoading(pkt: KeyInfo)
    | ClashStoring(pkt: KeyInfo, seen: nat)
    | MissLoading
    | MissStoring(seen: nat)
    | Filling(pkt: KeyInfo, idx: nat)
    | Marking(pkt: KeyInfo, idx: nat)
    | Queueing(pkt: KeyInfo, idx: nat)
    | CountLoading
    | CountStoring(seen: nat)
    | Alarming
  {
    predicate HasIdx() { Checking? || Filling? || Marking? || Queueing? }

    function Rank(): nat {
      match this
      case Resting => 0
      case MissStoring(_) => 1
      case MissLoading => 2
      case Alarming => 1
      case CountStoring(_) => 2
      case CountLoading => 3
      case Queueing(_, _) => 4
      case Marking(_, _) => 5
      case Filling(_, _) => 6
      case Fetching(_) => 7
      case ClashStoring(_, _) => 8
      case ClashLoading(_) => 9
      case Checking(_, _) => 10
    }

    predicate Searching() { Fetching? || Checking? || ClashLoading? || ClashStoring? }
  }

  /** Where the consumer stands: moving to the index array, or recycling `list`. */
  datatype Consumer =
    | Quiet(list: seq<nat>)
    | Moving(cpu: nat, copied: nat, num: int)
    | Recycling(list: seq<nat>, i: nat)
    | Freeing(list: seq<nat>, i: nat)
    | Returning(list: seq<nat>, i: nat)
  {
    function Rank(): nat {
      match this
      case Quiet(_) => 0
      case Moving(_, _, _) => 0
      case Returning(_, _) => 1
      case Freeing(_, _) => 2
      case Recycling(_, _) => 3
    }
  }

  predicate Below(s: seq<nat>, n: nat) {
    forall i :: 0 <= i < |s| ==> s[i] < n
  }

  /** Every queued index names a slot. */
  predicate Indexed(a: Area) {
    && |a.idxArray| == IDX_ARRAY_SIZE
    && forall c :: 0 <= c < |a.cpus| ==>
         Below(a.cpus[c].idle, |a.slots|) && Below(a.cpus[c].ready, |a.slots|)
  }

  predicate ProducerOk(a: Area, p: Producer) {
    p.HasIdx() ==> p.idx < |a.slots|
  }

  /** While CPUs remain to be scanned the budget is positive and fits behind what was copied. */
  predicate ConsumerOk(a: Area, k: Consumer) {
    match k
    case Quiet(_) => true
    case Moving(cpu, copied, num) =>
      && cpu <= |a.cpus|
      && copied <= IDX_ARRAY_SIZE
      && (cpu < |a.cpus| ==> 0 < num <= IDX_ARRAY_SIZE - copied)
    case Recycling(list, i) => i <= |list| && Below(list, |a.slots|)
    case Freeing(list, i) => i < |list| && Below(list, |a.slots|)
    case Returning(list, i) =>
      && i < |list|
      && Below(list, |a.slots|)
      && Owner(a.cpus, list[i]) < |a.cpus|
  }

  /** The first CPU whose range holds `x`, or `|cpus|`. */
  function Owner(cpus: seq<CpuQueue>, x: nat): (c: nat)
    ensures c <= |cpus|
    ensures c < |cpus| ==> cpus[c].start <= x < cpus[c].end
    ensures forall d :: 0 <= d < c ==> !(cpus[d].start <= x < cpus[d].end)
  {
    if cpus == [] then 0
    else if cpus[0].start <= x < cpus[0].end then 0
    else 1 + Owner(cpus[1..], x)
  }

  /** Ranges follow one another from 0 to the last slot, and fit both FIFOs. */
  predicate Ranges(a: Area) {
    && (forall c :: 0 <= c < |a.cpus| ==>
          && a.cpus[c].start < a.cpus[c].end <= |a.slots|
          && a.cpus[c].end - a.cpus[c].start <= a.cpus[c].cap)
    && (forall c, d :: 0 <= c < d < |a.cpus| ==> a.cpus[c].end <= a.cpus[d].start)
    && (forall x: nat :: x < |a.slots| ==> Owner(a.cpus, x) < |a.cpus|)
  }

  predicate SameRanges(a: Area, b: Area) {
    && |a.cpus| == |b.cpus| && |a.slots| == |b.slots|
    && forall c :: 0 <= c < |a.cpus| ==>
         && a.cpus[c].start == b.cpus[c].start
         && a.cpus[c].end == b.cpus[c].end
         && a.cpus[c].cap == b.cpus[c].cap
  }

  function AlarmAfter(q: CpuQueue): bool {
    if q.alarm then !(|q.ready| < q.cap / 2) else |q.ready| > 3 * q.cap / 4
  }

  function WithCpu(a: Area, c: nat, q: CpuQueue): Area
    requires c < |a.cpus|
  {
    a.(cpus := a.cpus[c := q])
  }

  /** One step of `ip_queue_put` on CPU `c`. */
  function ProducerAct(a: Area, c: nat, p: Producer): (r: (Area, Producer))
    requires Indexed(a) && c < |a.cpus| && ProducerOk(a, p)
    ensures Indexed(r.0) && SameRanges(a, r.0) && ProducerOk(r.0, r.1)
  {
    var q := a.cpus[c];
    match p
    case Resting => (a, Resting)
    case Fetching(pkt) =>
      if q.idle == [] then (a, MissLoading)
      else
        (WithCpu(a, c, q.(idle := q.idle[1..])), Checking(pkt, q.idle[0]))
    case Checking(pkt, idx) =>
      if a.slots[idx].state.InUse? then (a, ClashLoading(pkt)) else (a, Filling(pkt, idx))
    case ClashLoading(pkt) => (a, ClashStoring(pkt, a.counts.getInvalid))
    case ClashStoring(pkt, seen) =>
      (a.(counts := a.counts.(getInvalid := (seen + 1) % U32_MOD)), Fetching(pkt))
    case MissLoading => (a, MissStoring(a.counts.getFail))
    case MissStoring(seen) => (a.(counts := a.counts.(getFail := (seen + 1) % U32_MOD)), Resting)
    case Filling(pkt, idx) =>
      (a.(slots := a.slots[idx := a.slots[idx].(info := pkt)]), Marking(pkt, idx))
    case Marking(pkt, idx) =>
      var s := a.slots[idx];
      (a.(slots := a.slots[idx := s.(times := (s.times + 1) % TIMES_MOD, state := InUse)]),
       Queueing(pkt, idx))
    case Queueing(pkt, idx) =>
      if |q.ready| < q.cap then
        (WithCpu(a, c, q.(ready := q.ready + [idx])), CountLoading)
      else if |q.idle| < q.cap then
        (WithCpu(a, c, q.(idle := q.idle + [idx])), Alarming)
      else
        (a, Alarming)
    case CountLoading => (a, CountStoring(a.counts.queued))
    case CountStoring(seen) => (a.(counts := a.counts.(queued := (seen + 1) % U64_MOD)), Alarming)
    case Alarming => (WithCpu(a, c, q.(alarm := AlarmAfter(q))), Resting)
  }

  /** The rest of `ip_queue_put` without interruption; it ends because `idle` shrinks. */
  function FinishPut(a: Area, c: nat, p: Producer): (r: Area)
    requires Indexed(a) && c < |a.cpus| && ProducerOk(a, p)
    ensures Indexed(r) && SameRanges(a, r)
    decreases p.Searching(), if p.Searching() then |a.cpus[c].idle| else 0, p.Rank()
  {
    if p.Resting? then a
    else
      var r := ProducerAct(a, c, p);
      FinishPut(r.0, c, r.1)
  }

  lemma PutGoesOn(a: Area, c: nat, p: Producer)
    requires Indexed(a) && c < |a.cpus| && ProducerOk(a, p) && !p.Resting?
    ensures var r := ProducerAct(a, c, p); FinishPut(a, c, p) == FinishPut(r.0, c, r.1)
  {
  }

  /** `kfifo_out` of the first `n` ready indices of `cpu` to the index array. */
  function MovedOut(a: Area, cpu: nat, copied: nat, n: nat): (r: Area)
    requires Indexed(a) && cpu < |a.cpus| && n <= |a.cpus[cpu].ready| && copied + n <= IDX_ARRAY_SIZE
    ensures Indexed(r) && SameRanges(a, r)
  {
    var q := a.cpus[cpu];
    WithCpu(a, cpu, q.(ready := q.ready[n..]))
    .(idxArray := a.idxArray[..copied] + q.ready[..n] + a.idxArray[copied + n..])
  }

  /** One step of `ip_queue_move2dma` or `ip_queue_recycle`. */
  function ConsumerAct(a: Area, k: Consumer): (r: (Area, Consumer))
    requires Indexed(a) && ConsumerOk(a, k)
    ensures Indexed(r.0) && SameRanges(a, r.0) && ConsumerOk(r.0, r.1)
  {
    match k
    case Quiet(_) => (a, k)
    case Moving(cpu, copied, num) =>
      if cpu == |a.cpus| then (a.(idxNum := copied), Quiet([]))
      else if a.cpus[cpu].ready == [] then (a, Moving(cpu + 1, copied, num))
      else
        var n := if |a.cpus[cpu].ready| < num then |a.cpus[cpu].ready| else num;
        var left := num - (copied + n);
        (MovedOut(a, cpu, copied, n), Moving(if left <= 0 then |a.cpus| else cpu + 1, copied + n, left))
    case Recycling(list, i) =>
      if i == |list| then (a, Quiet(list))
      else if a.slots[list[i]].state.InUse? then (a, Freeing(list, i))
      else
        (a.(counts := a.counts.(recycleInvalid := (a.counts.recycleInvalid + 1) % U32_MOD)),
         Recycling(list, i + 1))
    case Freeing(list, i) =>
      if Owner(a.cpus, list[i]) == |a.cpus| then (a, Recycling(list, i + 1))
      else
        (a.(slots := a.slots[list[i] := a.slots[list[i]].(state := Used)]), Returning(list, i))
    case Returning(list, i) =>
      var o := Owner(a.cpus, list[i]);
      var q := a.cpus[o];
      var counts := a.counts.(recycled := (a.counts.recycled + 1) % U64_MOD);
      var b := if |q.idle| < q.cap
        then WithCpu(a, o, q.(idle := q.idle + [list[i]])).(counts := counts)
        else a.(counts := counts.(putFail := (counts.putFail + 1) % U32_MOD));
      (b, Recycling(list[i := 0], i + 1))
  }

  /** A move goes on moving or ends, a recycle goes on recycling or ends. */
  lemma KindStays(a: Area, k: Consumer)
    requires Indexed(a) && ConsumerOk(a, k)
    ensures k.Moving? ==> ConsumerAct(a, k).1.Moving? || ConsumerAct(a, k).1.Quiet?
    ensures !k.Moving? ==> !ConsumerAct(a, k).1.Moving?
  {
  }

  /** Steps a consumer still has to take, as a termination measure. */
  function Remaining(a: Area, k: Consumer): nat
    requires ConsumerOk(a, k)
  {
    match k
    case Quiet(_) => 0
    case Moving(cpu, _, _) => 1 + |a.cpus| - cpu
    case Recycling(list, i) => 1 + |list| - i
    case Freeing(list, i) => 1 + |list| - i
    case Returning(list, i) => 1 + |list| - i
  }

  /** The rest of `ip_queue_move2dma` or `ip_queue_recycle` without interruption. */
  function FinishConsumer(a: Area, k: Consumer): (r: (Area, Consumer))
    requires Indexed(a) && ConsumerOk(a, k)
    ensures Indexed(r.0) && SameRanges(a, r.0) && r.1.Quiet?
    decreases Remaining(a, k), k.Rank()
  {
    if k.Quiet? then (a, k)
    else
      var r := ConsumerAct(a, k);
      FinishConsumer(r.0, r.1)
  }

  lemma ConsumerGoesOn(a: Area, k: Consumer)
    requires Indexed(a) && ConsumerOk(a, k) && !k.Quiet?
    ensures var r := ConsumerAct(a, k); FinishConsumer(a, k) == FinishConsumer(r.0, r.1)
  {
  }

  lemma OwnerSame(s: seq<CpuQueue>, t: seq<CpuQueue>, x: nat)
    requires |s| == |t|
    requires forall c :: 0 <= c < |s| ==> s[c].start == t[c].start && s[c].end == t[c].end
    ensures Owner(s, x) == Owner(t, x)
  {
  }

  lemma SameRangesKeepsRanges(a: Area, b: Area)
    requires Ranges(a) && SameRanges(a, b)
    ensures Ranges(b)
  {
    forall x: nat | x < |b.slots| ensures Owner(b.cpus, x) < |b.cpus| {
      OwnerSame(a.cpus, b.cpus, x);
    }
  }
}
