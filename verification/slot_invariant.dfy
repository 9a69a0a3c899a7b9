/**
 The invariant of the ipshark2 packet queue and its preservation by every step: ownership of
 slots, contents of slots, the two logs, and the counters.
 */
module SlotInvariant {
  import opened Packets
  import opened SharedCounter
  import opened SlotArea
  import opened SlotWorld
  import opened Words

  function InFlight(p: Producer): seq<nat> {
    if p.HasIdx() then [p.idx] else []
  }

  /** The indices from `lo` up to, not including, `hi`. */
  function Span(lo: nat, hi: nat): (s: set<int>)
    requires lo <= hi
    ensures |s| == hi - lo
    ensures forall x :: x in s <==> lo <= x < hi
    decreases hi - lo
  {
    if lo == hi then {} else {lo} + Span(lo + 1, hi)
  }

  /** The index of CPU `c` that the recycling thread has marked USED but not yet queued. */
  function Ret(w: World, c: nat): set<int>
    requires ConsumerOk(w.area, w.recycler)
  {
    if w.recycler.Returning? && Owner(w.area.cpus, w.recycler.list[w.recycler.i]) == c
    then {w.recycler.list[w.recycler.i]} else {}
  }

  /** How often `i` has been accepted. */
  function Puts(log: seq<(nat, KeyInfo)>, i: int): nat {
    if log == [] then 0
    else Puts(log[..|log| - 1], i) + if log[|log| - 1].0 == i then 1 else 0
  }

  function Marked(p: Producer, i: int): nat {
    if p.Queueing? && p.idx == i then 1 else 0
  }

  /** A packet offered and neither accepted nor dropped yet. */
  function Pending(p: Producer): nat {
    if p.Searching() || p.HasIdx() then 1 else 0
  }

  /** A packet accepted but not yet in `queue_times`; one dropped but not yet in `getfail`. */
  function Uncounted(p: Producer): nat { if p.CountLoading? || p.CountStoring? then 1 else 0 }

  function Unmissed(p: Producer): nat { if p.MissLoading? || p.MissStoring? then 1 else 0 }

  /** Each index of the CPU is in exactly one place, counted with multiplicity. */
  ghost predicate Partition(q: CpuQueue, p: Producer, g: Log, ret: set<int>)
    requires q.start <= q.end
  {
    multiset(q.idle) + multiset(InFlight(p)) + multiset(q.ready) + multiset(g.held.Keys) + multiset(ret)
    == multiset(Span(q.start, q.end))
  }

  predicate Fits(q: CpuQueue, p: Producer, slots: seq<Slot>) {
    && q.start < q.end <= |slots| && q.end - q.start <= q.cap
    && Below(q.idle, |slots|) && Below(q.ready, |slots|)
    && (p.HasIdx() ==> p.idx < |slots|)
  }

  /** Ready and held slots are INUSE, idle ones are not; a held slot has the packet handed out. */
  ghost predicate States(q: CpuQueue, p: Producer, g: Log, ret: set<int>, slots: seq<Slot>)
    requires Fits(q, p, slots)
  {
    && (forall i :: 0 <= i < |q.idle| ==> !slots[q.idle[i]].state.InUse?)
    && (forall i :: 0 <= i < |q.ready| ==> slots[q.ready[i]].state.InUse?)
    && (forall x :: x in g.held ==> x < |slots| && slots[x].state.InUse? && slots[x].info == g.held[x])
    && (forall x :: x in ret ==> 0 <= x < |slots| && !slots[x].state.InUse?)
    && (p.HasIdx() ==> (slots[p.idx].state.InUse? <==> p.Queueing?))
    && (p.Marking? || p.Queueing? ==> slots[p.idx].info == p.pkt)
  }

  /** What was accepted is what was delivered followed by what the ready slots hold now. */
  ghost predicate Logged(q: CpuQueue, p: Producer, g: Log, ret: set<int>, slots: seq<Slot>)
    requires Fits(q, p, slots)
  {
    && g.accepted == g.delivered + Tag(q.ready, slots)
    && (forall i :: q.start <= i < q.end ==>
          slots[i].times == (Puts(g.accepted, i) + Marked(p, i)) % TIMES_MOD)
    && g.offered == |g.accepted| + g.dropped + Pending(p)
    && |g.delivered| == |g.held| + |ret| + g.returned
    && |g.accepted| == g.counted + Uncounted(p)
    && g.dropped == g.missed + Unmissed(p)
  }

  ghost predicate Local(q: CpuQueue, p: Producer, g: Log, ret: set<int>, slots: seq<Slot>) {
    && Fits(q, p, slots)
    && Partition(q, p, g, ret)
    && States(q, p, g, ret, slots)
    && Logged(q, p, g, ret, slots)
    && !p.ClashLoading? && !p.ClashStoring?
  }

  function CountedOf(g: Log): nat { g.counted }
  function ReturnedOf(g: Log): nat { g.returned }
  function MissedOf(g: Log): nat { g.missed }

  function Total(f: Log -> nat, logs: seq<Log>): nat {
    if logs == [] then 0 else f(logs[0]) + Total(f, logs[1..])
  }

  /** A value a CPU has in hand was loaded when its mark says. */
  ghost predicate SeenAt(p: Producer, t: Tally, mark: nat, base: Counts) {
    && (p.CountStoring? ==> Loaded(p.seen, base.queued, U64_MOD, t.queued, mark))
    && (p.MissStoring? ==> Loaded(p.seen, base.getFail, U32_MOD, t.missed, mark))
  }

  /** The words all CPUs write, against the stores made to them. */
  ghost predicate SharedCounted(counts: Counts, base: Counts, t: Tally, producers: seq<Producer>)
    requires |producers| == |t.marks|
  {
    && Shows(counts.queued, base.queued, U64_MOD, t.queued)
    && Shows(counts.getFail, base.getFail, U32_MOD, t.missed)
    && forall c :: 0 <= c < |producers| ==> SeenAt(producers[c], t, t.marks[c], base)
  }

  ghost predicate CountsRight(counts: Counts, base: Counts, t: Tally, producers: seq<Producer>, logs: seq<Log>)
    requires |producers| == |t.marks|
  {
    && SharedCounted(counts, base, t, producers)
    && |t.queued| == Total(CountedOf, logs)
    && |t.missed| == Total(MissedOf, logs)
    && counts.recycled == (base.recycled + Total(ReturnedOf, logs)) % U64_MOD
    && counts.putFail == base.putFail
    && counts.getInvalid == base.getInvalid
  }

  ghost predicate Counted(w: World)
    requires Shaped(w)
  {
    CountsRight(w.area.counts, w.base, w.tally, w.producers, w.logs)
  }

  ghost predicate LocalAt(w: World, c: nat)
    requires Shaped(w) && c < |w.logs|
  {
    Local(w.area.cpus[c], w.producers[c], w.logs[c], Ret(w, c), w.area.slots)
  }

  ghost predicate Inv(w: World) {
    && Shaped(w)
    && Counted(w)
    && forall c :: 0 <= c < |w.logs| ==> LocalAt(w, c)
  }

  // ----- Facts about one CPU

  /** Five bags that make up a set: members of the set, pairwise apart, without repeats. */
  lemma Parts(a: multiset<int>, b: multiset<int>, c: multiset<int>, d: multiset<int>, e: multiset<int>,
              s: set<int>)
    requires a + b + c + d + e == multiset(s)
    ensures forall x :: x in a ==> x in s && a[x] == 1 && x !in b && x !in c && x !in d && x !in e
    ensures forall x :: x in b ==> x in s && b[x] == 1 && x !in c && x !in d && x !in e
    ensures forall x :: x in c ==> x in s && c[x] == 1 && x !in d && x !in e
    ensures forall x :: x in d ==> x in s && d[x] == 1 && x !in e
    ensures forall x :: x in e ==> x in s
    ensures |a| + |b| + |c| + |d| + |e| == |s|
  {
    var all := a + b + c + d + e;
    forall x: int ensures all[x] == a[x] + b[x] + c[x] + d[x] + e[x] <= 1 && (all[x] == 1 <==> x in s) { }
    assert |all| == |a| + |b| + |c| + |d| + |e|;
  }

  lemma Repeated(s: seq<int>)
    ensures forall i, j :: 0 <= i < j < |s| && s[i] == s[j] ==> multiset(s)[s[i]] >= 2
  {
    forall i, j | 0 <= i < j < |s| && s[i] == s[j] ensures multiset(s)[s[i]] >= 2 {
      assert s == s[..j] + s[j..];
      assert s[i] in s[..j] && s[j] in s[j..];
      assert multiset(s)[s[i]] == multiset(s[..j])[s[i]] + multiset(s[j..])[s[i]];
    }
  }

  predicate Within(s: seq<nat>, q: CpuQueue) {
    forall i :: 0 <= i < |s| ==> q.start <= s[i] < q.end
  }

  predicate NoRepeats(s: seq<nat>) {
    forall i, j :: 0 <= i < j < |s| ==> s[i] != s[j]
  }

  lemma SeqPlace(s: seq<nat>, q: CpuQueue)
    requires q.start <= q.end
    requires forall x :: x in multiset(s) ==> x in Span(q.start, q.end) && multiset(s)[x] == 1
    ensures Within(s, q) && NoRepeats(s)
  {
    Repeated(s);
    assert forall k :: 0 <= k < |s| ==> s[k] in multiset(s);
  }

  /** What the partition says of places: sizes add up, members lie in range, places are apart. */
  ghost predicate Placed(q: CpuQueue, p: Producer, g: Log, ret: set<int>) {
    && |q.idle| + |InFlight(p)| + |q.ready| + |g.held| + |ret| == q.end - q.start
    && Within(q.idle, q) && Within(q.ready, q) && NoRepeats(q.idle) && NoRepeats(q.ready)
    && (forall x :: x in g.held ==> q.start <= x < q.end && x !in q.idle && x !in q.ready && x !in ret)
    && (forall x :: x in ret ==> q.start <= x < q.end && x !in q.idle && x !in q.ready)
    && (p.HasIdx() ==>
          && q.start <= p.idx < q.end
          && p.idx !in q.idle && p.idx !in q.ready && p.idx !in g.held && p.idx !in ret)
    && (forall x :: x in q.idle ==> x !in q.ready)
  }

  lemma Places(q: CpuQueue, p: Producer, g: Log, ret: set<int>)
    requires q.start <= q.end && Partition(q, p, g, ret)
    ensures Placed(q, p, g, ret)
  {
    var s := Span(q.start, q.end);
    var i, f, r, h, t := multiset(q.idle), multiset(InFlight(p)), multiset(q.ready),
                         multiset(g.held.Keys), multiset(ret);
    Parts(i, f, r, h, t, s);
    SeqPlace(q.idle, q);
    SeqPlace(q.ready, q);
    assert |h| == |g.held.Keys| == |g.held|;
    forall x | x in q.idle ensures x !in q.ready {
      assert x in i;
    }
    forall x | x in g.held ensures q.start <= x < q.end && x !in q.idle && x !in q.ready && x !in ret {
      assert x in h;
    }
    forall x | x in ret ensures q.start <= x < q.end && x !in q.idle && x !in q.ready {
      assert x in t;
    }
    if p.HasIdx() {
      assert InFlight(p)[0] == p.idx;
      assert p.idx in f;
    }
  }
}
