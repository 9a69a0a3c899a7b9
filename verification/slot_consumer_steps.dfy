/**
 Every step of `ip_queue_move2dma` and `ip_queue_recycle` keeps the invariant of the CPU it works on.
 */
module SlotConsumerSteps {
  import opened Packets
  import opened SlotArea
  import opened SlotWorld
  import opened SlotInvariant
  import opened SlotSteps
  import opened Collections

  // ----- Indices leave the ready queue for the consumer

  function Members(s: seq<nat>): set<nat> {
    set x | x in s
  }

  lemma MembersCons(x: nat, t: seq<nat>)
    ensures Members([x] + t) == {x} + Members(t)
    ensures multiset([x] + t) == multiset{x} + multiset(t)
  {
  }

  lemma {:induction false} SetBag(s: seq<nat>)
    requires NoRepeats(s)
    ensures multiset(Members(s)) == multiset(s)
    ensures |Members(s)| == |s|
  {
    if s != [] {
      var x, t := s[0], s[1..];
      forall i, j | 0 <= i < j < |t| ensures t[i] != t[j] {
        assert t[i] == s[i + 1] && t[j] == s[j + 1];
      }
      SetBag(t);
      assert s == [x] + t && x !in t;
      MembersCons(x, t);
      assert x !in Members(t);
    }
  }

  /** The map handed to the consumer has the taken indices as keys, all new. */
  lemma HandedKeys(q: CpuQueue, p: Producer, g: Log, ret: set<int>, slots: seq<Slot>, n: nat)
    requires Fits(q, p, slots) && Placed(q, p, g, ret) && n <= |q.ready|
    ensures multiset(LogMove(g, q, n, slots).held.Keys) == multiset(g.held.Keys) + multiset(q.ready[..n])
    ensures |LogMove(g, q, n, slots).held| == |g.held| + n
  {
    var s := q.ready[..n];
    SetBag(s);
    var taken := Handed(s, slots).Keys;
    assert taken == Members(s);
    forall x | x in s ensures x !in g.held { assert x in q.ready; }
    var keys := LogMove(g, q, n, slots).held.Keys;
    assert keys == g.held.Keys + taken;
    assert taken !! g.held.Keys;
    assert multiset(keys) == multiset(g.held.Keys) + multiset(taken);
    assert |taken| == |multiset(taken)| == |s|;
  }

  lemma MovePartition(q: CpuQueue, p: Producer, g: Log, ret: set<int>, slots: seq<Slot>, n: nat)
    requires Fits(q, p, slots) && Partition(q, p, g, ret) && n <= |q.ready|
    requires multiset(LogMove(g, q, n, slots).held.Keys) == multiset(g.held.Keys) + multiset(q.ready[..n])
    ensures Partition(q.(ready := q.ready[n..]), p, LogMove(g, q, n, slots), ret)
  {
    assert q.ready == q.ready[..n] + q.ready[n..];
  }

  lemma MoveStates(q: CpuQueue, p: Producer, g: Log, ret: set<int>, slots: seq<Slot>, n: nat)
    requires Fits(q, p, slots) && States(q, p, g, ret, slots) && n <= |q.ready|
    ensures Fits(q.(ready := q.ready[n..]), p, slots)
    ensures States(q.(ready := q.ready[n..]), p, LogMove(g, q, n, slots), ret, slots)
  {
    var g' := LogMove(g, q, n, slots);
    forall x | x in g'.held
      ensures x < |slots| && slots[x].state.InUse? && slots[x].info == g'.held[x]
    {
      if x in q.ready[..n] {
        var i :| 0 <= i < n && q.ready[..n][i] == x;
        assert q.ready[i] == x;
      }
    }
  }

  lemma TagSplit(s: seq<nat>, slots: seq<Slot>, n: nat)
    requires Below(s, |slots|) && n <= |s|
    ensures Tag(s, slots) == Tag(s[..n], slots) + Tag(s[n..], slots)
    ensures |Tag(s[..n], slots)| == n
  {
  }

  lemma MoveLogged(q: CpuQueue, q': CpuQueue, p: Producer, g: Log, g': Log, ret: set<int>, slots: seq<Slot>,
                   taken: seq<(nat, KeyInfo)>)
    requires Fits(q, p, slots) && Logged(q, p, g, ret, slots) && Fits(q', p, slots)
    requires q'.start == q.start && q'.end == q.end && Tag(q.ready, slots) == taken + Tag(q'.ready, slots)
    requires g' == g.(delivered := g.delivered + taken, held := g'.held) && |g'.held| == |g.held| + |taken|
    ensures Logged(q', p, g', ret, slots)
  {
    Associate(g.delivered, taken, Tag(q'.ready, slots));
  }

  lemma MoveLocal(q: CpuQueue, p: Producer, g: Log, ret: set<int>, slots: seq<Slot>, n: nat)
    requires Local(q, p, g, ret, slots) && n <= |q.ready|
    ensures Local(q.(ready := q.ready[n..]), p, LogMove(g, q, n, slots), ret, slots)
  {
    Places(q, p, g, ret);
    HandedKeys(q, p, g, ret, slots, n);
    MovePartition(q, p, g, ret, slots, n);
    MoveStates(q, p, g, ret, slots, n);
    TagSplit(q.ready, slots, n);
    MoveLogged(q, q.(ready := q.ready[n..]), p, g, LogMove(g, q, n, slots), ret, slots, Tag(q.ready[..n], slots));
  }

  // ----- The consumer marks an index it holds as USED

  function FreedSlots(slots: seq<Slot>, x: nat): seq<Slot>
    requires x < |slots|
  {
    slots[x := slots[x].(state := Used)]
  }

  lemma FreePartition(q: CpuQueue, p: Producer, g: Log, x: nat)
    requires q.start <= q.end && Partition(q, p, g, {}) && x in g.held
    ensures Partition(q, p, g.(held := g.held - {x}), {x})
  {
    var h := g.held - {x};
    assert g.held.Keys == h.Keys + {x};
    assert multiset(g.held.Keys) == multiset(h.Keys) + multiset({x});
  }

  lemma FreeStates(q: CpuQueue, p: Producer, g: Log, slots: seq<Slot>, x: nat)
    requires Fits(q, p, slots) && Placed(q, p, g, {}) && States(q, p, g, {}, slots) && x in g.held
    ensures States(q, p, g.(held := g.held - {x}), {x}, FreedSlots(slots, x))
  {
    assert forall i :: 0 <= i < |q.ready| ==> q.ready[i] in q.ready && q.ready[i] != x;
  }

  lemma FreeLogged(q: CpuQueue, p: Producer, g: Log, slots: seq<Slot>, x: nat)
    requires Fits(q, p, slots) && Logged(q, p, g, {}, slots) && x in g.held && x < |slots|
    ensures Logged(q, p, g.(held := g.held - {x}), {x}, FreedSlots(slots, x))
  {
    var slots' := FreedSlots(slots, x);
    TagFrame(q.ready, slots, slots');
    OneLess(g.held, x);
    forall i | q.start <= i < q.end
      ensures slots'[i].times == (Puts(g.accepted, i) + Marked(p, i)) % TIMES_MOD
    {
      assert slots'[i].times == slots[i].times;
    }
  }

  lemma FreeLocal(q: CpuQueue, p: Producer, g: Log, slots: seq<Slot>, x: nat)
    requires Local(q, p, g, {}, slots) && x in g.held
    ensures x < |slots|
    ensures Local(q, p, g.(held := g.held - {x}), {x}, FreedSlots(slots, x))
  {
    Places(q, p, g, {});
    FreePartition(q, p, g, x);
    FreeStates(q, p, g, slots, x);
    FreeLogged(q, p, g, slots, x);
  }

  // ----- The index goes back to the idle queue

  lemma ReturnPartition(q: CpuQueue, p: Producer, g: Log, g': Log, x: nat)
    requires q.start <= q.end && Partition(q, p, g, {x}) && g'.held == g.held
    ensures Partition(q.(idle := q.idle + [x]), p, g', {})
  {
    assert multiset({x}) == multiset([x]);
  }

  lemma ReturnStates(q: CpuQueue, q': CpuQueue, p: Producer, g: Log, g': Log, slots: seq<Slot>, x: nat)
    requires Fits(q, p, slots) && States(q, p, g, {x}, slots) && x < |slots|
    requires q' == q.(idle := q.idle + [x]) && g'.held == g.held
    ensures Fits(q', p, slots) && States(q', p, g', {}, slots)
  {
    assert !slots[x].state.InUse?;
  }

  lemma ReturnLogged(q: CpuQueue, q': CpuQueue, p: Producer, g: Log, slots: seq<Slot>, x: nat)
    requires Fits(q, p, slots) && Logged(q, p, g, {x}, slots) && Fits(q', p, slots)
    requires q' == q.(idle := q'.idle)
    ensures Logged(q', p, g.(returned := g.returned + 1), {}, slots)
  {
  }

  lemma ReturnLocal(q: CpuQueue, q': CpuQueue, p: Producer, g: Log, g': Log, ret: set<int>, slots: seq<Slot>,
                    x: nat)
    requires ret == {x} && Local(q, p, g, ret, slots)
    requires q' == q.(idle := q.idle + [x]) && g' == g.(returned := g.returned + 1)
    ensures |q.idle| < q.cap
    ensures Local(q', p, g', {}, slots)
  {
    Places(q, p, g, {x});
    ReturnPartition(q, p, g, g', x);
    ReturnStates(q, q', p, g, g', slots, x);
    ReturnLogged(q, q', p, g, slots, x);
  }
}
