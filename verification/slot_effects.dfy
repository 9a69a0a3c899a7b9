/**
 What one put and one recycled entry do to every field, for any area, disciplined or not.
 */
module SlotEffects {
  import opened Packets
  import opened SlotArea
  import opened SlotCalls
  import opened Words

  // ----- A put

  /** How many INUSE indices stand at the front of an idle queue. */
  function Clashes(idle: seq<nat>, slots: seq<Slot>): (k: nat)
    requires Below(idle, |slots|)
    ensures k <= |idle| && forall i :: 0 <= i < k ==> slots[idle[i]].state.InUse?
    ensures k < |idle| ==> !slots[idle[k]].state.InUse?
  {
    if idle == [] || !slots[idle[0]].state.InUse? then 0 else 1 + Clashes(idle[1..], slots)
  }

  /** The alarm is raised above three quarters and stays until below one half. */
  ghost predicate Hysteresis(before: bool, after: bool, ready: nat, cap: nat) {
    after <==> if before then ready >= cap / 2 else ready > 3 * cap / 4
  }

  /** `k` INUSE indices were skipped, each counted. */
  function Skipped(a: Area, k: nat): Area {
    a.(counts := a.counts.(getInvalid := (a.counts.getInvalid + k) % 0x1_0000_0000))
  }

  /** With no usable index the packet is dropped. */
  ghost predicate Dropped(a: Area, b: Area, c: nat)
    requires c < |a.cpus|
  {
    b == a.(cpus := a.cpus[c := a.cpus[c].(idle := [])],
            counts := a.counts.(getFail := (a.counts.getFail + 1) % 0x1_0000_0000))
  }

  /** Index `s` goes to ready and is counted if ready has room, else back to idle if that has. */
  ghost predicate Placed(q: CpuQueue, q': CpuQueue, k: Counts, k': Counts, s: nat, rest: seq<nat>) {
    && q' == q.(idle := q'.idle, ready := q'.ready, alarm := q'.alarm)
    && Hysteresis(q.alarm, q'.alarm, |q'.ready|, q.cap)
    && if |q.ready| < q.cap then
         && q'.ready == q.ready + [s] && q'.idle == rest
         && k' == k.(queued := (k.queued + 1) % 0x1_0000_0000_0000_0000)
       else
         q'.ready == q.ready && q'.idle == rest + (if |rest| < q.cap then [s] else []) && k' == k
  }

  /** It gets the packet. */
  ghost predicate Kept(a: Area, b: Area, c: nat, pkt: KeyInfo, s: nat, rest: seq<nat>)
    requires c < |a.cpus| && s < |a.slots|
  {
    && |b.cpus| == |a.cpus| && b.cpus == a.cpus[c := b.cpus[c]]
    && b.slots == a.slots[s := Slot(pkt, (a.slots[s].times + 1) % 0x100_0000, InUse)]
    && b.idxArray == a.idxArray && b.idxNum == a.idxNum
    && Placed(a.cpus[c], b.cpus[c], a.counts, b.counts, s, rest)
  }

  ghost predicate PutEffect(a: Area, b: Area, c: nat, pkt: KeyInfo)
    requires Indexed(a) && c < |a.cpus|
  {
    var idle := a.cpus[c].idle;
    var k := Clashes(idle, a.slots);
    if k == |idle| then Dropped(Skipped(a, k), b, c) else Kept(Skipped(a, k), b, c, pkt, idle[k], idle[k + 1..])
  }

  lemma QueuedIsPlaced(a: Area, c: nat, s: nat)
    requires c < |a.cpus|
    ensures var e, q := Queued(a, c, s), a.cpus[c];
      && |e.cpus| == |a.cpus| && e.slots == a.slots && e.idxArray == a.idxArray && e.idxNum == a.idxNum
      && var q' := e.cpus[c].(alarm := AlarmAfter(e.cpus[c]));
         Placed(q, q', a.counts, e.counts, s, q.idle) && e.cpus[c := q'] == a.cpus[c := q']
  {
  }

  lemma FoundIsKept(a: Area, c: nat, pkt: KeyInfo, s: nat)
    requires Indexed(a) && c < |a.cpus| && s < |a.slots| && !a.slots[s].state.InUse?
    ensures Kept(a, FinishPut(a, c, Checking(pkt, s)), c, pkt, s, a.cpus[c].idle)
  {
    FoundIsQueued(a, c, pkt, s);
    QueuedIsPlaced(FilledArea(a, pkt, s), c, s);
  }

  /** The put of an area whose first idle index is gone. */
  function Behind(a: Area, c: nat): Area
    requires c < |a.cpus| && a.cpus[c].idle != []
  {
    a.(cpus := a.cpus[c := a.cpus[c].(idle := a.cpus[c].idle[1..])])
  }

  lemma FetchedFirst(a: Area, c: nat, pkt: KeyInfo)
    requires Indexed(a) && c < |a.cpus| && a.cpus[c].idle != []
    ensures Indexed(Behind(a, c)) && a.cpus[c].idle[0] < |a.slots|
    ensures FinishPut(a, c, Fetching(pkt)) == FinishPut(Behind(a, c), c, Checking(pkt, a.cpus[c].idle[0]))
  {
    PutGoesOn(a, c, Fetching(pkt));
  }

  lemma SkippedOnce(a: Area, c: nat, pkt: KeyInfo)
    requires Indexed(a) && c < |a.cpus| && a.cpus[c].idle != [] && a.slots[a.cpus[c].idle[0]].state.InUse?
    ensures var b := Skipped(Behind(a, c), 1);
      && Indexed(b) && FinishPut(a, c, Fetching(pkt)) == FinishPut(b, c, Fetching(pkt))
  {
    FetchedFirst(a, c, pkt);
    ClashAfter(Behind(a, c), c, pkt, a.cpus[c].idle[0]);
  }

  lemma SkippedMore(a: Area, c: nat, k: nat)
    requires c < |a.cpus| && a.cpus[c].idle != []
    ensures Skipped(Skipped(Behind(a, c), 1), k) == Skipped(Behind(a, c), 1 + k)
  {
    WrappedIn(a.counts.getInvalid + 1, k, U32_MOD);
  }

  lemma EffectBehind(a: Area, b: Area, c: nat, pkt: KeyInfo)
    requires Indexed(a) && c < |a.cpus| && a.cpus[c].idle != [] && a.slots[a.cpus[c].idle[0]].state.InUse?
    requires Indexed(Skipped(Behind(a, c), 1)) && PutEffect(Skipped(Behind(a, c), 1), b, c, pkt)
    ensures PutEffect(a, b, c, pkt)
  {
    var idle := a.cpus[c].idle;
    var k := Clashes(idle[1..], a.slots);
    SkippedMore(a, c, k);
    if k < |idle| - 1 {
      assert idle[1..][k] == idle[1 + k] && idle[1..][k + 1..] == idle[1 + k + 1..];
    }
  }

  lemma NoneIsDropped(a: Area, c: nat, pkt: KeyInfo)
    requires Indexed(a) && c < |a.cpus| && a.cpus[c].idle == []
    ensures PutEffect(a, FinishPut(a, c, Fetching(pkt)), c, pkt)
  {
    PutGoesOn(a, c, Fetching(pkt));
    MissedAfter(a, c);
    NoneEffect(a, FinishPut(a, c, Fetching(pkt)), c, pkt);
  }

  lemma NoneEffect(a: Area, b: Area, c: nat, pkt: KeyInfo)
    requires Indexed(a) && c < |a.cpus| && a.cpus[c].idle == []
    requires b == a.(counts := a.counts.(getFail := (a.counts.getFail + 1) % 0x1_0000_0000))
    ensures PutEffect(a, b, c, pkt)
  {
    assert a.cpus[c := a.cpus[c].(idle := [])] == a.cpus;
    assert Skipped(a, 0) == a;
  }

  lemma KeptEffect(a: Area, b: Area, c: nat, pkt: KeyInfo)
    requires Indexed(a) && c < |a.cpus| && a.cpus[c].idle != [] && !a.slots[a.cpus[c].idle[0]].state.InUse?
    requires Kept(a, b, c, pkt, a.cpus[c].idle[0], a.cpus[c].idle[1..])
    ensures PutEffect(a, b, c, pkt)
  {
    assert Skipped(a, 0) == a;
  }

  lemma KeptBehind(a: Area, b: Area, c: nat, pkt: KeyInfo, s: nat)
    requires c < |a.cpus| && a.cpus[c].idle != [] && s < |a.slots|
    requires Kept(Behind(a, c), b, c, pkt, s, a.cpus[c].idle[1..])
    ensures Kept(a, b, c, pkt, s, a.cpus[c].idle[1..])
  {
    assert Behind(a, c).cpus[c := b.cpus[c]] == a.cpus[c := b.cpus[c]];
  }

  lemma FirstIsKept(a: Area, c: nat, pkt: KeyInfo)
    requires Indexed(a) && c < |a.cpus| && a.cpus[c].idle != [] && !a.slots[a.cpus[c].idle[0]].state.InUse?
    ensures PutEffect(a, FinishPut(a, c, Fetching(pkt)), c, pkt)
  {
    var s, b := a.cpus[c].idle[0], FinishPut(a, c, Fetching(pkt));
    FetchedFirst(a, c, pkt);
    FoundIsKept(Behind(a, c), c, pkt, s);
    KeptBehind(a, b, c, pkt, s);
    KeptEffect(a, b, c, pkt);
  }

  /** A put takes the first idle index that is not INUSE, dropping and counting those before it. */
  lemma {:induction false} PutDoes(a: Area, c: nat, pkt: KeyInfo)
    requires Indexed(a) && c < |a.cpus|
    ensures PutEffect(a, FinishPut(a, c, Fetching(pkt)), c, pkt)
    decreases |a.cpus[c].idle|
  {
    var idle := a.cpus[c].idle;
    if idle == [] {
      NoneIsDropped(a, c, pkt);
    } else if a.slots[idle[0]].state.InUse? {
      SkippedOnce(a, c, pkt);
      PutDoes(Skipped(Behind(a, c), 1), c, pkt);
      EffectBehind(a, FinishPut(a, c, Fetching(pkt)), c, pkt);
    } else {
      FirstIsKept(a, c, pkt);
    }
  }

  // ----- A recycled entry

  /** No CPU before `o` has `x` in its range, and `o` has, if there is such a CPU. */
  ghost predicate IsOwner(cpus: seq<CpuQueue>, x: nat, o: nat) {
    && o <= |cpus| && (o < |cpus| ==> cpus[o].start <= x < cpus[o].end)
    && forall d :: 0 <= d < o ==> !(cpus[d].start <= x < cpus[d].end)
  }

  /** The entry is handled: its slot is INUSE and belongs to a CPU. */
  predicate Handled(a: Area, x: nat, o: nat)
    requires x < |a.slots|
  {
    a.slots[x].state.InUse? && o < |a.cpus|
  }

  /** An index handled is marked USED and goes to the idle queue of its CPU, or is lost and counted if that is
      full. */
  function GivenTo(a: Area, x: nat, o: nat): Area
    requires x < |a.slots| && o < |a.cpus|
  {
    var q, k := a.cpus[o], a.counts.(recycled := (a.counts.recycled + 1) % 0x1_0000_0000_0000_0000);
    a.(slots := a.slots[x := a.slots[x].(state := Used)],
       cpus := if |q.idle| < q.cap then a.cpus[o := q.(idle := q.idle + [x])] else a.cpus,
       counts := if |q.idle| < q.cap then k else k.(putFail := (k.putFail + 1) % 0x1_0000_0000))
  }

  /** Any other entry is counted if its slot is not INUSE, and changes nothing else. */
  function EntryAfter(a: Area, x: nat, o: nat): Area
    requires x < |a.slots|
  {
    if Handled(a, x, o) then GivenTo(a, x, o)
    else if a.slots[x].state.InUse? then a
    else a.(counts := a.counts.(recycleInvalid := (a.counts.recycleInvalid + 1) % 0x1_0000_0000))
  }

  lemma Marks(a: Area, list: seq<nat>, i: nat)
    requires Indexed(a) && Below(list, |a.slots|) && i < |list| && Owner(a.cpus, list[i]) < |a.cpus|
    ensures var x := list[i];
      ConsumerAct(a, Freeing(list, i)) == (a.(slots := a.slots[x := a.slots[x].(state := Used)]), Returning(list, i))
  {
  }

  lemma Returns(a: Area, m: Area, list: seq<nat>, i: nat, o: nat)
    requires Indexed(m) && ConsumerOk(m, Returning(list, i)) && o == Owner(m.cpus, list[i]) && Below(list, |a.slots|)
    requires m == a.(slots := a.slots[list[i] := a.slots[list[i]].(state := Used)])
    ensures ConsumerAct(m, Returning(list, i)) == (GivenTo(a, list[i], o), Recycling(list[i := 0], i + 1))
  {
  }

  lemma FreedDoes(a: Area, list: seq<nat>, i: nat, o: nat)
    requires Indexed(a) && Below(list, |a.slots|) && i < |list| && o == Owner(a.cpus, list[i]) < |a.cpus|
    ensures Indexed(GivenTo(a, list[i], o)) && ConsumerOk(GivenTo(a, list[i], o), Recycling(list[i := 0], i + 1))
    ensures FinishConsumer(a, Freeing(list, i))
         == FinishConsumer(GivenTo(a, list[i], o), Recycling(list[i := 0], i + 1))
  {
    var m := ConsumerAct(a, Freeing(list, i)).0;
    Marks(a, list, i);
    ConsumerGoesOn(a, Freeing(list, i));
    Returns(a, m, list, i, o);
    ConsumerGoesOn(m, Returning(list, i));
  }

  lemma NobodysAct(a: Area, list: seq<nat>, i: nat)
    requires Indexed(a) && Below(list, |a.slots|) && i < |list| && Owner(a.cpus, list[i]) == |a.cpus|
    ensures ConsumerAct(a, Freeing(list, i)) == (a, Recycling(list, i + 1))
  {
  }

  lemma NobodysDoes(a: Area, list: seq<nat>, i: nat)
    requires Indexed(a) && Below(list, |a.slots|) && i < |list| && Owner(a.cpus, list[i]) == |a.cpus|
    ensures FinishConsumer(a, Freeing(list, i)) == FinishConsumer(a, Recycling(list, i + 1))
  {
    NobodysAct(a, list, i);
    ConsumerGoesOn(a, Freeing(list, i));
  }

  /** An entry of any list: what it does to the area, and that it is zeroed exactly if it is handled. */
  lemma EntryDoes(a: Area, list: seq<nat>, i: nat) returns (o: nat)
    requires Indexed(a) && Below(list, |a.slots|) && i < |list|
    ensures IsOwner(a.cpus, list[i], o)
    ensures var b, list' := EntryAfter(a, list[i], o), if Handled(a, list[i], o) then list[i := 0] else list;
      && Indexed(b) && ConsumerOk(b, Recycling(list', i + 1))
      && FinishConsumer(a, Recycling(list, i)) == FinishConsumer(b, Recycling(list', i + 1))
  {
    o := Owner(a.cpus, list[i]);
    ConsumerGoesOn(a, Recycling(list, i));
    if Handled(a, list[i], o) {
      FreedDoes(a, list, i, o);
    } else if a.slots[list[i]].state.InUse? {
      NobodysDoes(a, list, i);
    }
  }
}
