/**
 Interleaved runs of the ipshark2 packet queue: one producer per CPU, a thread that fetches, a thread that
 recycles, and the slot memory between them, together with a log of what has been accepted and delivered.
 A run is any sequence of the small steps of `SlotArea`, in any order the parties allow.
 */
module SlotWorld {
  import opened Packets
  import opened SlotArea

  /** What has happened on one CPU since creation. `held` maps every index the consumer holds to the packet
      it was handed; an entry of `accepted` pairs slot and packet; `counted` and `missed` are its stores to
      `queue_times` and `getfail`. */
  datatype Log = Log(
    offered: nat, dropped: nat,
    accepted: seq<(nat, KeyInfo)>, delivered: seq<(nat, KeyInfo)>,
    held: map<nat, KeyInfo>, returned: nat, counted: nat, missed: nat)

  /** The stores to the counters all CPUs share, as `SharedCounter` describes them; `marks[c]` is how many
      there were at the last load of CPU `c`. */
  datatype Tally = Tally(queued: seq<nat>, missed: seq<nat>, marks: seq<nat>)

  /** How much each CPU had delivered when the last fetch began, and what was freed since. */
  datatype LastFetch = LastFetch(since: seq<nat>, freed: set<nat>)

  /** `base` are the counters as creation found them. */
  datatype World = World(
    area: Area, producers: seq<Producer>, mover: Consumer, recycler: Consumer, logs: seq<Log>,
    tally: Tally, last: LastFetch, base: Counts)

  datatype Action =
    | Offer(cpu: nat, pkt: KeyInfo)
    | Produce(cpu: nat)
    | Fetch
    | MoveOn
    | Recycle(list: seq<nat>)
    | RecycleOn

  predicate Moves(k: Consumer) { k.Quiet? || k.Moving? }

  ghost predicate Shaped(w: World) {
    && Indexed(w.area) && Ranges(w.area)
    && |w.producers| == |w.logs| == |w.area.cpus| == |w.tally.marks| == |w.last.since|
    && ConsumerOk(w.area, w.mover) && Moves(w.mover)
    && ConsumerOk(w.area, w.recycler) && !w.recycler.Moving?
    && forall c :: 0 <= c < |w.producers| ==> ProducerOk(w.area, w.producers[c])
  }

  ghost predicate Enabled(w: World, act: Action) {
    match act
    case Offer(c, _) => c < |w.producers| && w.producers[c].Resting?
    case Produce(c) => c < |w.producers| && !w.producers[c].Resting?
    case Fetch => w.mover.Quiet?
    case MoveOn => w.mover.Moving?
    case Recycle(list) => w.recycler.Quiet? && Below(list, |w.area.slots|)
    case RecycleOn => !w.recycler.Quiet?
  }

  /** The consumer's side of the protocol: an entry it is about to recycle that reads INUSE is
      one it holds. Stale and repeated entries that read otherwise are allowed. */
  ghost predicate Disciplined(w: World, act: Action)
    requires Shaped(w)
  {
    act.RecycleOn? && w.recycler.Recycling? && w.recycler.i < |w.recycler.list| ==>
      var x := w.recycler.list[w.recycler.i];
      w.area.slots[x].state.InUse? ==> x in w.logs[Owner(w.area.cpus, x)].held
  }

  /** Pairs each index with the packet its slot holds. */
  function Tag(s: seq<nat>, slots: seq<Slot>): seq<(nat, KeyInfo)>
    requires Below(s, |slots|)
  {
    seq(|s|, i requires 0 <= i < |s| => (s[i], slots[s[i]].info))
  }

  function Handed(s: seq<nat>, slots: seq<Slot>): map<nat, KeyInfo>
    requires Below(s, |slots|)
  {
    map x | x in s :: slots[x].info
  }

  function LogProduce(g: Log, q: CpuQueue, p: Producer): Log {
    match p
    case Fetching(_) => if q.idle == [] then g.(dropped := g.dropped + 1) else g
    case Queueing(pkt, idx) =>
      if |q.ready| < q.cap then g.(accepted := g.accepted + [(idx, pkt)]) else g
    case MissStoring(_) => g.(missed := g.missed + 1)
    case CountStoring(_) => g.(counted := g.counted + 1)
    case _ => g
  }

  function TallyProduce(t: Tally, c: nat, p: Producer): (r: Tally)
    requires c < |t.marks|
    ensures |r.marks| == |t.marks|
  {
    match p
    case MissLoading => t.(marks := t.marks[c := |t.missed|])
    case MissStoring(_) => t.(missed := t.missed + [t.marks[c]])
    case CountLoading => t.(marks := t.marks[c := |t.queued|])
    case CountStoring(_) => t.(queued := t.queued + [t.marks[c]])
    case _ => t
  }

  function LogMove(g: Log, q: CpuQueue, n: nat, slots: seq<Slot>): Log
    requires n <= |q.ready| && Below(q.ready, |slots|)
  {
    g.(delivered := g.delivered + Tag(q.ready[..n], slots), held := g.held + Handed(q.ready[..n], slots))
  }

  function MovedLogs(w: World): (r: seq<Log>)
    requires Shaped(w)
    ensures |r| == |w.logs|
  {
    var a := w.area;
    match w.mover
    case Moving(cpu, copied, num) =>
      if cpu == |a.cpus| || a.cpus[cpu].ready == [] then w.logs
      else
        var n := if |a.cpus[cpu].ready| < num then |a.cpus[cpu].ready| else num;
        w.logs[cpu := LogMove(w.logs[cpu], a.cpus[cpu], n, a.slots)]
    case _ => w.logs
  }

  function RecycledLogs(w: World): (r: seq<Log>)
    requires Shaped(w)
    ensures |r| == |w.logs|
  {
    var a := w.area;
    match w.recycler
    case Freeing(list, i) =>
      var o := Owner(a.cpus, list[i]);
      w.logs[o := w.logs[o].(held := w.logs[o].held - {list[i]})]
    case Returning(list, i) =>
      var o := Owner(a.cpus, list[i]);
      w.logs[o := w.logs[o].(returned := w.logs[o].returned + 1)]
    case _ => w.logs
  }

  function Delivered(logs: seq<Log>): (s: seq<nat>)
    ensures |s| == |logs| && forall c :: 0 <= c < |logs| ==> s[c] == |logs[c].delivered|
  {
    seq(|logs|, c requires 0 <= c < |logs| => |logs[c].delivered|)
  }

  function Produced(w: World, c: nat): (r: World)
    requires Shaped(w) && c < |w.producers|
    ensures Shaped(r) && SameRanges(w.area, r.area)
  {
    var r := ProducerAct(w.area, c, w.producers[c]);
    SameRangesKeepsRanges(w.area, r.0);
    OwnersAgree(w.area, r.0, w.recycler);
    w.(area := r.0, producers := w.producers[c := r.1],
       logs := w.logs[c := LogProduce(w.logs[c], w.area.cpus[c], w.producers[c])],
       tally := TallyProduce(w.tally, c, w.producers[c]))
  }

  function MovedOn(w: World): (r: World)
    requires Shaped(w)
    ensures Shaped(r) && SameRanges(w.area, r.area)
  {
    var r := ConsumerAct(w.area, w.mover);
    KindStays(w.area, w.mover);
    SameRangesKeepsRanges(w.area, r.0);
    OwnersAgree(w.area, r.0, w.recycler);
    w.(area := r.0, mover := r.1, logs := MovedLogs(w))
  }

  function RecycledOn(w: World): (r: World)
    requires Shaped(w)
    ensures Shaped(r) && SameRanges(w.area, r.area)
  {
    var r := ConsumerAct(w.area, w.recycler);
    KindStays(w.area, w.recycler);
    SameRangesKeepsRanges(w.area, r.0);
    OwnersAgree(w.area, r.0, w.mover);
    w.(area := r.0, recycler := r.1, logs := RecycledLogs(w),
       last := if w.recycler.Freeing?
               then w.last.(freed := w.last.freed + {w.recycler.list[w.recycler.i]}) else w.last)
  }

  function Apply(w: World, act: Action): (r: World)
    requires Shaped(w) && Enabled(w, act)
    ensures Shaped(r) && SameRanges(w.area, r.area) && r.base == w.base
  {
    match act
    case Offer(c, pkt) =>
      w.(producers := w.producers[c := Fetching(pkt)],
         logs := w.logs[c := w.logs[c].(offered := w.logs[c].offered + 1)])
    case Produce(c) => Produced(w, c)
    case Fetch => w.(mover := Moving(0, 0, IDX_ARRAY_SIZE), last := LastFetch(Delivered(w.logs), {}))
    case MoveOn => MovedOn(w)
    case Recycle(list) => w.(recycler := Recycling(list, 0))
    case RecycleOn => RecycledOn(w)
  }

  lemma ProducedFields(w: World, c: nat)
    requires Shaped(w) && Enabled(w, Produce(c))
    ensures var v, r := Apply(w, Produce(c)), ProducerAct(w.area, c, w.producers[c]);
      && v.area == r.0 && v.producers == w.producers[c := r.1]
      && v.logs == w.logs[c := LogProduce(w.logs[c], w.area.cpus[c], w.producers[c])]
      && v.recycler == w.recycler && v.mover == w.mover
  {
  }

  lemma RecycledFields(w: World)
    requires Shaped(w) && Enabled(w, RecycleOn)
    ensures var v, r := Apply(w, RecycleOn), ConsumerAct(w.area, w.recycler);
      && v.area == r.0 && v.recycler == r.1 && v.producers == w.producers && v.logs == RecycledLogs(w)
  {
  }

  lemma OwnersAgree(a: Area, b: Area, k: Consumer)
    requires SameRanges(a, b) && ConsumerOk(a, k)
    ensures ConsumerOk(b, k)
  {
    if k.Returning? {
      OwnerSame(a.cpus, b.cpus, k.list[k.i]);
    }
  }

  /** `acts` can be taken from `w`, one after the other, whatever the consumer recycles. */
  ghost predicate FreeRun(w: World, acts: seq<Action>)
    requires Shaped(w)
    decreases |acts|
  {
    acts == [] || (Enabled(w, acts[0]) && FreeRun(Apply(w, acts[0]), acts[1..]))
  }

  ghost function After(w: World, acts: seq<Action>): (r: World)
    requires Shaped(w) && FreeRun(w, acts)
    ensures Shaped(r)
    decreases |acts|
  {
    if acts == [] then w else After(Apply(w, acts[0]), acts[1..])
  }

  ghost predicate KeepsSide(w: World, acts: seq<Action>)
    requires Shaped(w) && FreeRun(w, acts)
    decreases |acts|
  {
    acts == [] || (Disciplined(w, acts[0]) && KeepsSide(Apply(w, acts[0]), acts[1..]))
  }

  /** The consumer keeps its side all along. */
  ghost predicate Run(w: World, acts: seq<Action>)
    requires Shaped(w)
  {
    FreeRun(w, acts) && KeepsSide(w, acts)
  }

  lemma Prepended(w: World, act: Action, rest: seq<Action>)
    requires Shaped(w) && Enabled(w, act) && FreeRun(Apply(w, act), rest)
    ensures FreeRun(w, [act] + rest) && After(w, [act] + rest) == After(Apply(w, act), rest)
    ensures Disciplined(w, act) && KeepsSide(Apply(w, act), rest) ==> KeepsSide(w, [act] + rest)
  {
    assert ([act] + rest)[1..] == rest;
  }

  lemma HeadAndTail(w: World, acts: seq<Action>)
    requires Shaped(w) && FreeRun(w, acts) && acts != []
    ensures Enabled(w, acts[0]) && FreeRun(Apply(w, acts[0]), acts[1..])
    ensures After(w, acts) == After(Apply(w, acts[0]), acts[1..])
    ensures KeepsSide(w, acts) ==> Disciplined(w, acts[0]) && KeepsSide(Apply(w, acts[0]), acts[1..])
  {
  }

  lemma Regroup<T>(s: seq<T>, t: seq<T>)
    requires s != []
    ensures s + t == [s[0]] + (s[1..] + t)
  {
  }

  /** One run after another. */
  lemma {:induction false} RunsJoin(w: World, acts: seq<Action>, more: seq<Action>)
    requires Shaped(w) && FreeRun(w, acts) && FreeRun(After(w, acts), more)
    ensures FreeRun(w, acts + more) && After(w, acts + more) == After(After(w, acts), more)
    ensures KeepsSide(w, acts) && KeepsSide(After(w, acts), more) ==> KeepsSide(w, acts + more)
    decreases |acts|
  {
    if acts == [] {
      assert acts + more == more;
    } else {
      HeadAndTail(w, acts);
      RunsJoin(Apply(w, acts[0]), acts[1..], more);
      Prepended(w, acts[0], acts[1..] + more);
      Regroup(acts, more);
    }
  }
}
