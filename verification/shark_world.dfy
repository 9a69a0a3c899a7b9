/**
 Interleaved runs of the ipshark queue: a put on every CPU and one thread that gets, in small steps. The two
 put counters are incremented by every CPU without a lock; `get_pkts` has one writer.
 */
module SharkWorld {
  import opened Collections
  import opened Packets
  import opened SharedCounter
  import opened SharkQueue
  import opened Words

  /** Where `ip_queue_put` stands on a CPU. `taken` is what `kfifo_put` answered. */
  datatype Putter =
    | Resting
    | Putting(info: KeyInfo)
    | Loading(taken: bool)
    | Storing(taken: bool, seen: nat)
    | Alarming

  /** Where `ip_queue_get` stands: what it has copied and how many more fit. */
  datatype Getter = Away | Scanning(cpu: nat, left: nat, out: seq<KeyInfo>) | Ending(out: seq<KeyInfo>)

  /** What happened on a CPU: packets tried, taken, dropped and got, and its stores to the two counters. */
  datatype Log = Log(
    tried: nat, accepted: seq<KeyInfo>, dropped: nat, got: seq<KeyInfo>, counted: nat, missed: nat)

  /** The stores to the counters, as `SharedCounter` describes them. */
  datatype Tally = Tally(puts: seq<nat>, drops: seq<nat>, marks: seq<nat>)

  /** `returned` is what the last finished get handed its caller; `since` how much each CPU had given before
      the last get began. */
  datatype World = World(
    q: Queues, putters: seq<Putter>, getter: Getter, returned: seq<KeyInfo>, logs: seq<Log>, tally: Tally,
    since: seq<nat>)

  datatype Action = Offer(cpu: nat, info: KeyInfo) | Put(cpu: nat) | Ask(n: nat) | Get

  predicate Shaped(w: World) {
    && |w.putters| == |w.logs| == |w.q.fifos| == |w.tally.marks| == |w.since|
    && (w.getter.Scanning? ==> w.getter.cpu <= |w.q.fifos|)
  }

  predicate Enabled(w: World, act: Action) {
    match act
    case Offer(c, _) => c < |w.putters| && w.putters[c].Resting?
    case Put(c) => c < |w.putters| && !w.putters[c].Resting?
    case Ask(_) => w.getter.Away?
    case Get => !w.getter.Away?
  }

  /** One step of `ip_queue_put`. */
  function PutAct(q: Queues, c: nat, p: Putter): (r: (Queues, Putter))
    requires c < |q.fifos|
    ensures |r.0.fifos| == |q.fifos|
  {
    var f := q.fifos[c];
    match p
    case Resting => (q, Resting)
    case Putting(info) =>
      if |f.items| < IP_FIFO_SIZE then (q.(fifos := q.fifos[c := f.(items := f.items + [info])]), Loading(true))
      else (q, Loading(false))
    case Loading(taken) => (q, Storing(taken, if taken then q.putPkts else q.unQueued))
    case Storing(taken, seen) =>
      (if taken then q.(putPkts := (seen + 1) % U64_MOD) else q.(unQueued := (seen + 1) % U64_MOD), Alarming)
    case Alarming => (q.(fifos := q.fifos[c := f.(alarm := AlarmOf(f))]), Resting)
  }

  function LogPut(g: Log, f: Fifo, p: Putter): Log {
    match p
    case Putting(info) =>
      if |f.items| < IP_FIFO_SIZE then g.(accepted := g.accepted + [info]) else g.(dropped := g.dropped + 1)
    case Storing(taken, _) => if taken then g.(counted := g.counted + 1) else g.(missed := g.missed + 1)
    case _ => g
  }

  function TallyPut(t: Tally, c: nat, p: Putter): (r: Tally)
    requires c < |t.marks|
    ensures |r.marks| == |t.marks|
  {
    match p
    case Loading(taken) => t.(marks := t.marks[c := if taken then |t.puts| else |t.drops|])
    case Storing(taken, _) =>
      if taken then t.(puts := t.puts + [t.marks[c]]) else t.(drops := t.drops + [t.marks[c]])
    case _ => t
  }

  /** One step of `ip_queue_get`. */
  function GetAct(q: Queues, k: Getter): (r: (Queues, Getter))
    requires k.Scanning? ==> k.cpu <= |q.fifos|
    ensures |r.0.fifos| == |q.fifos| && (r.1.Scanning? ==> r.1.cpu <= |q.fifos|)
  {
    match k
    case Away => (q, Away)
    case Scanning(cpu, left, out) =>
      if cpu == |q.fifos| then (q, Ending(out))
      else if q.fifos[cpu].items == [] then (q, Scanning(cpu + 1, left, out))
      else
        var items := q.fifos[cpu].items;
        var m := Min(left, |items|);
        (q.(fifos := q.fifos[cpu := q.fifos[cpu].(items := items[m..])]),
         Scanning(if left - m == 0 then |q.fifos| else cpu + 1, left - m, out + items[..m]))
    case Ending(out) => (q.(getPkts := (q.getPkts + |out|) % U64_MOD), Away)
  }

  function LogGet(w: World): (r: seq<Log>)
    requires Shaped(w)
    ensures |r| == |w.logs|
  {
    match w.getter
    case Scanning(cpu, left, _) =>
      if cpu == |w.q.fifos| then w.logs
      else
        var m := Min(left, |w.q.fifos[cpu].items|);
        w.logs[cpu := w.logs[cpu].(got := w.logs[cpu].got + w.q.fifos[cpu].items[..m])]
    case _ => w.logs
  }

  function Given(logs: seq<Log>): (s: seq<nat>)
    ensures |s| == |logs| && forall c :: 0 <= c < |logs| ==> s[c] == |logs[c].got|
  {
    seq(|logs|, c requires 0 <= c < |logs| => |logs[c].got|)
  }

  function Apply(w: World, act: Action): (r: World)
    requires Shaped(w) && Enabled(w, act)
    ensures Shaped(r) && |r.logs| == |w.logs|
  {
    match act
    case Offer(c, info) =>
      w.(putters := w.putters[c := Putting(info)], logs := w.logs[c := w.logs[c].(tried := w.logs[c].tried + 1)])
    case Put(c) =>
      var r := PutAct(w.q, c, w.putters[c]);
      w.(q := r.0, putters := w.putters[c := r.1],
         logs := w.logs[c := LogPut(w.logs[c], w.q.fifos[c], w.putters[c])], tally := TallyPut(w.tally, c, w.putters[c]))
    case Ask(n) => w.(getter := Scanning(0, n, []), since := Given(w.logs))
    case Get =>
      var r := GetAct(w.q, w.getter);
      w.(q := r.0, getter := r.1, logs := LogGet(w),
         returned := if w.getter.Ending? then w.getter.out else w.returned)
  }

  ghost predicate Run(w: World, acts: seq<Action>)
    requires Shaped(w)
    decreases |acts|
  {
    acts == [] || (Enabled(w, acts[0]) && Run(Apply(w, acts[0]), acts[1..]))
  }

  ghost function After(w: World, acts: seq<Action>): (r: World)
    requires Shaped(w) && Run(w, acts)
    ensures Shaped(r) && |r.logs| == |w.logs|
    decreases |acts|
  {
    if acts == [] then w else After(Apply(w, acts[0]), acts[1..])
  }

  /** Right after `ip_queue_init`, when the counters are zero: `ip_queue_exit` clears them. */
  function Start(ncpu: nat): World {
    World(Queues(seq(ncpu, _ => Fifo([], false)), 0, 0, 0), seq(ncpu, _ => Resting), Away, [],
          seq(ncpu, _ => Log(0, [], 0, [], 0, 0)), Tally([], [], seq(ncpu, _ => 0)), seq(ncpu, _ => 0))
  }

  // ----- One CPU

  function PendingPut(p: Putter): nat { if p.Putting? then 1 else 0 }

  /** Taken but not yet counted; dropped but not yet counted. */
  function Late(p: Putter): nat { if (p.Loading? || p.Storing?) && p.taken then 1 else 0 }

  function LateDrop(p: Putter): nat { if (p.Loading? || p.Storing?) && !p.taken then 1 else 0 }

  /** First in, first out: what was taken on a CPU is what was got from it, then what waits. */
  ghost predicate CpuFits(f: Fifo, p: Putter, g: Log) {
    && g.accepted == g.got + f.items && |f.items| <= IP_FIFO_SIZE
    && g.tried == |g.accepted| + g.dropped + PendingPut(p)
    && |g.accepted| == g.counted + Late(p)
    && g.dropped == g.missed + LateDrop(p)
  }

  ghost predicate AllFit(w: World)
    requires Shaped(w)
  {
    forall c :: 0 <= c < |w.logs| ==> CpuFits(w.q.fifos[c], w.putters[c], w.logs[c])
  }

  lemma PutFits(q: Queues, c: nat, p: Putter, g: Log)
    requires c < |q.fifos| && CpuFits(q.fifos[c], p, g)
    ensures var r := PutAct(q, c, p);
      && CpuFits(r.0.fifos[c], r.1, LogPut(g, q.fifos[c], p))
      && forall d :: 0 <= d < |q.fifos| && d != c ==> r.0.fifos[d] == q.fifos[d]
  {
    if p.Putting? {
      Associate(g.got, q.fifos[c].items, [p.info]);
    }
  }

  lemma TakenFits(f: Fifo, p: Putter, g: Log, m: nat)
    requires CpuFits(f, p, g) && m <= |f.items|
    ensures CpuFits(f.(items := f.items[m..]), p, g.(got := g.got + f.items[..m]))
  {
    assert f.items == f.items[..m] + f.items[m..];
    Associate(g.got, f.items[..m], f.items[m..]);
  }

  lemma GetFits(w: World)
    requires Shaped(w) && AllFit(w) && Enabled(w, Get)
    ensures AllFit(Apply(w, Get))
  {
    if w.getter.Scanning? && w.getter.cpu < |w.q.fifos| {
      var c := w.getter.cpu;
      assert CpuFits(w.q.fifos[c], w.putters[c], w.logs[c]);
      TakenFits(w.q.fifos[c], w.putters[c], w.logs[c], Min(w.getter.left, |w.q.fifos[c].items|));
      assert w.q.fifos[c].items == [] ==> w.logs[c].got + w.q.fifos[c].items[..0] == w.logs[c].got;
    }
  }

  lemma StepFits(w: World, act: Action)
    requires Shaped(w) && AllFit(w) && Enabled(w, act)
    ensures AllFit(Apply(w, act))
  {
    match act
    case Put(c) =>
      assert CpuFits(w.q.fifos[c], w.putters[c], w.logs[c]);
      PutFits(w.q, c, w.putters[c], w.logs[c]);
    case Get => GetFits(w);
    case _ =>
  }

  // ----- What a get returns

  ghost predicate NoLess(logs: seq<Log>, since: seq<nat>) {
    |since| == |logs| && forall c :: 0 <= c < |logs| ==> since[c] <= |logs[c].got|
  }

  /** What each CPU gave past `since`, CPU by CPU. */
  ghost function GivenSince(logs: seq<Log>, since: seq<nat>): seq<KeyInfo>
    requires NoLess(logs, since)
  {
    if logs == [] then [] else logs[0].got[since[0]..] + GivenSince(logs[1..], since[1..])
  }

  lemma {:induction false} NothingGiven(logs: seq<Log>, since: seq<nat>)
    requires NoLess(logs, since) && forall c :: 0 <= c < |logs| ==> since[c] == |logs[c].got|
    ensures GivenSince(logs, since) == []
  {
    if logs != [] {
      NothingGiven(logs[1..], since[1..]);
    }
  }

  lemma TailOf(s: seq<KeyInfo>, more: seq<KeyInfo>, n: nat)
    requires n <= |s|
    ensures (s + more)[n..] == s[n..] + more
  {
  }

  lemma {:induction false} GivesMore(logs: seq<Log>, since: seq<nat>, c: nat, g: Log, more: seq<KeyInfo>)
    requires NoLess(logs, since) && c < |logs| && g.got == logs[c].got + more
    requires forall d :: c < d < |logs| ==> since[d] == |logs[d].got|
    ensures NoLess(logs[c := g], since) && GivenSince(logs[c := g], since) == GivenSince(logs, since) + more
    decreases c
  {
    if c == 0 {
      NothingGiven(logs[1..], since[1..]);
      TailOf(logs[0].got, more, since[0]);
      assert logs[c := g][1..] == logs[1..];
    } else {
      GivesMore(logs[1..], since[1..], c - 1, g, more);
      assert logs[c := g][1..] == logs[1..][c - 1 := g];
      Associate(logs[0].got[since[0]..], GivenSince(logs[1..], since[1..]), more);
    }
  }

  lemma {:induction false} SameGiven(logs: seq<Log>, logs': seq<Log>, since: seq<nat>)
    requires NoLess(logs, since) && |logs'| == |logs|
    requires forall c :: 0 <= c < |logs| ==> logs'[c].got == logs[c].got
    ensures NoLess(logs', since) && GivenSince(logs', since) == GivenSince(logs, since)
  {
    if logs != [] {
      SameGiven(logs[1..], logs'[1..], since[1..]);
    }
  }

  /** What the get in progress has copied, or the last one returned. */
  function Copied(w: World): seq<KeyInfo> { if w.getter.Away? then w.returned else w.getter.out }

  ghost predicate Exposed(w: World)
    requires Shaped(w)
  {
    && NoLess(w.logs, w.since) && Copied(w) == GivenSince(w.logs, w.since)
    && (w.getter.Scanning? ==> forall c :: w.getter.cpu <= c < |w.logs| ==> w.since[c] == |w.logs[c].got|)
  }

  lemma GetExposes(w: World)
    requires Shaped(w) && Exposed(w) && Enabled(w, Get)
    ensures Exposed(Apply(w, Get))
  {
    if w.getter.Scanning? && w.getter.cpu < |w.q.fifos| {
      var c, v := w.getter.cpu, Apply(w, Get);
      var more := w.q.fifos[c].items[..Min(w.getter.left, |w.q.fifos[c].items|)];
      GivesMore(w.logs, w.since, c, v.logs[c], more);
      assert w.q.fifos[c].items == [] ==> w.getter.out + more == w.getter.out;
    }
  }

  lemma StepExposes(w: World, act: Action)
    requires Shaped(w) && Exposed(w) && Enabled(w, act)
    ensures Exposed(Apply(w, act))
  {
    var v := Apply(w, act);
    match act
    case Get => GetExposes(w);
    case Ask(_) => NothingGiven(v.logs, v.since);
    case _ => SameGiven(w.logs, v.logs, w.since);
  }

  // ----- Counters

  function Total(f: Log -> nat, logs: seq<Log>): nat {
    if logs == [] then 0 else f(logs[0]) + Total(f, logs[1..])
  }

  function CountedOf(g: Log): nat { g.counted }
  function MissedOf(g: Log): nat { g.missed }
  function GotOf(g: Log): nat { |g.got| }
  function DroppedOf(g: Log): nat { g.dropped }
  function TriedOf(g: Log): nat { g.tried }

  lemma {:induction false} TotalUpdate(f: Log -> nat, logs: seq<Log>, c: nat, g: Log)
    requires c < |logs|
    ensures Total(f, logs[c := g]) == Total(f, logs) - f(logs[c]) + f(g)
  {
    if c == 0 {
      assert logs[c := g][1..] == logs[1..];
    } else {
      assert logs[c := g][1..] == logs[1..][c - 1 := g];
      TotalUpdate(f, logs[1..], c - 1, g);
    }
  }

  lemma Totals(logs: seq<Log>, c: nat, g: Log)
    requires c < |logs|
    ensures Total(CountedOf, logs[c := g]) == Total(CountedOf, logs) - logs[c].counted + g.counted
    ensures Total(MissedOf, logs[c := g]) == Total(MissedOf, logs) - logs[c].missed + g.missed
    ensures Total(GotOf, logs[c := g]) == Total(GotOf, logs) - |logs[c].got| + |g.got|
  {
    TotalUpdate(CountedOf, logs, c, g);
    TotalUpdate(MissedOf, logs, c, g);
    TotalUpdate(GotOf, logs, c, g);
  }

  /** A value in hand was loaded when the CPU's mark says. */
  ghost predicate SeenAt(p: Putter, t: Tally, mark: nat) {
    p.Storing? ==> Loaded(p.seen, 0, U64_MOD, if p.taken then t.puts else t.drops, mark)
  }

  ghost predicate SharedCounted(q: Queues, t: Tally, putters: seq<Putter>)
    requires |putters| == |t.marks|
  {
    && Shows(q.putPkts, 0, U64_MOD, t.puts) && Shows(q.unQueued, 0, U64_MOD, t.drops)
    && forall c :: 0 <= c < |putters| ==> SeenAt(putters[c], t, t.marks[c])
  }

  /** Packets got but not yet in `get_pkts`. */
  function Uncounted(k: Getter): nat { if k.Away? then 0 else |k.out| }

  ghost predicate CountsRight(q: Queues, t: Tally, putters: seq<Putter>, k: Getter, logs: seq<Log>)
    requires |putters| == |t.marks|
  {
    && SharedCounted(q, t, putters)
    && |t.puts| == Total(CountedOf, logs) && |t.drops| == Total(MissedOf, logs)
    && Total(GotOf, logs) >= Uncounted(k)
    && q.getPkts == (Total(GotOf, logs) - Uncounted(k)) % U64_MOD
  }

  ghost predicate Counted(w: World)
    requires Shaped(w)
  {
    CountsRight(w.q, w.tally, w.putters, w.getter, w.logs)
  }

  lemma LoadKeeps(q: Queues, t: Tally, putters: seq<Putter>, c: nat)
    requires |putters| == |t.marks| && SharedCounted(q, t, putters) && c < |putters| && putters[c].Loading?
    requires c < |q.fifos|
    ensures SharedCounted(q, TallyPut(t, c, putters[c]), putters[c := PutAct(q, c, putters[c]).1])
  {
  }

  lemma OthersLoaded(t: Tally, putters: seq<Putter>, c: nat, p: Putter, q: nat, m: nat)
    requires |putters| == |t.marks| && c < |putters| && q <= |t.puts| && m <= |t.drops| && !p.Storing?
    requires forall d :: 0 <= d < |putters| ==> SeenAt(putters[d], t, t.marks[d])
    ensures forall d :: 0 <= d < |putters| ==>
      && SeenAt(putters[c := p][d], t.(puts := t.puts + [q]), t.marks[d])
      && SeenAt(putters[c := p][d], t.(drops := t.drops + [m]), t.marks[d])
  {
    forall d | 0 <= d < |putters| && d != c
      ensures SeenAt(putters[d], t.(puts := t.puts + [q]), t.marks[d])
      ensures SeenAt(putters[d], t.(drops := t.drops + [m]), t.marks[d])
    {
      if putters[d].Storing? {
        if putters[d].taken {
          StaysLoaded(putters[d].seen, 0, U64_MOD, t.puts, t.marks[d], q);
        } else {
          StaysLoaded(putters[d].seen, 0, U64_MOD, t.drops, t.marks[d], m);
        }
      }
    }
  }

  lemma StoreKeeps(q: Queues, t: Tally, putters: seq<Putter>, c: nat)
    requires |putters| == |t.marks| && SharedCounted(q, t, putters) && c < |putters| && putters[c].Storing?
    requires c < |q.fifos|
    ensures var r := PutAct(q, c, putters[c]); SharedCounted(r.0, TallyPut(t, c, putters[c]), putters[c := r.1])
  {
    var p, mark := putters[c], t.marks[c];
    assert SeenAt(p, t, mark);
    StoreShows(p.seen, 0, U64_MOD, if p.taken then t.puts else t.drops, mark);
    OthersLoaded(t, putters, c, Alarming, if p.taken then mark else 0, if p.taken then 0 else mark);
  }

  lemma ElseKeeps(q: Queues, q': Queues, t: Tally, putters: seq<Putter>, c: nat, p: Putter)
    requires |putters| == |t.marks| && SharedCounted(q, t, putters) && c < |putters| && !p.Storing?
    requires q'.putPkts == q.putPkts && q'.unQueued == q.unQueued
    ensures SharedCounted(q', t, putters[c := p])
  {
  }

  lemma PutShared(q: Queues, t: Tally, putters: seq<Putter>, c: nat)
    requires |putters| == |t.marks| == |q.fifos| && SharedCounted(q, t, putters) && c < |putters|
    ensures var r := PutAct(q, c, putters[c]); SharedCounted(r.0, TallyPut(t, c, putters[c]), putters[c := r.1])
  {
    if putters[c].Loading? {
      LoadKeeps(q, t, putters, c);
    } else if putters[c].Storing? {
      StoreKeeps(q, t, putters, c);
    } else {
      var r := PutAct(q, c, putters[c]);
      ElseKeeps(q, r.0, t, putters, c, r.1);
    }
  }

  lemma PutTotals(f: Fifo, t: Tally, p: Putter, logs: seq<Log>, c: nat)
    requires c < |t.marks| && c < |logs|
    requires |t.puts| == Total(CountedOf, logs) && |t.drops| == Total(MissedOf, logs)
    ensures var t', logs' := TallyPut(t, c, p), logs[c := LogPut(logs[c], f, p)];
      && |t'.puts| == Total(CountedOf, logs') && |t'.drops| == Total(MissedOf, logs')
      && Total(GotOf, logs') == Total(GotOf, logs)
  {
    Totals(logs, c, LogPut(logs[c], f, p));
  }

  lemma PutCounts(q: Queues, t: Tally, putters: seq<Putter>, k: Getter, logs: seq<Log>, c: nat)
    requires |putters| == |t.marks| == |q.fifos| == |logs| && CountsRight(q, t, putters, k, logs) && c < |putters|
    ensures var r := PutAct(q, c, putters[c]);
      CountsRight(r.0, TallyPut(t, c, putters[c]), putters[c := r.1], k,
                  logs[c := LogPut(logs[c], q.fifos[c], putters[c])])
  {
    PutShared(q, t, putters, c);
    PutTotals(q.fifos[c], t, putters[c], logs, c);
  }

  lemma OfferCounts(q: Queues, t: Tally, putters: seq<Putter>, k: Getter, logs: seq<Log>, c: nat, info: KeyInfo)
    requires |putters| == |t.marks| == |logs| && CountsRight(q, t, putters, k, logs) && c < |putters|
    ensures CountsRight(q, t, putters[c := Putting(info)], k, logs[c := logs[c].(tried := logs[c].tried + 1)])
  {
    ElseKeeps(q, q, t, putters, c, Putting(info));
    Totals(logs, c, logs[c].(tried := logs[c].tried + 1));
  }

  lemma GetCounted(w: World)
    requires Shaped(w) && Counted(w) && Enabled(w, Get)
    ensures Counted(Apply(w, Get))
  {
    match w.getter
    case Scanning(cpu, left, out) =>
      if cpu < |w.q.fifos| {
        var m := Min(left, |w.q.fifos[cpu].items|);
        Totals(w.logs, cpu, w.logs[cpu].(got := w.logs[cpu].got + w.q.fifos[cpu].items[..m]));
      }
    case Ending(out) => WrappedIn(Total(GotOf, w.logs) - |out|, |out|, U64_MOD);
  }

  lemma StepCounted(w: World, act: Action)
    requires Shaped(w) && Counted(w) && Enabled(w, act)
    ensures Counted(Apply(w, act))
  {
    match act
    case Offer(c, info) => OfferCounts(w.q, w.tally, w.putters, w.getter, w.logs, c, info);
    case Put(c) => PutCounts(w.q, w.tally, w.putters, w.getter, w.logs, c);
    case Ask(_) =>
    case Get => GetCounted(w);
  }

  // ----- Every run

  ghost predicate Inv(w: World)
    requires Shaped(w)
  {
    AllFit(w) && Exposed(w) && Counted(w)
  }

  lemma {:induction false} Zeroes(f: Log -> nat, n: nat)
    requires f(Log(0, [], 0, [], 0, 0)) == 0
    ensures Total(f, seq(n, _ => Log(0, [], 0, [], 0, 0))) == 0
  {
    if n > 0 {
      Zeroes(f, n - 1);
      assert seq(n, _ => Log(0, [], 0, [], 0, 0))[1..] == seq(n - 1, _ => Log(0, [], 0, [], 0, 0));
    }
  }

  lemma StartCounted(ncpu: nat)
    ensures Counted(Start(ncpu))
  {
    Zeroes(CountedOf, ncpu);
    Zeroes(MissedOf, ncpu);
    Zeroes(GotOf, ncpu);
    assert Chain([], 0) == {};
  }

  lemma StartExposed(ncpu: nat)
    ensures Exposed(Start(ncpu))
  {
    NothingGiven(Start(ncpu).logs, Start(ncpu).since);
  }

  lemma StartInv(ncpu: nat)
    ensures Shaped(Start(ncpu)) && Inv(Start(ncpu))
  {
    StartCounted(ncpu);
    StartExposed(ncpu);
  }

  lemma {:induction false} RunInv(w: World, acts: seq<Action>)
    requires Shaped(w) && Inv(w) && Run(w, acts)
    ensures Inv(After(w, acts))
    decreases |acts|
  {
    if acts != [] {
      StepFits(w, acts[0]);
      StepExposes(w, acts[0]);
      StepCounted(w, acts[0]);
      RunInv(Apply(w, acts[0]), acts[1..]);
    }
  }

  ghost function Reached(ncpu: nat, acts: seq<Action>): (w: World)
    requires Run(Start(ncpu), acts)
    ensures Shaped(w) && |w.logs| == ncpu
  {
    After(Start(ncpu), acts)
  }

  /** Over every interleaving, on every CPU what was taken is what was got, then what waits, in order; every
      try was taken, dropped, or is being made. */
  lemma TakenIsGotThenWaits(ncpu: nat, acts: seq<Action>, c: nat)
    requires Run(Start(ncpu), acts) && c < ncpu
    ensures var w := Reached(ncpu, acts);
      && w.logs[c].accepted == w.logs[c].got + w.q.fifos[c].items
      && w.logs[c].tried == |w.logs[c].accepted| + w.logs[c].dropped + PendingPut(w.putters[c])
  {
    StartInv(ncpu);
    RunInv(Start(ncpu), acts);
    assert CpuFits(Reached(ncpu, acts).q.fifos[c], Reached(ncpu, acts).putters[c], Reached(ncpu, acts).logs[c]);
  }

  /** What the last get returned, or the one under way has copied, is what the CPUs gave since it began, CPU
      by CPU, each in order. */
  lemma ReturnedIsGiven(ncpu: nat, acts: seq<Action>)
    requires Run(Start(ncpu), acts)
    ensures Exposed(Reached(ncpu, acts))
  {
    StartInv(ncpu);
    RunInv(Start(ncpu), acts);
  }
}
