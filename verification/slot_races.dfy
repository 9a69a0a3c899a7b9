/**
 Two calls of the ipshark2 device at once. The calls take no lock: two recycles may both find an index INUSE
 before either marks it, and two fetches write to the same index array. Each step of the FIFOs is taken whole.
 */
module SlotRaces {
  import opened SlotArea
  import opened SlotTheorems

  datatype Pair = Pair(area: Area, first: Consumer, second: Consumer)

  ghost predicate Shaped(p: Pair) {
    Indexed(p.area) && Ranges(p.area) && ConsumerOk(p.area, p.first) && ConsumerOk(p.area, p.second)
  }

  /** A step of the first call, or of the second. */
  function Step(p: Pair, first: bool): (r: Pair)
    requires Shaped(p)
    ensures Shaped(r) && SameRanges(p.area, r.area)
  {
    var r := ConsumerAct(p.area, if first then p.first else p.second);
    SameRangesKeepsRanges(p.area, r.0);
    StaysOk(p.area, r.0, if first then p.second else p.first);
    if first then Pair(r.0, r.1, p.second) else Pair(r.0, p.first, r.1)
  }

  lemma StaysOk(a: Area, b: Area, k: Consumer)
    requires SameRanges(a, b) && ConsumerOk(a, k)
    ensures ConsumerOk(b, k)
  {
    if k.Returning? {
      OwnerSame(a.cpus, b.cpus, k.list[k.i]);
    }
  }

  function After(p: Pair, turns: seq<bool>): (r: Pair)
    requires Shaped(p)
    ensures Shaped(r)
    decreases |turns|
  {
    if turns == [] then p else After(Step(p, turns[0]), turns[1..])
  }

  // ----- Two recycles of one index

  /** At some moment both have found the index INUSE and neither has marked it. */
  predicate BothFound(p: Pair, turns: seq<bool>)
    requires Shaped(p)
    decreases |turns|
  {
    || (p.first.Freeing? && p.second.Freeing?)
    || (turns != [] && BothFound(Step(p, turns[0]), turns[1..]))
  }

  /** Where a recycle of `[s]` may stand. */
  predicate Stands(k: Consumer, s: nat) {
    k == Recycling([s], 0) || k == Freeing([s], 0) || k == Returning([s], 0) || Done(k)
  }

  predicate Done(k: Consumer) { k.Quiet? || (k.Recycling? && |k.list| == k.i == 1) }

  predicate Fresh(k: Consumer) { k.Recycling? && k.i == 0 }

  /** It will still return the index, as it has found it INUSE. */
  function Pending(k: Consumer): nat { if k.Freeing? || k.Returning? then 1 else 0 }

  /** The index is INUSE until one of the two marks it. */
  predicate Racing(inUse: bool, k: Consumer, l: Consumer, s: nat) {
    && Stands(k, s) && Stands(l, s)
    && if inUse then (Fresh(k) || k.Freeing?) && (Fresh(l) || l.Freeing?) else !(k.Freeing? && l.Freeing?)
  }

  /** How often the index may still be returned. */
  function Left(inUse: bool, k: Consumer, l: Consumer): nat {
    if inUse then 2 else Pending(k) + Pending(l)
  }

  predicate InUse(p: Pair, s: nat)
    requires s < |p.area.slots|
  {
    p.area.slots[s].state.InUse?
  }

  /** `s` belongs to CPU `c`, whose idle queue has room for it. */
  ghost predicate RacingAt(p: Pair, c: nat, s: nat) {
    && Shaped(p) && c < |p.area.cpus| && s < |p.area.slots| && Owner(p.area.cpus, s) == c
    && Racing(InUse(p, s), p.first, p.second, s)
    && |p.area.cpus[c].idle| + Left(InUse(p, s), p.first, p.second) <= p.area.cpus[c].cap
  }

  function Next(k: Consumer, inUse: bool): Consumer {
    match k
    case Recycling(list, i) =>
      if i == |list| then Quiet(list) else if inUse then Freeing(list, i) else Recycling(list, i + 1)
    case Freeing(list, i) => Returning(list, i)
    case Returning(list, i) => if i < |list| then Recycling(list[i := 0], i + 1) else k
    case _ => k
  }

  /** What a step of a recycle of `[s]` does to the slot and to idle. */
  ghost predicate Acts(a: Area, k: Consumer, c: nat, s: nat)
    requires Indexed(a) && ConsumerOk(a, k) && c < |a.cpus| && s < |a.slots|
  {
    var r, inUse := ConsumerAct(a, k), a.slots[s].state.InUse?;
    && r.1 == Next(k, inUse) && SameRanges(a, r.0)
    && (r.0.slots[s].state.InUse? <==> inUse && !k.Freeing?)
    && r.0.cpus[c].idle == a.cpus[c].idle + if k.Returning? then [s] else []
  }

  lemma GivesBack(a: Area, c: nat, s: nat)
    requires Indexed(a) && ConsumerOk(a, Returning([s], 0)) && c < |a.cpus| && s < |a.slots|
    requires Owner(a.cpus, s) == c && |a.cpus[c].idle| < a.cpus[c].cap
    ensures Acts(a, Returning([s], 0), c, s)
  {
  }

  lemma RecycleActs(a: Area, k: Consumer, c: nat, s: nat)
    requires Indexed(a) && ConsumerOk(a, k) && Stands(k, s)
    requires c < |a.cpus| && s < |a.slots| && Owner(a.cpus, s) == c
    requires k.Returning? ==> |a.cpus[c].idle| < a.cpus[c].cap
    ensures Acts(a, k, c, s)
  {
    if k.Returning? {
      GivesBack(a, c, s);
    } else if k.Freeing? {
      assert ConsumerAct(a, k).0.cpus == a.cpus;
    }
  }

  lemma PcsRace(inUse: bool, k: Consumer, l: Consumer, s: nat)
    requires Racing(inUse, k, l, s)
    ensures var inUse', k' := inUse && !k.Freeing?, Next(k, inUse);
      && Racing(inUse', k', l, s)
      && Left(inUse', k', l) + (if k.Returning? then 1 else 0) <= Left(inUse, k, l)
  {
  }

  predicate Gives(p: Pair, first: bool) { (if first then p.first else p.second).Returning? }

  /** A step of either call, as `Next` has it. */
  ghost predicate Steps(p: Pair, v: Pair, first: bool, c: nat, s: nat)
    requires c < |p.area.cpus| && s < |p.area.slots|
  {
    var k, inUse := if first then p.first else p.second, InUse(p, s);
    && SameRanges(p.area, v.area) && (InUse(v, s) <==> inUse && !k.Freeing?)
    && v.first == (if first then Next(k, inUse) else p.first)
    && v.second == (if first then p.second else Next(k, inUse))
    && v.area.cpus[c].idle == p.area.cpus[c].idle + if Gives(p, first) then [s] else []
  }

  lemma StepActs(p: Pair, first: bool, c: nat, s: nat)
    requires RacingAt(p, c, s)
    ensures Steps(p, Step(p, first), first, c, s)
  {
    RecycleActs(p.area, if first then p.first else p.second, c, s);
  }

  lemma StaysRacing(p: Pair, v: Pair, first: bool, c: nat, s: nat)
    requires RacingAt(p, c, s) && Shaped(v) && Steps(p, v, first, c, s)
    ensures RacingAt(v, c, s)
  {
    PcsRace(InUse(p, s), if first then p.first else p.second, if first then p.second else p.first, s);
    OwnerSame(p.area.cpus, v.area.cpus, s);
  }

  lemma StepRaces(p: Pair, first: bool, c: nat, s: nat)
    requires RacingAt(p, c, s)
    ensures RacingAt(Step(p, first), c, s) && Steps(p, Step(p, first), first, c, s)
  {
    StepActs(p, first, c, s);
    StaysRacing(p, Step(p, first), first, c, s);
  }

  lemma {:induction false} NoneFound(p: Pair, turns: seq<bool>, c: nat, s: nat)
    requires RacingAt(p, c, s) && !InUse(p, s)
    ensures !BothFound(p, turns)
    decreases |turns|
  {
    if turns != [] {
      StepRaces(p, turns[0], c, s);
      NoneFound(Step(p, turns[0]), turns[1..], c, s);
    }
  }

  /** How often the index will be returned. */
  function Returns(p: Pair, turns: seq<bool>, s: nat): nat
    requires Shaped(p) && s < |p.area.slots|
  {
    if !InUse(p, s) then Pending(p.first) + Pending(p.second) else if BothFound(p, turns) then 2 else 1
  }

  lemma PcsReturn(inUse: bool, k: Consumer, l: Consumer, s: nat)
    requires Racing(inUse, k, l, s)
    ensures var k' := Next(k, inUse);
      && (!inUse ==> Pending(k) + Pending(l) == (if k.Returning? then 1 else 0) + Pending(k') + Pending(l))
      && (inUse && k.Freeing? ==> Pending(k') + Pending(l) == if l.Freeing? then 2 else 1)
      && (inUse ==> !k.Returning?)
  {
  }

  lemma FoundOn(p: Pair, turns: seq<bool>)
    requires Shaped(p) && turns != []
    ensures BothFound(p, turns) <==>
      (p.first.Freeing? && p.second.Freeing?) || BothFound(Step(p, turns[0]), turns[1..])
  {
  }

  lemma ReturnsOn(p: Pair, turns: seq<bool>, c: nat, s: nat)
    requires RacingAt(p, c, s) && turns != []
    ensures RacingAt(Step(p, turns[0]), c, s)
    ensures Returns(p, turns, s) == (if Gives(p, turns[0]) then 1 else 0) + Returns(Step(p, turns[0]), turns[1..], s)
  {
    var v, rest := Step(p, turns[0]), turns[1..];
    StepRaces(p, turns[0], c, s);
    FoundOn(p, turns);
    if turns[0] {
      PcsReturn(InUse(p, s), p.first, p.second, s);
    } else {
      PcsReturn(InUse(p, s), p.second, p.first, s);
    }
    if !InUse(v, s) {
      NoneFound(v, rest, c, s);
    }
  }

  function Copies(s: nat, n: nat): (r: seq<nat>)
    ensures |r| == n
  {
    seq(n, _ => s)
  }

  lemma OneCopyMore(idle: seq<nat>, s: nat, gives: bool, n: nat)
    ensures idle + (if gives then [s] else []) + Copies(s, n) == idle + Copies(s, (if gives then 1 else 0) + n)
  {
  }

  lemma GivenInAll(p: Pair, v: Pair, e: Pair, first: bool, c: nat, s: nat, n: nat, all: nat)
    requires c < |p.area.cpus| && s < |p.area.slots| && Steps(p, v, first, c, s) && c < |e.area.cpus|
    requires e.area.cpus[c].idle == v.area.cpus[c].idle + Copies(s, n)
    requires all == (if Gives(p, first) then 1 else 0) + n
    ensures e.area.cpus[c].idle == p.area.cpus[c].idle + Copies(s, all)
  {
    OneCopyMore(p.area.cpus[c].idle, s, Gives(p, first), n);
  }

  /** However the steps interleave. */
  lemma {:induction false} RaceReturns(p: Pair, turns: seq<bool>, c: nat, s: nat)
    requires RacingAt(p, c, s) && After(p, turns).first.Quiet? && After(p, turns).second.Quiet?
    ensures c < |After(p, turns).area.cpus|
    ensures After(p, turns).area.cpus[c].idle == p.area.cpus[c].idle + Copies(s, Returns(p, turns, s))
    decreases |turns|
  {
    if turns == [] {
      assert Copies(s, 0) == [];
    } else {
      var v := Step(p, turns[0]);
      StepRaces(p, turns[0], c, s);
      RaceReturns(v, turns[1..], c, s);
      ReturnsOn(p, turns, c, s);
      GivenInAll(p, v, After(p, turns), turns[0], c, s, Returns(v, turns[1..], s), Returns(p, turns, s));
    }
  }

  lemma StartRaces(a: Area, c: nat, s: nat)
    requires Indexed(a) && Ranges(a) && c < |a.cpus| && a.cpus[c].start <= s < a.cpus[c].end
    requires a.slots[s].state.InUse? && |a.cpus[c].idle| + 2 <= a.cpus[c].cap
    ensures RacingAt(Pair(a, Recycling([s], 0), Recycling([s], 0)), c, s)
  {
    Apart(a, c, Owner(a.cpus, s));
  }

  /** Two recycles of the same INUSE index, interleaved in any way: it comes back once, or twice if and only
      if both found it INUSE before either marked it. */
  lemma TwoRecyclesIff(a: Area, c: nat, s: nat, turns: seq<bool>)
    requires Indexed(a) && Ranges(a) && c < |a.cpus| && a.cpus[c].start <= s < a.cpus[c].end
    requires a.slots[s].state.InUse? && |a.cpus[c].idle| + 2 <= a.cpus[c].cap
    requires var r := After(Pair(a, Recycling([s], 0), Recycling([s], 0)), turns); r.first.Quiet? && r.second.Quiet?
    ensures var p := Pair(a, Recycling([s], 0), Recycling([s], 0)); var r := After(p, turns);
      && |r.area.cpus| == |a.cpus|
      && r.area.cpus[c].idle == a.cpus[c].idle + if BothFound(p, turns) then [s, s] else [s]
  {
    var p := Pair(a, Recycling([s], 0), Recycling([s], 0));
    StartRaces(a, c, s);
    RaceReturns(p, turns, c, s);
    assert Copies(s, 2) == [s, s] && Copies(s, 1) == [s];
    AfterSize(p, turns);
  }

  lemma {:induction false} AfterSize(p: Pair, turns: seq<bool>)
    requires Shaped(p)
    ensures |After(p, turns).area.cpus| == |p.area.cpus|
    decreases |turns|
  {
    if turns != [] {
      AfterSize(Step(p, turns[0]), turns[1..]);
    }
  }

  // ----- Two fetches

  lemma TakesOne(a: Area, c: nat, copied: nat, num: int, x: nat)
    requires Indexed(a) && ConsumerOk(a, Moving(c, copied, num)) && c < |a.cpus| && a.cpus[c].ready == [x]
    ensures copied + 1 <= IDX_ARRAY_SIZE
    ensures var r := ConsumerAct(a, Moving(c, copied, num));
      && r.1 == Moving(if num - (copied + 1) <= 0 then |a.cpus| else c + 1, copied + 1, num - (copied + 1))
      && |r.0.cpus| == |a.cpus| && r.0.cpus[c].ready == [] && r.0.idxArray[copied] == x
      && forall d :: 0 <= d < |a.cpus| && d != c ==> r.0.cpus[d] == a.cpus[d]
  {
  }

  /** One fetch has taken the index waiting on CPU 0 when another comes, takes the one on CPU 1, and writes it
      over the first. */
  lemma FirstTakes(a: Area, x: nat, y: nat)
    requires Indexed(a) && Ranges(a) && |a.cpus| == 2 && a.cpus[0].ready == [x] && a.cpus[1].ready == [y]
    ensures var v := Step(Step(Pair(a, Moving(0, 0, IDX_ARRAY_SIZE), Moving(0, 0, IDX_ARRAY_SIZE)), true), false);
      && |v.area.cpus| == 2 && v.area.cpus[0].ready == [] && v.area.cpus[1].ready == [y]
      && v.first == Moving(1, 1, IDX_ARRAY_SIZE - 1) && v.second == Moving(1, 0, IDX_ARRAY_SIZE)
  {
    TakesOne(a, 0, 0, IDX_ARRAY_SIZE, x);
  }

  lemma SecondTakes(p: Pair, y: nat)
    requires Shaped(p) && |p.area.cpus| == 2 && p.area.cpus[0].ready == [] && p.area.cpus[1].ready == [y]
    requires p.first == Moving(1, 1, IDX_ARRAY_SIZE - 1) && p.second == Moving(1, 0, IDX_ARRAY_SIZE)
    ensures var v := Step(Step(p, false), false);
      && v.first == p.first && v.second.Quiet? && |v.area.cpus| == 2
      && v.area.cpus[0].ready == v.area.cpus[1].ready == [] && v.area.idxArray[0] == y
  {
    TakesOne(p.area, 1, 0, IDX_ARRAY_SIZE, y);
  }

  lemma FirstEnds(p: Pair, y: nat)
    requires Shaped(p) && |p.area.cpus| == 2 && p.area.cpus[0].ready == p.area.cpus[1].ready == []
    requires p.first == Moving(1, 1, IDX_ARRAY_SIZE - 1) && p.area.idxArray[0] == y
    ensures var v := Step(Step(p, true), true);
      && v.first.Quiet? && v.second == p.second && |v.area.cpus| == 2
      && v.area.cpus[0].ready == v.area.cpus[1].ready == []
      && v.area.idxNum == 1 && v.area.idxArray[0] == y
  {
  }

  /** Both have ended, both ready queues are empty, and the index array has `y` only. */
  predicate OnlyOne(v: Pair, y: nat) {
    && v.first.Quiet? && v.second.Quiet? && |v.area.cpus| == 2
    && v.area.cpus[0].ready == v.area.cpus[1].ready == []
    && |v.area.idxArray| > 0 && v.area.idxNum == 1 && v.area.idxArray[..1] == [y]
  }

  lemma LastTurns(p: Pair, y: nat) returns (turns: seq<bool>)
    requires Shaped(p) && |p.area.cpus| == 2 && p.area.cpus[0].ready == p.area.cpus[1].ready == []
    requires p.first == Moving(1, 1, IDX_ARRAY_SIZE - 1) && p.second.Quiet? && p.area.idxArray[0] == y
    ensures OnlyOne(After(p, turns), y)
  {
    FirstEnds(p, y);
    TwoTurns(p, true, true, []);
    turns := [true, true] + [];
  }

  lemma SecondTurns(p: Pair, y: nat) returns (turns: seq<bool>)
    requires Shaped(p) && |p.area.cpus| == 2 && p.area.cpus[0].ready == [] && p.area.cpus[1].ready == [y]
    requires p.first == Moving(1, 1, IDX_ARRAY_SIZE - 1) && p.second == Moving(1, 0, IDX_ARRAY_SIZE)
    ensures OnlyOne(After(p, turns), y)
  {
    SecondTakes(p, y);
    var rest := LastTurns(Step(Step(p, false), false), y);
    TwoTurns(p, false, false, rest);
    turns := [false, false] + rest;
  }

  /** From two CPUs with one index waiting on each, a run of two fetches that loses the first. */
  lemma TwoFetchesLose(a: Area, x: nat, y: nat) returns (turns: seq<bool>)
    requires Indexed(a) && Ranges(a) && |a.cpus| == 2 && a.cpus[0].ready == [x] && a.cpus[1].ready == [y]
    ensures OnlyOne(After(Pair(a, Moving(0, 0, IDX_ARRAY_SIZE), Moving(0, 0, IDX_ARRAY_SIZE)), turns), y)
  {
    var p := Pair(a, Moving(0, 0, IDX_ARRAY_SIZE), Moving(0, 0, IDX_ARRAY_SIZE));
    FirstTakes(a, x, y);
    var rest := SecondTurns(Step(Step(p, true), false), y);
    TwoTurns(p, true, false, rest);
    turns := [true, false] + rest;
  }

  lemma TwoTurns(p: Pair, b: bool, c: bool, rest: seq<bool>)
    requires Shaped(p)
    ensures After(p, [b, c] + rest) == After(Step(Step(p, b), c), rest)
  {
    assert ([b, c] + rest)[1..] == [c] + rest && ([c] + rest)[1..] == rest;
  }
}
