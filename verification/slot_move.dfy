/**
 `ip_queue_move2dma` as one call: what it hands out, that it stays inside the index array, and
 exactly when it hands out as much as would fit. Its budget shrinks by the running total rather
 than by the last copy, so with three or more busy CPUs it may stop early.
 */
module SlotMove {
  import opened SlotArea
  import opened Words

  /** The first `cut[c]` entries of each ready queue, CPU by CPU. */
  ghost predicate Cuts(cpus: seq<CpuQueue>, cut: seq<nat>) {
    |cut| <= |cpus| && forall c :: 0 <= c < |cut| ==> cut[c] <= |cpus[c].ready|
  }

  ghost function Joined(cpus: seq<CpuQueue>, cut: seq<nat>): seq<nat>
    requires Cuts(cpus, cut)
  {
    if cut == [] then []
    else
      var k := |cut| - 1;
      Joined(cpus, cut[..k]) + cpus[k].ready[..cut[k]]
  }

  /** `b` is `a` with these prefixes moved to the front of the index array. */
  ghost predicate Taken(a: Area, b: Area, cut: seq<nat>, copied: nat) {
    && |b.cpus| == |a.cpus| && b.slots == a.slots && b.counts == a.counts
    && Cuts(a.cpus, cut)
    && (forall c :: 0 <= c < |cut| ==> b.cpus[c] == a.cpus[c].(ready := a.cpus[c].ready[cut[c]..]))
    && (forall c :: |cut| <= c < |a.cpus| ==> b.cpus[c] == a.cpus[c])
    && copied <= IDX_ARRAY_SIZE == |b.idxArray|
    && b.idxArray[..copied] == Joined(a.cpus, cut)
  }

  lemma JoinedOn(cpus: seq<CpuQueue>, cut: seq<nat>, n: nat)
    requires Cuts(cpus, cut) && |cut| < |cpus| && n <= |cpus[|cut|].ready|
    ensures Cuts(cpus, cut + [n])
    ensures Joined(cpus, cut + [n]) == Joined(cpus, cut) + cpus[|cut|].ready[..n]
  {
    assert (cut + [n])[..|cut|] == cut;
  }

  /** The next CPU gives `n` entries. */
  lemma TakenOn(a: Area, b: Area, cut: seq<nat>, copied: nat, n: nat, b': Area)
    requires Taken(a, b, cut, copied) && |cut| < |a.cpus| && n <= |b.cpus[|cut|].ready|
    requires copied + n <= IDX_ARRAY_SIZE == |b'.idxArray|
    requires b'.cpus == b.cpus[|cut| := b.cpus[|cut|].(ready := b.cpus[|cut|].ready[n..])]
    requires b'.slots == b.slots && b'.counts == b.counts
    requires b'.idxArray[..copied + n] == b.idxArray[..copied] + b.cpus[|cut|].ready[..n]
    ensures Taken(a, b', cut + [n], copied + n)
  {
    JoinedOn(a.cpus, cut, n);
  }

  /** The CPUs that are not reached give nothing. */
  lemma {:induction false} TakenNoMore(a: Area, b: Area, cut: seq<nat>, copied: nat) returns (all: seq<nat>)
    requires Taken(a, b, cut, copied)
    ensures |all| == |a.cpus| && Taken(a, b, all, copied)
    decreases |a.cpus| - |cut|
  {
    if |cut| == |a.cpus| {
      all := cut;
    } else {
      var q := b.cpus[|cut|];
      assert q.(ready := q.ready[0..]) == q && b.cpus[|cut| := q] == b.cpus;
      assert b.idxArray[..copied] + q.ready[..0] == b.idxArray[..copied];
      TakenOn(a, b, cut, copied, 0, b);
      all := TakenNoMore(a, b, cut + [0], copied);
    }
  }

  /** What one turn of the loop does. */
  lemma MoveActs(a: Area, k: Consumer) returns (n: nat)
    requires Indexed(a) && k.Moving? && ConsumerOk(a, k) && k.cpu < |a.cpus|
    ensures n <= |a.cpus[k.cpu].ready| && k.copied + n <= IDX_ARRAY_SIZE
    ensures var r := ConsumerAct(a, k); var ready := a.cpus[k.cpu].ready;
      && r.1.Moving? && r.1.copied == k.copied + n && (r.1.cpu == k.cpu + 1 || r.1.cpu == |a.cpus|)
      && r.0.cpus == a.cpus[k.cpu := a.cpus[k.cpu].(ready := ready[n..])]
      && r.0.slots == a.slots && r.0.counts == a.counts
      && r.0.idxArray[..k.copied + n] == a.idxArray[..k.copied] + ready[..n]
  {
    var q, copied := a.cpus[k.cpu], k.copied;
    var len := |q.ready|;
    n := if len == 0 then 0 else if len < k.num then len else k.num;
    var r := ConsumerAct(a, k);
    if len == 0 {
      assert q.ready[0..] == q.ready && q.(ready := q.ready[0..]) == q && a.cpus[k.cpu := q] == a.cpus;
      assert a.idxArray[..copied] + q.ready[..0] == a.idxArray[..copied];
    } else {
      Front(a.idxArray[..copied], q.ready[..n], a.idxArray[copied + n..]);
    }
  }

  lemma Front<T>(a: seq<T>, b: seq<T>, c: seq<T>)
    ensures (a + b + c)[..|a| + |b|] == a + b
  {
  }

  lemma ScanStops(a: Area, b: Area, cut: seq<nat>, k: Consumer) returns (all: seq<nat>)
    requires Indexed(b) && k.Moving? && ConsumerOk(b, k) && Taken(a, b, cut, k.copied) && k.cpu == |a.cpus|
    ensures FinishConsumer(b, k).0 == b.(idxNum := k.copied)
    ensures |all| == |a.cpus| && Taken(a, b.(idxNum := k.copied), all, k.copied)
  {
    ConsumerGoesOn(b, k);
    all := TakenNoMore(a, b, cut, k.copied);
  }

  /** From any point of the scan on. */
  lemma {:induction false} ScanTakes(a: Area, b: Area, cut: seq<nat>, k: Consumer, e: Area)
    returns (all: seq<nat>)
    requires Indexed(b) && k.Moving? && ConsumerOk(b, k) && Taken(a, b, cut, k.copied)
    requires k.cpu == |cut| || k.cpu == |a.cpus|
    requires e == FinishConsumer(b, k).0
    ensures |all| == |a.cpus| && e.idxNum <= IDX_ARRAY_SIZE && Taken(a, e, all, e.idxNum)
    decreases |a.cpus| - |cut|
  {
    if k.cpu == |a.cpus| {
      all := ScanStops(a, b, cut, k);
    } else {
      ConsumerGoesOn(b, k);
      var r := ConsumerAct(b, k);
      var n := MoveActs(b, k);
      TakenOn(a, b, cut, k.copied, n, r.0);
      all := ScanTakes(a, r.0, cut + [n], r.1, e);
    }
  }

  /** Every ready queue loses a prefix; the index array holds these prefixes in CPU order; nothing is
      written past its end; slots and counters stay. */
  lemma MoveHandsPrefixes(a: Area) returns (cut: seq<nat>)
    requires Indexed(a)
    ensures var b := FinishConsumer(a, Moving(0, 0, IDX_ARRAY_SIZE)).0;
      |cut| == |a.cpus| && b.idxNum <= 128 && Taken(a, b, cut, b.idxNum)
  {
    assert Taken(a, a, [], 0);
    cut := ScanTakes(a, a, [], Moving(0, 0, IDX_ARRAY_SIZE), FinishConsumer(a, Moving(0, 0, IDX_ARRAY_SIZE)).0);
  }

  // ----- How much is handed out

  /** Lengths of the non-empty ready queues in CPU order. */
  function Busy(cpus: seq<CpuQueue>): seq<nat> {
    if cpus == [] then []
    else if cpus[0].ready == [] then Busy(cpus[1..])
    else [|cpus[0].ready|] + Busy(cpus[1..])
  }

  function Sum(s: seq<nat>): nat {
    if s == [] then 0 else s[0] + Sum(s[1..])
  }

  /** Total copied over the busy queues `lens` from a running total and budget. */
  function Copied(lens: seq<nat>, copied: nat, num: int): nat {
    if lens == [] || num <= 0 then copied
    else
      var n: nat := if lens[0] < num then lens[0] else num;
      Copied(lens[1..], copied + n, num - (copied + n))
  }

  lemma LaterBusy(s: seq<CpuQueue>, t: seq<CpuQueue>, cpu: nat)
    requires cpu < |s| == |t| && forall c :: cpu < c < |s| ==> t[c] == s[c]
    ensures t[cpu + 1..] == s[cpu + 1..]
    ensures Busy(s[cpu..]) == if s[cpu].ready == [] then Busy(t[cpu + 1..]) else [|s[cpu].ready|] + Busy(t[cpu + 1..])
  {
    assert s[cpu..][1..] == s[cpu + 1..] == t[cpu + 1..];
  }

  /** What the scan from `cpu` on will have copied in the end. */
  function Expected(s: seq<CpuQueue>, cpu: nat, copied: nat, num: int): nat
    requires cpu <= |s|
  {
    if cpu == |s| then copied else Copied(Busy(s[cpu..]), copied, num)
  }

  lemma ExpectedOn(s: seq<CpuQueue>, t: seq<CpuQueue>, cpu: nat, copied: nat, num: int, n: nat)
    requires cpu < |s| == |t| && (forall c :: cpu < c < |s| ==> t[c] == s[c]) && num > 0
    requires n == if |s[cpu].ready| < num then |s[cpu].ready| else num
    ensures s[cpu].ready == [] ==> Expected(s, cpu, copied, num) == Expected(t, cpu + 1, copied, num)
    ensures s[cpu].ready != [] ==>
      Expected(s, cpu, copied, num)
      == Expected(t, if num - (copied + n) <= 0 then |t| else cpu + 1, copied + n, num - (copied + n))
  {
    LaterBusy(s, t, cpu);
    if s[cpu].ready != [] {
      CopiedStep(|s[cpu].ready|, Busy(t[cpu + 1..]), copied, num);
    }
  }

  lemma CopiedStep(len: nat, rest: seq<nat>, copied: nat, num: int)
    requires num > 0
    ensures var n: nat := if len < num then len else num;
      Copied([len] + rest, copied, num) == Copied(rest, copied + n, num - (copied + n))
  {
    assert ([len] + rest)[1..] == rest;
  }

  /** One turn of the loop over CPUs, as far as lengths go. */
  lemma TurnOf(a: Area, cpu: nat, copied: nat, num: int, n: nat)
    requires Indexed(a) && ConsumerOk(a, Moving(cpu, copied, num)) && cpu < |a.cpus|
    requires n == if |a.cpus[cpu].ready| < num then |a.cpus[cpu].ready| else num
    ensures var r := ConsumerAct(a, Moving(cpu, copied, num));
      && |r.0.cpus| == |a.cpus| && (forall c :: cpu < c < |a.cpus| ==> r.0.cpus[c] == a.cpus[c])
      && r.1 == if a.cpus[cpu].ready == [] then Moving(cpu + 1, copied, num)
                else Moving(if num - (copied + n) <= 0 then |a.cpus| else cpu + 1, copied + n, num - (copied + n))
  {
  }

  lemma TurnExpected(a: Area, cpu: nat, copied: nat, num: int)
    requires Indexed(a) && ConsumerOk(a, Moving(cpu, copied, num)) && cpu < |a.cpus|
    ensures var r := ConsumerAct(a, Moving(cpu, copied, num));
      && r.1.Moving? && |r.0.cpus| == |a.cpus| && cpu < r.1.cpu <= |r.0.cpus|
      && Expected(r.0.cpus, r.1.cpu, r.1.copied, r.1.num) == Expected(a.cpus, cpu, copied, num)
  {
    var n: nat := if |a.cpus[cpu].ready| < num then |a.cpus[cpu].ready| else num;
    TurnOf(a, cpu, copied, num, n);
    ExpectedOn(a.cpus, ConsumerAct(a, Moving(cpu, copied, num)).0.cpus, cpu, copied, num, n);
  }

  lemma {:induction false} MoveCopies(a: Area, cpu: nat, copied: nat, num: int)
    requires Indexed(a) && ConsumerOk(a, Moving(cpu, copied, num))
    ensures FinishConsumer(a, Moving(cpu, copied, num)).0.idxNum == Expected(a.cpus, cpu, copied, num)
    decreases |a.cpus| - cpu
  {
    ConsumerGoesOn(a, Moving(cpu, copied, num));
    if cpu < |a.cpus| {
      var r := ConsumerAct(a, Moving(cpu, copied, num));
      TurnExpected(a, cpu, copied, num);
      MoveCopies(r.0, r.1.cpu, r.1.copied, r.1.num);
    }
  }

  /** What the shrinking budget must cover: for every busy queue but the last the running total, and
      the last length. */
  function Demand(copied: nat, lens: seq<nat>): nat
    requires lens != []
    decreases |lens|
  {
    if |lens| == 1 then lens[0] else copied + lens[0] + Demand(copied + lens[0], lens[1..])
  }

  predicate Positive(lens: seq<nat>) {
    forall i :: 0 <= i < |lens| ==> lens[i] > 0
  }

  lemma {:induction false} DemandPositive(copied: nat, lens: seq<nat>)
    requires lens != [] && Positive(lens)
    ensures Demand(copied, lens) >= lens[0]
    ensures Demand(copied, lens) >= 1
  {
  }

  lemma {:induction false} BusyPositive(cpus: seq<CpuQueue>)
    ensures Positive(Busy(cpus))
  {
    if cpus != [] {
      BusyPositive(cpus[1..]);
    }
  }

  /** Once the budget is below the room left, all is handed out exactly when it covers the demand. */
  lemma {:induction false} StrictBudget(lens: seq<nat>, copied: nat, num: int)
    requires lens != [] && Positive(lens) && 0 < copied < IDX_ARRAY_SIZE && num < IDX_ARRAY_SIZE - copied
    ensures copied + num < IDX_ARRAY_SIZE
    ensures Copied(lens, copied, num) == Min(IDX_ARRAY_SIZE, copied + Sum(lens)) <==> Demand(copied, lens) <= num
    ensures Copied(lens, copied, num) < IDX_ARRAY_SIZE
    decreases |lens|
  {
    DemandPositive(copied, lens);
    assert Sum(lens) == lens[0] + Sum(lens[1..]);
    if num > 0 && lens[0] <= num && |lens| > 1 {
      assert Positive(lens[1..]);
      DemandPositive(copied + lens[0], lens[1..]);
      StrictBudget(lens[1..], copied + lens[0], num - (copied + lens[0]));
    } else if num > 0 && lens[0] > num {
      assert Copied(lens, copied, num) == Copied(lens[1..], copied + num, 0 - copied) == copied + num;
    } else if num > 0 {
      assert lens[1..] == [];
      assert Copied(lens, copied, num) == Copied([], copied + lens[0], num - (copied + lens[0]));
    }
  }

  /** `move2dma` fills the array or empties the ready queues exactly when at most two CPUs are busy, the
      first two alone fill it, or the shrinking budget covers the demand. */
  lemma FullExactlyWhen(a: Area)
    requires Indexed(a) && |a.cpus| > 0
    ensures var lens := Busy(a.cpus);
      FinishConsumer(a, Moving(0, 0, IDX_ARRAY_SIZE)).0.idxNum == Min(128, Sum(lens))
      <==> |lens| <= 2 || lens[0] + lens[1] >= 128 || Demand(0, lens) <= 128
  {
    var lens := Busy(a.cpus);
    assert a.cpus[0..] == a.cpus;
    MoveCopies(a, 0, 0, IDX_ARRAY_SIZE);
    BusyPositive(a.cpus);
    FullCopy(lens);
  }

  lemma FullCopy(lens: seq<nat>)
    requires Positive(lens)
    ensures Copied(lens, 0, IDX_ARRAY_SIZE) == Min(IDX_ARRAY_SIZE, Sum(lens))
      <==> |lens| <= 2 || lens[0] + lens[1] >= IDX_ARRAY_SIZE || Demand(0, lens) <= IDX_ARRAY_SIZE
  {
    if |lens| >= 2 && lens[0] < IDX_ARRAY_SIZE {
      var t := lens[1..];
      assert Sum(lens) == lens[0] + (t[0] + Sum(t[1..]));
      assert Copied(lens, 0, IDX_ARRAY_SIZE) == Copied(t, lens[0], IDX_ARRAY_SIZE - lens[0]);
      if t[0] < IDX_ARRAY_SIZE - lens[0] {
        var sofar, left := lens[0] + t[0], IDX_ARRAY_SIZE - lens[0] - (lens[0] + t[0]);
        assert Copied(t, lens[0], IDX_ARRAY_SIZE - lens[0]) == Copied(t[1..], sofar, left);
        if |lens| > 2 {
          assert Positive(t[1..]);
          StrictBudget(t[1..], sofar, left);
          assert Demand(0, lens) == lens[0] + (sofar + Demand(sofar, t[1..]));
        }
      } else {
        var first: int := lens[0];
        assert Copied(t, lens[0], IDX_ARRAY_SIZE - first) == Copied(t[1..], IDX_ARRAY_SIZE, -first);
      }
    } else if |lens| >= 1 && lens[0] >= IDX_ARRAY_SIZE {
      assert Copied(lens, 0, IDX_ARRAY_SIZE) == Copied(lens[1..], IDX_ARRAY_SIZE, 0);
      assert Sum(lens) == lens[0] + Sum(lens[1..]);
    }
  }

  lemma SomethingCopied(lens: seq<nat>)
    requires Positive(lens)
    ensures Copied(lens, 0, IDX_ARRAY_SIZE) > 0 <==> lens != []
  {
    if lens != [] {
      var n := Min(lens[0], IDX_ARRAY_SIZE);
      CopiedGrows(lens[1..], n, IDX_ARRAY_SIZE - n);
    }
  }

  /** Something is handed out whenever something is ready. */
  lemma SomethingMoves(a: Area)
    requires Indexed(a) && |a.cpus| > 0
    ensures FinishConsumer(a, Moving(0, 0, IDX_ARRAY_SIZE)).0.idxNum > 0 <==> Busy(a.cpus) != []
  {
    assert a.cpus[0..] == a.cpus;
    MoveCopies(a, 0, 0, IDX_ARRAY_SIZE);
    BusyPositive(a.cpus);
    SomethingCopied(Busy(a.cpus));
  }

  lemma {:induction false} CopiedGrows(lens: seq<nat>, copied: nat, num: int)
    ensures Copied(lens, copied, num) >= copied
  {
    if lens != [] && num > 0 {
      var n: nat := if lens[0] < num then lens[0] else num;
      CopiedGrows(lens[1..], copied + n, num - (copied + n));
    }
  }

  lemma FiftyFiftyTwenty()
    ensures Copied([50, 50, 20], 0, IDX_ARRAY_SIZE) == 100 < Min(IDX_ARRAY_SIZE, Sum([50, 50, 20]))
  {
    assert [50, 50, 20][1..] == [50, 20] && [50, 20][1..] == [20];
    assert Copied([20], 100, -22) == 100;
    assert Copied([50, 20], 50, 78) == Copied([20], 100, -22);
  }

  lemma ThreeBusy(cpus: seq<CpuQueue>)
    requires |cpus| == 3 && |cpus[0].ready| == 50 && |cpus[1].ready| == 50 && |cpus[2].ready| == 20
    ensures Busy(cpus) == [50, 50, 20]
  {
    assert Busy(cpus[3..]) == [];
    assert cpus[2..][1..] == cpus[3..] && cpus[1..][1..] == cpus[2..];
    assert Busy(cpus[2..]) == [20];
    assert Busy(cpus[1..]) == [50, 20];
  }

  /** With three busy CPUs: the first two give what fits, and the third only as much as 128 exceeds twice the first
      and once the second. */
  lemma ThreeLengths(x: nat, y: nat, z: nat)
    requires x > 0 && y > 0 && z > 0
    ensures Copied([x, y, z], 0, IDX_ARRAY_SIZE) ==
      if x + y >= 128 then 128 else x + y + if 2 * x + y >= 128 then 0 else Min(z, 128 - (2 * x + y))
  {
    assert [x, y, z][1..] == [y, z] && [y, z][1..] == [z] && [z][1..] == [];
    if x < 128 {
      var left: int := 128 - x;
      assert Copied([x, y, z], 0, 128) == Copied([y, z], x, left);
      if x + y < 128 {
        var rest: int := 128 - x - (x + y);
        assert Copied([y, z], x, left) == Copied([z], x + y, rest);
        if rest > 0 {
          assert Copied([z], x + y, rest) == Copied([], x + y + Min(z, rest), rest - (x + y + Min(z, rest)));
        }
      } else {
        var over: int := 0 - x;
        assert Copied([y, z], x, left) == Copied([z], 128, left - 128);
      }
    } else {
      assert Copied([x, y, z], 0, 128) == Copied([y, z], 128, 0);
    }
  }

  lemma ThreeBusyMove(a: Area, x: nat, y: nat, z: nat)
    requires Indexed(a) && |a.cpus| > 0 && x > 0 && y > 0 && z > 0 && Busy(a.cpus) == [x, y, z]
    ensures FinishConsumer(a, Moving(0, 0, IDX_ARRAY_SIZE)).0.idxNum ==
      if x + y >= 128 then 128 else x + y + if 2 * x + y >= 128 then 0 else Min(z, 128 - (2 * x + y))
  {
    assert a.cpus[0..] == a.cpus;
    MoveCopies(a, 0, 0, IDX_ARRAY_SIZE);
    ThreeLengths(x, y, z);
  }

  /** Any area of three CPUs with 50, 50 and 20 ready entries: all 120 would fit the index array, 100 are
      handed out. */
  lemma NotAlwaysFull(a: Area)
    requires Indexed(a) && |a.cpus| == 3
    requires |a.cpus[0].ready| == 50 && |a.cpus[1].ready| == 50 && |a.cpus[2].ready| == 20
    ensures FinishConsumer(a, Moving(0, 0, IDX_ARRAY_SIZE)).0.idxNum == 100
    ensures Sum(Busy(a.cpus)) == 120 < IDX_ARRAY_SIZE
  {
    assert a.cpus[0..] == a.cpus;
    MoveCopies(a, 0, 0, IDX_ARRAY_SIZE);
    ThreeBusy(a.cpus);
    FiftyFiftyTwenty();
    assert Sum([50, 50, 20]) == 120 by {
      assert [50, 50, 20][1..] == [50, 20] && [50, 20][1..] == [20] && [20][1..] == [];
    }
  }
}
