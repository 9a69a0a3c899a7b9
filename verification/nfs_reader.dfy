/**
 A read of the counters while packets are counted. `nfs_getcounter_perip` and `inccounter` both take only the
 read lock, so accountings on other CPUs fall between the cells a read visits, and between the number and the
 bytes of one cell. What a read then returns, and exactly when it is a total the counters had.
 */
module NfsReader {
  import opened NfsCounter
  import opened Words
  import opened Nfstat

  /** Where `inccounter` stands on a CPU: the number of type `t` is counted, the bytes are not. */
  datatype Adder = Resting | Adding(t: nat, bytes: nat)

  /** Where the read stands: type and CPU, whether it has taken the number of that cell, the sum so far, and
      the totals already copied to the buffer. */
  datatype Reader = Reader(t: nat, cpu: nat, half: bool, v: Cell, out: seq<Cell>)

  /** The cells of one address, and all who work on them under the read lock. */
  datatype World = World(maxtype: nat, counts: seq<seq<Cell>>, adders: seq<Adder>, reader: Reader)

  datatype Action = AddNumber(cpu: nat, t: nat, len: nat) | AddBytes(cpu: nat) | ReadOn

  datatype Field = InNumber | InBytes

  function Of(f: Field, c: Cell): nat { if f.InNumber? then c.number else c.bytes }

  function Plus(c: Cell, f: Field, n: nat): Cell {
    if f.InNumber? then c.(number := (c.number + n) % U64_MOD) else c.(bytes := (c.bytes + n) % U64_MOD)
  }

  function Grown(counts: seq<seq<Cell>>, c: nat, t: nat, f: Field, n: nat): seq<seq<Cell>>
    requires c < |counts| && t < |counts[c]|
  {
    counts[c := counts[c][t := Plus(counts[c][t], f, n)]]
  }

  predicate Small(c: Cell) { c.number < U64_MOD && c.bytes < U64_MOD }

  predicate ReaderOk(r: Reader, ncpu: nat, maxtype: nat) {
    && r.t <= maxtype && r.cpu <= ncpu && |r.out| == r.t && (r.half ==> r.cpu < ncpu)
    && Small(r.v) && forall u :: 0 <= u < |r.out| ==> Small(r.out[u])
  }

  predicate Shaped(w: World) {
    && CountsShaped(w.counts, |w.adders|, w.maxtype) && ReaderOk(w.reader, |w.adders|, w.maxtype)
    && forall c :: 0 <= c < |w.adders| && w.adders[c].Adding? ==> w.adders[c].t < w.maxtype
  }

  predicate Enabled(w: World, act: Action) {
    match act
    case AddNumber(c, t, _) => c < |w.adders| && w.adders[c].Resting? && t < w.maxtype
    case AddBytes(c) => c < |w.adders| && w.adders[c].Adding?
    case ReadOn => w.reader.t < w.maxtype
  }

  /** One step of the double loop. */
  function ReaderAct(r: Reader, counts: seq<seq<Cell>>, maxtype: nat): (r': Reader)
    requires CountsShaped(counts, |counts|, maxtype) && ReaderOk(r, |counts|, maxtype) && r.t < maxtype
    ensures ReaderOk(r', |counts|, maxtype)
  {
    if r.cpu == |counts| then Reader(r.t + 1, 0, false, Cell(0, 0), r.out + [r.v])
    else if !r.half then r.(half := true, v := Plus(r.v, InNumber, counts[r.cpu][r.t].number))
    else Reader(r.t, r.cpu + 1, false, Plus(r.v, InBytes, counts[r.cpu][r.t].bytes), r.out)
  }

  function Apply(w: World, act: Action): (r: World)
    requires Shaped(w) && Enabled(w, act)
    ensures Shaped(r) && r.maxtype == w.maxtype && |r.adders| == |w.adders|
  {
    match act
    case AddNumber(c, t, len) =>
      w.(counts := Grown(w.counts, c, t, InNumber, 1), adders := w.adders[c := Adding(t, len)])
    case AddBytes(c) =>
      w.(counts := Grown(w.counts, c, w.adders[c].t, InBytes, w.adders[c].bytes), adders := w.adders[c := Resting])
    case ReadOn => w.(reader := ReaderAct(w.reader, w.counts, w.maxtype))
  }

  ghost predicate Run(w: World, acts: seq<Action>)
    requires Shaped(w)
    decreases |acts|
  {
    acts == [] || (Enabled(w, acts[0]) && Run(Apply(w, acts[0]), acts[1..]))
  }

  ghost function After(w: World, acts: seq<Action>): (r: World)
    requires Shaped(w) && Run(w, acts)
    ensures Shaped(r) && r.maxtype == w.maxtype && |r.adders| == |w.adders|
    decreases |acts|
  {
    if acts == [] then w else After(Apply(w, acts[0]), acts[1..])
  }

  lemma Prepended(w: World, act: Action, rest: seq<Action>)
    requires Shaped(w) && Enabled(w, act) && Run(Apply(w, act), rest)
    ensures Run(w, [act] + rest) && After(w, [act] + rest) == After(Apply(w, act), rest)
  {
    assert ([act] + rest)[1..] == rest;
  }

  predicate Begins(w: World) { w.reader == Reader(0, 0, false, Cell(0, 0), []) }

  predicate Over(w: World) { w.reader.t == w.maxtype }

  // ----- What a read misses and what it sees

  /** The sum of a field of type `t` over the CPUs from `k` on, not wrapped. */
  function Rest(counts: seq<seq<Cell>>, f: Field, t: nat, k: nat): nat
    requires k <= |counts| && forall c :: 0 <= c < |counts| ==> t < |counts[c]|
    decreases |counts| - k
  {
    if k == |counts| then 0 else Of(f, counts[k][t]) + Rest(counts, f, t, k + 1)
  }

  /** How many CPUs the read has taken field `f` of type `t` from. */
  function Passed(w: World, f: Field, t: nat): (k: nat)
    requires Shaped(w)
    ensures k <= |w.adders|
  {
    var r := w.reader;
    if t < r.t then |w.adders|
    else if r.t < t then 0
    else r.cpu + (if r.half && f.InNumber? then 1 else 0)
  }

  /** What it has of them. */
  function Got(w: World, f: Field, t: nat): nat
    requires Shaped(w)
  {
    if t < w.reader.t then Of(f, w.reader.out[t]) else if t == w.reader.t then Of(f, w.reader.v) else 0
  }

  /** What a step adds to field `f` of type `t`. */
  function Lands(w: World, act: Action, f: Field, t: nat): nat
    requires Shaped(w) && Enabled(w, act)
  {
    match act
    case AddNumber(_, u, _) => if f.InNumber? && u == t then 1 else 0
    case AddBytes(c) => if f.InBytes? && w.adders[c].t == t then w.adders[c].bytes else 0
    case ReadOn => 0
  }

  /** It lands in a cell the read has not come to. */
  predicate IsEarly(w: World, act: Action, f: Field, t: nat)
    requires Shaped(w) && Enabled(w, act)
  {
    !act.ReadOn? && Passed(w, f, t) <= act.cpu
  }

  function EarlyOf(w: World, act: Action, f: Field, t: nat): nat
    requires Shaped(w) && Enabled(w, act)
  {
    if IsEarly(w, act, f, t) then Lands(w, act, f, t) else 0
  }

  function LateOf(w: World, act: Action, f: Field, t: nat): nat
    requires Shaped(w) && Enabled(w, act)
  {
    if IsEarly(w, act, f, t) then 0 else Lands(w, act, f, t)
  }

  /** All that lands before the read comes, and all that lands after. */
  ghost function Early(w: World, acts: seq<Action>, f: Field, t: nat): nat
    requires Shaped(w) && Run(w, acts)
    decreases |acts|
  {
    if acts == [] then 0 else EarlyOf(w, acts[0], f, t) + Early(Apply(w, acts[0]), acts[1..], f, t)
  }

  ghost function Late(w: World, acts: seq<Action>, f: Field, t: nat): nat
    requires Shaped(w) && Run(w, acts)
    decreases |acts|
  {
    if acts == [] then 0 else LateOf(w, acts[0], f, t) + Late(Apply(w, acts[0]), acts[1..], f, t)
  }

  lemma {:induction false} RestGrown(counts: seq<seq<Cell>>, c: nat, u: nat, g: Field, n: nat, f: Field, t: nat, k: nat)
    requires k <= |counts| && c < |counts| && u < |counts[c]|
    requires forall d :: 0 <= d < |counts| ==> t < |counts[d]|
    ensures forall d :: 0 <= d < |counts| ==> t < |Grown(counts, c, u, g, n)[d]|
    ensures Rest(Grown(counts, c, u, g, n), f, t, k) % U64_MOD
         == (Rest(counts, f, t, k) + if f == g && u == t && k <= c then n else 0) % U64_MOD
    decreases |counts| - k
  {
    if k < |counts| {
      var more, d := Grown(counts, c, u, g, n), if f == g && u == t && k + 1 <= c then n else 0;
      RestGrown(counts, c, u, g, n, f, t, k + 1);
      CellGrown(counts, c, u, g, n, f, t, k);
      var here := if f == g && u == t && k == c then n else 0;
      SumsWrap(Of(f, more[k][t]), Of(f, counts[k][t]) + here, Rest(more, f, t, k + 1), Rest(counts, f, t, k + 1) + d);
    }
  }

  lemma CellGrown(counts: seq<seq<Cell>>, c: nat, u: nat, g: Field, n: nat, f: Field, t: nat, k: nat)
    requires k < |counts| && c < |counts| && u < |counts[c]| && t < |counts[k]|
    ensures var more := Grown(counts, c, u, g, n);
      && t < |more[k]|
      && Of(f, more[k][t]) % U64_MOD
         == (Of(f, counts[k][t]) + if f == g && u == t && k == c then n else 0) % U64_MOD
  {
  }

  /** What the read has and what the cells it has not come to hold: its total if nothing more lands there. */
  function Expected(w: World, f: Field, t: nat): nat
    requires Shaped(w) && t < w.maxtype
  {
    Got(w, f, t) + Rest(w.counts, f, t, Passed(w, f, t))
  }

  /** The words of field `f` of type `t` added up. */
  function Sum(w: World, f: Field, t: nat): nat
    requires Shaped(w) && t < w.maxtype
  {
    Rest(w.counts, f, t, 0)
  }

  /** What growing one cell does to both. */
  ghost predicate Grows(w: World, v: World, f: Field, t: nat, early: nat, late: nat)
    requires Shaped(w) && Shaped(v) && t < w.maxtype == v.maxtype
  {
    && Expected(v, f, t) % U64_MOD == (Expected(w, f, t) + early) % U64_MOD
    && Sum(v, f, t) % U64_MOD == (Sum(w, f, t) + early + late) % U64_MOD
  }

  lemma GrownSums(counts: seq<seq<Cell>>, c: nat, u: nat, g: Field, n: nat, f: Field, t: nat, k: nat, got: nat)
    requires k <= |counts| && c < |counts| && u < |counts[c]|
    requires forall d :: 0 <= d < |counts| ==> t < |counts[d]|
    ensures var more := Grown(counts, c, u, g, n);
      && (forall d :: 0 <= d < |more| ==> t < |more[d]|)
      && (got + Rest(more, f, t, k)) % U64_MOD
         == (got + Rest(counts, f, t, k) + if f == g && u == t && k <= c then n else 0) % U64_MOD
  {
    RestGrown(counts, c, u, g, n, f, t, k);
    SumsWrap(got, got, Rest(Grown(counts, c, u, g, n), f, t, k),
             Rest(counts, f, t, k) + if f == g && u == t && k <= c then n else 0);
  }

  lemma SameReader(w: World, v: World, f: Field, t: nat)
    requires Shaped(w) && Shaped(v) && v.reader == w.reader && |v.adders| == |w.adders|
    ensures Passed(v, f, t) == Passed(w, f, t) && Got(v, f, t) == Got(w, f, t)
  {
  }

  lemma GrownGrows(w: World, v: World, c: nat, u: nat, g: Field, n: nat, f: Field, t: nat, early: nat, late: nat)
    requires Shaped(w) && Shaped(v) && t < w.maxtype == v.maxtype && c < |w.counts| && u < w.maxtype
    requires v.counts == Grown(w.counts, c, u, g, n) && v.reader == w.reader && |v.adders| == |w.adders|
    requires early == if f == g && u == t && Passed(w, f, t) <= c then n else 0
    requires late == if f == g && u == t && Passed(w, f, t) > c then n else 0
    ensures Grows(w, v, f, t, early, late)
  {
    SameReader(w, v, f, t);
    GrownSums(w.counts, c, u, g, n, f, t, 0, 0);
    GrownSums(w.counts, c, u, g, n, f, t, Passed(w, f, t), Got(w, f, t));
  }

  lemma ReadPasses(w: World, f: Field, t: nat)
    requires Shaped(w) && Enabled(w, ReadOn)
    ensures var v, r := Apply(w, ReadOn), w.reader;
      if t == r.t && r.cpu < |w.counts| && (f.InNumber? <==> !r.half)
      then
        && Passed(v, f, t) == r.cpu + 1 == Passed(w, f, t) + 1
        && Got(v, f, t) == Of(f, Plus(r.v, f, Of(f, w.counts[r.cpu][t])))
      else Passed(v, f, t) == Passed(w, f, t) && Got(v, f, t) == Got(w, f, t)
  {
  }

  lemma ReadGrows(w: World, f: Field, t: nat)
    requires Shaped(w) && Enabled(w, ReadOn) && t < w.maxtype
    ensures Grows(w, Apply(w, ReadOn), f, t, 0, 0)
  {
    var r := w.reader;
    ReadPasses(w, f, t);
    if t == r.t && r.cpu < |w.counts| && (f.InNumber? <==> !r.half) {
      CellRead(r, f, Of(f, w.counts[r.cpu][t]), Rest(w.counts, f, t, r.cpu + 1));
    }
  }

  lemma CellRead(r: Reader, f: Field, x: nat, rest: nat)
    ensures (Of(f, Plus(r.v, f, x)) + rest) % U64_MOD == (Of(f, r.v) + x + rest) % U64_MOD
  {
    Wrapped(Of(f, r.v) + x, rest);
  }

  lemma StepGrows(w: World, act: Action, f: Field, t: nat)
    requires Shaped(w) && Enabled(w, act) && t < w.maxtype
    ensures Grows(w, Apply(w, act), f, t, EarlyOf(w, act, f, t), LateOf(w, act, f, t))
  {
    match act
    case AddNumber(c, u, _) =>
      GrownGrows(w, Apply(w, act), c, u, InNumber, 1, f, t, EarlyOf(w, act, f, t), LateOf(w, act, f, t));
    case AddBytes(c) =>
      GrownGrows(w, Apply(w, act), c, w.adders[c].t, InBytes, w.adders[c].bytes, f, t,
                 EarlyOf(w, act, f, t), LateOf(w, act, f, t));
    case ReadOn => ReadGrows(w, f, t);
  }

  lemma GrowsOn(w: World, v: World, u: World, f: Field, t: nat, early: nat, late: nat, early': nat, late': nat)
    requires Shaped(w) && Shaped(v) && Shaped(u) && t < w.maxtype == v.maxtype == u.maxtype
    requires Grows(w, v, f, t, early, late) && Grows(v, u, f, t, early', late')
    ensures Grows(w, u, f, t, early + early', late + late')
  {
    SumsWrap(Expected(v, f, t), Expected(w, f, t) + early, early', early');
    SumsWrap(Sum(v, f, t), Sum(w, f, t) + early + late, early' + late', early' + late');
  }

  lemma FirstAndRest(w: World, acts: seq<Action>, f: Field, t: nat)
    requires Shaped(w) && Run(w, acts) && acts != []
    ensures var v := Apply(w, acts[0]);
      && Enabled(w, acts[0]) && Run(v, acts[1..]) && After(w, acts) == After(v, acts[1..])
      && Early(w, acts, f, t) == EarlyOf(w, acts[0], f, t) + Early(v, acts[1..], f, t)
      && Late(w, acts, f, t) == LateOf(w, acts[0], f, t) + Late(v, acts[1..], f, t)
  {
  }

  lemma NothingGrows(w: World, f: Field, t: nat)
    requires Shaped(w) && t < w.maxtype
    ensures Grows(w, w, f, t, 0, 0)
  {
  }

  lemma {:induction false} RunGrows(w: World, acts: seq<Action>, f: Field, t: nat)
    requires Shaped(w) && Run(w, acts) && t < w.maxtype
    ensures Grows(w, After(w, acts), f, t, Early(w, acts, f, t), Late(w, acts, f, t))
    decreases |acts|
  {
    if acts == [] {
      NothingGrows(w, f, t);
    } else {
      var v, rest := Apply(w, acts[0]), acts[1..];
      FirstAndRest(w, acts, f, t);
      RunGrows(v, rest, f, t);
      FirstGrows(w, acts[0], v, After(w, acts), f, t, Early(v, rest, f, t), Late(v, rest, f, t),
                 Early(w, acts, f, t), Late(w, acts, f, t));
    }
  }

  lemma FirstGrows(w: World, act: Action, v: World, u: World, f: Field, t: nat, early: nat, late: nat,
                   early': nat, late': nat)
    requires Shaped(w) && Enabled(w, act) && v == Apply(w, act) && Shaped(u) && u.maxtype == w.maxtype
    requires t < w.maxtype && Grows(v, u, f, t, early, late)
    requires early' == EarlyOf(w, act, f, t) + early && late' == LateOf(w, act, f, t) + late
    ensures Grows(w, u, f, t, early', late')
  {
    StepGrows(w, act, f, t);
    GrowsOn(w, v, u, f, t, EarlyOf(w, act, f, t), LateOf(w, act, f, t), early, late);
  }

  // ----- What a read returns

  /** A read from its beginning to its end, with anything in between. */
  ghost predicate IsRead(w: World, acts: seq<Action>) {
    Shaped(w) && Begins(w) && Run(w, acts) && Over(After(w, acts))
  }

  /** The total of field `f` of type `t` as the words give it. */
  function Shown(w: World, f: Field, t: nat): nat
    requires Shaped(w) && t < w.maxtype
  {
    Sum(w, f, t) % U64_MOD
  }

  lemma AtTheEnds(w: World, v: World, f: Field, t: nat)
    requires Shaped(w) && Begins(w) && Shaped(v) && Over(v) && t < w.maxtype == v.maxtype
    ensures Expected(w, f, t) == Sum(w, f, t)
    ensures |v.reader.out| == v.maxtype && Expected(v, f, t) % U64_MOD == Of(f, v.reader.out[t])
  {
  }

  /** A total returned is the total at the start of the read and what landed before the read came; the total
      at its end has what landed after as well. */
  lemma ReadSees(w: World, acts: seq<Action>, f: Field, t: nat)
    requires IsRead(w, acts) && t < w.maxtype
    ensures var v := After(w, acts);
      && |v.reader.out| == w.maxtype
      && Of(f, v.reader.out[t]) == (Sum(w, f, t) + Early(w, acts, f, t)) % U64_MOD
      && Shown(v, f, t) == (Sum(w, f, t) + Early(w, acts, f, t) + Late(w, acts, f, t)) % U64_MOD
  {
    RunGrows(w, acts, f, t);
    AtTheEnds(w, After(w, acts), f, t);
  }

  /** It is the total at the start exactly if nothing landed before the read came, and the total at the end
      exactly if nothing landed after, up to multiples of 2^64. */
  lemma ReadIsATotalIff(w: World, acts: seq<Action>, f: Field, t: nat)
    requires IsRead(w, acts) && t < w.maxtype
    ensures var v := After(w, acts);
      && |v.reader.out| == w.maxtype
      && (Of(f, v.reader.out[t]) == Shown(w, f, t) <==> Early(w, acts, f, t) % U64_MOD == 0)
      && (Of(f, v.reader.out[t]) == Shown(v, f, t) <==> Late(w, acts, f, t) % U64_MOD == 0)
  {
    var e, l := Early(w, acts, f, t), Late(w, acts, f, t);
    ReadSees(w, acts, f, t);
    SameIffMultiple(Sum(w, f, t) + e, e);
    SameIffMultiple(Sum(w, f, t) + e + l, l);
  }

  // ----- Nothing in between

  lemma {:induction false} PrefixSum(counts: seq<seq<Cell>>, f: Field, t: nat, k: nat)
    requires k <= |counts| && forall c :: 0 <= c < |counts| ==> t < |counts[c]|
    ensures Small(SumCells(counts[..k], t))
    ensures (Of(f, SumCells(counts[..k], t)) + Rest(counts, f, t, k)) % U64_MOD == Rest(counts, f, t, 0) % U64_MOD
  {
    if k > 0 {
      PrefixSum(counts, f, t, k - 1);
      assert counts[..k][..k - 1] == counts[..k - 1];
      Wrapped(Of(f, SumCells(counts[..k - 1], t)) + Of(f, counts[k - 1][t]), Rest(counts, f, t, k));
    }
  }

  lemma SumIsSumCells(w: World, f: Field, t: nat)
    requires Shaped(w) && t < w.maxtype
    ensures Of(f, SumCells(w.counts, t)) == Shown(w, f, t)
  {
    PrefixSum(w.counts, f, t, |w.counts|);
    assert w.counts[..|w.counts|] == w.counts;
  }

  /** The read goes on alone to its end. */
  lemma {:induction false} ReadAlone(w: World) returns (acts: seq<Action>)
    requires Shaped(w)
    ensures Run(w, acts) && Over(After(w, acts)) && After(w, acts).counts == w.counts
    ensures forall f: Field, t: nat :: Early(w, acts, f, t) == Late(w, acts, f, t) == 0
    decreases w.maxtype - w.reader.t, |w.counts| - w.reader.cpu, if w.reader.half then 0 else 1
  {
    acts := [];
    if w.reader.t < w.maxtype {
      var rest := ReadAlone(Apply(w, ReadOn));
      acts := [ReadOn] + rest;
      Prepended(w, ReadOn, rest);
      forall f: Field, t: nat ensures Early(w, acts, f, t) == Late(w, acts, f, t) == 0 {
        FirstAndRest(w, acts, f, t);
        assert acts[1..] == rest;
      }
    }
  }

  /** A read that nothing interrupts is one of these, and returns the sums of the cells. */
  lemma ReadIsTotals(w: World) returns (acts: seq<Action>)
    requires Shaped(w) && Begins(w)
    ensures IsRead(w, acts)
    ensures After(w, acts).counts == w.counts && After(w, acts).reader.out == Totals(w.counts, w.maxtype)
  {
    acts := ReadAlone(w);
    var out := After(w, acts).reader.out;
    forall t: nat | t < w.maxtype ensures |out| == w.maxtype && out[t] == SumCells(w.counts, t) {
      ReadSees(w, acts, InNumber, t);
      ReadSees(w, acts, InBytes, t);
      SumIsSumCells(w, InNumber, t);
      SumIsSumCells(w, InBytes, t);
    }
    assert |out| == w.maxtype;
  }

  // ----- Totals the counters never had

  lemma {:induction false} Joins(w: World, acts: seq<Action>, more: seq<Action>)
    requires Shaped(w) && Run(w, acts) && Run(After(w, acts), more)
    ensures Run(w, acts + more) && After(w, acts + more) == After(After(w, acts), more)
    decreases |acts|
  {
    if acts == [] {
      assert acts + more == more;
    } else {
      Joins(Apply(w, acts[0]), acts[1..], more);
      Prepended(w, acts[0], acts[1..] + more);
      assert acts + more == [acts[0]] + (acts[1..] + more);
    }
  }

  lemma TwoSteps(w: World, a: Action, b: Action)
    requires Shaped(w) && Enabled(w, a) && Enabled(Apply(w, a), b)
    ensures Run(w, [a, b]) && After(w, [a, b]) == Apply(Apply(w, a), b)
  {
    Prepended(Apply(w, a), b, []);
    Prepended(w, a, [b] + []);
    assert [a] + ([b] + []) == [a, b];
  }

  function Fresh(ncpu: nat): World {
    World(1, seq(ncpu, _ => [Cell(0, 0)]), seq(ncpu, _ => Resting), Reader(0, 0, false, Cell(0, 0), []))
  }

  /** A packet is counted while the read is at its cell: the read returns one packet of no bytes. */
  lemma ReadTearsAPacket(len: nat)
    requires 0 < len < U64_MOD
    ensures var w, acts := Fresh(1), [AddNumber(0, 0, len), ReadOn] + [ReadOn, AddBytes(0)] + [ReadOn];
      && IsRead(w, acts) && After(w, acts).reader.out == [Cell(1, 0)] && After(w, acts).counts == [[Cell(1, len)]]
  {
    var w := Fresh(1);
    TwoSteps(w, AddNumber(0, 0, len), ReadOn);
    var v := After(w, [AddNumber(0, 0, len), ReadOn]);
    TwoSteps(v, ReadOn, AddBytes(0));
    var u := After(v, [ReadOn, AddBytes(0)]);
    assert u.counts[0] == [Cell(1, len)];
    Prepended(u, ReadOn, []);
    assert [ReadOn] + [] == [ReadOn];
    Joins(w, [AddNumber(0, 0, len), ReadOn], [ReadOn, AddBytes(0)]);
    Joins(w, [AddNumber(0, 0, len), ReadOn] + [ReadOn, AddBytes(0)], [ReadOn]);
  }

  lemma BothGrown(counts: seq<seq<Cell>>, c: nat, t: nat, len: nat)
    requires c < |counts| && t < |counts[c]|
    ensures Grown(Grown(counts, c, t, InNumber, 1), c, t, InBytes, len) == Bump(counts, c, t, len)
  {
    assert Grown(Grown(counts, c, t, InNumber, 1), c, t, InBytes, len)[c] == Bump(counts, c, t, len)[c];
  }

  /** A whole accounting. */
  lemma PacketCounted(w: World, c: nat, t: nat, len: nat)
    requires Shaped(w) && c < |w.adders| && w.adders[c].Resting? && t < w.maxtype
    ensures var acts := [AddNumber(c, t, len), AddBytes(c)];
      Run(w, acts) && After(w, acts) == w.(counts := Bump(w.counts, c, t, len))
  {
    TwoSteps(w, AddNumber(c, t, len), AddBytes(c));
    BothGrown(w.counts, c, t, len);
    assert w.adders[c := Adding(t, len)][c := Resting] == w.adders;
  }

  /** A whole cell read. */
  lemma CellTaken(w: World)
    requires Shaped(w) && w.reader.t < w.maxtype && w.reader.cpu < |w.counts| && !w.reader.half
    ensures var r := w.reader;
      && Run(w, [ReadOn, ReadOn])
      && After(w, [ReadOn, ReadOn])
         == w.(reader := Reader(r.t, r.cpu + 1, false, Add(r.v, w.counts[r.cpu][r.t]), r.out))
  {
    TwoSteps(w, ReadOn, ReadOn);
  }

  lemma TotalTaken(w: World)
    requires Shaped(w) && w.reader.t < w.maxtype && w.reader.cpu == |w.counts|
    ensures Run(w, [ReadOn])
    ensures After(w, [ReadOn])
         == w.(reader := Reader(w.reader.t + 1, 0, false, Cell(0, 0), w.reader.out + [w.reader.v]))
  {
    Prepended(w, ReadOn, []);
    assert [ReadOn] + [] == [ReadOn];
  }

  lemma FirstOfTwo(a: nat)
    requires a < U64_MOD
    ensures var acts := [ReadOn, ReadOn] + [AddNumber(0, 0, a), AddBytes(0)];
      && Run(Fresh(2), acts)
      && After(Fresh(2), acts)
         == World(1, [[Cell(1, a)], [Cell(0, 0)]], [Resting, Resting], Reader(0, 1, false, Cell(0, 0), []))
  {
    var w := Fresh(2);
    CellTaken(w);
    var v := After(w, [ReadOn, ReadOn]);
    PacketCounted(v, 0, 0, a);
    Joins(w, [ReadOn, ReadOn], [AddNumber(0, 0, a), AddBytes(0)]);
    assert Bump(v.counts, 0, 0, a)[0] == [Cell(1, a)];
    assert w.adders == [Resting, Resting];
  }

  lemma SecondOfTwo(a: nat, b: nat)
    requires a < U64_MOD && b < U64_MOD
    ensures var w := World(1, [[Cell(1, a)], [Cell(0, 0)]], [Resting, Resting], Reader(0, 1, false, Cell(0, 0), []));
      var acts := [AddNumber(1, 0, b), AddBytes(1)] + [ReadOn, ReadOn] + [ReadOn];
      && Shaped(w) && Run(w, acts) && Over(After(w, acts)) && After(w, acts).reader.out == [Cell(1, b)]
      && After(w, acts).counts == [[Cell(1, a)], [Cell(1, b)]]
  {
    var w := World(1, [[Cell(1, a)], [Cell(0, 0)]], [Resting, Resting], Reader(0, 1, false, Cell(0, 0), []));
    var second, read := [AddNumber(1, 0, b), AddBytes(1)], [ReadOn, ReadOn];
    PacketCounted(w, 1, 0, b);
    var v := After(w, second);
    assert v.counts[1] == [Cell(1, b)];
    CellTaken(v);
    TotalTaken(After(v, read));
    Joins(w, second, read);
    Joins(w, second + read, [ReadOn]);
  }

  /** A packet of `a` bytes is counted on the CPU just read, then one of `b` bytes on the next: the read
      returns the later one without the earlier. */
  lemma ReadSkipsAPacket(a: nat, b: nat)
    requires a < U64_MOD && b < U64_MOD
    ensures var w, acts := Fresh(2),
                ([ReadOn, ReadOn] + [AddNumber(0, 0, a), AddBytes(0)])
                + ([AddNumber(1, 0, b), AddBytes(1)] + [ReadOn, ReadOn] + [ReadOn]);
      && IsRead(w, acts) && After(w, acts).reader.out == [Cell(1, b)]
      && After(w, acts).counts == [[Cell(1, a)], [Cell(1, b)]]
  {
    FirstOfTwo(a);
    SecondOfTwo(a, b);
    Joins(Fresh(2), [ReadOn, ReadOn] + [AddNumber(0, 0, a), AddBytes(0)],
          [AddNumber(1, 0, b), AddBytes(1)] + [ReadOn, ReadOn] + [ReadOn]);
  }
}
