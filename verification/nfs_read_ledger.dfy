/**
 Reads that accountings interrupt, over whole histories: the small steps under the read lock refine the
 accountings of `Nfstat`, and a total returned lies between the credits at the start of the read and those at
 its end.
 */
module NfsReadLedger {
  import opened SearchTree
  import opened NfsRule
  import opened NfsCounter
  import opened Words
  import opened Nfstat
  import opened NfsLedger
  import opened NfsReader

  /** A packet of `len` bytes counted under type `t`. */
  datatype Accounting = Accounting(cpu: nat, t: nat, len: nat)

  /** Those begun in a run, in order. */
  function Started(acts: seq<Action>): seq<Accounting> {
    if acts == [] then [] else StartedBy(acts[0]) + Started(acts[1..])
  }

  function StartedBy(act: Action): seq<Accounting> {
    if act.AddNumber? then [Accounting(act.cpu, act.t, act.len)] else []
  }

  /** Those of `ip` among the events from `m` up to `n`. */
  ghost function AccountingsOf(ss: seq<Stat>, es: seq<Event>, ip: IpAddr, m: nat, n: nat): seq<Accounting>
    requires |ss| == |es| + 1 && m <= n <= |es|
    decreases (n - m)
  {
    if m == n then [] else AccountingsOf(ss, es, ip, m, n - 1) + AccountingOf(ss[n - 1], es[n - 1], ip)
  }

  function AccountingOf(s: Stat, e: Event, ip: IpAddr): seq<Accounting> {
    if e.Account? && e.i < |s.pending| && s.pending[e.i].ip == ip
    then [Accounting(e.cpu, s.pending[e.i].typeidx, s.pending[e.i].len)] else []
  }

  // ----- What accountings are worth

  function WorthOf(x: Accounting, f: Field, t: nat): nat {
    if x.t != t then 0 else if f.InNumber? then 1 else x.len
  }

  function Worth(xs: seq<Accounting>, f: Field, t: nat): nat {
    if xs == [] then 0 else WorthOf(xs[0], f, t) + Worth(xs[1..], f, t)
  }

  lemma {:induction false} WorthJoins(xs: seq<Accounting>, ys: seq<Accounting>, f: Field, t: nat)
    ensures Worth(xs + ys, f, t) == Worth(xs, f, t) + Worth(ys, f, t)
  {
    if xs == [] {
      assert xs + ys == ys;
    } else {
      assert (xs + ys)[1..] == xs[1..] + ys;
      WorthJoins(xs[1..], ys, f, t);
    }
  }

  /** Event `n` credits what its accounting is worth. */
  ghost predicate EventPays(ss: seq<Stat>, es: seq<Event>, maxtype: nat, ip: IpAddr, n: nat, f: Field, t: nat)
    requires |ss| == |es| + 1 && n < |es|
  {
    Of(f, Credit(LedgerAfter(es[..n], maxtype), es[n], ip, t)) == Worth(AccountingOf(ss[n], es[n], ip), f, t)
  }

  lemma CreditIsWorth(ss: seq<Stat>, es: seq<Event>, oks: seq<bool>, maxtype: nat, ncpu: nat, ip: IpAddr, n: nat,
                      f: Field, t: nat)
    requires History(ss, es, oks, maxtype, ncpu) && n < |es|
    ensures EventPays(ss, es, maxtype, ip, n, f, t)
  {
    HistoryAgrees(ss, es, oks, maxtype, ncpu, n);
    var l, e := LedgerAfter(es[..n], maxtype), es[n];
    if e.Account? && e.i < |l.pending| {
      assert DueAgrees(ss[n].pending[e.i], l.pending[e.i], maxtype);
    }
  }

  lemma CreditsOneMore(es: seq<Event>, maxtype: nat, ip: IpAddr, from: nat, to: nat, f: Field, t: nat)
    requires from < to <= |es|
    ensures Of(f, Credits(es, maxtype, ip, t, from, to))
         == Of(f, Credits(es, maxtype, ip, t, from, to - 1))
            + Of(f, Credit(LedgerAfter(es[..to - 1], maxtype), es[to - 1], ip, t))
  {
  }

  lemma AccountingsOneMore(ss: seq<Stat>, es: seq<Event>, ip: IpAddr, m: nat, n: nat, f: Field, t: nat)
    requires |ss| == |es| + 1 && m < n <= |es|
    ensures Worth(AccountingsOf(ss, es, ip, m, n), f, t)
         == Worth(AccountingsOf(ss, es, ip, m, n - 1), f, t) + Worth(AccountingOf(ss[n - 1], es[n - 1], ip), f, t)
  {
    WorthJoins(AccountingsOf(ss, es, ip, m, n - 1), AccountingOf(ss[n - 1], es[n - 1], ip), f, t);
  }

  /** Between events `m` and `n` the credits grow by what the accountings are worth. */
  ghost predicate CreditsPaid(ss: seq<Stat>, es: seq<Event>, maxtype: nat, ip: IpAddr, from: nat, m: nat, n: nat,
                              f: Field, t: nat)
    requires |ss| == |es| + 1 && from <= m <= n <= |es|
  {
    Of(f, Credits(es, maxtype, ip, t, from, n))
    == Of(f, Credits(es, maxtype, ip, t, from, m)) + Worth(AccountingsOf(ss, es, ip, m, n), f, t)
  }

  lemma CreditsPaidOn(ss: seq<Stat>, es: seq<Event>, maxtype: nat, ip: IpAddr, from: nat, m: nat, n: nat, f: Field,
                      t: nat)
    requires |ss| == |es| + 1 && from <= m < n <= |es|
    requires CreditsPaid(ss, es, maxtype, ip, from, m, n - 1, f, t) && EventPays(ss, es, maxtype, ip, n - 1, f, t)
    ensures CreditsPaid(ss, es, maxtype, ip, from, m, n, f, t)
  {
    CreditsOneMore(es, maxtype, ip, from, n, f, t);
    AccountingsOneMore(ss, es, ip, m, n, f, t);
  }

  /** Over any history they do. */
  lemma {:induction false} CreditsAreWorth(ss: seq<Stat>, es: seq<Event>, oks: seq<bool>, maxtype: nat, ncpu: nat,
                                           ip: IpAddr, from: nat, m: nat, n: nat, f: Field, t: nat)
    requires History(ss, es, oks, maxtype, ncpu) && from <= m <= n <= |es|
    ensures CreditsPaid(ss, es, maxtype, ip, from, m, n, f, t)
    decreases (n - m)
  {
    if m < n {
      CreditsAreWorth(ss, es, oks, maxtype, ncpu, ip, from, m, n - 1, f, t);
      CreditIsWorth(ss, es, oks, maxtype, ncpu, ip, n - 1, f, t);
      CreditsPaidOn(ss, es, maxtype, ip, from, m, n, f, t);
    }
  }

  // ----- Accountings half done

  /** What a CPU has still to add to field `f` of type `t`. */
  function OwedBy(a: Adder, f: Field, t: nat): nat {
    if f.InBytes? && a.Adding? && a.t == t then a.bytes else 0
  }

  function Owed(adders: seq<Adder>, f: Field, t: nat, k: nat): nat
    requires k <= |adders|
    decreases |adders| - k
  {
    if k == |adders| then 0 else OwedBy(adders[k], f, t) + Owed(adders, f, t, k + 1)
  }

  lemma {:induction false} OwedChanges(adders: seq<Adder>, c: nat, a: Adder, f: Field, t: nat, k: nat)
    requires c < |adders| && k <= |adders|
    ensures Owed(adders[c := a], f, t, k)
         == Owed(adders, f, t, k) + if k <= c then OwedBy(a, f, t) - OwedBy(adders[c], f, t) else 0
    decreases |adders| - k
  {
    if k < |adders| {
      OwedChanges(adders, c, a, f, t, k + 1);
    }
  }

  lemma StepPays(w: World, act: Action, f: Field, t: nat)
    requires Shaped(w) && Enabled(w, act)
    ensures EarlyOf(w, act, f, t) + LateOf(w, act, f, t) + Owed(Apply(w, act).adders, f, t, 0)
         == Worth(StartedBy(act), f, t) + Owed(w.adders, f, t, 0)
  {
    match act
    case AddNumber(c, u, len) => OwedChanges(w.adders, c, Adding(u, len), f, t, 0);
    case AddBytes(c) => OwedChanges(w.adders, c, Resting, f, t, 0);
    case ReadOn =>
  }

  lemma StartedFirst(acts: seq<Action>, f: Field, t: nat)
    requires acts != []
    ensures Worth(Started(acts), f, t) == Worth(StartedBy(acts[0]), f, t) + Worth(Started(acts[1..]), f, t)
  {
    WorthJoins(StartedBy(acts[0]), Started(acts[1..]), f, t);
  }

  /** From `w` to `v` the accountings worth `worth` began, and `lands` landed. */
  ghost predicate Pays(w: World, v: World, f: Field, t: nat, lands: nat, worth: nat) {
    lands + Owed(v.adders, f, t, 0) == worth + Owed(w.adders, f, t, 0)
  }

  /** What lands in a run is what its accountings are worth, less what is owed at its end and not before. */
  lemma {:induction false} RunPays(w: World, acts: seq<Action>, f: Field, t: nat)
    requires Shaped(w) && Run(w, acts)
    ensures Pays(w, After(w, acts), f, t, Early(w, acts, f, t) + Late(w, acts, f, t), Worth(Started(acts), f, t))
    decreases |acts|
  {
    if acts != [] {
      var v := Apply(w, acts[0]);
      FirstAndRest(w, acts, f, t);
      RunPays(v, acts[1..], f, t);
      FirstPays(w, acts, v, After(w, acts), f, t, Early(v, acts[1..], f, t) + Late(v, acts[1..], f, t),
                Early(w, acts, f, t) + Late(w, acts, f, t));
    }
  }

  lemma FirstPays(w: World, acts: seq<Action>, v: World, u: World, f: Field, t: nat, lands: nat, lands': nat)
    requires Shaped(w) && acts != [] && Enabled(w, acts[0]) && v == Apply(w, acts[0])
    requires Pays(v, u, f, t, lands, Worth(Started(acts[1..]), f, t))
    requires lands' == EarlyOf(w, acts[0], f, t) + LateOf(w, acts[0], f, t) + lands
    ensures Pays(w, u, f, t, lands', Worth(Started(acts), f, t))
  {
    StepPays(w, acts[0], f, t);
    StartedFirst(acts, f, t);
  }

  /** The cells once every accounting begun is done. */
  function Finished(counts: seq<seq<Cell>>, adders: seq<Adder>): (s: seq<seq<Cell>>)
    requires |adders| == |counts|
    requires forall c :: 0 <= c < |adders| && adders[c].Adding? ==> adders[c].t < |counts[c]|
    ensures |s| == |counts| && forall c :: 0 <= c < |s| ==> |s[c]| == |counts[c]|
  {
    seq(|counts|, c requires 0 <= c < |counts| => FinishedRow(counts[c], adders[c]))
  }

  function FinishedRow(row: seq<Cell>, a: Adder): (s: seq<Cell>)
    requires a.Adding? ==> a.t < |row|
    ensures |s| == |row|
  {
    if a.Adding? then row[a.t := Plus(row[a.t], InBytes, a.bytes)] else row
  }

  lemma FinishedCell(row: seq<Cell>, a: Adder, f: Field, t: nat)
    requires t < |row| && (a.Adding? ==> a.t < |row|)
    ensures Of(f, FinishedRow(row, a)[t]) % U64_MOD == (Of(f, row[t]) + OwedBy(a, f, t)) % U64_MOD
  {
  }

  lemma {:induction false} FinishedRest(w: World, f: Field, t: nat, k: nat)
    requires Shaped(w) && t < w.maxtype && k <= |w.counts|
    ensures Rest(Finished(w.counts, w.adders), f, t, k) % U64_MOD
         == (Rest(w.counts, f, t, k) + Owed(w.adders, f, t, k)) % U64_MOD
    decreases |w.counts| - k
  {
    if k < |w.counts| {
      var done := Finished(w.counts, w.adders);
      FinishedRest(w, f, t, k + 1);
      FinishedCell(w.counts[k], w.adders[k], f, t);
      SumsWrap(Of(f, done[k][t]), Of(f, w.counts[k][t]) + OwedBy(w.adders[k], f, t),
               Rest(done, f, t, k + 1), Rest(w.counts, f, t, k + 1) + Owed(w.adders, f, t, k + 1));
    }
  }

  /** Counting one after the other, each at once. */
  function CountAll(counts: seq<seq<Cell>>, xs: seq<Accounting>): (s: seq<seq<Cell>>)
    requires forall x :: x in xs ==> x.cpu < |counts| && x.t < |counts[x.cpu]|
    decreases |xs|
  {
    if xs == [] then counts else CountAll(Bump(counts, xs[0].cpu, xs[0].t, xs[0].len), xs[1..])
  }

  lemma StepRefines(w: World, act: Action)
    requires Shaped(w) && Enabled(w, act)
    ensures var v := Apply(w, act); var done, done' := Finished(w.counts, w.adders), Finished(v.counts, v.adders);
      done' == if act.AddNumber? then Bump(done, act.cpu, act.t, act.len) else done
  {
    var v := Apply(w, act);
    if act.AddNumber? {
      assert Finished(v.counts, v.adders)[act.cpu]
          == Bump(Finished(w.counts, w.adders), act.cpu, act.t, act.len)[act.cpu];
    } else if act.AddBytes? {
      assert Finished(v.counts, v.adders)[act.cpu] == Finished(w.counts, w.adders)[act.cpu];
    }
  }

  /** Cut into steps, interleaved over the CPUs and with a read, the accountings leave what they leave one
      after the other in the order they began. */
  lemma {:induction false} RunRefines(w: World, acts: seq<Action>)
    requires Shaped(w) && Run(w, acts)
    ensures forall x :: x in Started(acts) ==> x.cpu < |w.counts| && x.t < w.maxtype
    ensures var v := After(w, acts);
      Finished(v.counts, v.adders) == CountAll(Finished(w.counts, w.adders), Started(acts))
    decreases |acts|
  {
    if acts != [] {
      StepRefines(w, acts[0]);
      RunRefines(Apply(w, acts[0]), acts[1..]);
      if acts[0].AddNumber? {
        assert Started(acts)[1..] == Started(acts[1..]);
      } else {
        assert Started(acts) == Started(acts[1..]);
      }
    }
  }

  // ----- A read inside a history

  predicate WrapsTo(x: int, got: nat) { got == x % U64_MOD }

  ghost predicate Between(lo: int, hi: int, got: nat) {
    exists x: int :: lo <= x <= hi && WrapsTo(x, got)
  }

  /** `w` are the cells of `ip` in state `s` where a read begins, accountings under way included. */
  ghost predicate IsReadOf(s: Stat, ip: IpAddr, w: World) {
    && Shaped(w) && Begins(w) && w.maxtype == s.maxtype
    && Search(s.ips, Near(ip)).Some? && Search(s.ips, Near(ip)).value.counts == Finished(w.counts, w.adders)
  }

  lemma FinishedSum(w: World, f: Field, t: nat)
    requires Shaped(w) && t < w.maxtype
    ensures var done := Finished(w.counts, w.adders);
      Of(f, SumCells(done, t)) == (Sum(w, f, t) + Owed(w.adders, f, t, 0)) % U64_MOD
  {
    SumIsSumCells(w.(counts := Finished(w.counts, w.adders)), f, t);
    FinishedRest(w, f, t, 0);
  }

  lemma EntryHolds(s: Stat, l: Ledger, ip: IpAddr, t: nat, c: Cell)
    requires IpsAgree(InOrder(s.ips), l.totals, s.maxtype, s.ncpu) && TotalIs(l, ip, t, s.maxtype, c)
    requires Search(s.ips, Near(ip)).Some?
    ensures var counts := Search(s.ips, Near(ip)).value.counts;
      CountsShaped(counts, s.ncpu, s.maxtype) && SumCells(counts, t) == Wrap(c)
  {
    EntryOf(s, l, ip);
  }

  lemma CellsHoldTotals(s: Stat, l: Ledger, ip: IpAddr, w: World, f: Field, t: nat, c: Cell)
    requires IpsAgree(InOrder(s.ips), l.totals, s.maxtype, s.ncpu) && TotalIs(l, ip, t, s.maxtype, c)
    requires IsReadOf(s, ip, w)
    ensures t < w.maxtype && (Sum(w, f, t) + Owed(w.adders, f, t, 0)) % U64_MOD == Of(f, c) % U64_MOD
  {
    EntryHolds(s, l, ip, t, c);
    FinishedSum(w, f, t);
  }

  /** What the ledger says of a counted address after `m` events. */
  lemma LedgerHasCredits(ss: seq<Stat>, es: seq<Event>, oks: seq<bool>, maxtype: nat, ncpu: nat, ip: IpAddr,
                         from: nat, m: nat, t: nat)
    requires History(ss, es, oks, maxtype, ncpu) && from < m <= |es| && t < maxtype
    requires es[from] == AddIp(ip) && oks[from] && forall i :: from < i < m ==> es[i] != RmvIp(ip)
    ensures Agrees(ss[m], LedgerAfter(es[..m], maxtype)) && ss[m].maxtype == maxtype
    ensures TotalAt(es, maxtype, ip, t, from + 1, m)
  {
    AddedOk(ss, es, oks, maxtype, ncpu, from);
    TotalsAreCredits(es, maxtype, ip, t, from, m);
    HistoryAgrees(ss, es, oks, maxtype, ncpu, m);
  }

  lemma LiesBetween(sum: nat, owed: nat, credits: nat, early: nat, late: nat, owed': nat, credits': nat, worth: nat,
                    got: nat)
    requires (sum + owed) % U64_MOD == credits % U64_MOD && WrapsTo(sum + early, got)
    requires early + late + owed' == worth + owed && credits' == credits + worth
    ensures Between(credits - owed, credits' - owed', got)
  {
    SumsWrap(sum + owed, credits, early - owed, early - owed);
    assert WrapsTo(credits - owed + early, got);
  }

  /** End to end: a read begins after `m` events of a history and ends after all of them; the accountings of
      the address that begin while it runs are those of the history since. Then each total it returns lies
      between the credits at its start and at its end, bytes still owed not counted. */
  lemma ReadIsBetweenCredits(ss: seq<Stat>, es: seq<Event>, oks: seq<bool>, maxtype: nat, ncpu: nat, ip: IpAddr,
                             from: nat, m: nat, w: World, acts: seq<Action>, f: Field, t: nat)
    requires History(ss, es, oks, maxtype, ncpu) && from < m <= |es|
    requires es[from] == AddIp(ip) && oks[from] && forall i :: from < i < |es| ==> es[i] != RmvIp(ip)
    requires IsReadOf(ss[m], ip, w) && IsRead(w, acts) && t < maxtype
    requires Started(acts) == AccountingsOf(ss, es, ip, m, |es|)
    ensures var v := After(w, acts);
      && |v.reader.out| == maxtype
      && Between(Of(f, Credits(es, maxtype, ip, t, from + 1, m)) - Owed(w.adders, f, t, 0),
                 Of(f, Credits(es, maxtype, ip, t, from + 1, |es|)) - Owed(v.adders, f, t, 0),
                 Of(f, v.reader.out[t]))
  {
    LedgerHasCredits(ss, es, oks, maxtype, ncpu, ip, from, m, t);
    CreditsAreWorth(ss, es, oks, maxtype, ncpu, ip, from + 1, m, |es|, f, t);
    ReadOfTotals(ss[m], LedgerAfter(es[..m], maxtype), ip, w, acts, f, t, Credits(es, maxtype, ip, t, from + 1, m),
                 Of(f, Credits(es, maxtype, ip, t, from + 1, |es|)));
  }

  lemma ReadOfTotals(s: Stat, l: Ledger, ip: IpAddr, w: World, acts: seq<Action>, f: Field, t: nat, c: Cell,
                     credits': nat)
    requires IpsAgree(InOrder(s.ips), l.totals, s.maxtype, s.ncpu) && TotalIs(l, ip, t, s.maxtype, c)
    requires IsReadOf(s, ip, w) && IsRead(w, acts) && credits' == Of(f, c) + Worth(Started(acts), f, t)
    ensures var v := After(w, acts);
      && |v.reader.out| == s.maxtype
      && Between(Of(f, c) - Owed(w.adders, f, t, 0), credits' - Owed(v.adders, f, t, 0), Of(f, v.reader.out[t]))
  {
    CellsHoldTotals(s, l, ip, w, f, t, c);
    var early, late := ReadPays(w, acts, f, t);
    SumLies(w, After(w, acts), f, t, early, late, Worth(Started(acts), f, t), Of(f, c), credits');
  }

  lemma ReadPays(w: World, acts: seq<Action>, f: Field, t: nat) returns (early: nat, late: nat)
    requires IsRead(w, acts) && t < w.maxtype
    ensures var v := After(w, acts);
      && |v.reader.out| == w.maxtype && WrapsTo(Sum(w, f, t) + early, Of(f, v.reader.out[t]))
      && early + late + Owed(v.adders, f, t, 0) == Worth(Started(acts), f, t) + Owed(w.adders, f, t, 0)
  {
    early, late := Early(w, acts, f, t), Late(w, acts, f, t);
    ReadSees(w, acts, f, t);
    RunPays(w, acts, f, t);
  }

  lemma SumLies(w: World, v: World, f: Field, t: nat, early: nat, late: nat, worth: nat, credits: nat, credits': nat)
    requires Shaped(w) && t < w.maxtype == |v.reader.out| && credits' == credits + worth
    requires WrapsTo(Sum(w, f, t) + early, Of(f, v.reader.out[t]))
    requires early + late + Owed(v.adders, f, t, 0) == worth + Owed(w.adders, f, t, 0)
    requires (Sum(w, f, t) + Owed(w.adders, f, t, 0)) % U64_MOD == credits % U64_MOD
    ensures Between(credits - Owed(w.adders, f, t, 0), credits' - Owed(v.adders, f, t, 0), Of(f, v.reader.out[t]))
  {
    LiesBetween(Sum(w, f, t), Owed(w.adders, f, t, 0), credits, early, late,
                Owed(v.adders, f, t, 0), credits', worth, Of(f, v.reader.out[t]));
  }

  lemma {:induction false} NothingOwed(adders: seq<Adder>, f: Field, t: nat, k: nat)
    requires k <= |adders| && forall c :: 0 <= c < |adders| ==> adders[c].Resting?
    ensures Owed(adders, f, t, k) == 0
    decreases |adders| - k
  {
    if k < |adders| {
      NothingOwed(adders, f, t, k + 1);
    }
  }

  /** With no accounting of the address under way or begun while it runs, the read is exact. */
  lemma QuietReadIsExact(ss: seq<Stat>, es: seq<Event>, oks: seq<bool>, maxtype: nat, ncpu: nat, ip: IpAddr,
                         from: nat, m: nat, w: World, acts: seq<Action>, t: nat)
    requires History(ss, es, oks, maxtype, ncpu) && from < m <= |es|
    requires es[from] == AddIp(ip) && oks[from] && forall i :: from < i < |es| ==> es[i] != RmvIp(ip)
    requires IsReadOf(ss[m], ip, w) && IsRead(w, acts) && t < maxtype
    requires forall c :: 0 <= c < |w.adders| ==> w.adders[c].Resting?
    requires Started(acts) == AccountingsOf(ss, es, ip, m, |es|) == []
    ensures var v := After(w, acts);
      && |v.reader.out| == maxtype
      && v.reader.out[t] == Wrap(Credits(es, maxtype, ip, t, from + 1, |es|))
  {
    QuietField(ss, es, oks, maxtype, ncpu, ip, from, m, w, acts, InNumber, t);
    QuietField(ss, es, oks, maxtype, ncpu, ip, from, m, w, acts, InBytes, t);
  }

  lemma QuietField(ss: seq<Stat>, es: seq<Event>, oks: seq<bool>, maxtype: nat, ncpu: nat, ip: IpAddr,
                   from: nat, m: nat, w: World, acts: seq<Action>, f: Field, t: nat)
    requires History(ss, es, oks, maxtype, ncpu) && from < m <= |es|
    requires es[from] == AddIp(ip) && oks[from] && forall i :: from < i < |es| ==> es[i] != RmvIp(ip)
    requires IsReadOf(ss[m], ip, w) && IsRead(w, acts) && t < maxtype
    requires forall c :: 0 <= c < |w.adders| ==> w.adders[c].Resting?
    requires Started(acts) == AccountingsOf(ss, es, ip, m, |es|) == []
    ensures var v := After(w, acts);
      && |v.reader.out| == maxtype
      && Of(f, v.reader.out[t]) == Of(f, Credits(es, maxtype, ip, t, from + 1, |es|)) % U64_MOD
  {
    QuietCredits(ss, es, oks, maxtype, ncpu, ip, from + 1, m, f, t);
    OwesNothing(w, acts, f, t);
    ReadIsBetweenCredits(ss, es, oks, maxtype, ncpu, ip, from, m, w, acts, f, t);
    NothingBetween(Of(f, Credits(es, maxtype, ip, t, from + 1, |es|)), Of(f, After(w, acts).reader.out[t]));
  }

  lemma QuietCredits(ss: seq<Stat>, es: seq<Event>, oks: seq<bool>, maxtype: nat, ncpu: nat, ip: IpAddr, from: nat,
                     m: nat, f: Field, t: nat)
    requires History(ss, es, oks, maxtype, ncpu) && from <= m <= |es| && AccountingsOf(ss, es, ip, m, |es|) == []
    ensures Of(f, Credits(es, maxtype, ip, t, from, |es|)) == Of(f, Credits(es, maxtype, ip, t, from, m))
  {
    CreditsAreWorth(ss, es, oks, maxtype, ncpu, ip, from, m, |es|, f, t);
  }

  lemma OwesNothing(w: World, acts: seq<Action>, f: Field, t: nat)
    requires Shaped(w) && Run(w, acts) && Started(acts) == []
    requires forall c :: 0 <= c < |w.adders| ==> w.adders[c].Resting?
    ensures Owed(w.adders, f, t, 0) == 0 && Owed(After(w, acts).adders, f, t, 0) == 0
  {
    NothingOwed(w.adders, f, t, 0);
    RunPays(w, acts, f, t);
  }

  lemma NothingBetween(lo: nat, got: nat)
    requires Between(lo, lo, got)
    ensures got == lo % U64_MOD
  {
  }
}
