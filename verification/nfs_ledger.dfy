/**
 What nfstat promises over whole histories: a plain set of rules and a plain table of totals, counted
 without bound, give the same answers as the trees with their wildcard comparison, per-CPU cells and
 64-bit arithmetic.
 */
module NfsLedger {
  import opened Wrappers
  import opened Collections
  import opened SearchTree
  import opened NfsRule
  import opened NfsCounter
  import opened Words
  import opened NfsHook
  import opened Nfstat

  /** A packet classified and not yet accounted, with the types of all rules it met. */
  datatype Due = Due(ip: IpAddr, types: set<nat>, len: nat)

  datatype Ledger = Ledger(rules: set<Rule>, totals: map<IpAddr, seq<Cell>>, pending: seq<Due>)

  const EMPTY := Ledger({}, map[], [])

  ghost predicate Listed(q: Rule, rules: set<Rule>) {
    exists r :: r in rules && Compatible(q, r)
  }

  /** The types of the rules a packet meets. */
  ghost function Types(q: Rule, rules: set<Rule>): set<nat> {
    set r | r in rules && Compatible(q, r) :: r.typeidx
  }

  ghost function Credited(totals: seq<Cell>, types: set<nat>, len: nat): (s: seq<Cell>)
    ensures |s| == |totals|
  {
    seq(|totals|, t requires 0 <= t < |totals| =>
      if t in types then Cell(totals[t].number + 1, totals[t].bytes + len) else totals[t])
  }

  function ZeroTotals(maxtype: nat): seq<Cell> { seq(maxtype, _ => Cell(0, 0)) }

  ghost function Without(rules: set<Rule>, q: Rule): set<Rule> {
    set r | r in rules && !Compatible(q, r)
  }

  /** The event on the ledger, and whether it succeeds. */
  ghost function Enter(l: Ledger, e: Event, maxtype: nat): (Ledger, bool) {
    match e
    case AddRule(r) => if Listed(r, l.rules) then (l, false) else (l.(rules := l.rules + {r}), true)
    case RmvRule(q) => (l.(rules := Without(l.rules, q)), Listed(q, l.rules))
    case AddIp(ip) =>
      if ip.len == 0 || ip in l.totals then (l, false)
      else (l.(totals := l.totals[ip := ZeroTotals(maxtype)]), true)
    case RmvIp(ip) => (l.(totals := l.totals - {ip}), ip in l.totals)
    case Classify(p) =>
      if !IsPacket(p) || KeyOf(p).None? || !Listed(KeyOf(p).value, l.rules) then (l, true)
      else
        (l.(pending := l.pending + [Due(KeyOf(p).value.lip, Types(KeyOf(p).value, l.rules), p.len)]), true)
    case Account(i, _) =>
      if i >= |l.pending| then (l, false)
      else
        var d := l.pending[i];
        (Ledger(l.rules,
                if d.ip in l.totals then l.totals[d.ip := Credited(l.totals[d.ip], d.types, d.len)] else l.totals,
                Taken(l.pending, i)), true)
  }

  /** The conditions a user and the traffic must meet, all checkable before the event: one mask per
      protocol, type indices in range, canonical addresses, packets definite where rules look. */
  ghost predicate Allowed(l: Ledger, e: Event, maxtype: nat, ncpu: nat) {
    match e
    case AddRule(r) =>
      r.typeidx < maxtype && forall x :: x in l.rules && x.protocol == r.protocol ==> MaskOf(x) == MaskOf(r)
    case RmvRule(q) => Definite(q, l.rules)
    case AddIp(ip) => Canonical(ip)
    case RmvIp(_) => true
    case Classify(p) => IsPacket(p) && KeyOf(p).Some? ==> Definite(KeyOf(p).value, l.rules)
    case Account(_, cpu) => cpu < ncpu
  }

  ghost predicate Definite(q: Rule, rules: set<Rule>) {
    forall x :: x in rules && x.protocol == q.protocol ==> Covers(q, MaskOf(x))
  }

  function Wrap(c: Cell): Cell { Cell(c.number % U64_MOD, c.bytes % U64_MOD) }

  // ----- Agreement

  ghost predicate RulesAgree(t: Tree<Rule>, rules: set<Rule>, maxtype: nat) {
    && Searchable(InOrder(t))
    && (forall r :: r in rules <==> r in InOrder(t))
    && (forall r :: r in rules ==> r.typeidx < maxtype)
  }

  ghost predicate EntryAgrees(e: Entry, totals: map<IpAddr, seq<Cell>>, maxtype: nat, ncpu: nat) {
    && CountsShaped(e.counts, ncpu, maxtype) && Canonical(e.ip)
    && e.ip in totals && |totals[e.ip]| == maxtype
    && forall t :: 0 <= t < maxtype ==> SumCells(e.counts, t) == Wrap(totals[e.ip][t])
  }

  ghost predicate HasEntry(xs: seq<Entry>, ip: IpAddr) {
    exists e :: e in xs && e.ip == ip
  }

  ghost predicate IpsAgree(xs: seq<Entry>, totals: map<IpAddr, seq<Cell>>, maxtype: nat, ncpu: nat) {
    && Ascending(xs)
    && (forall e :: e in xs ==> EntryAgrees(e, totals, maxtype, ncpu))
    && (forall ip :: ip in totals ==> HasEntry(xs, ip))
    && |totals| == |xs|
  }

  /** Each packet under way has one type. */
  ghost predicate DueAgrees(h: Hit, d: Due, maxtype: nat) {
    d == Due(h.ip, {h.typeidx}, h.len) && h.typeidx < maxtype
  }

  ghost predicate PendingAgree(hits: seq<Hit>, dues: seq<Due>, maxtype: nat) {
    |hits| == |dues| && forall i :: 0 <= i < |hits| ==> DueAgrees(hits[i], dues[i], maxtype)
  }

  ghost predicate Agrees(s: Stat, l: Ledger) {
    && RulesAgree(s.rules, l.rules, s.maxtype)
    && IpsAgree(InOrder(s.ips), l.totals, s.maxtype, s.ncpu)
    && s.ipnumber == |l.totals| % 0x1_0000_0000
    && PendingAgree(s.pending, l.pending, s.maxtype)
  }

  lemma EntryOf(s: Stat, l: Ledger, ip: IpAddr)
    requires IpsAgree(InOrder(s.ips), l.totals, s.maxtype, s.ncpu)
    ensures Search(s.ips, Near(ip)).Some? <==> ip in l.totals
    ensures ip in l.totals ==>
      && Search(s.ips, Near(ip)).value.ip == ip && Search(s.ips, Near(ip)).value in InOrder(s.ips)
      && EntryAgrees(Search(s.ips, Near(ip)).value, l.totals, s.maxtype, s.ncpu)
  {
    FindsPresent(s.ips, ip);
    if ip in l.totals {
      assert HasEntry(InOrder(s.ips), ip);
    }
  }

  /** A read answers with the exact totals modulo 2^64, type by type, and only for counted addresses. */
  lemma ReadIsExact(s: Stat, l: Ledger, ip: IpAddr)
    requires Agrees(s, l)
    ensures Read(s, ip).Some? <==> ip in l.totals
    ensures ip in l.totals ==>
      && |Read(s, ip).value| == |l.totals[ip]| == s.maxtype
      && forall t :: 0 <= t < s.maxtype ==> Read(s, ip).value[t] == Wrap(l.totals[ip][t])
  {
    EntryOf(s, l, ip);
  }

  // ----- Rules

  lemma RuleFound(t: Tree<Rule>, rules: set<Rule>, q: Rule, maxtype: nat)
    requires RulesAgree(t, rules, maxtype) && Definite(q, rules)
    ensures Suits(q, InOrder(t))
    ensures Search(t, Against(q)).Some? <==> Listed(q, rules)
    ensures Search(t, Against(q)).Some? ==>
      Search(t, Against(q)).value.typeidx < maxtype
      && Types(q, rules) == {Search(t, Against(q)).value.typeidx}
  {
    forall i | 0 <= i < |InOrder(t)| ensures InOrder(t)[i] in rules { }
    SearchFindsCompatible(t, q);
    if Search(t, Against(q)).Some? {
      var r := Search(t, Against(q)).value;
      assert r in rules && Compatible(q, r);
    }
  }

  lemma AddRuleAgrees(t: Tree<Rule>, rules: set<Rule>, r: Rule, maxtype: nat)
    requires RulesAgree(t, rules, maxtype) && r.typeidx < maxtype
    requires forall x :: x in rules && x.protocol == r.protocol ==> MaskOf(x) == MaskOf(r)
    ensures Insert(t, Against(r), r) == None <==> Listed(r, rules)
    ensures Insert(t, Against(r), r).Some? ==> RulesAgree(Insert(t, Against(r), r).value, rules + {r}, maxtype)
  {
    forall i | 0 <= i < |InOrder(t)| ensures InOrder(t)[i] in rules { }
    AddKeepsSearchable(t, r);
  }

  lemma RmvRuleAgrees(t: Tree<Rule>, rules: set<Rule>, q: Rule, maxtype: nat)
    requires RulesAgree(t, rules, maxtype) && Definite(q, rules)
    ensures Search(t, Against(q)).Some? <==> Listed(q, rules)
    ensures RulesAgree(if Search(t, Against(q)).Some? then Erase(t, Against(q)) else t,
                       Without(rules, q), maxtype)
  {
    RuleFound(t, rules, q, maxtype);
    if Search(t, Against(q)).Some? {
      RemoveKeepsSearchable(t, q);
    } else {
      assert Without(rules, q) == rules;
    }
  }

  // ----- Addresses

  lemma NewEntryAgrees(ip: IpAddr, totals: map<IpAddr, seq<Cell>>, maxtype: nat, ncpu: nat)
    requires Canonical(ip)
    ensures EntryAgrees(NewEntry(ip, ncpu, maxtype), totals[ip := ZeroTotals(maxtype)], maxtype, ncpu)
  {
    forall t | 0 <= t < maxtype
      ensures SumCells(ZeroCounts(ncpu, maxtype), t) == Wrap(ZeroTotals(maxtype)[t])
    {
      ZeroSum(ncpu, maxtype, t);
    }
  }

  lemma InsertedRows(xs: seq<Entry>, zs: seq<Entry>, y: Entry, totals: map<IpAddr, seq<Cell>>, row: seq<Cell>,
                     maxtype: nat, ncpu: nat)
    requires IpsAgree(xs, totals, maxtype, ncpu) && y.ip !in totals
    requires Ascending(zs) && |zs| == |xs| + 1 && forall e :: e in zs <==> e == y || e in xs
    requires EntryAgrees(y, totals[y.ip := row], maxtype, ncpu)
    ensures IpsAgree(zs, totals[y.ip := row], maxtype, ncpu)
  {
    var totals' := totals[y.ip := row];
    OneMore(totals, y.ip, row);
    assert y in zs;
    forall e | e in zs ensures EntryAgrees(e, totals', maxtype, ncpu) {
      if e != y {
        assert EntryAgrees(e, totals, maxtype, ncpu);
      }
    }
    forall a | a in totals' ensures HasEntry(zs, a) {
      if a != y.ip {
        assert HasEntry(xs, a);
        var e :| e in xs && e.ip == a;
        assert e in zs;
      }
    }
  }

  lemma RemovedRows(xs: seq<Entry>, zs: seq<Entry>, ip: IpAddr, totals: map<IpAddr, seq<Cell>>,
                    maxtype: nat, ncpu: nat)
    requires IpsAgree(xs, totals, maxtype, ncpu) && ip in totals
    requires Ascending(zs) && |zs| == |xs| - 1 && forall e :: e in zs <==> e in xs && e.ip != ip
    ensures IpsAgree(zs, totals - {ip}, maxtype, ncpu)
  {
    var totals' := totals - {ip};
    OneLess(totals, ip);
    forall e | e in zs ensures EntryAgrees(e, totals', maxtype, ncpu) {
      assert EntryAgrees(e, totals, maxtype, ncpu);
    }
    forall a | a in totals' ensures HasEntry(zs, a) {
      assert HasEntry(xs, a);
      var e :| e in xs && e.ip == a;
      assert e in zs;
    }
  }

  lemma AddIpAgrees(s: Stat, l: Ledger, ip: IpAddr)
    requires IpsAgree(InOrder(s.ips), l.totals, s.maxtype, s.ncpu) && Canonical(ip)
    ensures var y := NewEntry(ip, s.ncpu, s.maxtype);
      && (Insert(s.ips, Near(ip), y) == None <==> ip in l.totals)
      && (ip !in l.totals ==>
            IpsAgree(InOrder(Insert(s.ips, Near(ip), y).value), l.totals[ip := ZeroTotals(s.maxtype)],
                     s.maxtype, s.ncpu))
  {
    var y := NewEntry(ip, s.ncpu, s.maxtype);
    EntryOf(s, l, ip);
    AscendingSeparates(InOrder(s.ips), ip);
    var k := InsertInOrder(s.ips, Near(ip), y);
    if ip !in l.totals {
      InsertKeepsOrderIff(s.ips, ip, y);
      NewEntryAgrees(ip, l.totals, s.maxtype, s.ncpu);
      InsertedRows(InOrder(s.ips), InOrder(Insert(s.ips, Near(ip), y).value), y, l.totals, ZeroTotals(s.maxtype),
                   s.maxtype, s.ncpu);
    }
  }

  lemma RmvIpAgrees(s: Stat, l: Ledger, ip: IpAddr)
    requires IpsAgree(InOrder(s.ips), l.totals, s.maxtype, s.ncpu) && ip in l.totals
    ensures Search(s.ips, Near(ip)).Some?
    ensures IpsAgree(InOrder(Erase(s.ips, Near(ip))), l.totals - {ip}, s.maxtype, s.ncpu)
  {
    var xs := InOrder(s.ips);
    EntryOf(s, l, ip);
    AscendingSeparates(xs, ip);
    var m := MatchInOrder(s.ips, Near(ip), Search(s.ips, Near(ip)).value);
    RemovedAscending(xs, m);
    RemovedRows(xs, InOrder(Erase(s.ips, Near(ip))), ip, l.totals, s.maxtype, s.ncpu);
  }

  // ----- Packets

  /** One more packet on a cell, before and after wrapping. */
  lemma WrapOne(c: Cell, len: nat)
    ensures Add(Wrap(c), Cell(1, len)) == Wrap(Cell(c.number + 1, c.bytes + len))
  {
    Wrapped(c.number, 1);
    Wrapped(c.bytes, len);
  }

  lemma CreditedAt(row: seq<Cell>, t: nat, len: nat, u: nat)
    requires u < |row|
    ensures Credited(row, {t}, len)[u] == if u == t then Cell(row[u].number + 1, row[u].bytes + len) else row[u]
  {
  }

  lemma WrapCredited(row: seq<Cell>, t: nat, len: nat, u: nat)
    requires u < |row|
    ensures Wrap(Credited(row, {t}, len)[u])
         == if u == t then Add(Wrap(row[u]), Cell(1, len)) else Wrap(row[u])
  {
    WrapOne(row[u], len);
    CreditedAt(row, t, len, u);
  }

  lemma CreditedSum(counts: seq<seq<Cell>>, row: seq<Cell>, t: nat, cpu: nat, len: nat, u: nat)
    requires cpu < |counts| && t < |row| && u < |row|
    requires forall c :: 0 <= c < |counts| ==> |counts[c]| == |row|
    requires SumCells(counts, u) == Wrap(row[u])
    ensures forall c :: 0 <= c < |counts| ==> |Bump(counts, cpu, t, len)[c]| == |row|
    ensures SumCells(Bump(counts, cpu, t, len), u) == Wrap(Credited(row, {t}, len)[u])
  {
    BumpAddsToSum(counts, cpu, t, len, u);
    WrapCredited(row, t, len, u);
  }

  lemma CreditedEntry(e: Entry, totals: map<IpAddr, seq<Cell>>, t: nat, cpu: nat, len: nat, maxtype: nat,
                      ncpu: nat)
    requires EntryAgrees(e, totals, maxtype, ncpu) && cpu < ncpu && t < maxtype
    ensures EntryAgrees(e.(counts := Bump(e.counts, cpu, t, len)),
                        totals[e.ip := Credited(totals[e.ip], {t}, len)], maxtype, ncpu)
  {
    var after := Bump(e.counts, cpu, t, len);
    forall u | 0 <= u < maxtype
      ensures CountsShaped(after, ncpu, maxtype)
      ensures SumCells(after, u) == Wrap(Credited(totals[e.ip], {t}, len)[u])
    {
      CreditedSum(e.counts, totals[e.ip], t, cpu, len, u);
    }
  }

  lemma ReplacedHas(xs: seq<Entry>, m: nat, y: Entry, a: IpAddr)
    requires Ascending(xs) && m < |xs| && y.ip == xs[m].ip && HasEntry(xs, a)
    ensures HasEntry(xs[m := y], a)
  {
    ReplacedAscending(xs, m, y);
    var e :| e in xs && e.ip == a;
    assert (if e.ip == xs[m].ip then y else e) in xs[m := y];
  }

  lemma ReplacedAgrees(s: Stat, l: Ledger, ip: IpAddr, y: Entry, row: seq<Cell>)
    requires IpsAgree(InOrder(s.ips), l.totals, s.maxtype, s.ncpu) && ip in l.totals && y.ip == ip
    requires EntryAgrees(y, l.totals[ip := row], s.maxtype, s.ncpu)
    ensures IpsAgree(InOrder(Replace(s.ips, Near(ip), y)), l.totals[ip := row], s.maxtype, s.ncpu)
  {
    var xs := InOrder(s.ips);
    EntryOf(s, l, ip);
    AscendingSeparates(xs, ip);
    var m := MatchInOrder(s.ips, Near(ip), y);
    SameAddr(xs[m].ip, ip);
    ReplacedAscending(xs, m, y);
    ReplacedRows(xs, m, y, l.totals, row, s.maxtype, s.ncpu);
  }

  lemma ReplacedRows(xs: seq<Entry>, m: nat, y: Entry, totals: map<IpAddr, seq<Cell>>, row: seq<Cell>,
                     maxtype: nat, ncpu: nat)
    requires IpsAgree(xs, totals, maxtype, ncpu) && m < |xs| && y.ip == xs[m].ip
    requires EntryAgrees(y, totals[y.ip := row], maxtype, ncpu)
    requires Ascending(xs[m := y])
    requires forall x :: x in xs[m := y] ==> x == y || (x in xs && x.ip != xs[m].ip)
    ensures IpsAgree(xs[m := y], totals[y.ip := row], maxtype, ncpu)
  {
    var totals' := totals[y.ip := row];
    assert xs[m] in xs;
    assert EntryAgrees(xs[m], totals, maxtype, ncpu);
    SameSize(totals, y.ip, row);
    forall a | a in totals' ensures HasEntry(xs[m := y], a) {
      assert HasEntry(xs, a);
      ReplacedHas(xs, m, y, a);
    }
    forall e | e in xs[m := y] ensures EntryAgrees(e, totals', maxtype, ncpu) {
      if e != y {
        assert EntryAgrees(e, totals, maxtype, ncpu);
      }
    }
  }

  /** A packet accounted for an address that is counted. */
  lemma CountedAccount(s: Stat, l: Ledger, h: Hit, cpu: nat)
    requires IpsAgree(InOrder(s.ips), l.totals, s.maxtype, s.ncpu) && h.ip in l.totals
    requires h.typeidx < s.maxtype && cpu < s.ncpu
    ensures IpsAgree(InOrder(Count(s, h.ip, h.typeidx, cpu, h.len).ips),
                     l.totals[h.ip := Credited(l.totals[h.ip], {h.typeidx}, h.len)], s.maxtype, s.ncpu)
  {
    EntryOf(s, l, h.ip);
    var e := Search(s.ips, Near(h.ip)).value;
    CreditedEntry(e, l.totals, h.typeidx, cpu, h.len, s.maxtype, s.ncpu);
    ReplacedAgrees(s, l, h.ip, e.(counts := Bump(e.counts, cpu, h.typeidx, h.len)),
                   Credited(l.totals[h.ip], {h.typeidx}, h.len));
  }

  lemma TakenAgree(hits: seq<Hit>, dues: seq<Due>, maxtype: nat, i: nat)
    requires PendingAgree(hits, dues, maxtype) && i < |hits|
    ensures PendingAgree(Taken(hits, i), Taken(dues, i), maxtype)
  {
    forall j | 0 <= j < |hits| - 1 ensures DueAgrees(Taken(hits, i)[j], Taken(dues, i)[j], maxtype) {
      assert DueAgrees(hits[if j < i then j else j + 1], dues[if j < i then j else j + 1], maxtype);
    }
  }

  lemma CountOnlyIps(s: Stat, ip: IpAddr, t: nat, cpu: nat, len: nat)
    ensures Count(s, ip, t, cpu, len) == s.(ips := Count(s, ip, t, cpu, len).ips)
  {
  }

  lemma AccountAgrees(s: Stat, l: Ledger, i: nat, cpu: nat)
    requires Agrees(s, l) && cpu < s.ncpu
    ensures Agrees(Do(s, Account(i, cpu)).0, Enter(l, Account(i, cpu), s.maxtype).0)
    ensures Do(s, Account(i, cpu)).1 == Enter(l, Account(i, cpu), s.maxtype).1
  {
    if i < |s.pending| {
      var h, d := s.pending[i], l.pending[i];
      assert DueAgrees(h, d, s.maxtype);
      TakenAgree(s.pending, l.pending, s.maxtype, i);
      var s1 := s.(pending := Taken(s.pending, i));
      CountOnlyIps(s1, h.ip, h.typeidx, cpu, h.len);
      EntryOf(s1, l, h.ip);
      if h.ip in l.totals {
        CountedAccount(s1, l, h, cpu);
        SameSize(l.totals, h.ip, Credited(l.totals[h.ip], d.types, d.len));
      }
    }
  }

  lemma HitAgrees(t: Tree<Rule>, rules: set<Rule>, k: Rule, len: nat, maxtype: nat)
    requires RulesAgree(t, rules, maxtype) && Definite(k, rules)
    ensures Search(t, Against(k)).Some? <==> Listed(k, rules)
    ensures Listed(k, rules) ==>
      DueAgrees(Hit(k.lip, Search(t, Against(k)).value.typeidx, len), Due(k.lip, Types(k, rules), len), maxtype)
  {
    RuleFound(t, rules, k, maxtype);
  }

  lemma PendingGrow(hits: seq<Hit>, dues: seq<Due>, h: Hit, d: Due, maxtype: nat)
    requires PendingAgree(hits, dues, maxtype) && DueAgrees(h, d, maxtype)
    ensures PendingAgree(hits + [h], dues + [d], maxtype)
  {
  }

  lemma ClassifyAgrees(s: Stat, l: Ledger, p: Packet)
    requires Agrees(s, l) && Allowed(l, Classify(p), s.maxtype, s.ncpu)
    ensures Agrees(Do(s, Classify(p)).0, Enter(l, Classify(p), s.maxtype).0)
    ensures Do(s, Classify(p)).1 == Enter(l, Classify(p), s.maxtype).1
  {
    if IsPacket(p) && KeyOf(p).Some? {
      var k := KeyOf(p).value;
      HitAgrees(s.rules, l.rules, k, p.len, s.maxtype);
      if Listed(k, l.rules) {
        PendingGrow(s.pending, l.pending, Hit(k.lip, Search(s.rules, Against(k)).value.typeidx, p.len),
                    Due(k.lip, Types(k, l.rules), p.len), s.maxtype);
      }
    }
  }

  lemma RuleEventAgrees(s: Stat, l: Ledger, e: Event)
    requires Agrees(s, l) && Allowed(l, e, s.maxtype, s.ncpu) && (e.AddRule? || e.RmvRule?)
    ensures Agrees(Do(s, e).0, Enter(l, e, s.maxtype).0) && Do(s, e).1 == Enter(l, e, s.maxtype).1
  {
    if e.AddRule? {
      AddRuleAgrees(s.rules, l.rules, e.rule, s.maxtype);
    } else {
      RmvRuleAgrees(s.rules, l.rules, e.rule, s.maxtype);
    }
  }

  /** An event that only touches the addresses. */
  lemma OtherIps(s: Stat, l: Ledger, ips: Tree<Entry>, totals: map<IpAddr, seq<Cell>>, n: nat)
    requires RulesAgree(s.rules, l.rules, s.maxtype) && PendingAgree(s.pending, l.pending, s.maxtype)
    requires IpsAgree(InOrder(ips), totals, s.maxtype, s.ncpu) && n == |totals| % U32_MOD
    ensures Agrees(s.(ips := ips, ipnumber := n), l.(totals := totals))
  {
  }

  lemma CountUpDown(n: nat)
    ensures (n % U32_MOD + 1) % U32_MOD == (n + 1) % U32_MOD
    ensures n > 0 ==> (n % U32_MOD - 1) % U32_MOD == (n - 1) % U32_MOD
  {
  }

  lemma NewIpAgrees(s: Stat, l: Ledger, ip: IpAddr, ips: Tree<Entry>)
    requires RulesAgree(s.rules, l.rules, s.maxtype) && PendingAgree(s.pending, l.pending, s.maxtype)
    requires ip !in l.totals && s.ipnumber == |l.totals| % U32_MOD
    requires IpsAgree(InOrder(ips), l.totals[ip := ZeroTotals(s.maxtype)], s.maxtype, s.ncpu)
    ensures Agrees(s.(ips := ips, ipnumber := (s.ipnumber + 1) % U32_MOD),
                   l.(totals := l.totals[ip := ZeroTotals(s.maxtype)]))
  {
    OneMore(l.totals, ip, ZeroTotals(s.maxtype));
    CountUpDown(|l.totals|);
    OtherIps(s, l, ips, l.totals[ip := ZeroTotals(s.maxtype)], (s.ipnumber + 1) % U32_MOD);
  }

  lemma DoAddIp(s: Stat, l: Ledger, ip: IpAddr)
    requires Insert(s.ips, Near(ip), NewEntry(ip, s.ncpu, s.maxtype)) == None <==> ip in l.totals
    ensures (ip.len != 0 && ip !in l.totals) <==> Do(s, AddIp(ip)).1
    ensures Do(s, AddIp(ip)).1 == Enter(l, AddIp(ip), s.maxtype).1
    ensures Do(s, AddIp(ip)).0 ==
      if ip.len == 0 || ip in l.totals then s
      else s.(ips := Insert(s.ips, Near(ip), NewEntry(ip, s.ncpu, s.maxtype)).value,
              ipnumber := (s.ipnumber + 1) % U32_MOD)
    ensures Enter(l, AddIp(ip), s.maxtype).0 ==
      if ip.len == 0 || ip in l.totals then l else l.(totals := l.totals[ip := ZeroTotals(s.maxtype)])
  {
  }

  lemma DoRmvIp(s: Stat, l: Ledger, ip: IpAddr)
    requires Search(s.ips, Near(ip)).Some? <==> ip in l.totals
    ensures Do(s, RmvIp(ip)).1 == Enter(l, RmvIp(ip), s.maxtype).1
    ensures Do(s, RmvIp(ip)).0 ==
      if ip !in l.totals then s
      else s.(ips := Erase(s.ips, Near(ip)), ipnumber := (s.ipnumber - 1) % U32_MOD)
    ensures Enter(l, RmvIp(ip), s.maxtype).0 ==
      if ip !in l.totals then l else l.(totals := l.totals - {ip})
  {
    if ip !in l.totals {
      assert l.totals - {ip} == l.totals;
    }
  }

  lemma AddIpEventAgrees(s: Stat, l: Ledger, ip: IpAddr)
    requires Agrees(s, l) && Allowed(l, AddIp(ip), s.maxtype, s.ncpu)
    ensures Agrees(Do(s, AddIp(ip)).0, Enter(l, AddIp(ip), s.maxtype).0)
    ensures Do(s, AddIp(ip)).1 == Enter(l, AddIp(ip), s.maxtype).1
  {
    var ins := Insert(s.ips, Near(ip), NewEntry(ip, s.ncpu, s.maxtype));
    AddIpAgrees(s, l, ip);
    DoAddIp(s, l, ip);
    if ip.len != 0 && ip !in l.totals {
      NewIpAgrees(s, l, ip, ins.value);
    }
  }

  lemma GoneIpAgrees(s: Stat, l: Ledger, ip: IpAddr, ips: Tree<Entry>)
    requires RulesAgree(s.rules, l.rules, s.maxtype) && PendingAgree(s.pending, l.pending, s.maxtype)
    requires ip in l.totals && s.ipnumber == |l.totals| % U32_MOD
    requires IpsAgree(InOrder(ips), l.totals - {ip}, s.maxtype, s.ncpu)
    ensures Agrees(s.(ips := ips, ipnumber := (s.ipnumber - 1) % U32_MOD), l.(totals := l.totals - {ip}))
  {
    OneLess(l.totals, ip);
    CountUpDown(|l.totals|);
    OtherIps(s, l, ips, l.totals - {ip}, (s.ipnumber - 1) % U32_MOD);
  }

  lemma RmvIpEventAgrees(s: Stat, l: Ledger, ip: IpAddr)
    requires Agrees(s, l)
    ensures Agrees(Do(s, RmvIp(ip)).0, Enter(l, RmvIp(ip), s.maxtype).0)
    ensures Do(s, RmvIp(ip)).1 == Enter(l, RmvIp(ip), s.maxtype).1
  {
    EntryOf(s, l, ip);
    DoRmvIp(s, l, ip);
    if ip in l.totals {
      RmvIpAgrees(s, l, ip);
      GoneIpAgrees(s, l, ip, Erase(s.ips, Near(ip)));
    }
  }

  lemma ShapeIsFree(s: Stat, s': Stat, l: Ledger)
    requires Agrees(s, l) && SameUpToShape(s', s)
    ensures Agrees(s', l)
  {
  }

  lemma DoKeepsSizes(s: Stat, e: Event)
    ensures Do(s, e).0.maxtype == s.maxtype && Do(s, e).0.ncpu == s.ncpu
  {
  }

  /** The step theorem: whatever shape the trees take, trees and ledger agree after the event and give
      the same success. */
  lemma NextAgrees(s: Stat, l: Ledger, e: Event, s': Stat, ok: bool)
    requires Agrees(s, l) && Allowed(l, e, s.maxtype, s.ncpu) && Next(s, e, s', ok)
    ensures Agrees(s', Enter(l, e, s.maxtype).0) && ok == Enter(l, e, s.maxtype).1
    ensures s'.maxtype == s.maxtype && s'.ncpu == s.ncpu
  {
    DoKeepsSizes(s, e);
    match e
    case AddRule(_) => RuleEventAgrees(s, l, e);
    case RmvRule(_) => RuleEventAgrees(s, l, e);
    case AddIp(ip) => AddIpEventAgrees(s, l, ip);
    case RmvIp(ip) => RmvIpEventAgrees(s, l, ip);
    case Classify(p) => ClassifyAgrees(s, l, p);
    case Account(i, cpu) => AccountAgrees(s, l, i, cpu);
    ShapeIsFree(Do(s, e).0, s', Enter(l, e, s.maxtype).0);
  }

  ghost function LedgerAfter(es: seq<Event>, maxtype: nat): Ledger {
    if es == [] then EMPTY else Enter(LedgerAfter(es[..|es| - 1], maxtype), es[|es| - 1], maxtype).0
  }

  /** States and successes of a whole history from the empty module, each event allowed when it comes. */
  ghost predicate History(ss: seq<Stat>, es: seq<Event>, oks: seq<bool>, maxtype: nat, ncpu: nat) {
    && |ss| == |es| + 1 && |oks| == |es|
    && ss[0] == Stat(Leaf, Leaf, 0, maxtype, ncpu, [])
    && (forall i :: 0 <= i < |es| ==> Next(ss[i], es[i], ss[i + 1], oks[i]))
    && (forall i :: 0 <= i < |es| ==> Allowed(LedgerAfter(es[..i], maxtype), es[i], maxtype, ncpu))
  }

  lemma HistoryStep(ss: seq<Stat>, es: seq<Event>, oks: seq<bool>, maxtype: nat, ncpu: nat, i: nat)
    requires History(ss, es, oks, maxtype, ncpu) && i < |es|
    ensures Next(ss[i], es[i], ss[i + 1], oks[i]) && Allowed(LedgerAfter(es[..i], maxtype), es[i], maxtype, ncpu)
  {
  }

  lemma LedgerStep(es: seq<Event>, maxtype: nat, n: nat)
    requires 0 < n <= |es|
    ensures LedgerAfter(es[..n], maxtype) == Enter(LedgerAfter(es[..n - 1], maxtype), es[n - 1], maxtype).0
  {
    assert es[..n][..n - 1] == es[..n - 1];
  }

  lemma EmptyAgrees(maxtype: nat, ncpu: nat)
    ensures Agrees(Stat(Leaf, Leaf, 0, maxtype, ncpu, []), EMPTY)
  {
  }

  /** Over every history the trees agree with the ledger. */
  lemma {:induction false} HistoryAgrees(ss: seq<Stat>, es: seq<Event>, oks: seq<bool>, maxtype: nat, ncpu: nat,
                                         n: nat)
    requires History(ss, es, oks, maxtype, ncpu) && n <= |es|
    ensures Agrees(ss[n], LedgerAfter(es[..n], maxtype)) && ss[n].maxtype == maxtype && ss[n].ncpu == ncpu
    decreases n
  {
    if n == 0 {
      EmptyAgrees(maxtype, ncpu);
    } else {
      HistoryAgrees(ss, es, oks, maxtype, ncpu, n - 1);
      LedgerStep(es, maxtype, n);
      HistoryStep(ss, es, oks, maxtype, ncpu, n - 1);
      NextAgrees(ss[n - 1], LedgerAfter(es[..n - 1], maxtype), es[n - 1], ss[n], oks[n - 1]);
    }
  }

  // ----- Totals as sums over the history

  /** The event accounts a packet that met a rule and is for `ip`. */
  ghost predicate Accounts(l: Ledger, e: Event, ip: IpAddr) {
    e.Account? && e.i < |l.pending| && l.pending[e.i].ip == ip
  }

  /** What one event adds to the counter of type `t` of `ip`. */
  ghost function Credit(l: Ledger, e: Event, ip: IpAddr, t: nat): Cell {
    if Accounts(l, e, ip) && t in l.pending[e.i].types then Cell(1, l.pending[e.i].len) else Cell(0, 0)
  }

  function AddUp(c: Cell, d: Cell): Cell { Cell(c.number + d.number, c.bytes + d.bytes) }

  /** The credits of the events from `from` up to `to`. */
  ghost function Credits(es: seq<Event>, maxtype: nat, ip: IpAddr, t: nat, from: nat, to: nat): Cell
    requires from <= to <= |es|
    decreases (to - from)
  {
    if from == to then Cell(0, 0)
    else
      AddUp(Credits(es, maxtype, ip, t, from, to - 1),
            Credit(LedgerAfter(es[..to - 1], maxtype), es[to - 1], ip, t))
  }

  ghost predicate TotalIs(l: Ledger, ip: IpAddr, t: nat, maxtype: nat, c: Cell) {
    ip in l.totals && |l.totals[ip]| == maxtype && t < maxtype && l.totals[ip][t] == c
  }

  lemma CreditStep(l: Ledger, e: Event, l': Ledger, maxtype: nat, ip: IpAddr, t: nat, c: Cell)
    requires TotalIs(l, ip, t, maxtype, c) && e != RmvIp(ip) && l' == Enter(l, e, maxtype).0
    ensures TotalIs(l', ip, t, maxtype, AddUp(c, Credit(l, e, ip, t)))
  {
  }

  lemma AddedIsZero(l: Ledger, l': Ledger, ip: IpAddr, t: nat, maxtype: nat)
    requires Enter(l, AddIp(ip), maxtype).1 && l' == Enter(l, AddIp(ip), maxtype).0
    ensures ip in l'.totals && (t < maxtype ==> TotalIs(l', ip, t, maxtype, Cell(0, 0)))
  {
  }

  /** The total of type `t` after `to` events is the sum of the credits since event `from`. */
  ghost predicate TotalAt(es: seq<Event>, maxtype: nat, ip: IpAddr, t: nat, from: nat, to: nat)
    requires from <= to <= |es|
  {
    TotalIs(LedgerAfter(es[..to], maxtype), ip, t, maxtype, Credits(es, maxtype, ip, t, from, to))
  }

  lemma TotalsStart(es: seq<Event>, maxtype: nat, ip: IpAddr, t: nat, from: nat)
    requires from < |es| && t < maxtype
    requires es[from] == AddIp(ip) && Enter(LedgerAfter(es[..from], maxtype), es[from], maxtype).1
    ensures TotalAt(es, maxtype, ip, t, from + 1, from + 1)
  {
    LedgerStep(es, maxtype, from + 1);
    AddedIsZero(LedgerAfter(es[..from], maxtype), LedgerAfter(es[..from + 1], maxtype), ip, t, maxtype);
  }

  lemma TotalsGoOn(es: seq<Event>, maxtype: nat, ip: IpAddr, t: nat, from: nat, to: nat)
    requires from < to <= |es| && es[to - 1] != RmvIp(ip) && TotalAt(es, maxtype, ip, t, from, to - 1)
    ensures TotalAt(es, maxtype, ip, t, from, to)
  {
    LedgerStep(es, maxtype, to);
    CreditStep(LedgerAfter(es[..to - 1], maxtype), es[to - 1], LedgerAfter(es[..to], maxtype), maxtype, ip, t,
               Credits(es, maxtype, ip, t, from, to - 1));
  }

  /** The counter theorem: from the event that added an address on, as long as it is not removed, its
      total of each type is the sum over the packets accounted since, whichever CPU took them. */
  lemma {:induction false} TotalsAreCredits(es: seq<Event>, maxtype: nat, ip: IpAddr, t: nat, from: nat, to: nat)
    requires from < to <= |es| && t < maxtype
    requires es[from] == AddIp(ip) && Enter(LedgerAfter(es[..from], maxtype), es[from], maxtype).1
    requires forall i :: from < i < to ==> es[i] != RmvIp(ip)
    ensures TotalAt(es, maxtype, ip, t, from + 1, to)
    decreases (to - from)
  {
    if to == from + 1 {
      TotalsStart(es, maxtype, ip, t, from);
    } else {
      TotalsAreCredits(es, maxtype, ip, t, from, to - 1);
      TotalsGoOn(es, maxtype, ip, t, from + 1, to);
    }
  }

  lemma AddedOk(ss: seq<Stat>, es: seq<Event>, oks: seq<bool>, maxtype: nat, ncpu: nat, from: nat)
    requires History(ss, es, oks, maxtype, ncpu) && from < |es|
    ensures oks[from] == Enter(LedgerAfter(es[..from], maxtype), es[from], maxtype).1
  {
    HistoryAgrees(ss, es, oks, maxtype, ncpu, from);
    HistoryStep(ss, es, oks, maxtype, ncpu, from);
    NextAgrees(ss[from], LedgerAfter(es[..from], maxtype), es[from], ss[from + 1], oks[from]);
  }

  /** End to end: after any allowed history a read of an address gives, per type, the number and bytes of
      the packets credited to it since it was last added, modulo 2^64. */
  lemma CountersAreExact(ss: seq<Stat>, es: seq<Event>, oks: seq<bool>, maxtype: nat, ncpu: nat,
                         ip: IpAddr, from: nat)
    requires History(ss, es, oks, maxtype, ncpu) && from < |es|
    requires es[from] == AddIp(ip) && oks[from]
    requires forall i :: from < i < |es| ==> es[i] != RmvIp(ip)
    ensures var r := Read(ss[|es|], ip);
      && r.Some? && |r.value| == maxtype
      && forall t :: 0 <= t < maxtype ==>
           var c := Credits(es, maxtype, ip, t, from + 1, |es|);
           r.value[t] == Cell(c.number % 0x1_0000_0000_0000_0000, c.bytes % 0x1_0000_0000_0000_0000)
  {
    AddedOk(ss, es, oks, maxtype, ncpu, from);
    StillThere(es, maxtype, ip, from, |es|);
    HistoryAgrees(ss, es, oks, maxtype, ncpu, |es|);
    var l := LedgerAfter(es[..|es|], maxtype);
    ReadIsExact(ss[|es|], l, ip);
    forall t | 0 <= t < maxtype
      ensures Read(ss[|es|], ip).value[t] == Wrap(Credits(es, maxtype, ip, t, from + 1, |es|))
    {
      TotalsAreCredits(es, maxtype, ip, t, from, |es|);
    }
  }

  lemma OnlyRemovalTakes(l: Ledger, e: Event, l': Ledger, maxtype: nat, ip: IpAddr)
    requires ip in l.totals && e != RmvIp(ip) && l' == Enter(l, e, maxtype).0
    ensures ip in l'.totals
  {
  }

  lemma ThereOnceAdded(es: seq<Event>, maxtype: nat, ip: IpAddr, from: nat)
    requires from < |es| && es[from] == AddIp(ip) && Enter(LedgerAfter(es[..from], maxtype), es[from], maxtype).1
    ensures ip in LedgerAfter(es[..from + 1], maxtype).totals
  {
    LedgerStep(es, maxtype, from + 1);
    AddedIsZero(LedgerAfter(es[..from], maxtype), LedgerAfter(es[..from + 1], maxtype), ip, 0, maxtype);
  }

  lemma ThereOn(es: seq<Event>, maxtype: nat, ip: IpAddr, to: nat)
    requires 0 < to <= |es| && es[to - 1] != RmvIp(ip) && ip in LedgerAfter(es[..to - 1], maxtype).totals
    ensures ip in LedgerAfter(es[..to], maxtype).totals
  {
    LedgerStep(es, maxtype, to);
    OnlyRemovalTakes(LedgerAfter(es[..to - 1], maxtype), es[to - 1], LedgerAfter(es[..to], maxtype), maxtype, ip);
  }

  lemma {:induction false} StillThere(es: seq<Event>, maxtype: nat, ip: IpAddr, from: nat, to: nat)
    requires from < to <= |es|
    requires es[from] == AddIp(ip) && Enter(LedgerAfter(es[..from], maxtype), es[from], maxtype).1
    requires forall i :: from < i < to ==> es[i] != RmvIp(ip)
    ensures ip in LedgerAfter(es[..to], maxtype).totals
    decreases (to - from)
  {
    if to == from + 1 {
      ThereOnceAdded(es, maxtype, ip, from);
    } else {
      StillThere(es, maxtype, ip, from, to - 1);
      ThereOn(es, maxtype, ip, to);
    }
  }

  // ----- Each packet once

  function SumRow(row: seq<Cell>): Cell {
    if row == [] then Cell(0, 0) else AddUp(SumRow(row[..|row| - 1]), row[|row| - 1])
  }

  lemma {:induction false} SumRowAdd(a: seq<Cell>, b: seq<Cell>, c: seq<Cell>)
    requires |a| == |b| == |c| && forall t :: 0 <= t < |c| ==> c[t] == AddUp(a[t], b[t])
    ensures SumRow(c) == AddUp(SumRow(a), SumRow(b))
    decreases |c|
  {
    if c != [] {
      var n := |c| - 1;
      SumRowAdd(a[..n], b[..n], c[..n]);
    }
  }

  lemma {:induction false} SumRowSpike(row: seq<Cell>, t: nat, x: Cell)
    requires forall u :: 0 <= u < |row| ==> row[u] == if u == t then x else Cell(0, 0)
    ensures SumRow(row) == if t < |row| then x else Cell(0, 0)
    decreases |row|
  {
    if row != [] {
      SumRowSpike(row[..|row| - 1], t, x);
    }
  }

  /** The credits of one event, and of the events from `from` up to `to`, type by type. */
  ghost function CreditRow(l: Ledger, e: Event, maxtype: nat, ip: IpAddr): (row: seq<Cell>)
    ensures |row| == maxtype
  {
    seq(maxtype, t requires 0 <= t < maxtype => Credit(l, e, ip, t))
  }

  ghost function CreditsRow(es: seq<Event>, maxtype: nat, ip: IpAddr, from: nat, to: nat): (row: seq<Cell>)
    requires from <= to <= |es|
    ensures |row| == maxtype
  {
    seq(maxtype, t requires 0 <= t < maxtype => Credits(es, maxtype, ip, t, from, to))
  }

  /** The packets accounted for `ip`, each once, and their bytes. */
  ghost function Packets(es: seq<Event>, maxtype: nat, ip: IpAddr, from: nat, to: nat): Cell
    requires from <= to <= |es|
    decreases (to - from)
  {
    if from == to then Cell(0, 0)
    else AddUp(Packets(es, maxtype, ip, from, to - 1), PacketOf(LedgerAfter(es[..to - 1], maxtype), es[to - 1], ip))
  }

  ghost function PacketOf(l: Ledger, e: Event, ip: IpAddr): Cell {
    if Accounts(l, e, ip) then Cell(1, l.pending[e.i].len) else Cell(0, 0)
  }

  lemma CreditedOnce(l: Ledger, e: Event, maxtype: nat, ip: IpAddr, t: nat)
    requires Accounts(l, e, ip) ==> l.pending[e.i].types == {t} && t < maxtype
    ensures SumRow(CreditRow(l, e, maxtype, ip)) == PacketOf(l, e, ip)
  {
    SumRowSpike(CreditRow(l, e, maxtype, ip), t, PacketOf(l, e, ip));
  }

  lemma CreditsOneMore(es: seq<Event>, maxtype: nat, ip: IpAddr, from: nat, to: nat)
    requires from < to <= |es|
    ensures SumRow(CreditsRow(es, maxtype, ip, from, to))
         == AddUp(SumRow(CreditsRow(es, maxtype, ip, from, to - 1)),
                  SumRow(CreditRow(LedgerAfter(es[..to - 1], maxtype), es[to - 1], maxtype, ip)))
  {
    SumRowAdd(CreditsRow(es, maxtype, ip, from, to - 1),
              CreditRow(LedgerAfter(es[..to - 1], maxtype), es[to - 1], maxtype, ip),
              CreditsRow(es, maxtype, ip, from, to));
  }

  /** In every state of a history a packet under way has exactly one type, and one in range: the rules it met
      when it was classified all had it. */
  lemma OneType(ss: seq<Stat>, es: seq<Event>, oks: seq<bool>, maxtype: nat, ncpu: nat, n: nat, i: nat)
    requires History(ss, es, oks, maxtype, ncpu) && n <= |es| && i < |LedgerAfter(es[..n], maxtype).pending|
    ensures i < |ss[n].pending| && ss[n].pending[i].typeidx < maxtype
    ensures LedgerAfter(es[..n], maxtype).pending[i].types == {ss[n].pending[i].typeidx}
  {
    HistoryAgrees(ss, es, oks, maxtype, ncpu, n);
    assert DueAgrees(ss[n].pending[i], LedgerAfter(es[..n], maxtype).pending[i], maxtype);
  }

  lemma EventOnce(ss: seq<Stat>, es: seq<Event>, oks: seq<bool>, maxtype: nat, ncpu: nat, ip: IpAddr, n: nat)
    requires History(ss, es, oks, maxtype, ncpu) && n < |es|
    ensures var l := LedgerAfter(es[..n], maxtype);
      SumRow(CreditRow(l, es[n], maxtype, ip)) == PacketOf(l, es[n], ip)
  {
    var l, t := LedgerAfter(es[..n], maxtype), 0;
    if Accounts(l, es[n], ip) {
      OneType(ss, es, oks, maxtype, ncpu, n, es[n].i);
      t := ss[n].pending[es[n].i].typeidx;
    }
    CreditedOnce(l, es[n], maxtype, ip, t);
  }

  /** Over every history, the credits of an address summed over the types are its packets, each once. */
  lemma {:induction false} EachPacketOnce(ss: seq<Stat>, es: seq<Event>, oks: seq<bool>, maxtype: nat, ncpu: nat,
                                          ip: IpAddr, from: nat, to: nat)
    requires History(ss, es, oks, maxtype, ncpu) && from <= to <= |es|
    ensures SumRow(CreditsRow(es, maxtype, ip, from, to)) == Packets(es, maxtype, ip, from, to)
    decreases (to - from)
  {
    if from == to {
      SumRowSpike(CreditsRow(es, maxtype, ip, from, to), maxtype, Cell(0, 0));
    } else {
      EachPacketOnce(ss, es, oks, maxtype, ncpu, ip, from, to - 1);
      CreditsOneMore(es, maxtype, ip, from, to);
      EventOnce(ss, es, oks, maxtype, ncpu, ip, to - 1);
    }
  }
}
