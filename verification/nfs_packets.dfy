/**
 What the hook and an added address do, in terms of packets, rules and bytes alone: which packet moves which
 total by how much, and what a new entry holds.
 */
module NfsPackets {
  import opened NfsRule
  import opened NfsCounter
  import opened Words
  import opened NfsHook
  import opened Nfstat
  import opened NfsLedger

  /** The rule asks for the packet's protocol, its direction, and both its ends. */
  ghost predicate Meets(p: Packet, r: Rule) {
    && p.protocol == r.protocol && DirMeets(p, r.dir)
    && EndMeets(LocalEnd(p), r.lip, r.lport) && EndMeets(RemoteEnd(p), r.rip, r.rport)
  }

  ghost predicate SomeRuleMeets(p: Packet, rules: set<Rule>, t: nat) {
    exists r :: r in rules && Meets(p, r) && r.typeidx == t
  }

  /** The packet counts for type `t` of `ip`: it is IPv4 with the header its protocol needs, its local address is
      `ip`, and some rule of the type meets it. */
  ghost predicate CountsFor(p: Packet, rules: set<Rule>, ip: IpAddr, t: nat) {
    && p.version == 4 && (p.protocol in {6, 17, 132, 1, 2} ==> p.transport.Some?)
    && IsFour(ip, if p.hasIn then p.daddr else p.saddr) && SomeRuleMeets(p, rules, t)
  }

  /** The hook, uninterrupted. */
  function Hooked(s: Stat, p: Packet, cpu: nat): Stat {
    var s1 := Do(s, Classify(p)).0;
    if s1.pending == [] then s1 else Do(s1, Account(0, cpu)).0
  }

  ghost function HookedLedger(l: Ledger, p: Packet, cpu: nat, maxtype: nat): Ledger {
    var l1 := Enter(l, Classify(p), maxtype).0;
    if l1.pending == [] then l1 else Enter(l1, Account(0, cpu), maxtype).0
  }

  lemma HookedAgrees(s: Stat, l: Ledger, p: Packet, cpu: nat)
    requires Agrees(s, l) && Allowed(l, Classify(p), s.maxtype, s.ncpu) && cpu < s.ncpu
    ensures Agrees(Hooked(s, p, cpu), HookedLedger(l, p, cpu, s.maxtype))
    ensures Hooked(s, p, cpu).maxtype == s.maxtype
  {
    ClassifyAgrees(s, l, p);
    DoKeepsSizes(s, Classify(p));
    var s1, l1 := Do(s, Classify(p)).0, Enter(l, Classify(p), s.maxtype).0;
    if s1.pending != [] {
      AccountAgrees(s1, l1, 0, cpu);
      DoKeepsSizes(s1, Account(0, cpu));
    }
  }

  lemma TypesOfMet(p: Packet, rules: set<Rule>, t: nat)
    requires IsPacket(p) && KeyOf(p).Some? && (p.hasIn || p.hasOut)
    ensures Listed(KeyOf(p).value, rules) <==> exists r :: r in rules && Meets(p, r)
    ensures t in Types(KeyOf(p).value, rules) <==> SomeRuleMeets(p, rules, t)
  {
    forall r | r in rules ensures Compatible(KeyOf(p).value, r) <==> Meets(p, r) {
      RuleMeans(p, r);
    }
  }

  lemma OneFour(a: IpAddr, b: IpAddr, bytes: seq<nat>)
    requires IsFour(a, bytes)
    ensures IsFour(b, bytes) <==> b == a
  {
  }

  /** On the ledger. */
  lemma HookedTotals(l: Ledger, p: Packet, cpu: nat, maxtype: nat, ip: IpAddr, t: nat)
    requires IsPacket(p) && (p.hasIn || p.hasOut) && l.pending == []
    requires ip in l.totals && t < |l.totals[ip]|
    ensures var l' := HookedLedger(l, p, cpu, maxtype);
      && ip in l'.totals && |l'.totals[ip]| == |l.totals[ip]|
      && l'.totals[ip][t] == if CountsFor(p, l.rules, ip, t)
                             then Cell(l.totals[ip][t].number + 1, l.totals[ip][t].bytes + p.len) else l.totals[ip][t]
  {
    KeyedIff(p);
    if KeyOf(p).Some? {
      KeyIs(p);
      TypesOfMet(p, l.rules, t);
      OneFour(KeyOf(p).value.lip, ip, if p.hasIn then p.daddr else p.saddr);
    }
  }

  /** A read shows total `c`, wrapped. */
  ghost predicate ShowsTotal(s: Stat, ip: IpAddr, t: nat, c: Cell) {
    Read(s, ip).Some? && t < |Read(s, ip).value| == s.maxtype && Read(s, ip).value[t] == Wrap(c)
  }

  lemma ReadShows(s: Stat, l: Ledger, ip: IpAddr, t: nat)
    requires Agrees(s, l) && ip in l.totals && t < s.maxtype
    ensures t < |l.totals[ip]| && ShowsTotal(s, ip, t, l.totals[ip][t])
  {
    ReadIsExact(s, l, ip);
  }

  lemma WrapMore(c: Cell, n: nat, len: nat)
    ensures Wrap(Cell(c.number + n, c.bytes + len))
         == Cell((Wrap(c).number + n) % 0x1_0000_0000_0000_0000, (Wrap(c).bytes + len) % 0x1_0000_0000_0000_0000)
  {
    Wrapped(c.number, n);
    Wrapped(c.bytes, len);
  }

  /** What a read shows of type `t` of `ip` before and after. */
  ghost predicate Moves(s: Stat, s': Stat, ip: IpAddr, t: nat, n: nat, len: nat) {
    var r, r' := Read(s, ip), Read(s', ip);
    && r.Some? && r'.Some? && t < |r.value| == |r'.value|
    && r'.value[t] == Cell((r.value[t].number + n) % 0x1_0000_0000_0000_0000,
                           (r.value[t].bytes + len) % 0x1_0000_0000_0000_0000)
  }

  lemma ReadMoves(s: Stat, s': Stat, ip: IpAddr, t: nat, c: Cell, n: nat, len: nat)
    requires s'.maxtype == s.maxtype && ShowsTotal(s, ip, t, c)
    requires ShowsTotal(s', ip, t, Cell(c.number + n, c.bytes + len))
    ensures Moves(s, s', ip, t, n, len)
  {
    WrapMore(c, n, len);
  }

  lemma TwoReads(s: Stat, l: Ledger, s': Stat, l': Ledger, ip: IpAddr, t: nat, c: Cell)
    requires Agrees(s, l) && Agrees(s', l') && s'.maxtype == s.maxtype && t < s.maxtype
    requires ip in l.totals && ip in l'.totals && t < |l'.totals[ip]| && l'.totals[ip][t] == c
    ensures t < |l.totals[ip]| && ShowsTotal(s, ip, t, l.totals[ip][t]) && ShowsTotal(s', ip, t, c)
  {
    ReadShows(s, l, ip, t);
    ReadShows(s', l', ip, t);
  }

  /** From `l` to `l'` the total of type `t` of `ip` grew by one packet of `len` bytes, or not at all. */
  ghost predicate Grew(l: Ledger, l': Ledger, ip: IpAddr, t: nat, one: bool, len: nat) {
    && ip in l.totals && ip in l'.totals && t < |l.totals[ip]| && t < |l'.totals[ip]|
    && l'.totals[ip][t] == if one then Cell(l.totals[ip][t].number + 1, l.totals[ip][t].bytes + len)
                           else l.totals[ip][t]
  }

  lemma MovesFrom(s: Stat, s': Stat, ip: IpAddr, t: nat, c: Cell, c': Cell, one: bool, len: nat)
    requires s'.maxtype == s.maxtype && ShowsTotal(s, ip, t, c) && ShowsTotal(s', ip, t, c')
    requires c' == if one then Cell(c.number + 1, c.bytes + len) else c
    ensures Moves(s, s', ip, t, if one then 1 else 0, if one then len else 0)
  {
    if one {
      ReadMoves(s, s', ip, t, c, 1, len);
    } else {
      ReadMoves(s, s', ip, t, c, 0, 0);
    }
  }

  lemma MovesAsGrew(s: Stat, l: Ledger, s': Stat, l': Ledger, ip: IpAddr, t: nat, one: bool, len: nat)
    requires Agrees(s, l) && Agrees(s', l') && s'.maxtype == s.maxtype && t < s.maxtype && Grew(l, l', ip, t, one, len)
    ensures Moves(s, s', ip, t, if one then 1 else 0, if one then len else 0)
  {
    TwoReads(s, l, s', l', ip, t, l'.totals[ip][t]);
    MovesFrom(s, s', ip, t, l.totals[ip][t], l'.totals[ip][t], one, len);
  }

  lemma HookedLedgers(s: Stat, l: Ledger, p: Packet, cpu: nat, ip: IpAddr, t: nat) returns (s': Stat, l': Ledger)
    requires Agrees(s, l) && s.pending == [] && Allowed(l, Classify(p), s.maxtype, s.ncpu) && cpu < s.ncpu
    requires IsPacket(p) && (p.hasIn || p.hasOut) && ip in l.totals && t < |l.totals[ip]|
    ensures s' == Hooked(s, p, cpu) && s'.maxtype == s.maxtype && Agrees(s', l')
    ensures Grew(l, l', ip, t, CountsFor(p, l.rules, ip, t), p.len)
  {
    s', l' := Hooked(s, p, cpu), HookedLedger(l, p, cpu, s.maxtype);
    HookedAgrees(s, l, p, cpu);
    HookedTotals(l, p, cpu, s.maxtype, ip, t);
  }

  /** From any state that agrees with its ledger: a packet of `len` bytes that counts for a type of an address moves
      what a read shows of it by one packet and `len` bytes, and no packet moves anything else. */
  lemma PacketCounts(s: Stat, l: Ledger, p: Packet, cpu: nat, ip: IpAddr, t: nat)
    requires Agrees(s, l) && s.pending == [] && Allowed(l, Classify(p), s.maxtype, s.ncpu) && cpu < s.ncpu
    requires IsPacket(p) && (p.hasIn || p.hasOut) && ip in l.totals && t < s.maxtype
    ensures var one := CountsFor(p, l.rules, ip, t);
      Moves(s, Hooked(s, p, cpu), ip, t, if one then 1 else 0, if one then p.len else 0)
  {
    ReadShows(s, l, ip, t);
    var s', l' := HookedLedgers(s, l, p, cpu, ip, t);
    MovesAsGrew(s, l, s', l', ip, t, CountsFor(p, l.rules, ip, t), p.len);
  }
}
