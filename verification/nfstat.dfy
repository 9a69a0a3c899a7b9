/**
 The nfstat module as a whole: rules, counted addresses and packets. `NfStat` is the code working on its
 two trees; `Next` is what one event may do, up to the shape rebalancing leaves the trees in.
 */
module Nfstat {
  import opened Wrappers
  import opened SearchTree
  import opened NfsRule
  import opened NfsCounter
  import opened Words
  import opened NfsHook

  /** A packet that has found its rule and is not counted yet. */
  datatype Hit = Hit(ip: IpAddr, typeidx: nat, len: nat)

  /** `pending` are the packets between the two locks of the hook, on all CPUs. */
  datatype Stat = Stat(
    rules: Tree<Rule>, ips: Tree<Entry>, ipnumber: nat, maxtype: nat, ncpu: nat, pending: seq<Hit>)

  /** The hook looks up the rule under one lock and counts under another: two events. */
  datatype Event =
    | AddRule(rule: Rule)
    | RmvRule(rule: Rule)
    | AddIp(ip: IpAddr)
    | RmvIp(ip: IpAddr)
    | Classify(pkt: Packet)
    | Account(i: nat, cpu: nat)

  /** `s` with other trees holding the same sequences. */
  ghost predicate SameUpToShape(s: Stat, t: Stat) {
    && InOrder(s.rules) == InOrder(t.rules) && InOrder(s.ips) == InOrder(t.ips)
    && s == t.(rules := s.rules, ips := s.ips)
  }

  function NewEntry(ip: IpAddr, ncpu: nat, maxtype: nat): Entry {
    Entry(Canon(ip), ZeroCounts(ncpu, maxtype))
  }

  /** A cell for every type on every CPU, all zero. */
  ghost predicate NothingCounted(e: Entry, ncpu: nat, maxtype: nat) {
    && CountsShaped(e.counts, ncpu, maxtype)
    && forall c, t :: 0 <= c < ncpu && 0 <= t < maxtype ==> e.counts[c][t] == Cell(0, 0)
  }

  /** Among the entries is one that keeps the used bytes of `ip` and has counted nothing. */
  ghost predicate HasNew(xs: seq<Entry>, ip: IpAddr, ncpu: nat, maxtype: nat) {
    exists e :: e in xs && KeepsUsed(e.ip, ip) && NothingCounted(e, ncpu, maxtype)
  }

  lemma GraftHasNew(t: Tree<Entry>, path: seq<bool>, ip: IpAddr, ncpu: nat, maxtype: nat)
    requires Follows(t, path, Near(ip))
    ensures HasNew(InOrder(Graft(t, path, Node(Leaf, NewEntry(ip, ncpu, maxtype), Leaf))), ip, ncpu, maxtype)
  {
    NewEntryIs(ip, ncpu, maxtype);
    GraftHas(t, path, Near(ip), NewEntry(ip, ncpu, maxtype));
  }

  lemma NewEntryIs(ip: IpAddr, ncpu: nat, maxtype: nat)
    ensures var e := NewEntry(ip, ncpu, maxtype); KeepsUsed(e.ip, ip) && NothingCounted(e, ncpu, maxtype)
  {
    CanonKeepsUsed(ip);
  }

  /** `inccounter`, given the type index. */
  function Count(s: Stat, ip: IpAddr, t: nat, cpu: nat, len: nat): Stat {
    match Search(s.ips, Near(ip))
    case None => s
    case Some(e) =>
      if cpu < |e.counts| && t < |e.counts[cpu]| then
        s.(ips := Replace(s.ips, Near(ip), e.(counts := Bump(e.counts, cpu, t, len))))
      else s
  }

  function Taken<T>(s: seq<T>, i: nat): seq<T>
    requires i < |s|
  {
    s[..i] + s[i + 1..]
  }

  /** What one event does, before any rebalancing, and whether it succeeds. */
  function Do(s: Stat, e: Event): (Stat, bool) {
    match e
    case AddRule(r) =>
      (match Insert(s.rules, Against(r), r)
       case None => (s, false)
       case Some(t) => (s.(rules := t), true))
    case RmvRule(r) =>
      if Search(s.rules, Against(r)).None? then (s, false)
      else (s.(rules := Erase(s.rules, Against(r))), true)
    case AddIp(ip) =>
      if ip.len == 0 then (s, false)
      else (match Insert(s.ips, Near(ip), NewEntry(ip, s.ncpu, s.maxtype))
            case None => (s, false)
            case Some(t) => (s.(ips := t, ipnumber := (s.ipnumber + 1) % U32_MOD), true))
    case RmvIp(ip) =>
      if Search(s.ips, Near(ip)).None? then (s, false)
      else (s.(ips := Erase(s.ips, Near(ip)), ipnumber := (s.ipnumber - 1) % U32_MOD), true)
    case Classify(p) =>
      if !IsPacket(p) then (s, true)
      else
        (match KeyOf(p)
         case None => (s, true)
         case Some(k) =>
           match Search(s.rules, Against(k))
           case None => (s, true)
           case Some(r) => (s.(pending := s.pending + [Hit(k.lip, r.typeidx, p.len)]), true))
    case Account(i, cpu) =>
      if i >= |s.pending| then (s, false)
      else
        var hit := s.pending[i];
        (Count(s.(pending := Taken(s.pending, i)), hit.ip, hit.typeidx, cpu, hit.len), true)
  }

  ghost predicate Next(s: Stat, e: Event, s': Stat, ok: bool) {
    SameUpToShape(s', Do(s, e).0) && ok == Do(s, e).1
  }

  /** One total per type. */
  function Totals(counts: seq<seq<Cell>>, maxtype: nat): (s: seq<Cell>)
    requires forall c :: 0 <= c < |counts| ==> |counts[c]| == maxtype
    ensures |s| == maxtype
  {
    seq(maxtype, t requires 0 <= t < maxtype => SumCells(counts, t))
  }

  /** `nfs_getcounter_perip` with no accounting in between: one total per type, or None for an unknown address. */
  function Read(s: Stat, ip: IpAddr): Option<seq<Cell>> {
    match Search(s.ips, Near(ip))
    case None => None
    case Some(e) =>
      if CountsShaped(e.counts, s.ncpu, s.maxtype) then Some(Totals(e.counts, s.maxtype)) else None
  }

  ghost predicate EntriesShaped(s: Stat) {
    forall e :: e in InOrder(s.ips) ==> CountsShaped(e.counts, s.ncpu, s.maxtype)
  }

  class NfStat {
    var ruletree: Tree<Rule>
    var iptree: Tree<Entry>
    var ipnumber: nat
    const maxtype: nat
    const ncpu: nat
    /** What `rb_insert_color` and `rb_erase` make of the trees. */
    const recolorRules: Tree<Rule> -> Tree<Rule>
    const recolorIps: Tree<Entry> -> Tree<Entry>

    /** The state after the first accepted `NFS_CMD_INIT`. */
    constructor (maxtype: nat, ncpu: nat,
                 recolorRules: Tree<Rule> -> Tree<Rule>, recolorIps: Tree<Entry> -> Tree<Entry>)
      requires 0 < maxtype <= 255
      requires forall t :: InOrder(recolorRules(t)) == InOrder(t)
      requires forall t :: InOrder(recolorIps(t)) == InOrder(t)
      ensures Valid() && View() == Stat(Leaf, Leaf, 0, maxtype, ncpu, [])
    {
      ruletree, iptree, ipnumber := Leaf, Leaf, 0;
      this.maxtype, this.ncpu := maxtype, ncpu;
      this.recolorRules, this.recolorIps := recolorRules, recolorIps;
    }

    ghost predicate Recolors() {
      && (forall t :: InOrder(recolorRules(t)) == InOrder(t))
      && (forall t :: InOrder(recolorIps(t)) == InOrder(t))
    }

    ghost predicate Valid()
      reads this
    {
      0 < maxtype <= 255 && Recolors() && EntriesShaped(View())
    }

    /** The state between calls, seen by one of them: no other packet is under way. */
    ghost function View(): Stat
      reads this
    {
      Stat(ruletree, iptree, ipnumber, maxtype, ncpu, [])
    }

    method FindNfsRule(rule: Rule) returns (entry: Option<Rule>)
      ensures entry == Search(ruletree, Against(rule))
    {
      var node := ruletree;
      while node.Node?
        invariant Search(node, Against(rule)) == Search(ruletree, Against(rule))
        decreases node
      {
        var ret := RuleCmp(rule, node.val);
        if ret < 0 {
          node := node.left;
        } else if ret > 0 {
          node := node.right;
        } else {
          return Some(node.val);
        }
      }
      return None;
    }

    /** The type index of the matching rule, or -1. */
    method GetTypeIdx(rule: Rule) returns (idx: int)
      ensures idx == match Search(ruletree, Against(rule)) case None => -1 case Some(r) => r.typeidx
    {
      var entry := FindNfsRule(rule);
      idx := if entry == None then -1 else entry.value.typeidx;
    }

    method AddNfsRule(rule: Rule) returns (ok: bool)
      requires Valid()
      modifies this`ruletree
      ensures Valid() && Next(old(View()), AddRule(rule), View(), ok)
    {
      var node, path := ruletree, [];
      while node.Node?
        invariant ruletree == old(ruletree)
        invariant Follows(ruletree, path, Against(rule)) && At(ruletree, path) == node
        decreases node
      {
        var ret := RuleCmp(rule, node.val);
        if ret < 0 {
          FollowOn(ruletree, path, Against(rule), false);
          node, path := node.left, path + [false];
        } else if ret > 0 {
          FollowOn(ruletree, path, Against(rule), true);
          node, path := node.right, path + [true];
        } else {
          DescentDecides(ruletree, path, Against(rule), rule);
          return false;
        }
      }
      DescentDecides(ruletree, path, Against(rule), rule);
      ruletree := recolorRules(Graft(ruletree, path, Node(Leaf, rule, Leaf)));
      return true;
    }

    method RmvNfsRule(rule: Rule) returns (ok: bool)
      requires Valid()
      modifies this`ruletree
      ensures Valid() && Next(old(View()), RmvRule(rule), View(), ok)
    {
      var entry := FindNfsRule(rule);
      if entry == None {
        return false;
      }
      ruletree := recolorRules(Erase(ruletree, Against(rule)));
      return true;
    }

    method FindIpEntry(ip: IpAddr) returns (entry: Option<Entry>)
      ensures entry == Search(iptree, Near(ip))
    {
      var node := iptree;
      while node.Node?
        invariant Search(node, Near(ip)) == Search(iptree, Near(ip))
        decreases node
      {
        var ret := AddrCmp(node.val.ip, ip);
        if ret > 0 {
          node := node.left;
        } else if ret < 0 {
          node := node.right;
        } else {
          return Some(node.val);
        }
      }
      return None;
    }

    /** The descent of `addipentry` and `findipentry`: the turns that lead to an address, or to where it
        would be. */
    method FindPath(ip: IpAddr) returns (path: seq<bool>)
      ensures Follows(iptree, path, Near(ip))
      ensures At(iptree, path).Node? ==> AddrCmp(At(iptree, path).val.ip, ip) == 0
    {
      var node := iptree;
      path := [];
      while node.Node? && AddrCmp(node.val.ip, ip) != 0
        invariant Follows(iptree, path, Near(ip)) && At(iptree, path) == node
        decreases node
      {
        var right := AddrCmp(node.val.ip, ip) < 0;
        FollowOn(iptree, path, Near(ip), right);
        node, path := if right then node.right else node.left, path + [right];
      }
    }

    method AddIpEntry(ip: IpAddr) returns (ok: bool)
      requires Valid()
      modifies this`iptree, this`ipnumber
      ensures Valid() && Next(old(View()), AddIp(ip), View(), ok)
      ensures ip.len == 0 ==> !ok
      ensures ok ==> HasNew(InOrder(iptree), ip, ncpu, maxtype)
    {
      if ip.len == 0 {
        return false;
      }
      var newentry := NewEntry(ip, ncpu, maxtype);
      var path := FindPath(ip);
      DescentDecides(iptree, path, Near(ip), newentry);
      if At(iptree, path).Node? {
        return false;
      }
      LinkEntry(ip, path);
      return true;
    }

    /** `rb_link_node` and `rb_insert_color` where the descent ended. */
    method LinkEntry(ip: IpAddr, path: seq<bool>)
      requires Valid() && Follows(iptree, path, Near(ip)) && At(iptree, path).Leaf?
      modifies this`iptree, this`ipnumber
      ensures Valid() && HasNew(InOrder(iptree), ip, ncpu, maxtype)
      ensures ruletree == old(ruletree) && ipnumber == (old(ipnumber) + 1) % U32_MOD
      ensures InOrder(iptree) == InOrder(Graft(old(iptree), path, Node(Leaf, NewEntry(ip, ncpu, maxtype), Leaf)))
    {
      GraftMembers(iptree, path, NewEntry(ip, ncpu, maxtype));
      GraftHasNew(iptree, path, ip, ncpu, maxtype);
      iptree := recolorIps(Graft(iptree, path, Node(Leaf, NewEntry(ip, ncpu, maxtype), Leaf)));
      ipnumber := (ipnumber + 1) % U32_MOD;
    }

    method RmvIpEntry(ip: IpAddr) returns (ok: bool)
      requires Valid()
      modifies this`iptree, this`ipnumber
      ensures Valid() && Next(old(View()), RmvIp(ip), View(), ok)
    {
      var entry := FindIpEntry(ip);
      if entry == None {
        return false;
      }
      EraseMembers(iptree, Near(ip));
      iptree := recolorIps(Erase(iptree, Near(ip)));
      ipnumber := (ipnumber - 1) % U32_MOD;
      return true;
    }

    /** Counts one packet of `bytes` bytes on CPU `cpu`, if the address is counted at all. */
    method IncCounter(ip: IpAddr, typeidx: nat, cpu: nat, bytes: nat)
      requires Valid() && typeidx < maxtype && cpu < ncpu
      modifies this`iptree
      ensures Valid() && View() == Count(old(View()), ip, typeidx, cpu, bytes)
    {
      var path := FindPath(ip);
      var node := At(iptree, path);
      if node.Leaf? {
        DescentDecides(iptree, path, Near(ip), NewEntry(ip, ncpu, maxtype));
        return;
      }
      FoundMembers(iptree, path);
      var e := node.val;
      assert CountsShaped(e.counts, ncpu, maxtype);
      var cell := e.counts[cpu][typeidx];
      cell := cell.(number := (cell.number + 1) % U64_MOD);
      cell := cell.(bytes := (cell.bytes + bytes) % U64_MOD);
      var e' := e.(counts := e.counts[cpu := e.counts[cpu][typeidx := cell]]);
      assert e'.counts == Bump(e.counts, cpu, typeidx, bytes);
      DescentDecides(iptree, path, Near(ip), e');
      ReplaceMembers(iptree, Near(ip), e');
      iptree := Graft(iptree, path, node.(val := e'));
    }

    /** `hookfn` for one packet on one CPU, uninterrupted: the packet is classified and then, if it met a
        rule, accounted. */
    method HookFn(p: Packet, cpu: nat)
      requires Valid() && IsPacket(p) && cpu < ncpu
      requires forall r :: r in InOrder(ruletree) ==> r.typeidx < maxtype
      modifies this`iptree
      ensures Valid()
      ensures var s := Do(old(View()), Classify(p)).0;
        View() == if s.pending == [] then s else Do(s, Account(0, cpu)).0
    {
      var key := FillKey(p);
      if key == None {
        return;
      }
      var idx := GetTypeIdx(key.value);
      FoundIsThere(ruletree, Against(key.value));
      if idx < 0 || idx > 255 {
        return;
      }
      IncCounter(key.value.lip, idx, cpu, p.len);
    }

    /** The totals of an address over all CPUs, type by type. */
    method GetCounterPerIp(ip: IpAddr, len: nat) returns (data: Option<seq<Cell>>)
      requires Valid()
      ensures data == if len < 16 * maxtype then None else Read(View(), ip)
    {
      if len < 16 * maxtype {
        return None;
      }
      var entry := FindIpEntry(ip);
      if entry == None {
        return None;
      }
      FoundIsThere(iptree, Near(ip));
      var e := entry.value;
      assert CountsShaped(e.counts, ncpu, maxtype);
      var tmp := [];
      for i := 0 to maxtype
        invariant |tmp| == i && forall t :: 0 <= t < i ==> tmp[t] == SumCells(e.counts, t)
      {
        var v := Cell(0, 0);
        for cpu := 0 to ncpu
          invariant v == SumCells(e.counts[..cpu], i)
        {
          assert e.counts[..cpu + 1][..cpu] == e.counts[..cpu];
          v := Add(v, e.counts[cpu][i]);
        }
        assert e.counts[..ncpu] == e.counts;
        tmp := tmp + [v];
      }
      assert tmp == Totals(e.counts, maxtype);
      return Some(tmp);
    }
  }

  // ----- Which entries the tree holds after an update

  lemma {:induction false} GraftMembers(t: Tree<Entry>, path: seq<bool>, y: Entry)
    requires At(t, path).Leaf?
    ensures forall x :: x in InOrder(Graft(t, path, Node(Leaf, y, Leaf))) ==> x == y || x in InOrder(t)
  {
    if path != [] && t.Node? {
      GraftMembers(if path[0] then t.right else t.left, path[1..], y);
    }
  }

  lemma {:induction false} GraftHas(t: Tree<Entry>, path: seq<bool>, probe: Entry -> int, y: Entry)
    requires Follows(t, path, probe)
    ensures y in InOrder(Graft(t, path, Node(Leaf, y, Leaf)))
  {
    if path != [] {
      GraftHas(if path[0] then t.right else t.left, path[1..], probe, y);
    }
  }

  lemma {:induction false} EraseMembers(t: Tree<Entry>, probe: Entry -> int)
    ensures forall x :: x in InOrder(Erase(t, probe)) ==> x in InOrder(t)
  {
    if t.Node? {
      EraseMembers(t.left, probe);
      EraseMembers(t.right, probe);
    }
  }

  lemma {:induction false} ReplaceMembers(t: Tree<Entry>, probe: Entry -> int, y: Entry)
    ensures forall x :: x in InOrder(Replace(t, probe, y)) ==> x == y || x in InOrder(t)
  {
    if t.Node? {
      ReplaceMembers(t.left, probe, y);
      ReplaceMembers(t.right, probe, y);
    }
  }

  lemma {:induction false} FoundMembers(t: Tree<Entry>, path: seq<bool>)
    requires At(t, path).Node?
    ensures At(t, path).val in InOrder(t)
  {
    if path != [] {
      FoundMembers(if path[0] then t.right else t.left, path[1..]);
    }
  }
}
