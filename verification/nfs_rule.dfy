/**
 Rules, packet keys and the wildcard comparison of `nfstat/ip_rule.c`. A zero port, direction 0 or
 an address of length 0 matches anything, so the comparison is not an order in general. It is one as
 long as the rules of a protocol fix the same fields and a key is definite in those fields: there it
 compares two flat byte strings.
 */
module NfsRule {
  import opened Wrappers
  import opened Lex
  import opened SearchTree

  /** `struct nfs_ipaddr`. */
  datatype RawAddr = IpAddr(len: nat, padding: seq<nat>, addr: seq<nat>)

  type IpAddr = a: RawAddr | |a.padding| == 3 && |a.addr| == 16 && a.len <= 16
    witness IpAddr(0, seq(3, _ => 0), seq(16, _ => 0))

  /** `struct nfs_rule`; a packet's key is one too. */
  datatype Rule = Rule(
    lip: IpAddr, rip: IpAddr, lport: nat, rport: nat, protocol: nat, dir: nat, typeidx: nat)

  const NFS_ALL: nat := 0
  const NFS_IN: nat := 1
  const NFS_OUT: nat := 2
  const NFS_FORWARD: nat := 3

  function PortCmp(src: nat, dst: nat): int {
    if src != 0 && dst != 0 then
      if src > dst then 1 else if src < dst then -1 else 0
    else 0
  }

  function IpCmp(src: IpAddr, dst: IpAddr): int {
    if src.len != 0 && dst.len != 0 then
      if src.len > dst.len then 1
      else if src.len < dst.len then -1
      else Cmp(src.addr[..src.len], dst.addr[..src.len])
    else 0
  }

  function RuleCmp(src: Rule, dst: Rule): int {
    if src.protocol > dst.protocol then 1
    else if src.protocol < dst.protocol then -1
    else if src.dir != NFS_ALL && dst.dir != NFS_ALL && src.dir > dst.dir then 1
    else if src.dir != NFS_ALL && dst.dir != NFS_ALL && src.dir < dst.dir then -1
    else if PortCmp(src.lport, dst.lport) != 0 then PortCmp(src.lport, dst.lport)
    else if PortCmp(src.rport, dst.rport) != 0 then PortCmp(src.rport, dst.rport)
    else if IpCmp(src.lip, dst.lip) != 0 then IpCmp(src.lip, dst.lip)
    else IpCmp(src.rip, dst.rip)
  }

  // ----- What a match means

  ghost predicate FieldMatches(x: nat, y: nat) { x == 0 || y == 0 || x == y }

  ghost predicate AddrMatches(x: IpAddr, y: IpAddr) {
    x.len == 0 || y.len == 0 || (x.len == y.len && x.addr[..x.len] == y.addr[..y.len])
  }

  /** Same protocol, and each other field equal or left open on one side. */
  ghost predicate Compatible(q: Rule, r: Rule) {
    && q.protocol == r.protocol && FieldMatches(q.dir, r.dir)
    && FieldMatches(q.lport, r.lport) && FieldMatches(q.rport, r.rport)
    && AddrMatches(q.lip, r.lip) && AddrMatches(q.rip, r.rip)
  }

  /** The comparison says equal exactly on compatible pairs. */
  lemma ZeroIsCompatible(q: Rule, r: Rule)
    ensures RuleCmp(q, r) == 0 <==> Compatible(q, r)
    ensures RuleCmp(q, r) == -RuleCmp(r, q)
  {
    if q.lip.len == r.lip.len {
      CmpBasics(q.lip.addr[..q.lip.len], r.lip.addr[..q.lip.len]);
    }
    if q.rip.len == r.rip.len {
      CmpBasics(q.rip.addr[..q.rip.len], r.rip.addr[..q.rip.len]);
    }
  }

  /** Two numbers that a comparison has found to differ. */
  function Sign(x: int, y: int): int { if x < y then -1 else 1 }

  /** Protocol, direction, local port, remote port, local address, remote address: the first that does not
      match decides. */
  lemma FirstFieldDecides(q: Rule, r: Rule)
    ensures q.protocol != r.protocol ==> RuleCmp(q, r) == Sign(q.protocol, r.protocol)
    ensures q.protocol == r.protocol ==>
      && (!FieldMatches(q.dir, r.dir) ==> RuleCmp(q, r) == Sign(q.dir, r.dir))
      && (FieldMatches(q.dir, r.dir) ==>
            && (!FieldMatches(q.lport, r.lport) ==> RuleCmp(q, r) == Sign(q.lport, r.lport))
            && (FieldMatches(q.lport, r.lport) ==>
                  && (!FieldMatches(q.rport, r.rport) ==> RuleCmp(q, r) == Sign(q.rport, r.rport))
                  && (FieldMatches(q.rport, r.rport) ==>
                        RuleCmp(q, r) == if !AddrMatches(q.lip, r.lip) then IpCmp(q.lip, r.lip)
                                         else IpCmp(q.rip, r.rip))))
  {
    if q.lip.len == r.lip.len {
      CmpBasics(q.lip.addr[..q.lip.len], r.lip.addr[..q.lip.len]);
    }
  }

  /** Of two addresses that do not match, the shorter comes first, else the first byte that differs decides. */
  lemma FirstAddrByteDecides(x: IpAddr, y: IpAddr, k: nat)
    requires x.len != 0 && y.len != 0
    ensures x.len != y.len ==> IpCmp(x, y) == Sign(x.len, y.len)
    ensures x.len == y.len && k < x.len && x.addr[..k] == y.addr[..k] && x.addr[k] != y.addr[k] ==>
      IpCmp(x, y) == Sign(x.addr[k], y.addr[k])
  {
    if x.len == y.len && k < x.len && x.addr[..k] == y.addr[..k] && x.addr[k] != y.addr[k] {
      assert forall i :: 0 <= i < k ==> x.addr[i] == x.addr[..k][i] == y.addr[..k][i] == y.addr[i];
      FirstDecides(x.addr[..x.len], y.addr[..y.len], k);
    }
  }

  // ----- The fields a rule fixes

  datatype Mask = Mask(dir: bool, lport: bool, rport: bool, lip: bool, rip: bool)

  function MaskOf(r: Rule): Mask {
    Mask(r.dir != 0, r.lport != 0, r.rport != 0, r.lip.len != 0, r.rip.len != 0)
  }

  /** `q` is definite in every field of the mask. */
  predicate Covers(q: Rule, m: Mask) {
    && (m.dir ==> q.dir != 0) && (m.lport ==> q.lport != 0) && (m.rport ==> q.rport != 0)
    && (m.lip ==> q.lip.len != 0) && (m.rip ==> q.rip.len != 0)
  }

  predicate BothFix(a: Rule, b: Rule, m: Mask) {
    && (m.dir <==> a.dir != 0 && b.dir != 0)
    && (m.lport <==> a.lport != 0 && b.lport != 0)
    && (m.rport <==> a.rport != 0 && b.rport != 0)
    && (m.lip <==> a.lip.len != 0 && b.lip.len != 0)
    && (m.rip <==> a.rip.len != 0 && b.rip.len != 0)
  }

  function Zeroes(n: nat): (s: seq<nat>)
    ensures |s| == n && forall i :: 0 <= i < n ==> s[i] == 0
  {
    seq(n, _ => 0)
  }

  /** The address as 17 comparable numbers: its length, then its bytes, the unused ones zero. */
  function AddrKey(a: IpAddr, on: bool): (s: seq<int>)
    ensures |s| == 17
  {
    if on then [a.len] + (a.addr[..a.len] + Zeroes(16 - a.len)) else Zeroes(17)
  }

  function Kept(x: nat, on: bool): int { if on then x else 0 }

  /** The fields under a mask, most significant first. */
  function Key(r: Rule, m: Mask): (s: seq<int>)
    ensures |s| == 38
  {
    [r.protocol] + ([Kept(r.dir, m.dir)] + ([Kept(r.lport, m.lport)] + ([Kept(r.rport, m.rport)]
    + (AddrKey(r.lip, m.lip) + AddrKey(r.rip, m.rip)))))
  }

  lemma {:induction false} SameCmp(a: seq<int>)
    ensures Cmp(a, a) == 0
  {
    CmpBasics(a, a);
  }

  lemma IpCmpIsKeyCmp(a: IpAddr, b: IpAddr, on: bool)
    requires on <==> a.len != 0 && b.len != 0
    ensures IpCmp(a, b) == Cmp(AddrKey(a, on), AddrKey(b, on))
  {
    if on {
      var x, y := a.addr[..a.len] + Zeroes(16 - a.len), b.addr[..b.len] + Zeroes(16 - b.len);
      CmpConcat([a.len], x, [b.len], y);
      if a.len == b.len {
        CmpConcat(a.addr[..a.len], Zeroes(16 - a.len), b.addr[..b.len], Zeroes(16 - b.len));
        assert Zeroes(16 - a.len) == Zeroes(16 - b.len);
        SameCmp(Zeroes(16 - a.len));
      }
    } else {
      assert AddrKey(a, on) == AddrKey(b, on);
      SameCmp(Zeroes(17));
    }
  }

  lemma OneField(x: int, s: seq<int>, y: int, t: seq<int>)
    requires |s| == |t|
    ensures Cmp([x] + s, [y] + t) == if x < y then -1 else if x > y then 1 else Cmp(s, t)
  {
    assert ([x] + s)[1..] == s && ([y] + t)[1..] == t;
  }

  /** Where two rules of one protocol fix the fields of a mask in common, the wildcard comparison is a
      byte comparison of their keys. */
  lemma CmpIsKeyCmp(a: Rule, b: Rule, ma: Mask, mb: Mask)
    requires a.protocol == b.protocol ==> ma == mb && BothFix(a, b, ma)
    ensures RuleCmp(a, b) == Cmp(Key(a, ma), Key(b, mb))
  {
    var la, lb := AddrKey(a.lip, ma.lip) + AddrKey(a.rip, ma.rip), AddrKey(b.lip, mb.lip) + AddrKey(b.rip, mb.rip);
    var pa, pb := [Kept(a.rport, ma.rport)] + la, [Kept(b.rport, mb.rport)] + lb;
    var qa, qb := [Kept(a.lport, ma.lport)] + pa, [Kept(b.lport, mb.lport)] + pb;
    var da, db := [Kept(a.dir, ma.dir)] + qa, [Kept(b.dir, mb.dir)] + qb;
    OneField(a.protocol, da, b.protocol, db);
    if a.protocol == b.protocol {
      OneField(Kept(a.dir, ma.dir), qa, Kept(b.dir, mb.dir), qb);
      OneField(Kept(a.lport, ma.lport), pa, Kept(b.lport, mb.lport), pb);
      OneField(Kept(a.rport, ma.rport), la, Kept(b.rport, mb.rport), lb);
      CmpConcat(AddrKey(a.lip, ma.lip), AddrKey(a.rip, ma.rip), AddrKey(b.lip, mb.lip), AddrKey(b.rip, mb.rip));
      IpCmpIsKeyCmp(a.lip, b.lip, ma.lip);
      IpCmpIsKeyCmp(a.rip, b.rip, ma.rip);
    }
  }

  // ----- Rule sets that can be searched

  /** All rules of one protocol fix the same fields. */
  ghost predicate Uniform(xs: seq<Rule>) {
    forall i, j :: 0 <= i < |xs| && 0 <= j < |xs| && xs[i].protocol == xs[j].protocol ==>
      MaskOf(xs[i]) == MaskOf(xs[j])
  }

  /** The key is definite in every field the rules of its protocol fix. */
  ghost predicate Suits(q: Rule, xs: seq<Rule>) {
    forall i :: 0 <= i < |xs| && xs[i].protocol == q.protocol ==> Covers(q, MaskOf(xs[i]))
  }

  ghost predicate Sorted(xs: seq<Rule>) {
    forall i, j :: 0 <= i < j < |xs| ==> RuleCmp(xs[i], xs[j]) < 0
  }

  /** What looking for `q` compares. */
  function Against(q: Rule): Rule -> int {
    (r: Rule) => RuleCmp(q, r)
  }

  /** Order passes through a definite key. */
  lemma Below(q: Rule, a: Rule, b: Rule)
    requires RuleCmp(a, b) < 0 && RuleCmp(q, a) <= 0
    requires a.protocol == b.protocol ==> MaskOf(a) == MaskOf(b)
    requires a.protocol == q.protocol ==> Covers(q, MaskOf(a))
    requires b.protocol == q.protocol ==> Covers(q, MaskOf(b))
    ensures RuleCmp(q, b) < 0
  {
    var ma, mb := MaskOf(a), MaskOf(b);
    var mq := if q.protocol == a.protocol then ma else mb;
    CmpIsKeyCmp(a, b, ma, mb);
    CmpIsKeyCmp(q, a, mq, ma);
    CmpIsKeyCmp(q, b, mq, mb);
    CmpTransitive(Key(q, mq), Key(a, ma), Key(b, mb));
  }

  lemma SearchableSeparates(xs: seq<Rule>, q: Rule)
    requires Sorted(xs) && Uniform(xs) && Suits(q, xs)
    ensures Separated(xs, Against(q))
  {
    forall i, j | 0 <= i < j < |xs| ensures Against(q)(xs[i]) > 0 || Against(q)(xs[j]) < 0 {
      if RuleCmp(q, xs[i]) <= 0 {
        Below(q, xs[i], xs[j]);
      }
    }
  }

  /** The index theorem: on rules that fix the same fields per protocol, and for a key definite in those
      fields, any tree over them finds a compatible rule exactly when there is one, and there is at
      most one; so neither shape nor insertion order matters. */
  lemma SearchFindsCompatible(t: Tree<Rule>, q: Rule)
    requires Sorted(InOrder(t)) && Uniform(InOrder(t)) && Suits(q, InOrder(t))
    ensures Search(t, Against(q)) == Scan(InOrder(t), Against(q))
    ensures Search(t, Against(q)) == None <==> forall r :: r in InOrder(t) ==> !Compatible(q, r)
    ensures forall r :: r in InOrder(t) && Compatible(q, r) ==> Search(t, Against(q)) == Some(r)
    ensures Search(t, Against(q)).Some? ==>
      Search(t, Against(q)).value in InOrder(t) && Compatible(q, Search(t, Against(q)).value)
  {
    var xs, p := InOrder(t), Against(q);
    SearchableSeparates(xs, q);
    SearchIsScan(t, p);
    ScanFinds(xs, p);
    forall r | r in xs ensures Compatible(q, r) <==> p(r) == 0 {
      ZeroIsCompatible(q, r);
    }
    if Search(t, p).Some? {
      var m := MatchInOrder(t, p, Search(t, p).value);
    }
  }

  /** Without equal masks the shape decides: both trees hold the same two rules in the same order, only
      one finds the rule for an outgoing packet to local port 3. */
  lemma MixedMasksDependOnShape(any: IpAddr)
    requires any.len == 0
    ensures var in5, all3 := Rule(any, any, 5, 0, 6, NFS_IN, 0), Rule(any, any, 3, 0, 6, NFS_ALL, 1);
      var q := Rule(any, any, 3, 0, 6, NFS_OUT, 0);
      var t, u := Node(Node(Leaf, all3, Leaf), in5, Leaf), Node(Leaf, all3, Node(Leaf, in5, Leaf));
      && Sorted([all3, in5]) && InOrder(t) == InOrder(u) == [all3, in5]
      && Compatible(q, all3) && Search(t, Against(q)) == None && Search(u, Against(q)) == Some(all3)
  {
    var in5, all3 := Rule(any, any, 5, 0, 6, NFS_IN, 0), Rule(any, any, 3, 0, 6, NFS_ALL, 1);
    var q := Rule(any, any, 3, 0, 6, NFS_OUT, 0);
    ZeroIsCompatible(q, all3);
    assert InOrder(Node(Leaf, in5, Leaf)) == InOrder(Leaf) + [in5] + InOrder(Leaf) == [in5];
    assert InOrder(Node(Leaf, all3, Leaf)) == InOrder(Leaf) + [all3] + InOrder(Leaf) == [all3];
    assert Against(q)(in5) == 1 && Against(q)(all3) == 0;
  }

  /** Three rules, each below the next around in a circle. */
  lemma NotTransitive(any: IpAddr)
    requires any.len == 0
    ensures exists a, b, c :: RuleCmp(a, b) < 0 && RuleCmp(b, c) < 0 && RuleCmp(c, a) < 0
  {
    var a := Rule(any, any, 3, 0, 6, NFS_ALL, 0);
    var b := Rule(any, any, 5, 0, 6, NFS_IN, 0);
    var c := Rule(any, any, 1, 0, 6, NFS_OUT, 0);
    assert RuleCmp(a, b) < 0 && RuleCmp(b, c) < 0 && RuleCmp(c, a) < 0;
  }

  // ----- Additions and removals keep the rules searchable

  ghost predicate Searchable(xs: seq<Rule>) { Sorted(xs) && Uniform(xs) }

  /** A rule fixes what the rules of its protocol already fix. */
  ghost predicate FitsIn(r: Rule, xs: seq<Rule>) {
    forall i :: 0 <= i < |xs| && xs[i].protocol == r.protocol ==> MaskOf(xs[i]) == MaskOf(r)
  }

  lemma AddKeepsSearchable(t: Tree<Rule>, r: Rule)
    requires Searchable(InOrder(t)) && FitsIn(r, InOrder(t))
    ensures Insert(t, Against(r), r) == None <==> exists x :: x in InOrder(t) && Compatible(r, x)
    ensures Insert(t, Against(r), r).Some? ==>
      var zs := InOrder(Insert(t, Against(r), r).value);
      Searchable(zs) && forall x :: x in zs <==> x == r || x in InOrder(t)
  {
    var xs := InOrder(t);
    SearchableSeparates(xs, r);
    SearchFindsCompatible(t, r);
    var k := InsertInOrder(t, Against(r), r);
    if Insert(t, Against(r), r).Some? {
      InsertedSearchable(xs, r, k, InOrder(Insert(t, Against(r), r).value));
    }
  }

  lemma InsertedSearchable(xs: seq<Rule>, r: Rule, k: nat, zs: seq<Rule>)
    requires Searchable(xs) && FitsIn(r, xs) && InsertedAt(xs, Against(r), r, k, zs)
    ensures Searchable(zs) && forall x :: x in zs <==> x == r || x in xs
  {
    InsertedMembers(xs, r, k);
    forall i, j | 0 <= i < j < |zs| ensures RuleCmp(zs[i], zs[j]) < 0 {
      InsertedPlace(xs, r, k, i);
      InsertedPlace(xs, r, k, j);
      ZeroIsCompatible(zs[i], zs[j]);
      if j == k {
        assert Against(r)(xs[i]) > 0;
      } else if i == k {
        assert Against(r)(xs[j - 1]) < 0;
      }
    }
    forall i, j | 0 <= i < |zs| && 0 <= j < |zs| && zs[i].protocol == zs[j].protocol
      ensures MaskOf(zs[i]) == MaskOf(zs[j])
    {
      InsertedPlace(xs, r, k, i);
      InsertedPlace(xs, r, k, j);
    }
  }

  lemma RemovedSearchable(xs: seq<Rule>, m: nat)
    requires Searchable(xs) && m < |xs|
    ensures Searchable(xs[..m] + xs[m + 1..])
    ensures forall x :: x in xs[..m] + xs[m + 1..] <==> x in xs && x != xs[m]
  {
    var zs := xs[..m] + xs[m + 1..];
    forall i | 0 <= i < |xs| && i != m ensures xs[i] != xs[m] {
      ZeroIsCompatible(xs[i], xs[m]);
      SelfCompatible(xs[m]);
    }
    RemovedMembers(xs, m);
    forall i, j | 0 <= i < j < |zs| ensures RuleCmp(zs[i], zs[j]) < 0 {
      RemovedPlace(xs, m, i);
      RemovedPlace(xs, m, j);
    }
    forall i, j | 0 <= i < |zs| && 0 <= j < |zs| && zs[i].protocol == zs[j].protocol
      ensures MaskOf(zs[i]) == MaskOf(zs[j])
    {
      RemovedPlace(xs, m, i);
      RemovedPlace(xs, m, j);
    }
  }

  lemma SelfCompatible(r: Rule)
    ensures RuleCmp(r, r) == 0
  {
    ZeroIsCompatible(r, r);
  }

  lemma RemoveKeepsSearchable(t: Tree<Rule>, q: Rule)
    requires Searchable(InOrder(t)) && Suits(q, InOrder(t)) && Search(t, Against(q)).Some?
    ensures var zs := InOrder(Erase(t, Against(q)));
      Searchable(zs) && forall x :: x in zs <==> x in InOrder(t) && !Compatible(q, x)
  {
    SearchableSeparates(InOrder(t), q);
    SearchFindsCompatible(t, q);
    var m := MatchInOrder(t, Against(q), q);
    RemovedSearchable(InOrder(t), m);
  }
}
