/**
 The address tree and the per-CPU counters of `nfstat/ip_counter.c`. Addresses are compared as whole
 structs, padding and unused bytes included, while an insertion stores only the used bytes; so the tree
 is an index for canonical addresses.
 */
module NfsCounter {
  import opened Wrappers
  import opened Lex
  import opened SearchTree
  import opened NfsRule
  import opened Words

  /** `struct nfs_counter_vector`, two 64-bit counters. */
  datatype Cell = Cell(number: nat, bytes: nat)

  /** `struct ip_counter_entry`: one vector of `maxtype` cells for every CPU. */
  datatype Entry = Entry(ip: IpAddr, counts: seq<seq<Cell>>)

  /** The bytes `memcmp` sees of a whole `struct nfs_ipaddr`. */
  function Bytes(a: IpAddr): (s: seq<int>)
    ensures |s| == 20
  {
    [a.len] + Ints(a.padding) + Ints(a.addr)
  }

  function Ints(s: seq<nat>): (r: seq<int>)
    ensures |r| == |s| && forall i :: 0 <= i < |s| ==> r[i] == s[i]
  {
    seq(|s|, i requires 0 <= i < |s| => s[i])
  }

  lemma BytesInjective(a: IpAddr, b: IpAddr)
    requires Bytes(a) == Bytes(b)
    ensures a == b
  {
    assert Bytes(a)[0] == a.len && Bytes(b)[0] == b.len;
    assert Ints(a.padding) == Bytes(a)[1..4] == Bytes(b)[1..4] == Ints(b.padding);
    assert Ints(a.addr) == Bytes(a)[4..] == Bytes(b)[4..] == Ints(b.addr);
    assert forall i :: 0 <= i < 3 ==> a.padding[i] == Ints(a.padding)[i];
    assert forall i :: 0 <= i < 16 ==> a.addr[i] == Ints(a.addr)[i];
    assert a.padding == b.padding && a.addr == b.addr;
  }

  function AddrCmp(a: IpAddr, b: IpAddr): int { Cmp(Bytes(a), Bytes(b)) }

  /** The first byte that differs in length, padding and address, in this order, decides. */
  lemma FirstByteDecides(a: IpAddr, b: IpAddr, k: nat)
    requires k < 20
    requires var x, y := [a.len] + a.padding + a.addr, [b.len] + b.padding + b.addr; x[..k] == y[..k] && x[k] != y[k]
    ensures var x, y := [a.len] + a.padding + a.addr, [b.len] + b.padding + b.addr;
      AddrCmp(a, b) == if x[k] < y[k] then -1 else 1
  {
    var x, y := [a.len] + a.padding + a.addr, [b.len] + b.padding + b.addr;
    assert forall i :: 0 <= i < 20 ==> Bytes(a)[i] == x[i] && Bytes(b)[i] == y[i];
    assert forall i :: 0 <= i < k ==> x[i] == x[..k][i] == y[..k][i] == y[i];
    FirstDecides(Bytes(a), Bytes(b), k);
  }

  /** What looking for an address compares: the code turns left when the entry is the larger. */
  function Near(ip: IpAddr): Entry -> int {
    (e: Entry) => -AddrCmp(e.ip, ip)
  }

  /** What an insertion stores: the length and that many bytes. */
  function Canon(a: IpAddr): IpAddr {
    IpAddr(a.len, seq(3, _ => 0), a.addr[..a.len] + seq(16 - a.len, _ => 0))
  }

  predicate Canonical(a: IpAddr) { a == Canon(a) }

  /** `stored` has the length of `a`, its first bytes up to that length, and zeroes everywhere else. */
  ghost predicate KeepsUsed(stored: IpAddr, a: IpAddr) {
    && stored.len == a.len && stored.padding == [0, 0, 0]
    && forall j :: 0 <= j < 16 ==> stored.addr[j] == if j < a.len then a.addr[j] else 0
  }

  lemma CanonKeepsUsed(a: IpAddr)
    ensures KeepsUsed(Canon(a), a)
    ensures forall b: IpAddr :: KeepsUsed(b, a) ==> b == Canon(a)
  {
    assert seq(3, _ => 0) == [0, 0, 0];
    forall b: IpAddr | KeepsUsed(b, a) ensures b == Canon(a) {
      assert b.addr == Canon(a).addr;
    }
  }

  /** An address is canonical exactly if its padding and the bytes past its length are zero. */
  lemma CanonicalIff(a: IpAddr)
    ensures Canonical(a) <==>
      (forall j :: 0 <= j < 3 ==> a.padding[j] == 0) && (forall j :: a.len <= j < 16 ==> a.addr[j] == 0)
  {
    CanonKeepsUsed(a);
    if (forall j :: 0 <= j < 3 ==> a.padding[j] == 0) && forall j :: a.len <= j < 16 ==> a.addr[j] == 0 {
      assert a.padding == [0, 0, 0];
      assert KeepsUsed(a, a);
    }
  }

  lemma CanonIsCanonical(a: IpAddr)
    ensures Canonical(Canon(a))
  {
    CanonKeepsUsed(a);
    CanonicalIff(Canon(a));
  }

  ghost predicate Ascending(xs: seq<Entry>) {
    forall i, j :: 0 <= i < j < |xs| ==> AddrCmp(xs[i].ip, xs[j].ip) < 0
  }

  lemma AscendingSeparates(xs: seq<Entry>, ip: IpAddr)
    requires Ascending(xs)
    ensures Separated(xs, Near(ip))
  {
    forall i, j | 0 <= i < j < |xs| ensures Near(ip)(xs[i]) > 0 || Near(ip)(xs[j]) < 0 {
      if AddrCmp(xs[i].ip, ip) >= 0 {
        CmpBasics(Bytes(xs[i].ip), Bytes(ip));
        CmpTransitive(Bytes(ip), Bytes(xs[i].ip), Bytes(xs[j].ip));
        CmpBasics(Bytes(ip), Bytes(xs[j].ip));
      }
    }
  }

  lemma SameAddr(a: IpAddr, b: IpAddr)
    ensures AddrCmp(a, b) == 0 <==> a == b
    ensures AddrCmp(a, b) == -AddrCmp(b, a)
  {
    CmpBasics(Bytes(a), Bytes(b));
    if AddrCmp(a, b) == 0 {
      BytesInjective(a, b);
    }
  }

  /** `findipentry` finds exactly the present addresses, in a tree of any shape. */
  lemma FindsPresent(t: Tree<Entry>, ip: IpAddr)
    requires Ascending(InOrder(t))
    ensures Search(t, Near(ip)) == None <==> forall e :: e in InOrder(t) ==> e.ip != ip
    ensures forall e :: e in InOrder(t) && e.ip == ip ==> Search(t, Near(ip)) == Some(e)
    ensures Search(t, Near(ip)).Some? ==>
      Search(t, Near(ip)).value in InOrder(t) && Search(t, Near(ip)).value.ip == ip
  {
    var xs, p := InOrder(t), Near(ip);
    AscendingSeparates(xs, ip);
    SearchIsScan(t, p);
    ScanFinds(xs, p);
    forall e | e in xs ensures e.ip == ip <==> p(e) == 0 {
      SameAddr(e.ip, ip);
    }
    if Search(t, p).Some? {
      var m := MatchInOrder(t, p, Search(t, p).value);
    }
  }

  lemma OneEntryPerAddr(xs: seq<Entry>, i: nat, j: nat)
    requires Ascending(xs) && i < |xs| && j < |xs| && i != j
    ensures xs[i].ip != xs[j].ip
  {
    SameAddr(xs[i].ip, xs[j].ip);
    assert i < j ==> AddrCmp(xs[i].ip, xs[j].ip) < 0;
    assert j < i ==> AddrCmp(xs[j].ip, xs[i].ip) < 0;
  }

  /** What an entry inserted at the place of `ip` needs to keep the order. */
  ghost predicate InPlace(xs: seq<Entry>, ip: IpAddr, stored: IpAddr) {
    forall e :: e in xs ==>
      (AddrCmp(e.ip, ip) < 0 ==> AddrCmp(e.ip, stored) < 0) && (AddrCmp(e.ip, ip) > 0 ==> AddrCmp(e.ip, stored) > 0)
  }

  /** The descent compares the address given, the entry keeps its canonical form: the order survives
      exactly when no entry tells the two apart. */
  lemma InsertKeepsOrderIff(t: Tree<Entry>, ip: IpAddr, y: Entry)
    requires Ascending(InOrder(t)) && Insert(t, Near(ip), y).Some?
    ensures Ascending(InOrder(Insert(t, Near(ip), y).value)) <==> InPlace(InOrder(t), ip, y.ip)
    ensures forall x :: x in InOrder(Insert(t, Near(ip), y).value) <==> x == y || x in InOrder(t)
    ensures |InOrder(Insert(t, Near(ip), y).value)| == |InOrder(t)| + 1
  {
    var xs, p := InOrder(t), Near(ip);
    AscendingSeparates(xs, ip);
    var k := InsertInOrder(t, p, y);
    var zs := InOrder(Insert(t, p, y).value);
    InsertedMembers(xs, y, k);
    if InPlace(xs, ip, y.ip) {
      InsertedAscending(xs, ip, y, k, zs);
    } else {
      InsertedElsewhere(xs, ip, y, k, zs);
    }
  }

  lemma InsertedElsewhere(xs: seq<Entry>, ip: IpAddr, y: Entry, k: nat, zs: seq<Entry>)
    requires InsertedAt(xs, Near(ip), y, k, zs) && !InPlace(xs, ip, y.ip)
    ensures !Ascending(zs)
  {
    var e :| e in xs && !((AddrCmp(e.ip, ip) < 0 ==> AddrCmp(e.ip, y.ip) < 0)
                          && (AddrCmp(e.ip, ip) > 0 ==> AddrCmp(e.ip, y.ip) > 0));
    var i :| 0 <= i < |xs| && xs[i] == e;
    var j := if i < k then i else i + 1;
    SameAddr(e.ip, y.ip);
    InsertedPlace(xs, y, k, k);
    InsertedPlace(xs, y, k, j);
    assert i < k ==> Near(ip)(xs[i]) > 0;
    assert i >= k ==> Near(ip)(xs[i]) < 0;
    assert zs[k] == y && zs[j] == e;
  }

  lemma InsertedAscending(xs: seq<Entry>, ip: IpAddr, y: Entry, k: nat, zs: seq<Entry>)
    requires Ascending(xs) && InsertedAt(xs, Near(ip), y, k, zs) && InPlace(xs, ip, y.ip)
    ensures Ascending(zs)
  {
    forall i, j | 0 <= i < j < |zs| ensures AddrCmp(zs[i].ip, zs[j].ip) < 0 {
      InsertedPlace(xs, y, k, i);
      InsertedPlace(xs, y, k, j);
      SameAddr(zs[i].ip, zs[j].ip);
      if j == k {
        assert Near(ip)(xs[i]) > 0 && xs[i] in xs;
      } else if i == k {
        assert Near(ip)(xs[j - 1]) < 0 && xs[j - 1] in xs;
      }
    }
  }

  /** On a tree of canonical addresses, an entry that keeps the used bytes of an address is found under that
      address exactly if the address has no other bytes that are not zero. */
  lemma AddThenFindIff(t: Tree<Entry>, ip: IpAddr, y: Entry)
    requires Ascending(InOrder(t)) && (forall e :: e in InOrder(t) ==> Canonical(e.ip))
    requires Insert(t, Near(ip), y).Some? && KeepsUsed(y.ip, ip)
    ensures Search(Insert(t, Near(ip), y).value, Near(ip)).Some? <==>
      (forall j :: 0 <= j < 3 ==> ip.padding[j] == 0) && (forall j :: ip.len <= j < 16 ==> ip.addr[j] == 0)
  {
    var z := Insert(t, Near(ip), y).value;
    CanonKeepsUsed(ip);
    CanonicalIff(ip);
    InsertKeepsOrderIff(t, ip, y);
    if Canonical(ip) {
      FindsPresent(z, ip);
      assert y in InOrder(z);
    } else {
      FoundIsThere(z, Near(ip));
      CanonIsCanonical(ip);
      forall e | e in InOrder(z) ensures Near(ip)(e) != 0 {
        SameAddr(e.ip, ip);
      }
    }
  }

  /** 10.0.0.1 with a byte set behind its four. */
  const ODD_ADDR: IpAddr := IpAddr(4, [0, 0, 0], [10, 0, 0, 1, 7, 0, 0, 0, 0, 0, 0, 0, 0, 0, 0, 0])

  /** Added to an empty tree, it is not found. */
  lemma AddedNotFound(y: Entry)
    requires KeepsUsed(y.ip, ODD_ADDR)
    ensures Insert(Leaf, Near(ODD_ADDR), y) == Some(Node(Leaf, y, Leaf))
    ensures Search(Node(Leaf, y, Leaf), Near(ODD_ADDR)) == None
  {
    assert ODD_ADDR.addr[4] == 7;
    AddThenFindIff(Leaf, ODD_ADDR, y);
  }

  lemma {:induction false} RemovedAscending(xs: seq<Entry>, m: nat)
    requires Ascending(xs) && m < |xs|
    ensures Ascending(xs[..m] + xs[m + 1..])
    ensures forall x :: x in xs[..m] + xs[m + 1..] <==> x in xs && x.ip != xs[m].ip
  {
    var zs := xs[..m] + xs[m + 1..];
    forall i | 0 <= i < |xs| && i != m ensures xs[i] != xs[m] && xs[i].ip != xs[m].ip {
      OneEntryPerAddr(xs, i, m);
    }
    RemovedMembers(xs, m);
    forall i, j | 0 <= i < j < |zs| ensures AddrCmp(zs[i].ip, zs[j].ip) < 0 {
      RemovedPlace(xs, m, i);
      RemovedPlace(xs, m, j);
    }
  }

  lemma ReplacedAscending(xs: seq<Entry>, m: nat, y: Entry)
    requires Ascending(xs) && m < |xs| && y.ip == xs[m].ip
    ensures Ascending(xs[m := y])
    ensures forall x :: x in xs[m := y] <==> x == y || (x in xs && x.ip != xs[m].ip)
  {
    var zs := xs[m := y];
    forall x | x in xs && x.ip != y.ip ensures x in zs {
      var i :| 0 <= i < |xs| && xs[i] == x;
      assert zs[i] == x;
    }
    forall x | x in zs ensures x == y || (x in xs && x.ip != xs[m].ip) {
      var i :| 0 <= i < |zs| && zs[i] == x;
      if i != m {
        OneEntryPerAddr(xs, i, m);
      }
    }
    assert zs[m] == y;
  }

  // ----- Counters

  /** One vector of zeroed cells per CPU. */
  function ZeroCounts(ncpu: nat, maxtype: nat): (s: seq<seq<Cell>>)
    ensures |s| == ncpu && forall c :: 0 <= c < ncpu ==> |s[c]| == maxtype
  {
    seq(ncpu, _ => seq(maxtype, _ => Cell(0, 0)))
  }

  predicate CountsShaped(counts: seq<seq<Cell>>, ncpu: nat, maxtype: nat) {
    |counts| == ncpu && forall c :: 0 <= c < ncpu ==> |counts[c]| == maxtype
  }

  /** Addition of both counters in 64 bits. */
  function Add(a: Cell, b: Cell): Cell {
    Cell((a.number + b.number) % U64_MOD, (a.bytes + b.bytes) % U64_MOD)
  }

  /** The counters of one type added up over the CPUs. */
  function SumCells(counts: seq<seq<Cell>>, t: nat): Cell
    requires forall c :: 0 <= c < |counts| ==> t < |counts[c]|
  {
    if counts == [] then Cell(0, 0)
    else Add(SumCells(counts[..|counts| - 1], t), counts[|counts| - 1][t])
  }

  /** One packet of `len` bytes counted on one CPU. */
  function Bump(counts: seq<seq<Cell>>, cpu: nat, t: nat, len: nat): seq<seq<Cell>>
    requires cpu < |counts| && t < |counts[cpu]|
  {
    counts[cpu := counts[cpu][t := Add(counts[cpu][t], Cell(1, len))]]
  }

  lemma SumMoves(f: nat, l: nat, d: nat)
    ensures (f + (l + d) % U64_MOD) % U64_MOD == ((f + l) % U64_MOD + d) % U64_MOD == ((f + d) % U64_MOD + l) % U64_MOD
  {
    Wrapped(l + d, f);
    Wrapped(f + l, d);
    Wrapped(f + d, l);
  }

  lemma AddMoves(f: Cell, l: Cell, d: Cell)
    ensures Add(f, Add(l, d)) == Add(Add(f, l), d) == Add(Add(f, d), l)
  {
    SumMoves(f.number, l.number, d.number);
    SumMoves(f.bytes, l.bytes, d.bytes);
  }

  lemma BumpLast(counts: seq<seq<Cell>>, t: nat, len: nat, u: nat)
    requires counts != [] && t < |counts[|counts| - 1]|
    requires forall c :: 0 <= c < |counts| ==> u < |counts[c]|
    ensures var after := Bump(counts, |counts| - 1, t, len);
      && (forall c :: 0 <= c < |after| ==> |after[c]| == |counts[c]|)
      && SumCells(after, u) == if u == t then Add(SumCells(counts, u), Cell(1, len)) else SumCells(counts, u)
  {
    var n, after := |counts| - 1, Bump(counts, |counts| - 1, t, len);
    assert after[..n] == counts[..n];
    AddMoves(SumCells(counts[..n], u), counts[n][u], Cell(1, len));
  }

  /** Whichever CPU counts it, the sum of its type grows by the packet and no other sum moves. */
  lemma {:induction false} BumpAddsToSum(counts: seq<seq<Cell>>, cpu: nat, t: nat, len: nat, u: nat)
    requires cpu < |counts| && t < |counts[cpu]|
    requires forall c :: 0 <= c < |counts| ==> u < |counts[c]|
    ensures forall c :: 0 <= c < |counts| ==> |Bump(counts, cpu, t, len)[c]| == |counts[c]|
    ensures SumCells(Bump(counts, cpu, t, len), u) ==
      if u == t then Add(SumCells(counts, u), Cell(1, len)) else SumCells(counts, u)
    decreases |counts|
  {
    var n := |counts| - 1;
    if cpu == n {
      BumpLast(counts, t, len, u);
    } else {
      assert Bump(counts, cpu, t, len)[..n] == Bump(counts[..n], cpu, t, len);
      BumpAddsToSum(counts[..n], cpu, t, len, u);
      AddMoves(SumCells(counts[..n], u), counts[n][u], Cell(1, len));
    }
  }

  lemma {:induction false} ZeroSum(n: nat, maxtype: nat, t: nat)
    requires t < maxtype
    ensures SumCells(ZeroCounts(n, maxtype), t) == Cell(0, 0)
  {
    if n > 0 {
      assert ZeroCounts(n, maxtype)[..n - 1] == ZeroCounts(n - 1, maxtype);
      ZeroSum(n - 1, maxtype, t);
    }
  }
}
