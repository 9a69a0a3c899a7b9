/**
 The older packet queue of ipshark (`ipshark/ip_queue.c`): one FIFO of packets per CPU, drained into the
 caller's array CPU by CPU. This is one call at a time; `SharkWorld` interleaves the calls.
 */
module SharkQueue {
  import opened Collections
  import opened Packets
  import opened Words

  const IP_FIFO_SIZE: nat := 16384

  datatype Fifo = Fifo(items: seq<KeyInfo>, alarm: bool)

  datatype Queues = Queues(fifos: seq<Fifo>, unQueued: U64, putPkts: U64, getPkts: U64)

  function AlarmOf(f: Fifo): bool {
    if f.alarm then !(|f.items| < IP_FIFO_SIZE * 3 / 5) else |f.items| > IP_FIFO_SIZE * 4 / 5
  }

  /** `ip_queue_put` on CPU `c`: the queues after it, and whether the packet was taken. */
  function PutTo(q: Queues, c: nat, info: KeyInfo): (Queues, bool)
    requires c < |q.fifos|
  {
    var f := q.fifos[c];
    var taken := |f.items| < IP_FIFO_SIZE;
    var f' := if taken then f.(items := f.items + [info]) else f;
    (Queues(q.fifos[c := f'.(alarm := AlarmOf(f'))],
            if taken then q.unQueued else (q.unQueued + 1) % U64_MOD,
            if taken then (q.putPkts + 1) % U64_MOD else q.putPkts, q.getPkts), taken)
  }

  /** What a request for `n` leaves in each FIFO. */
  function Drained(fifos: seq<Fifo>, n: nat): (r: seq<Fifo>)
    ensures |r| == |fifos|
  {
    if fifos == [] then []
    else
      var m := Min(n, |fifos[0].items|);
      [fifos[0].(items := fifos[0].items[m..])] + Drained(fifos[1..], n - m)
  }

  /** What it takes from each. */
  function Shares(fifos: seq<Fifo>, n: nat): (r: seq<seq<KeyInfo>>)
    ensures |r| == |fifos|
  {
    if fifos == [] then []
    else
      var m := Min(n, |fifos[0].items|);
      [fifos[0].items[..m]] + Shares(fifos[1..], n - m)
  }

  /** All packets in CPU order. */
  function Flat(fifos: seq<Fifo>): seq<KeyInfo> {
    if fifos == [] then [] else fifos[0].items + Flat(fifos[1..])
  }

  /** `ip_queue_get` for at most `n` packets. */
  function GetFrom(q: Queues, n: nat): (Queues, seq<KeyInfo>) {
    var out := Flat(q.fifos)[..Min(n, |Flat(q.fifos)|)];
    (q.(fifos := Drained(q.fifos, n), getPkts := (q.getPkts + |out|) % U64_MOD), out)
  }

  lemma {:induction false} DrainNone(f: seq<Fifo>)
    ensures Drained(f, 0) == f
  {
    if f != [] {
      DrainNone(f[1..]);
      assert f == [f[0]] + f[1..];
    }
  }

  /** On each CPU the share and what is left make up the FIFO. */
  lemma {:induction false} ShareAndRest(fifos: seq<Fifo>, n: nat, c: nat)
    requires c < |fifos|
    ensures fifos[c].items == Shares(fifos, n)[c] + Drained(fifos, n)[c].items
  {
    var m := Min(n, |fifos[0].items|);
    if c == 0 {
      assert fifos[0].items == fifos[0].items[..m] + fifos[0].items[m..];
    } else {
      ShareAndRest(fifos[1..], n - m, c - 1);
    }
  }

  lemma FrontShort<T>(items: seq<T>, rest: seq<T>, n: nat)
    requires n <= |items|
    ensures (items + rest)[..n] == items[..n] && items[..n] + (items[n..] + rest) == items + rest
  {
  }

  lemma FrontLong<T>(items: seq<T>, rest: seq<T>, k: nat)
    requires k <= |rest|
    ensures (items + rest)[..|items| + k] == items + rest[..k]
  {
  }

  /** What is taken is the front of all packets in CPU order, and the rest stays in that order. */
  lemma {:induction false} GetTakesFront(fifos: seq<Fifo>, n: nat)
    ensures Flat(fifos) == Flat(fifos)[..Min(n, |Flat(fifos)|)] + Flat(Drained(fifos, n))
  {
    if fifos != [] {
      var items, rest := fifos[0].items, Flat(fifos[1..]);
      if n < |items| {
        DrainNone(fifos[1..]);
        FrontShort(items, rest, n);
      } else {
        var left := n - |items|;
        var k := Min(left, |rest|);
        GetTakesFront(fifos[1..], left);
        FrontLong(items, rest, k);
        assert items[|items|..] == [];
        Associate(items, rest[..k], Flat(Drained(fifos[1..], left)));
      }
    }
  }

  /** All shares in CPU order. */
  function Concat(shares: seq<seq<KeyInfo>>): seq<KeyInfo> {
    if shares == [] then [] else shares[0] + Concat(shares[1..])
  }

  /** The packets a get returns are the shares of the CPUs, one after the other. */
  lemma {:induction false} SharesAreFront(fifos: seq<Fifo>, n: nat)
    ensures Concat(Shares(fifos, n)) == Flat(fifos)[..Min(n, |Flat(fifos)|)]
  {
    if fifos != [] {
      var items, rest := fifos[0].items, Flat(fifos[1..]);
      var m := Min(n, |items|);
      SharesAreFront(fifos[1..], n - m);
      assert Shares(fifos, n)[1..] == Shares(fifos[1..], n - m);
      if n < |items| {
        FrontShort(items, rest, n);
        assert items[..n] + rest[..0] == items[..n];
      } else {
        FrontLong(items, rest, Min(n - m, |rest|));
        assert items[..m] == items;
      }
    }
  }

  // ----- The code

  class PacketQueue {
    var fifos: array?<Fifo>
    var unQueued: U64
    var putPkts: U64
    var getPkts: U64

    constructor ()
      ensures fifos == null && unQueued == putPkts == getPkts == 0
    {
      fifos, unQueued, putPkts, getPkts := null, 0, 0, 0;
    }

    ghost function View(): Queues
      requires fifos != null
      reads this, fifos
    {
      Queues(fifos[..], unQueued, putPkts, getPkts)
    }

    /** `ip_queue_init` when memory suffices. */
    method Init(ncpu: nat)
      modifies this`fifos
      ensures fifos != null && fresh(fifos) && fifos.Length == ncpu
      ensures forall c :: 0 <= c < ncpu ==> fifos[c] == Fifo([], false)
    {
      fifos := new Fifo[ncpu](_ => Fifo([], false));
    }

    /** `ip_queue_exit` clears the counters, so the next `Init` starts from zero. */
    method Exit()
      modifies this
      ensures fifos == null
      ensures if old(fifos) == null then unchanged(this) else unQueued == putPkts == getPkts == 0
    {
      if fifos == null {
        return;
      }
      fifos, unQueued, putPkts, getPkts := null, 0, 0, 0;
    }

    method Put(cpu: nat, info: KeyInfo) returns (ret: int)
      requires fifos != null ==> cpu < fifos.Length
      modifies this`unQueued, this`putPkts, fifos
      ensures fifos == null ==> ret == 0 && unchanged(this)
      ensures fifos != null ==>
        var r := PutTo(old(View()), cpu, info); View() == r.0 && ret == if r.1 then 1 else 0
      ensures fifos != null ==>
        var f, f' := old(fifos[cpu]), fifos[cpu];
        && (|f.items| < 16384 ==> ret == 1 && f'.items == f.items + [info])
        && (|f.items| >= 16384 ==> ret == 0 && f'.items == f.items)
        && (f'.alarm <==> if f.alarm then |f'.items| >= 9830 else |f'.items| > 13107)
    {
      if fifos == null {
        return 0;
      }
      var c := fifos[cpu];
      if |c.items| < IP_FIFO_SIZE {
        c := c.(items := c.items + [info]);
        ret := 1;
        putPkts := (putPkts + 1) % U64_MOD;
      } else {
        ret := 0;
        unQueued := (unQueued + 1) % U64_MOD;
      }
      if c.alarm {
        if |c.items| < IP_FIFO_SIZE * 3 / 5 {
          c := c.(alarm := false);
        }
      } else {
        if |c.items| > IP_FIFO_SIZE * 4 / 5 {
          c := c.(alarm := true);
        }
      }
      fifos[cpu] := c;
    }

    /** `ip_queue_len`; without queues the code answers `true`, that is 1. */
    method Len() returns (pkts: nat)
      ensures fifos == null ==> pkts == 1
      ensures fifos != null ==> pkts == |Flat(fifos[..])|
    {
      if fifos == null {
        return 1;
      }
      pkts := 0;
      for cpu := 0 to fifos.Length
        invariant pkts + |Flat(fifos[cpu..])| == |Flat(fifos[..])|
      {
        assert fifos[cpu..][1..] == fifos[cpu + 1..];
        pkts := pkts + |fifos[cpu].items|;
      }
    }

    /** `kfifo_out` of at most `n` packets to `out` from place `at` on. */
    method FifoOut(cpu: nat, n: nat, out: array<KeyInfo>, at: nat) returns (m: nat)
      requires fifos != null && cpu < fifos.Length && at + n <= out.Length
      modifies fifos, out
      ensures m == Min(n, |old(fifos[cpu].items)|)
      ensures fifos[..] == old(fifos[..])[cpu := old(fifos[cpu]).(items := old(fifos[cpu].items)[m..])]
      ensures out[..at + m] == old(out[..at]) + old(fifos[cpu].items)[..m]
    {
      var c := fifos[cpu];
      m := Min(n, |c.items|);
      forall i | 0 <= i < m {
        out[at + i] := c.items[i];
      }
      fifos[cpu] := c.(items := c.items[m..]);
    }

    /** `ip_queue_get`: `n` is how many fit; the number copied comes back. */
    method Get(out: array<KeyInfo>, n: nat) returns (copied: nat)
      requires n <= out.Length
      modifies this`getPkts, fifos, out
      ensures fifos == null ==> copied == 0 && getPkts == old(getPkts)
      ensures fifos != null ==>
        var r := GetFrom(old(View()), n);
        View() == r.0 && copied == |r.1| <= n && out[..copied] == r.1
    {
      copied := 0;
      if fifos == null {
        return;
      }
      ghost var q := View();
      copied := Drain(out, n);
      getPkts := (getPkts + copied) % U64_MOD;
      assert View() == q.(fifos := Drained(q.fifos, n), getPkts := (q.getPkts + copied) % U64_MOD);
    }

    /** The loop over the CPUs. */
    method Drain(out: array<KeyInfo>, n: nat) returns (copied: nat)
      requires fifos != null && n <= out.Length
      modifies fifos, out
      ensures fifos[..] == Drained(old(fifos[..]), n) && copied == Min(n, |Flat(old(fifos[..]))|)
      ensures out[..copied] == Flat(old(fifos[..]))[..Min(n, |Flat(old(fifos[..]))|)]
    {
      ghost var f0 := fifos[..];
      copied := 0;
      var infonum: nat := n;
      var cpu := 0;
      EndsAtStart(f0, n);
      while cpu < fifos.Length
        invariant cpu <= fifos.Length && copied + infonum == n
        invariant Ends(fifos[..], out[..copied], cpu, infonum) == Ends(f0, [], 0, n)
      {
        cpu, infonum, copied := Turn(out, cpu, infonum, copied);
      }
      EndsAtEnd(fifos[..], out[..copied], infonum);
      ghost var done := out[..copied];
      assert |done| == copied && done == Flat(f0)[..Min(n, |Flat(f0)|)];
    }

    /** One turn of it. */
    method Turn(out: array<KeyInfo>, cpu: nat, infonum: nat, copied: nat)
      returns (cpu': nat, infonum': nat, copied': nat)
      requires fifos != null && cpu < fifos.Length && copied + infonum <= out.Length
      modifies fifos, out
      ensures cpu < cpu' <= fifos.Length && copied' + infonum' == copied + infonum
      ensures Ends(fifos[..], out[..copied'], cpu', infonum') == Ends(old(fifos[..]), old(out[..copied]), cpu, infonum)
    {
      ghost var f, done := fifos[..], out[..copied];
      if |fifos[cpu].items| == 0 {
        EndsPastEmpty(f, done, cpu, infonum);
        return cpu + 1, infonum, copied;
      }
      var m := FifoOut(cpu, infonum, out, copied);
      EndsOn(f, done, cpu, infonum, fifos[..], out[..copied + m], m);
      copied' := copied + m;
      infonum' := infonum - m;
      cpu' := cpu + 1;
      if infonum' == 0 {
        EndsWhenFull(fifos[..], out[..copied'], cpu');
        EndsWhenFull(fifos[..], out[..copied'], fifos.Length);
        cpu' := fifos.Length;
      }
    }
  }

  /** Where the call ends up from CPU `cpu` on, with `out` copied and room for `left` more. */
  function Ends(f: seq<Fifo>, out: seq<KeyInfo>, cpu: nat, left: nat): (seq<Fifo>, seq<KeyInfo>)
    requires cpu <= |f|
  {
    (f[..cpu] + Drained(f[cpu..], left), out + Flat(f[cpu..])[..Min(left, |Flat(f[cpu..])|)])
  }

  lemma Whole<T>(s: seq<T>, k: nat)
    requires k <= |s|
    ensures s[0..] == s && s[..0] == [] && s[..|s|] == s && s[|s|..] == [] && s[..k] + s[k..] == s
    ensures [] + s == s && s + [] == s
  {
  }

  lemma NextSlices<T>(s: seq<T>, k: nat, x: T)
    requires k < |s|
    ensures s[k..][0] == s[k] && s[k..][1..] == s[k + 1..]
    ensures s[k := x][..k + 1] == s[..k] + [x] && s[k := x][k + 1..] == s[k + 1..]
  {
  }

  lemma EndsAtStart(f: seq<Fifo>, n: nat)
    ensures Ends(f, [], 0, n) == (Drained(f, n), Flat(f)[..Min(n, |Flat(f)|)])
  {
    Whole(f, 0);
    Whole(Drained(f, n), 0);
    Whole(Flat(f)[..Min(n, |Flat(f)|)], 0);
  }

  lemma EndsWhenFull(f: seq<Fifo>, out: seq<KeyInfo>, cpu: nat)
    requires cpu <= |f|
    ensures Ends(f, out, cpu, 0) == (f, out)
  {
    DrainNone(f[cpu..]);
    Whole(f, cpu);
    Whole(out, 0);
    Whole(Flat(f[cpu..]), 0);
  }

  lemma EndsAtEnd(f: seq<Fifo>, out: seq<KeyInfo>, left: nat)
    ensures Ends(f, out, |f|, left) == (f, out)
  {
    Whole(f, |f|);
    Whole(out, 0);
  }

  /** One turn of the loop leads to the same end. */
  lemma EndsOn(f: seq<Fifo>, out: seq<KeyInfo>, cpu: nat, left: nat, f': seq<Fifo>, out': seq<KeyInfo>, m: nat)
    requires cpu < |f| && m == Min(left, |f[cpu].items|)
    requires f' == f[cpu := f[cpu].(items := f[cpu].items[m..])] && out' == out + f[cpu].items[..m]
    ensures Ends(f, out, cpu, left) == Ends(f', out', cpu + 1, left - m)
  {
    NextSlices(f, cpu, f'[cpu]);
    Associate(f[..cpu], [f'[cpu]], Drained(f[cpu + 1..], left - m));
    OnwardFlat(out, f[cpu].items, Flat(f[cpu + 1..]), left);
  }

  lemma EndsPastEmpty(f: seq<Fifo>, out: seq<KeyInfo>, cpu: nat, left: nat)
    requires cpu < |f| && f[cpu].items == []
    ensures Ends(f, out, cpu, left) == Ends(f, out, cpu + 1, left)
  {
    Whole(f[cpu].items, 0);
    Whole(out, 0);
    assert f[cpu].(items := f[cpu].items[0..]) == f[cpu];
    EndsOn(f, out, cpu, left, f, out, 0);
  }

  lemma OnwardFlat(out: seq<KeyInfo>, items: seq<KeyInfo>, rest: seq<KeyInfo>, left: nat)
    ensures var m := Min(left, |items|);
      out + (items + rest)[..Min(left, |items + rest|)] == (out + items[..m]) + rest[..Min(left - m, |rest|)]
  {
    if left < |items| {
      FrontShort(items, rest, left);
      Whole(rest, 0);
      Whole(out + items[..left], 0);
    } else {
      var k := Min(left - |items|, |rest|);
      FrontLong(items, rest, k);
      Whole(items, 0);
      Associate(out, items, rest[..k]);
    }
  }
}
