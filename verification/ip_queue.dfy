/**
 `ipshark2/core/ip_queue.c` itself: creation, put, move to the index array, and recycle, working
 in place on the arrays of queues and slots. Each method is an uninterrupted run of the small
 steps of `SlotArea`, whose meaning the theorems about runs give.
 */
module IpQueue {
  import opened Errno
  import opened Packets
  import opened SlotArea
  import opened SlotCalls
  import opened SlotRuns
  import opened Words

  /** Bytes of `struct ips_dma_area` and of one `struct ip_key_info_wrap`. */
  const AREA_BYTES: int := 260
  const SLOT_BYTES: int := 76

  const POISON := KeyInfo([], [], [], [], 0, 0, 0, 0, 0, 0)

  datatype CpuQueueSize = CpuQueueSize(cpuidx: int, size: nat)

  /** What kfifo makes of a requested size: the next power of two. */
  function RoundUpPow2(n: nat, p: nat): (r: nat)
    requires p > 0
    ensures r >= n
    decreases n - p
  {
    if p >= n then p else RoundUpPow2(n, 2 * p)
  }

  /** The configured size of a CPU: the first entry naming it, else the default. */
  function SizeOf(cpu: nat, s: seq<CpuQueueSize>, default: nat): nat {
    if s == [] then default
    else if s[0].cpuidx == cpu then s[0].size
    else SizeOf(cpu, s[1..], default)
  }

  /** The unbounded sum of the sizes of the first `n` CPUs. */
  function SumTo(n: nat, s: seq<CpuQueueSize>, default: nat): nat {
    if n == 0 then 0 else SumTo(n - 1, s, default) + SizeOf(n - 1, s, default)
  }

  /** Entry `i` is the first that names the CPU. */
  ghost predicate FirstEntry(cpu: nat, s: seq<CpuQueueSize>, i: nat) {
    i < |s| && s[i].cpuidx == cpu && forall j :: 0 <= j < i ==> s[j].cpuidx != cpu
  }

  ghost predicate Unnamed(cpu: nat, s: seq<CpuQueueSize>) {
    forall i :: 0 <= i < |s| ==> s[i].cpuidx != cpu
  }

  lemma {:induction false} NamedOrNot(cpu: nat, s: seq<CpuQueueSize>)
    ensures Unnamed(cpu, s) || exists i: nat :: FirstEntry(cpu, s, i)
  {
    if s != [] && s[0].cpuidx != cpu {
      NamedOrNot(cpu, s[1..]);
      if i: nat :| FirstEntry(cpu, s[1..], i) {
        LaterFirst(cpu, s, i);
      } else {
        assert forall i :: 0 < i < |s| ==> s[i] == s[1..][i - 1];
      }
    } else if s != [] {
      assert FirstEntry(cpu, s, 0);
    }
  }

  lemma LaterFirst(cpu: nat, s: seq<CpuQueueSize>, i: nat)
    requires s != [] && s[0].cpuidx != cpu
    ensures FirstEntry(cpu, s, i + 1) <==> FirstEntry(cpu, s[1..], i)
  {
    assert forall j :: 0 < j < |s| ==> s[j] == s[1..][j - 1];
    assert forall j :: 0 <= j < |s[1..]| ==> s[1..][j] == s[j + 1];
  }

  /** Whatever the list, the size is that of the first entry naming the CPU, or the default if none does. */
  lemma {:induction false} SizeIsFirstNamed(cpu: nat, s: seq<CpuQueueSize>, default: nat)
    ensures forall i: nat :: FirstEntry(cpu, s, i) ==> SizeOf(cpu, s, default) == s[i].size
    ensures Unnamed(cpu, s) ==> SizeOf(cpu, s, default) == default
  {
    if s != [] && s[0].cpuidx != cpu {
      SizeIsFirstNamed(cpu, s[1..], default);
      assert forall j :: 0 <= j < |s[1..]| ==> s[1..][j] == s[j + 1];
      forall i: nat | FirstEntry(cpu, s, i) ensures SizeOf(cpu, s, default) == s[i].size {
        LaterFirst(cpu, s, i - 1);
      }
    }
  }

  method GetSize(cpu: nat, s: seq<CpuQueueSize>, default: nat) returns (size: nat)
    ensures size == SizeOf(cpu, s, default)
    ensures forall i: nat :: FirstEntry(cpu, s, i) ==> size == s[i].size
    ensures Unnamed(cpu, s) ==> size == default
  {
    SizeIsFirstNamed(cpu, s, default);
    for i := 0 to |s|
      invariant SizeOf(cpu, s[i..], default) == SizeOf(cpu, s, default)
    {
      if s[i].cpuidx == cpu {
        return s[i].size;
      }
      assert s[i..][1..] == s[i + 1..];
    }
    size := default;
  }

  lemma {:induction false} SumGrows(c: nat, d: nat, s: seq<CpuQueueSize>, default: nat)
    requires c <= d
    ensures SumTo(c, s, default) <= SumTo(d, s, default)
  {
    if c < d {
      SumGrows(c, d - 1, s, default);
    }
  }

  /** Every slot below the total lies in the share of some CPU. */
  lemma {:induction false} Share(n: nat, s: seq<CpuQueueSize>, default: nat, x: nat) returns (c: nat)
    requires x < SumTo(n, s, default)
    ensures c < n && SumTo(c, s, default) <= x < SumTo(c + 1, s, default)
  {
    if SumTo(n - 1, s, default) <= x {
      c := n - 1;
    } else {
      c := Share(n - 1, s, default, x);
    }
  }

  /** The queue of a CPU right after creation. */
  function NewQueue(c: nat, s: seq<CpuQueueSize>, default: nat): CpuQueue {
    var lo, hi := SumTo(c, s, default), SumTo(c + 1, s, default);
    CpuQueue(lo, hi, RoundUpPow2(hi - lo, 1), Ascending(lo, hi), [], false)
  }

  /** Every configured size suits kfifo. */
  predicate SizesOk(n: nat, s: seq<CpuQueueSize>, default: nat) {
    forall c :: 0 <= c < n ==> SizeOf(c, s, default) >= 2
  }

  lemma {:induction false} SizeFits(cpu: nat, s: seq<CpuQueueSize>, default: nat)
    requires default <= 0xffff && forall i :: 0 <= i < |s| ==> s[i].size <= 0xffff
    ensures SizeOf(cpu, s, default) <= 0xffff
  {
    if s != [] {
      SizeFits(cpu, s[1..], default);
    }
  }

  /** The shares of the CPUs up to and including `c` do not fit 16-bit indices. */
  predicate Overflows(c: nat, s: seq<CpuQueueSize>, default: nat) {
    SumTo(c + 1, s, default) > 0xffff
  }

  /** What kfifo makes of a size from 2 on: the least power of two that is enough. */
  lemma {:induction false} RoundsUp(n: nat, p: nat, k: nat) returns (e: nat)
    requires p == Power2(k) && p < 2 * n
    ensures e >= k && RoundUpPow2(n, p) == Power2(e) && n <= Power2(e) < 2 * n
    decreases n - p
  {
    if p >= n {
      e := k;
    } else {
      e := RoundsUp(n, 2 * p, k + 1);
    }
  }

  function Power2(e: nat): (p: nat)
    ensures p > 0
  {
    if e == 0 then 1 else 2 * Power2(e - 1)
  }

  ghost predicate AtLeast2(c: nat, s: seq<CpuQueueSize>, default: nat) {
    && (forall i: nat :: FirstEntry(c, s, i) ==> s[i].size >= 2)
    && (Unnamed(c, s) ==> default >= 2)
  }

  /** Sizes are acceptable exactly if no CPU's first entry, or the default where a CPU has none, is below 2. */
  lemma SizesOkIff(n: nat, s: seq<CpuQueueSize>, default: nat)
    ensures SizesOk(n, s, default) <==> forall c: nat :: c < n ==> AtLeast2(c, s, default)
  {
    forall c: nat | c < n ensures SizeOf(c, s, default) >= 2 <==> AtLeast2(c, s, default) {
      NamedOrNot(c, s);
      SizeIsFirstNamed(c, s, default);
    }
  }

  /** Every CPU gets as many slots as its first entry says, or the default if no entry names it. */
  ghost predicate Widths(cpus: seq<CpuQueue>, s: seq<CpuQueueSize>, default: nat) {
    && (forall c: nat, i: nat :: c < |cpus| && FirstEntry(c, s, i) ==> cpus[c].end - cpus[c].start == s[i].size)
    && (forall c: nat :: c < |cpus| && Unnamed(c, s) ==> cpus[c].end - cpus[c].start == default)
  }

  /** The shares follow one another from slot 0 to the last. */
  ghost predicate SideBySide(cpus: seq<CpuQueue>, n: nat) {
    && (cpus == [] ==> n == 0)
    && (cpus != [] ==> cpus[0].start == 0 && cpus[|cpus| - 1].end == n)
    && forall c, d :: 0 <= c < d < |cpus| && d == c + 1 ==> cpus[c].end == cpus[d].start
  }

  lemma NewWidths(cpus: seq<CpuQueue>, s: seq<CpuQueueSize>, default: nat)
    requires forall c :: 0 <= c < |cpus| ==> cpus[c] == NewQueue(c, s, default)
    ensures Widths(cpus, s, default) && SideBySide(cpus, SumTo(|cpus|, s, default))
  {
    forall c: nat | c < |cpus|
      ensures forall i: nat :: FirstEntry(c, s, i) ==> cpus[c].end - cpus[c].start == s[i].size
      ensures Unnamed(c, s) ==> cpus[c].end - cpus[c].start == default
    {
      SizeIsFirstNamed(c, s, default);
    }
  }

  /** Both FIFOs of a CPU hold the least power of two that is enough for its share. */
  lemma NewCap(c: nat, s: seq<CpuQueueSize>, default: nat) returns (e: nat)
    requires SizeOf(c, s, default) >= 2
    ensures var q := NewQueue(c, s, default); q.cap == Power2(e) && q.end - q.start <= q.cap < 2 * (q.end - q.start)
  {
    e := RoundsUp(SizeOf(c, s, default), 1, 0);
  }

  /** Some CPU's share overflows, and kfifo accepted the size of every CPU before it. */
  ghost predicate TooMany(n: nat, s: seq<CpuQueueSize>, default: nat) {
    exists c :: 0 <= c < n && Overflows(c, s, default) && SizesOk(c, s, default)
  }

  /** A CPU whose size kfifo refuses before any sum overflows hides every later overflow. */
  lemma NoEarlierOverflow(cpu: nat, n: nat, s: seq<CpuQueueSize>, default: nat)
    requires cpu < n && SumTo(cpu + 1, s, default) <= 0xffff && SizeOf(cpu, s, default) < 2
    ensures !TooMany(n, s, default)
  {
    NoOverflow(cpu + 1, s, default);
  }

  lemma NoOverflow(n: nat, s: seq<CpuQueueSize>, default: nat)
    requires SumTo(n, s, default) <= 0xffff
    ensures forall c :: 0 <= c < n ==> !Overflows(c, s, default)
  {
    forall c | 0 <= c < n ensures !Overflows(c, s, default) {
      SumGrows(c + 1, n, s, default);
    }
  }

  /** With acceptable sizes, creation refuses exactly when the unbounded sum needs more than 16 bits. */
  lemma TooManyIff(n: nat, s: seq<CpuQueueSize>, default: nat)
    requires SizesOk(n, s, default)
    ensures TooMany(n, s, default) <==> SumTo(n, s, default) > 0xffff
  {
    if SumTo(n, s, default) > 0xffff {
      assert n > 0 && Overflows(n - 1, s, default);
    } else {
      NoOverflow(n, s, default);
    }
  }

  lemma NewRanges(a: Area, s: seq<CpuQueueSize>, default: nat)
    requires SizesOk(|a.cpus|, s, default) && |a.slots| == SumTo(|a.cpus|, s, default)
    requires forall c :: 0 <= c < |a.cpus| ==> a.cpus[c] == NewQueue(c, s, default)
    ensures Ranges(a)
    ensures forall c :: 0 <= c < |a.cpus| ==> Below(a.cpus[c].idle, |a.slots|)
  {
    var n := |a.cpus|;
    forall c, d | 0 <= c < d < n ensures a.cpus[c].end <= a.cpus[d].start {
      SumGrows(c + 1, d, s, default);
    }
    forall c | 0 <= c < n
      ensures a.cpus[c].start < a.cpus[c].end <= |a.slots| && a.cpus[c].end - a.cpus[c].start <= a.cpus[c].cap
    {
      SumGrows(c + 1, n, s, default);
    }
    forall x: nat | x < |a.slots| ensures Owner(a.cpus, x) < n {
      var c := Share(n, s, default, x);
      assert a.cpus[c].start <= x < a.cpus[c].end;
    }
  }

  lemma NewArea(a: Area, s: seq<CpuQueueSize>, default: nat)
    requires SizesOk(|a.cpus|, s, default) && |a.slots| == SumTo(|a.cpus|, s, default) && a.idxNum == 0
    requires |a.idxArray| == IDX_ARRAY_SIZE && forall c :: 0 <= c < |a.cpus| ==> a.cpus[c] == NewQueue(c, s, default)
    requires forall i :: 0 <= i < |a.slots| ==> a.slots[i].times == 0 && a.slots[i].state == Free
    ensures Created(a) && Widths(a.cpus, s, default) && SideBySide(a.cpus, |a.slots|)
  {
    NewRanges(a, s, default);
    NewWidths(a.cpus, s, default);
  }

  /** Where a put stands after `kfifo_get`. */
  function Found(addr: bool, pkt: KeyInfo, s: nat): Producer {
    if addr then Checking(pkt, s) else Resting
  }

  /** The area after the two steps that give one index back to its owner. */
  ghost function GivenBack(a: Area, list: seq<nat>, i: nat): (b: Area)
    requires Indexed(a) && i < |list| && Below(list, |a.slots|) && Owner(a.cpus, list[i]) < |a.cpus|
    ensures Indexed(b) && SameRanges(a, b)
  {
    ConsumerAct(ConsumerAct(a, Freeing(list, i)).0, Returning(list, i)).0
  }

  lemma FreeStep(a: Area, list: seq<nat>, i: nat)
    requires Indexed(a) && i < |list| && Below(list, |a.slots|) && Owner(a.cpus, list[i]) < |a.cpus|
    ensures ConsumerAct(a, Freeing(list, i)).1 == Returning(list, i)
  {
  }

  lemma ReturnStep(a: Area, list: seq<nat>, i: nat)
    requires Indexed(a) && ConsumerOk(a, Returning(list, i))
    ensures ConsumerAct(a, Returning(list, i)).1 == Recycling(list[i := 0], i + 1)
  {
  }

  lemma GiveBackRun(a: Area, list: seq<nat>, i: nat)
    requires Indexed(a) && i < |list| && Below(list, |a.slots|) && Owner(a.cpus, list[i]) < |a.cpus|
    ensures ConsumerOk(GivenBack(a, list, i), Recycling(list[i := 0], i + 1))
    ensures FinishConsumer(a, Freeing(list, i))
         == FinishConsumer(GivenBack(a, list, i), Recycling(list[i := 0], i + 1))
  {
    FreeStep(a, list, i);
    ConsumerGoesOn(a, Freeing(list, i));
    var b := ConsumerAct(a, Freeing(list, i)).0;
    ReturnStep(b, list, i);
    ConsumerGoesOn(b, Returning(list, i));
  }

  lemma RecyclingEnds(a: Area, list: seq<nat>)
    requires Indexed(a) && Below(list, |a.slots|)
    ensures FinishConsumer(a, Recycling(list, |list|)) == (a, Quiet(list))
  {
    ConsumerGoesOn(a, Recycling(list, |list|));
  }

  class PacketQueue {
    var qptr: array?<CpuQueue>
    var m: array?<Slot>
    var idxArray: array<nat>
    var idxNum: nat
    var queueTimes: U64
    var recycleTimes: U64
    var putFail: U32
    var getFail: U32
    var getInvalid: U32
    var recycleInvalid: U32

    constructor ()
      ensures Valid() && qptr == null
    {
      qptr, m := null, null;
      idxArray := new nat[IDX_ARRAY_SIZE](_ => 0);
      idxNum := 0;
      queueTimes, recycleTimes, putFail, getFail, getInvalid, recycleInvalid := 0, 0, 0, 0, 0, 0;
    }

    /** Every queued index names a slot. */
    ghost predicate Safe()
      reads this, qptr, m, idxArray
    {
      && idxArray.Length == IDX_ARRAY_SIZE
      && (qptr != null ==> m != null && Indexed(View()))
    }

    /** ... and the ranges of the CPUs lie side by side. */
    ghost predicate Valid()
      reads this, qptr, m, idxArray
    {
      Safe() && (qptr != null ==> Ranges(View()))
    }

    /** The state the small steps speak about. */
    ghost function View(): Area
      requires qptr != null && m != null
      reads this, qptr, m, idxArray
    {
      Area(qptr[..], m[..], idxArray[..], idxNum,
           Counts(queueTimes, recycleTimes, putFail, getFail, getInvalid, recycleInvalid))
    }

    method Exit()
      modifies this`qptr, this`m
      ensures qptr == null && m == null
    {
      qptr, m := null, null;
    }

    /** The first index past the CPU's share is `pre`; the share is put on the idle queue in order. */
    method FillIdle(start: nat, pre: nat, cap: nat) returns (idle: seq<nat>, full: bool)
      requires start <= pre <= 0xffff && pre - start <= cap
      ensures idle == Ascending(start, pre) && !full
    {
      idle, full := [], false;
      var i := start;
      while i < pre
        invariant start <= i <= pre && idle == Ascending(start, i)
      {
        if |idle| >= cap {
          full := true;
          break;
        }
        idle := idle + [i];
        i := (i + 1) % 0x1_0000;
      }
    }

    /** The slots, poisoned, then freed one by one. */
    method NewSlots(pre: nat) returns (slots: array<Slot>)
      ensures fresh(slots) && slots.Length == pre
      ensures forall i :: 0 <= i < pre ==> slots[i].times == 0 && slots[i].state == Free
    {
      slots := new Slot[pre](_ => Slot(POISON, 0xec, Used));
      for i := 0 to pre
        invariant forall j :: 0 <= j < i ==> slots[j].times == 0 && slots[j].state == Free
      {
        slots[i] := slots[i].(times := 0, state := Free);
      }
    }

    /** The per-CPU part of creation; kfifo refuses a size below 2. The indices are 16 bits wide, and a
        sum that does not fit is noticed by its wrapping around. */
    method NewQueues(ncpu: nat, s: seq<CpuQueueSize>, default: nat)
      returns (ret: int, cpus: array<CpuQueue>, pre: nat)
      requires default <= 0xffff && forall i :: 0 <= i < |s| ==> s[i].size <= 0xffff
      ensures fresh(cpus) && cpus.Length == ncpu && ret in {0, EINVAL, ENOMEM}
      ensures ret == 0 <==> SizesOk(ncpu, s, default) && SumTo(ncpu, s, default) <= 0xffff
      ensures ret == EINVAL <==> TooMany(ncpu, s, default)
      ensures ret == 0 ==>
        pre == SumTo(ncpu, s, default) && forall c :: 0 <= c < ncpu ==> cpus[c] == NewQueue(c, s, default)
    {
      cpus := new CpuQueue[ncpu](_ => CpuQueue(0, 0, 0, [], [], false));
      pre := 0;
      for cpu := 0 to ncpu
        invariant pre == SumTo(cpu, s, default) <= 0xffff && SizesOk(cpu, s, default)
        invariant forall c :: 0 <= c < cpu ==> cpus[c] == NewQueue(c, s, default)
      {
        var start := pre;
        var size := GetSize(cpu, s, default);
        SizeFits(cpu, s, default);
        pre := (pre + size) % 0x1_0000;
        if pre < size {
          assert Overflows(cpu, s, default);
          SumGrows(cpu + 1, ncpu, s, default);
          return EINVAL, cpus, pre;
        }
        if size < 2 {
          NoEarlierOverflow(cpu, ncpu, s, default);
          return ENOMEM, cpus, pre;
        }
        var cap := RoundUpPow2(size, 1);
        var idle, full := FillIdle(start, pre, cap);
        if full {
          return ENOMEM, cpus, pre;
        }
        cpus[cpu] := CpuQueue(start, pre, cap, idle, [], false);
      }
      NoOverflow(ncpu, s, default);
      ret := 0;
    }

    /** `ip_queue_create` when every allocation succeeds. */
    method Create(ncpu: nat, s: seq<CpuQueueSize>, default: nat) returns (ret: int)
      requires default <= 0xffff && forall i :: 0 <= i < |s| ==> s[i].size <= 0xffff
      requires idxArray.Length == IDX_ARRAY_SIZE
      modifies this`qptr, this`m, this`idxNum
      ensures Valid()
      ensures SizesOk(ncpu, s, default) && SumTo(ncpu, s, default) <= 0xffff <==> qptr != null
      ensures qptr != null ==>
        && ret == AREA_BYTES + SLOT_BYTES * SumTo(ncpu, s, default)
        && fresh(qptr) && fresh(m) && Created(View())
        && qptr.Length == ncpu && m.Length == SumTo(ncpu, s, default) && idxNum == 0
        && (forall c :: 0 <= c < ncpu ==> qptr[c] == NewQueue(c, s, default))
        && Widths(qptr[..], s, default) && SideBySide(qptr[..], m.Length) && ret == 260 + 76 * m.Length
        && (forall c :: 0 <= c < ncpu ==> !qptr[c].alarm)
      ensures qptr == null ==> m == null && (ret == -22 || ret == -12)
      ensures ret == -22 <==> TooMany(ncpu, s, default)
    {
      Exit();
      var cpus, pre;
      ret, cpus, pre := NewQueues(ncpu, s, default);
      if ret != 0 {
        return;
      }
      var slots := NewSlots(pre);
      qptr, m, idxNum := cpus, slots, 0;
      NewArea(View(), s, default);
      ret := AREA_BYTES + SLOT_BYTES * pre;
    }

    /** `kfifo_get` on the idle queue, a miss counted. */
    method GetIdle(cpu: nat, ghost src: KeyInfo) returns (addr: bool, s: nat)
      requires Safe() && qptr != null && cpu < qptr.Length
      modifies this`getFail, qptr
      ensures Safe() && SameRanges(old(View()), View()) && (addr ==> s < m.Length)
      ensures |qptr[cpu].idle| + (if addr then 1 else 0) == |old(qptr[cpu].idle)|
      ensures !addr ==> old(qptr[cpu].idle) == []
      ensures FinishPut(View(), cpu, Found(addr, src, s))
           == FinishPut(old(View()), cpu, Fetching(src))
    {
      ghost var a := View();
      PutGoesOn(a, cpu, Fetching(src));
      if qptr[cpu].idle == [] {
        getFail := (getFail + 1) % U32_MOD;
        s, addr := 0, false;
        MissedAfter(a, cpu);
        RestingStays(View(), cpu);
      } else {
        s, addr := qptr[cpu].idle[0], true;
        qptr[cpu] := qptr[cpu].(idle := qptr[cpu].idle[1..]);
        assert View().cpus == a.cpus[cpu := a.cpus[cpu].(idle := a.cpus[cpu].idle[1..])];
      }
    }

    /** The retry loop of `ip_queue_put`: it drops idle indices until one is not INUSE. */
    method FetchIdle(cpu: nat, ghost src: KeyInfo) returns (addr: bool, s: nat)
      requires Safe() && qptr != null && cpu < qptr.Length
      modifies this`getInvalid, this`getFail, qptr
      ensures Safe() && SameRanges(old(View()), View())
      ensures if addr then s < m.Length && !m[s].state.InUse? else qptr[cpu].idle == []
      ensures FinishPut(View(), cpu, Found(addr, src, s))
           == FinishPut(old(View()), cpu, Fetching(src))
    {
      ghost var a0 := View();
      addr, s := GetIdle(cpu, src);
      while addr && m[s].state.InUse?
        invariant Safe() && SameRanges(a0, View())
        invariant if addr then s < m.Length else qptr[cpu].idle == []
        invariant FinishPut(View(), cpu, Found(addr, src, s))
               == FinishPut(a0, cpu, Fetching(src))
        decreases addr, |qptr[cpu].idle|
      {
        addr, s := Retry(cpu, src, s);
      }
    }

    /** An INUSE index is dropped and counted, and the next one fetched. */
    method Retry(cpu: nat, ghost src: KeyInfo, s: nat) returns (addr: bool, s': nat)
      requires Safe() && qptr != null && cpu < qptr.Length && s < m.Length && m[s].state.InUse?
      modifies this`getInvalid, this`getFail, qptr
      ensures Safe() && SameRanges(old(View()), View())
      ensures if addr then s' < m.Length else qptr[cpu].idle == []
      ensures |qptr[cpu].idle| + (if addr then 1 else 0) == |old(qptr[cpu].idle)|
      ensures FinishPut(View(), cpu, Found(addr, src, s')) == FinishPut(old(View()), cpu, Checking(src, s))
    {
      CountClash(cpu, src, s);
      addr, s' := GetIdle(cpu, src);
    }

    method CountClash(cpu: nat, ghost src: KeyInfo, s: nat)
      requires Safe() && qptr != null && cpu < qptr.Length && s < m.Length && m[s].state.InUse?
      modifies this`getInvalid
      ensures View() == old(View()).(counts := View().counts)
      ensures FinishPut(View(), cpu, Fetching(src)) == FinishPut(old(View()), cpu, Checking(src, s))
    {
      ClashAfter(View(), cpu, src, s);
      getInvalid := (getInvalid + 1) % U32_MOD;
    }

    /** The slot is filled and marked. */
    method Fill(cpu: nat, s: nat, src: KeyInfo)
      requires Safe() && qptr != null && cpu < qptr.Length && s < m.Length && !m[s].state.InUse?
      modifies m
      ensures Safe() && SameRanges(old(View()), View())
      ensures FinishPut(View(), cpu, Queueing(src, s)) == FinishPut(old(View()), cpu, Checking(src, s))
    {
      ghost var a := View();
      m[s] := m[s].(info := src);
      m[s] := m[s].(times := (m[s].times + 1) % TIMES_MOD);
      m[s] := m[s].(state := InUse);
      assert View().slots == FilledArea(a, src, s).slots;
      FilledAfter(a, cpu, src, s);
    }

    /** Its index enters the ready queue, or, were that full, goes back to the idle queue. */
    method Enqueue(cpu: nat, s: nat)
      requires Safe() && qptr != null && cpu < qptr.Length && s < m.Length
      modifies this`queueTimes, qptr
      ensures Safe() && View() == Queued(old(View()), cpu, s)
    {
      ghost var a := View();
      var q := qptr[cpu];
      if |q.ready| < q.cap {
        qptr[cpu] := q.(ready := q.ready + [s]);
        queueTimes := (queueTimes + 1) % U64_MOD;
        assert View().cpus == a.cpus[cpu := q.(ready := q.ready + [s])];
      } else if |q.idle| < q.cap {
        qptr[cpu] := q.(idle := q.idle + [s]);
        assert View().cpus == a.cpus[cpu := q.(idle := q.idle + [s])];
      }
    }

    method SetAlarm(cpu: nat)
      requires Safe() && qptr != null && cpu < qptr.Length
      modifies qptr
      ensures Safe() && SameRanges(old(View()), View())
      ensures View() == FinishPut(old(View()), cpu, Alarming)
    {
      ghost var a := View();
      if qptr[cpu].alarm {
        if |qptr[cpu].ready| < qptr[cpu].cap / 2 {
          qptr[cpu] := qptr[cpu].(alarm := false);
        }
      } else {
        if |qptr[cpu].ready| > 3 * qptr[cpu].cap / 4 {
          qptr[cpu] := qptr[cpu].(alarm := true);
        }
      }
      assert View().cpus == a.cpus[cpu := a.cpus[cpu].(alarm := AlarmAfter(a.cpus[cpu]))];
      AlarmedAfter(a, cpu);
    }

    method Put(cpu: nat, src: KeyInfo)
      requires Valid() && (qptr != null ==> cpu < qptr.Length)
      modifies this`queueTimes, this`getInvalid, this`getFail, qptr, m
      ensures Valid()
      ensures qptr != null ==> View() == FinishPut(old(View()), cpu, Fetching(src))
    {
      if qptr == null {
        return;
      }
      ghost var a0 := View();
      var addr, s := FetchIdle(cpu, src);
      if addr {
        Fill(cpu, s, src);
        QueuedAfter(View(), cpu, src, s);
        Enqueue(cpu, s);
        SetAlarm(cpu);
      } else {
        RestingStays(View(), cpu);
      }
      SameRangesKeepsRanges(a0, View());
    }

    /** `kfifo_out` of one ready queue into the index array, at most `n` entries. */
    method FifoOut(cpu: nat, copied: nat, n: nat)
      requires Safe() && qptr != null && cpu < qptr.Length
      requires n <= |qptr[cpu].ready| && copied + n <= IDX_ARRAY_SIZE
      modifies qptr, idxArray
      ensures var a, ready := old(View()), old(qptr[cpu].ready);
        View() == WithCpu(a, cpu, a.cpus[cpu].(ready := ready[n..]))
                  .(idxArray := a.idxArray[..copied] + ready[..n] + a.idxArray[copied + n..])
    {
      ghost var a := View();
      var ready := qptr[cpu].ready;
      forall j | 0 <= j < n {
        idxArray[copied + j] := ready[j];
      }
      qptr[cpu] := qptr[cpu].(ready := ready[n..]);
      assert View().idxArray == a.idxArray[..copied] + ready[..n] + a.idxArray[copied + n..];
    }

    /** One turn of the loop over CPUs. The budget shrinks by all that was copied so far. */
    method MoveTurn(cpu: nat, copied: nat, num: int) returns (cpu': nat, copied': nat, num': int)
      requires Safe() && qptr != null && cpu < qptr.Length
      requires 0 < num <= IDX_ARRAY_SIZE - copied
      modifies qptr, idxArray
      ensures Safe()
      ensures (View(), Moving(cpu', copied', num')) == ConsumerAct(old(View()), Moving(cpu, copied, num))
    {
      var len := |qptr[cpu].ready|;
      if len == 0 {
        return cpu + 1, copied, num;
      }
      var n: nat := if len < num then len else num;
      FifoOut(cpu, copied, n);
      copied' := copied + n;
      num' := num - copied';
      cpu' := if num' <= 0 then qptr.Length else cpu + 1;
    }

    method Move2Dma()
      requires Valid() && qptr != null
      modifies this`idxNum, qptr, idxArray
      ensures Valid()
      ensures View() == FinishConsumer(old(View()), Moving(0, 0, IDX_ARRAY_SIZE)).0
    {
      var num: int := IDX_ARRAY_SIZE;
      var cpu: nat := 0;
      var copied: nat := 0;
      ghost var a0 := View();
      while cpu < qptr.Length
        invariant Safe() && SameRanges(a0, View())
        invariant ConsumerOk(View(), Moving(cpu, copied, num))
        invariant FinishConsumer(View(), Moving(cpu, copied, num))
               == FinishConsumer(a0, Moving(0, 0, IDX_ARRAY_SIZE))
      {
        ConsumerGoesOn(View(), Moving(cpu, copied, num));
        cpu, copied, num := MoveTurn(cpu, copied, num);
      }
      ConsumerGoesOn(View(), Moving(cpu, copied, num));
      idxNum := copied;
      SameRangesKeepsRanges(a0, View());
    }

    /** `idlist` is the caller's copy of the list, and is used up: a recycled entry is zeroed. */
    method Recycle(idlist: array<nat>, size: nat)
      requires Valid() && qptr != null && size <= idlist.Length && idlist != idxArray
      requires Below(idlist[..size], m.Length)
      modifies this`recycleInvalid, this`recycleTimes, this`putFail, qptr, m, idlist
      ensures Valid()
      ensures FinishConsumer(old(View()), Recycling(old(idlist[..size]), 0)) == (View(), Quiet(idlist[..size]))
      ensures idlist[size..] == old(idlist[size..])
    {
      ghost var end := FinishConsumer(View(), Recycling(idlist[..size], 0));
      for i := 0 to size
        invariant Valid() && Below(idlist[..size], m.Length)
        invariant idlist[size..] == old(idlist[size..])
        invariant FinishConsumer(View(), Recycling(idlist[..size], i)) == end
      {
        ghost var a1 := View();
        RecycleEntry(idlist, size, i);
        SameRangesKeepsRanges(a1, View());
      }
      RecyclingEnds(View(), idlist[..size]);
    }

    /** One turn of the outer loop: an entry that is not INUSE is only counted. */
    method RecycleEntry(idlist: array<nat>, size: nat, i: nat)
      requires Valid() && qptr != null && i < size <= idlist.Length && idlist != idxArray
      requires Below(idlist[..size], m.Length)
      modifies this`recycleInvalid, this`recycleTimes, this`putFail, qptr, m, idlist
      ensures Safe() && SameRanges(old(View()), View())
      ensures idlist[size..] == old(idlist[size..]) && Below(idlist[..size], m.Length)
      ensures FinishConsumer(View(), Recycling(idlist[..size], i + 1))
           == FinishConsumer(old(View()), Recycling(old(idlist[..size]), i))
    {
      ghost var a0, k := View(), Recycling(idlist[..size], i);
      ConsumerGoesOn(a0, k);
      if !m[idlist[i]].state.InUse? {
        recycleInvalid := (recycleInvalid + 1) % U32_MOD;
        assert View() == ConsumerAct(a0, k).0;
      } else {
        ghost var list := idlist[..size];
        GiveBackRun(a0, list, i);
        RecycleOne(idlist, size, i);
        assert idlist[..size] == list[i := 0];
      }
    }

    /** The scan over all CPUs for the owner of one entry. The entry is zeroed as soon as its owner is
        found and the scan goes on; no later CPU owns index 0. */
    method RecycleOne(idlist: array<nat>, size: nat, i: nat)
      requires Valid() && qptr != null && i < size <= idlist.Length && idlist != idxArray
      requires Below(idlist[..size], m.Length)
      modifies this`recycleTimes, this`putFail, qptr, m, idlist
      ensures Safe() && View() == GivenBack(old(View()), old(idlist[..size]), i)
      ensures idlist[..] == old(idlist[..])[i := 0]
    {
      ghost var a0, list0, o := View(), idlist[..size], Owner(View().cpus, idlist[i]);
      for cpu := 0 to qptr.Length
        invariant Safe()
        invariant cpu <= o ==> View() == a0 && idlist[..] == old(idlist[..])
        invariant cpu > o ==> View() == GivenBack(a0, list0, i) && idlist[..] == old(idlist[..])[i := 0]
      {
        if qptr[cpu].start <= idlist[i] < qptr[cpu].end {
          assert cpu == o;
          FreeInto(cpu, idlist, i, list0);
        }
      }
    }

    /** What the scan does at the owner. */
    method FreeInto(cpu: nat, idlist: array<nat>, i: nat, ghost list: seq<nat>)
      requires Safe() && qptr != null && cpu < qptr.Length && i < idlist.Length && idlist != idxArray
      requires i < |list| && list[i] == idlist[i] && Below(list, m.Length)
      requires cpu == Owner(View().cpus, idlist[i])
      modifies this`recycleTimes, this`putFail, qptr, m, idlist
      ensures Safe() && idlist[..] == old(idlist[..])[i := 0]
      ensures View() == GivenBack(old(View()), list, i)
    {
      ghost var a := View();
      var addr := idlist[i];
      m[addr] := m[addr].(state := Used);
      assert View() == ConsumerAct(a, Freeing(list, i)).0;
      PutBack(cpu, addr, i, list);
      idlist[i] := 0;
    }

    /** `kfifo_put` on the idle queue, a full queue counted. */
    method PutBack(cpu: nat, x: nat, ghost i: nat, ghost list: seq<nat>)
      requires Safe() && qptr != null && cpu < qptr.Length
      requires i < |list| && list[i] == x && Below(list, m.Length) && cpu == Owner(View().cpus, x)
      modifies this`recycleTimes, this`putFail, qptr
      ensures Safe() && View() == ConsumerAct(old(View()), Returning(list, i)).0
    {
      ghost var a := View();
      var q := qptr[cpu];
      if |q.idle| < q.cap {
        qptr[cpu] := q.(idle := q.idle + [x]);
        assert View().cpus == a.cpus[cpu := q.(idle := q.idle + [x])];
      } else {
        putFail := (putFail + 1) % U32_MOD;
      }
      recycleTimes := (recycleTimes + 1) % U64_MOD;
    }
  }
}
