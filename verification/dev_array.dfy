/**
 The device-name set of ipshark2 (`ipshark2/core/devset.c`): names and hashes in two parallel arrays,
 sorted by hash, searched by a binary search that gives up early. `jhash` is any function of the name.
 */
module DevArray {

  /** `strncmp(a, b, n) == 0` on NUL-terminated strings. */
  predicate StrnEq(a: string, b: string, n: nat) {
    (if |a| < n then a else a[..n]) == (if |b| < n then b else b[..n])
  }

  /** The answer a plain list gives. */
  predicate ListIgnores(names: seq<string>, black: bool, s: string) {
    (s in names) == black
  }

  ghost predicate Sorted(hashes: seq<nat>) {
    forall i, j :: 0 <= i < j < |hashes| ==> hashes[i] <= hashes[j]
  }

  /** Where the search for `h` between `low` and `high` ends: an index, or -1. */
  function Probe(hashes: seq<nat>, h: nat, low: int, high: int): int
    requires 0 <= low <= high < |hashes|
    decreases high - low
  {
    if h < hashes[high] && h > hashes[low] then
      var t := low + (high - low) / 2;
      if h < hashes[t] then Probe(hashes, h, low, t - 1)
      else if h > hashes[t] then Probe(hashes, h, t + 1, high)
      else t
    else if h == hashes[high] then high
    else if h == hashes[low] then low
    else -1
  }

  /** On sorted hashes the search misses nothing and finds only what is there. */
  lemma {:induction false} ProbeFinds(hashes: seq<nat>, h: nat, low: int, high: int)
    requires Sorted(hashes) && 0 <= low <= high < |hashes|
    ensures Probe(hashes, h, low, high) == -1 <==> forall i :: low <= i <= high ==> hashes[i] != h
    ensures Probe(hashes, h, low, high) != -1 ==>
      low <= Probe(hashes, h, low, high) <= high && hashes[Probe(hashes, h, low, high)] == h
    decreases high - low
  {
    if h < hashes[high] && h > hashes[low] {
      var t := low + (high - low) / 2;
      if h < hashes[t] {
        ProbeFinds(hashes, h, low, t - 1);
        NotAbove(hashes, h, t, high);
      } else if h > hashes[t] {
        ProbeFinds(hashes, h, t + 1, high);
        NotBelow(hashes, h, low, t);
      }
    } else if h > hashes[high] {
      NotBelow(hashes, h, low, high);
    } else if h < hashes[low] {
      NotAbove(hashes, h, low, high);
    }
  }

  lemma NotAbove(hashes: seq<nat>, h: nat, t: nat, high: nat)
    requires Sorted(hashes) && t <= high < |hashes| && h < hashes[t]
    ensures forall i :: t <= i <= high ==> hashes[i] != h
  {
  }

  lemma NotBelow(hashes: seq<nat>, h: nat, low: nat, t: nat)
    requires Sorted(hashes) && low <= t < |hashes| && hashes[t] < h
    ensures forall i :: low <= i <= t ==> hashes[i] != h
  {
  }

  /** What `devset_ignore` answers on given arrays. */
  function ArrayIgnores(names: seq<string>, hashes: seq<nat>, black: bool, size: nat, jhash: string -> nat,
                        s: string): bool
    requires |names| == |hashes|
  {
    if names == [] then !black
    else
      var t := Probe(hashes, jhash(s), 0, |hashes| - 1);
      if 0 <= t < |names| && StrnEq(s, names[t], size) then black else !black
  }

  /** Arrays as `__devset_order` leaves them, every name shorter than its record. */
  ghost predicate Ordered(names: seq<string>, hashes: seq<nat>, size: nat, jhash: string -> nat) {
    && |names| == |hashes| && Sorted(hashes)
    && (forall i :: 0 <= i < |names| ==> hashes[i] == jhash(names[i]) && |names[i]| < size)
  }

  ghost predicate Distinguishes(jhash: string -> nat, names: seq<string>) {
    forall a, b :: a in names && b in names && jhash(a) == jhash(b) ==> a == b
  }

  /** A name not listed is always answered right; a listed one if no other listed name shares its hash. */
  lemma AnswersRight(names: seq<string>, hashes: seq<nat>, black: bool, size: nat, jhash: string -> nat,
                     s: string)
    requires Ordered(names, hashes, size, jhash)
    requires s in names ==> forall b :: b in names && jhash(b) == jhash(s) ==> b == s
    ensures ArrayIgnores(names, hashes, black, size, jhash, s) == ListIgnores(names, black, s)
    ensures ArrayIgnores(names, hashes, black, size, jhash, s) == if s in names then black else !black
  {
    if names != [] {
      ProbeFinds(hashes, jhash(s), 0, |hashes| - 1);
      var t := Probe(hashes, jhash(s), 0, |hashes| - 1);
      if s in names {
        var i :| 0 <= i < |names| && names[i] == s;
        assert hashes[i] == jhash(s);
        assert names[t] in names && jhash(names[t]) == jhash(s);
      }
    }
  }

  /** The set agrees with the list on every name exactly when no two different listed names share a hash. */
  lemma RightOnAllIff(names: seq<string>, hashes: seq<nat>, black: bool, size: nat, jhash: string -> nat)
    requires Ordered(names, hashes, size, jhash)
    ensures (forall s :: ArrayIgnores(names, hashes, black, size, jhash, s) == ListIgnores(names, black, s))
       <==> Distinguishes(jhash, names)
  {
    if Distinguishes(jhash, names) {
      forall s ensures ArrayIgnores(names, hashes, black, size, jhash, s) == ListIgnores(names, black, s) {
        AnswersRight(names, hashes, black, size, jhash, s);
      }
    } else {
      var a, b :| a in names && b in names && jhash(a) == jhash(b) && a != b;
      var wrong := OneOfTwoIsWrong(names, hashes, black, size, jhash, a, b);
    }
  }

  /** Some listed name is always answered as listed. */
  lemma OneIsRight(names: seq<string>, hashes: seq<nat>, black: bool, size: nat, jhash: string -> nat)
    returns (right: string)
    requires Ordered(names, hashes, size, jhash) && names != []
    ensures right in names && ArrayIgnores(names, hashes, black, size, jhash, right) == black
  {
    ProbeFinds(hashes, hashes[0], 0, |hashes| - 1);
    right := names[Probe(hashes, jhash(names[0]), 0, |hashes| - 1)];
    assert jhash(right) == jhash(names[0]);
  }

  /** Of two listed names with one hash the search finds the same place, so it fails one of them. */
  lemma OneOfTwoIsWrong(names: seq<string>, hashes: seq<nat>, black: bool, size: nat, jhash: string -> nat,
                        a: string, b: string) returns (wrong: string)
    requires Ordered(names, hashes, size, jhash)
    requires a in names && b in names && jhash(a) == jhash(b) && a != b
    ensures ArrayIgnores(names, hashes, black, size, jhash, wrong) != ListIgnores(names, black, wrong)
  {
    ProbeFinds(hashes, jhash(a), 0, |hashes| - 1);
    var t := Probe(hashes, jhash(a), 0, |hashes| - 1);
    var i :| 0 <= i < |names| && names[i] == a;
    var j :| 0 <= j < |names| && names[j] == b;
    assert hashes[i] == jhash(a) && |names[i]| < size && |names[j]| < size;
    wrong := if StrnEq(a, names[t], size) then b else a;
    assert !StrnEq(wrong, names[t], size);
  }

  /** Exchanging two places keeps the bag. */
  /** The first `i` places are final. */
  ghost predicate FirstSorted(hashes: seq<nat>, i: nat) {
    forall a, b :: 0 <= a < b < |hashes| && a < i ==> hashes[a] <= hashes[b]
  }

  function Swapped<T>(s: seq<T>, i: nat, j: nat): seq<T>
    requires i < |s| && j < |s|
  {
    s[i := s[j]][j := s[i]]
  }

  /** Every hash belongs to the name beside it, and every name fits its record. */
  ghost predicate AllPaired(names: seq<string>, hashes: seq<nat>, size: nat, jhash: string -> nat) {
    |names| == |hashes| && forall k :: 0 <= k < |names| ==> hashes[k] == jhash(names[k]) && |names[k]| < size
  }

  lemma SwapSorts(hashes: seq<nat>, i: nat, small: nat)
    requires i <= small < |hashes| && FirstSorted(hashes, i)
    requires forall k :: i <= k < |hashes| ==> hashes[small] <= hashes[k]
    ensures FirstSorted(Swapped(hashes, i, small), i + 1)
  {
    var h := Swapped(hashes, i, small);
    forall a, b | 0 <= a < b < |h| && a < i + 1 ensures h[a] <= h[b] {
      assert a < i ==> hashes[a] <= hashes[if b == i then small else if b == small then i else b];
    }
  }

  lemma SwapBag<T>(s: seq<T>, i: nat, j: nat)
    requires i <= j < |s|
    ensures multiset(Swapped(s, i, j)) == multiset(s)
  {
    var x, y, m := s[i], s[j], multiset(s);
    assert x in m && y in m;
    assert multiset(s[i := y]) == m - multiset{x} + multiset{y};
    assert multiset(s[i := y][j := x]) == m - multiset{x} + multiset{y} - multiset{y} + multiset{x};
  }

  class DevSet {
    var black: bool
    var elenum: nat
    var size: nat
    var name: array?<string>
    var hash: array?<nat>
    const jhash: string -> nat

    constructor (jhash: string -> nat)
      ensures Valid() && elenum == 0 && !black && name == null && hash == null
      ensures this.jhash == jhash
    {
      black, elenum, size, name, hash := false, 0, 0, null, null;
      this.jhash := jhash;
    }

    ghost predicate Valid()
      reads this
    {
      && (elenum > 0 ==> name != null && hash != null)
      && (name != null <==> hash != null)
      && (name != null ==> name.Length == elenum && hash.Length == elenum && size > 0)
    }

    ghost predicate InOrder()
      reads this, name, hash
    {
      name != null && hash != null && Ordered(name[..], hash[..], size, jhash)
    }

    /** `__devset_create` when memory suffices. */
    method Create(black: bool, elenum: int, size: int) returns (ok: bool)
      requires Valid()
      modifies this
      ensures Valid() && ok == (elenum >= 0 && size > 0)
      ensures ok ==>
        && fresh(name) && fresh(hash) && this.black == black && this.elenum == elenum && this.size == size
        && forall i :: 0 <= i < elenum ==> name[i] == ""
      ensures !ok ==> unchanged(this)
    {
      if elenum < 0 || size <= 0 {
        return false;
      }
      name := new string[elenum](_ => "");
      hash := new nat[elenum](_ => 0);
      this.black, this.elenum, this.size := black, elenum, size;
      ok := true;
    }

    method SwapEntries(i: nat, small: nat)
      requires Valid() && name != null && i < small < elenum
      modifies name, hash
      ensures name[..] == Swapped(old(name[..]), i, small) && hash[..] == Swapped(old(hash[..]), i, small)
    {
      var tmphash, tmpname := hash[i], name[i];
      hash[i] := hash[small];
      name[i] := name[small];
      hash[small] := tmphash;
      name[small] := tmpname;
    }

    /** The first place from `i` on whose hash is least. */
    method Smallest(i: nat) returns (small: nat)
      requires Valid() && hash != null && i < elenum
      ensures i <= small < elenum && forall k :: i <= k < elenum ==> hash[small] <= hash[k]
      ensures forall k :: i <= k < small ==> hash[small] < hash[k]
    {
      small := i;
      for j := i + 1 to elenum
        invariant i <= small < j
        invariant forall k :: i <= k < j ==> hash[small] <= hash[k]
        invariant forall k :: i <= k < small ==> hash[small] < hash[k]
      {
        if hash[j] < hash[small] {
          small := j;
        }
      }
    }

    ghost predicate Paired()
      reads this, name, hash
    {
      name != null && hash != null && AllPaired(name[..], hash[..], size, jhash)
    }

    method HashAll()
      requires Valid() && name != null && forall i :: 0 <= i < elenum ==> |name[i]| < size
      modifies hash
      ensures Paired()
    {
      for i := 0 to elenum
        invariant forall k :: 0 <= k < i ==> hash[k] == jhash(name[k])
      {
        hash[i] := jhash(name[i]);
      }
    }

    /** One turn of the selection sort. */
    method Select(i: nat)
      requires Valid() && Paired() && i < elenum && FirstSorted(hash[..], i)
      modifies name, hash
      ensures Paired() && FirstSorted(hash[..], i + 1)
      ensures multiset(name[..]) == multiset(old(name[..]))
    {
      var small := Smallest(i);
      SwapSorts(hash[..], i, small);
      SwapBag(name[..], i, small);
      if small != i {
        SwapEntries(i, small);
      } else {
        assert Swapped(hash[..], i, i) == hash[..];
      }
    }

    /** `__devset_order`: hashes computed, then both arrays sorted by selection. */
    method Order()
      requires Valid() && (name != null ==> forall i :: 0 <= i < elenum ==> |name[i]| < size)
      modifies name, hash
      ensures Valid()
      ensures name != null ==> InOrder() && multiset(name[..]) == multiset(old(name[..]))
    {
      if hash == null || name == null {
        return;
      }
      HashAll();
      for i := 0 to elenum
        invariant Paired() && FirstSorted(hash[..], i)
        invariant multiset(name[..]) == multiset(old(name[..]))
      {
        Select(i);
      }
    }

    /** `devset_init`: the whole list copied in and ordered. */
    method Init(black: bool, names: seq<string>, size: int) returns (ok: bool)
      requires Valid() && forall i :: 0 <= i < |names| ==> |names[i]| < size
      modifies this
      ensures Valid() && ok == (size > 0)
      ensures ok ==>
        && this.black == black && this.size == size && InOrder()
        && multiset(name[..]) == multiset(names)
    {
      ok := Create(black, |names|, size);
      if ok {
        for i := 0 to |names|
          invariant Valid() && name != null && fresh(name) && fresh(hash) && elenum == |names|
          invariant this.size == size && this.black == black
          invariant name[..i] == names[..i]
        {
          name[i] := names[i];
        }
        assert name[..] == names;
        Order();
      }
    }

    /** The search loop of `devset_ignore`. */
    method Find(h: nat) returns (t: int)
      requires Valid() && hash != null && elenum > 0
      ensures t == Probe(hash[..], h, 0, elenum - 1)
    {
      var low, high := 0, elenum - 1;
      t := 0;
      while low <= high
        invariant 0 <= low <= high < elenum
        invariant Probe(hash[..], h, low, high) == Probe(hash[..], h, 0, elenum - 1)
        decreases high - low
      {
        if h < hash[high] && h > hash[low] {
          t := low + (high - low) / 2;
          if h < hash[t] {
            high := t - 1;
          } else if h > hash[t] {
            low := t + 1;
          } else {
            break;
          }
        } else if h == hash[high] {
          t := high;
          break;
        } else if h == hash[low] {
          t := low;
          break;
        } else {
          t := -1;
          break;
        }
      }
    }

    method Ignore(s: string) returns (r: bool)
      requires Valid() && (name != null ==> InOrder())
      ensures name == null ==> r == !black
      ensures name != null ==> r == ArrayIgnores(name[..], hash[..], black, size, jhash, s)
    {
      if elenum - 1 < 0 {
        return !black;
      }
      var h := jhash(s);
      if hash == null || name == null {
        return false;
      }
      var t := Find(h);
      ProbeFinds(hash[..], h, 0, elenum - 1);
      if t == -1 {
        return !black;
      }
      if StrnEq(s, name[t], size) {
        return black;
      }
      return !black;
    }

    method Exit()
      modifies this
      ensures Valid() && name == null && elenum == 0 && !black
    {
      name, hash, black, elenum, size := null, null, false, 0, 0;
    }
  }
}
