/**
 A counter that several CPUs increment without a lock. `x++` is a load and a store, and other stores may
 fall between the two. What happened to the counter is the sequence of its stores, each with the number of
 stores that had been made when its value was loaded. A store is overwritten if the present value does not
 descend from it.
 */
module SharedCounter {
  import opened Words

  /** No store was loaded from the future. */
  ghost predicate Sound(stores: seq<nat>) {
    forall i :: 0 <= i < |stores| ==> stores[i] <= i
  }

  /** The stores the value after the first `n` stores descends from. */
  ghost function Chain(stores: seq<nat>, n: nat): (s: set<nat>)
    requires Sound(stores) && n <= |stores|
    ensures forall i :: i in s ==> i < n
  {
    if n == 0 then {} else Chain(stores, stores[n - 1]) + {n - 1}
  }

  ghost function Overwritten(stores: seq<nat>): set<nat>
    requires Sound(stores)
  {
    set i | 0 <= i < |stores| && i !in Chain(stores, |stores|)
  }

  /** How many of the first `n` stores show in the value after them. */
  ghost function Kept(stores: seq<nat>, n: nat): nat
    requires Sound(stores) && n <= |stores|
  {
    |Chain(stores, n)|
  }

  lemma {:induction false} ChainOfMore(stores: seq<nat>, m: nat, n: nat)
    requires Sound(stores) && m <= |stores| && n <= |stores|
    ensures Sound(stores + [m]) && Chain(stores + [m], n) == Chain(stores, n)
    decreases n
  {
    if n > 0 {
      ChainOfMore(stores, m, stores[n - 1]);
    }
  }

  /** A store keeps what its load had seen, and itself. */
  lemma KeptOfMore(stores: seq<nat>, m: nat)
    requires Sound(stores) && m <= |stores|
    ensures Sound(stores + [m]) && Kept(stores + [m], |stores| + 1) == Kept(stores, m) + 1
    ensures forall n :: 0 <= n <= |stores| ==> Kept(stores + [m], n) == Kept(stores, n)
  {
    forall n | 0 <= n <= |stores| ensures Kept(stores + [m], n) == Kept(stores, n) {
      ChainOfMore(stores, m, n);
    }
    ChainOfMore(stores, m, m);
    assert (stores + [m])[|stores|] == m;
    assert Chain(stores + [m], |stores| + 1) == Chain(stores, m) + {|stores|};
  }

  function UpTo(n: nat): (s: set<nat>)
    ensures |s| == n && forall i :: i in s <==> 0 <= i < n
  {
    if n == 0 then {} else UpTo(n - 1) + {n - 1}
  }

  /** Kept and overwritten stores are all stores. */
  lemma KeptAndOverwritten(stores: seq<nat>)
    requires Sound(stores)
    ensures Kept(stores, |stores|) + |Overwritten(stores)| == |stores|
  {
    var kept := Chain(stores, |stores|);
    assert UpTo(|stores|) == kept + Overwritten(stores) && kept !! Overwritten(stores);
  }

  /** Each of the first `n` stores was made from the value the store before it left. */
  ghost predicate Undisturbed(stores: seq<nat>, n: nat)
    requires n <= |stores|
  {
    forall i :: 0 <= i < n ==> stores[i] == i
  }

  lemma Peel(s: set<nat>, n: nat)
    requires n > 0 && n - 1 !in s
    ensures s + {n - 1} == UpTo(n) <==> s == UpTo(n - 1)
  {
    if s + {n - 1} == UpTo(n) {
      assert s == UpTo(n) - {n - 1} == UpTo(n - 1);
    }
  }

  lemma LastUndisturbed(stores: seq<nat>, n: nat)
    requires 0 < n <= |stores|
    ensures Undisturbed(stores, n) <==> stores[n - 1] == n - 1 && Undisturbed(stores, n - 1)
  {
  }

  lemma Skips(stores: seq<nat>, n: nat)
    requires Sound(stores) && 0 < n <= |stores| && stores[n - 1] < n - 1
    ensures n - 2 in UpTo(n) && n - 2 !in Chain(stores, n)
  {
    assert n - 2 !in Chain(stores, stores[n - 1]);
  }

  lemma {:induction false} FullChain(stores: seq<nat>, n: nat)
    requires Sound(stores) && n <= |stores|
    ensures Chain(stores, n) == UpTo(n) <==> Undisturbed(stores, n)
    decreases n
  {
    if n > 0 {
      LastUndisturbed(stores, n);
      if stores[n - 1] == n - 1 {
        Peel(Chain(stores, n - 1), n);
        FullChain(stores, n - 1);
      } else {
        Skips(stores, n);
      }
    }
  }

  /** Nothing is overwritten exactly when no store falls between a load and its store. */
  lemma NoneOverwrittenIff(stores: seq<nat>)
    requires Sound(stores)
    ensures Overwritten(stores) == {} <==> Undisturbed(stores, |stores|)
  {
    FullChain(stores, |stores|);
    var kept := Chain(stores, |stores|);
    assert UpTo(|stores|) == kept + Overwritten(stores) && kept !! Overwritten(stores);
  }

  /** The stores from the `n`-th on were made from the value the store before left. */
  ghost predicate UndisturbedFrom(stores: seq<nat>, n: nat) {
    forall i :: n <= i < |stores| ==> stores[i] == i
  }

  lemma OneStoreMore(all: seq<nat>, stores: seq<nat>, mark: nat)
    requires stores + [mark] <= all
    ensures UndisturbedFrom(all, |stores|) <==> mark == |stores| && UndisturbedFrom(all, |stores| + 1)
  {
    assert (stores + [mark])[|stores|] == all[|stores|] == mark;
  }

  lemma FewOverwritten(stores: seq<nat>)
    requires Sound(stores) && |stores| < U64_MOD
    ensures |Overwritten(stores)| % U64_MOD == 0 <==> UndisturbedFrom(stores, 0)
  {
    NoneOverwrittenIff(stores);
    KeptAndOverwritten(stores);
    assert Overwritten(stores) == {} <==> |Overwritten(stores)| == 0;
  }

  // ----- A word of memory under such increments

  /** The word shows its start plus the stores its value descends from. */
  ghost predicate Shows(value: nat, start: nat, m: nat, stores: seq<nat>)
    requires m > 0
  {
    Sound(stores) && value == (start + Kept(stores, |stores|)) % m
  }

  /** A value loaded after `mark` stores. */
  ghost predicate Loaded(seen: nat, start: nat, m: nat, stores: seq<nat>, mark: nat)
    requires m > 0
  {
    Sound(stores) && mark <= |stores| && seen == (start + Kept(stores, mark)) % m
  }

  lemma StoreShows(seen: nat, start: nat, m: nat, stores: seq<nat>, mark: nat)
    requires (m == U32_MOD || m == U64_MOD) && Loaded(seen, start, m, stores, mark)
    ensures Shows((seen + 1) % m, start, m, stores + [mark])
  {
    KeptOfMore(stores, mark);
    OneMoreWraps(start + Kept(stores, mark), m);
  }

  lemma StaysLoaded(seen: nat, start: nat, m: nat, stores: seq<nat>, mark: nat, other: nat)
    requires m > 0 && Loaded(seen, start, m, stores, mark) && other <= |stores|
    ensures Loaded(seen, start, m, stores + [other], mark)
  {
    KeptOfMore(stores, other);
  }

  /** The word is the true count less the overwritten stores. */
  lemma ShowsTrueLessOverwritten(value: nat, start: nat, m: nat, stores: seq<nat>)
    requires m > 0 && Shows(value, start, m, stores)
    ensures value == (start + |stores| - |Overwritten(stores)|) % m
  {
    KeptAndOverwritten(stores);
  }

  /** Both loaded before either stored: the first store is overwritten. */
  lemma SecondOverwritesFirst()
    ensures Sound([0, 0]) && |Overwritten([0, 0])| == 1
  {
    var stores: seq<nat> := [0, 0];
    assert Chain(stores, 2) == Chain(stores, 0) + {1} == {1};
    assert Overwritten(stores) == {0};
  }
}
