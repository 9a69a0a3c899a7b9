/**
 Binary search trees as nfstat walks them. A probe maps an entry to the sign of "what I look for,
 compared with this entry". The kernel's rebalancing is any change of shape that keeps the in-order
 sequence, so everything here is stated on that sequence.
 */
module SearchTree {
  import opened Wrappers

  datatype Tree<T> = Leaf | Node(left: Tree<T>, val: T, right: Tree<T>)

  function InOrder<T>(t: Tree<T>): seq<T> {
    match t
    case Leaf => []
    case Node(l, x, r) => InOrder(l) + [x] + InOrder(r)
  }

  /** The node a descent ends at, if any. */
  function Search<T>(t: Tree<T>, probe: T -> int): Option<T> {
    match t
    case Leaf => None
    case Node(l, x, r) =>
      if probe(x) < 0 then Search(l, probe)
      else if probe(x) > 0 then Search(r, probe)
      else Some(x)
  }

  /** `rb_link_node` where the descent ends; None when it meets a match. */
  function Insert<T>(t: Tree<T>, probe: T -> int, y: T): Option<Tree<T>> {
    match t
    case Leaf => Some(Node(Leaf, y, Leaf))
    case Node(l, x, r) =>
      if probe(x) < 0 then
        var l' := Insert(l, probe, y);
        if l'.None? then None else Some(Node(l'.value, x, r))
      else if probe(x) > 0 then
        var r' := Insert(r, probe, y);
        if r'.None? then None else Some(Node(l, x, r'.value))
      else None
  }

  function Join<T>(l: Tree<T>, r: Tree<T>): (t: Tree<T>)
    ensures InOrder(t) == InOrder(l) + InOrder(r)
  {
    match l
    case Leaf => r
    case Node(ll, x, lr) =>
      var j := Join(lr, r);
      assert InOrder(ll) + [x] + (InOrder(lr) + InOrder(r)) == InOrder(ll) + [x] + InOrder(lr) + InOrder(r);
      Node(ll, x, j)
  }

  /** `rb_erase` of the node a descent ends at, in some shape. */
  function Erase<T>(t: Tree<T>, probe: T -> int): Tree<T> {
    match t
    case Leaf => Leaf
    case Node(l, x, r) =>
      if probe(x) < 0 then Node(Erase(l, probe), x, r)
      else if probe(x) > 0 then Node(l, x, Erase(r, probe))
      else Join(l, r)
  }

  /** The entry a descent ends at, changed in place. */
  function Replace<T>(t: Tree<T>, probe: T -> int, y: T): Tree<T> {
    match t
    case Leaf => Leaf
    case Node(l, x, r) =>
      if probe(x) < 0 then Node(Replace(l, probe, y), x, r)
      else if probe(x) > 0 then Node(l, x, Replace(r, probe, y))
      else Node(l, y, r)
  }

  // ----- Following a descent step by step

  /** The subtree reached by the turns taken so far (true is right). */
  function At<T>(t: Tree<T>, path: seq<bool>): Tree<T> {
    if path == [] || t.Leaf? then t
    else At(if path[0] then t.right else t.left, path[1..])
  }

  /** The turns agree with the probe all the way. */
  ghost predicate Follows<T>(t: Tree<T>, path: seq<bool>, probe: T -> int) {
    path == [] ||
    (t.Node? && (if path[0] then probe(t.val) > 0 else probe(t.val) < 0)
     && Follows(if path[0] then t.right else t.left, path[1..], probe))
  }

  /** `t` with the subtree at the end of the turns replaced. */
  function Graft<T>(t: Tree<T>, path: seq<bool>, sub: Tree<T>): Tree<T> {
    if path == [] then sub
    else if t.Leaf? then t
    else if path[0] then t.(right := Graft(t.right, path[1..], sub))
    else t.(left := Graft(t.left, path[1..], sub))
  }

  /** One more turn along the probe. */
  lemma {:induction false} FollowOn<T>(t: Tree<T>, path: seq<bool>, probe: T -> int, turn: bool)
    requires Follows(t, path, probe) && At(t, path).Node?
    requires if turn then probe(At(t, path).val) > 0 else probe(At(t, path).val) < 0
    ensures Follows(t, path + [turn], probe)
    ensures At(t, path + [turn]) == if turn then At(t, path).right else At(t, path).left
  {
    if path == [] {
      assert (path + [turn])[1..] == [];
    } else {
      assert (path + [turn])[1..] == path[1..] + [turn];
      FollowOn(if path[0] then t.right else t.left, path[1..], probe, turn);
    }
  }

  /** What a descent along the probe tells of the recursive operations. */
  lemma {:induction false} DescentDecides<T>(t: Tree<T>, path: seq<bool>, probe: T -> int, y: T)
    requires Follows(t, path, probe)
    ensures At(t, path).Leaf? ==>
      Search(t, probe) == None && Insert(t, probe, y) == Some(Graft(t, path, Node(Leaf, y, Leaf)))
    ensures At(t, path).Node? && probe(At(t, path).val) == 0 ==>
      && Search(t, probe) == Some(At(t, path).val) && Insert(t, probe, y) == None
      && Erase(t, probe) == Graft(t, path, Join(At(t, path).left, At(t, path).right))
      && Replace(t, probe, y) == Graft(t, path, At(t, path).(val := y))
  {
    if path != [] {
      DescentDecides(if path[0] then t.right else t.left, path[1..], probe, y);
    }
  }

  // ----- When a search may be trusted

  /** Along the sequence the probe is first positive, then negative, with at most one match between. */
  ghost predicate Separated<T>(xs: seq<T>, probe: T -> int) {
    forall i, j :: 0 <= i < j < |xs| ==> probe(xs[i]) > 0 || probe(xs[j]) < 0
  }

  /** The first match of a linear scan. */
  function Scan<T>(xs: seq<T>, probe: T -> int): Option<T> {
    if xs == [] then None
    else if probe(xs[0]) == 0 then Some(xs[0])
    else Scan(xs[1..], probe)
  }

  lemma {:induction false} ScanFinds<T>(xs: seq<T>, probe: T -> int)
    ensures Scan(xs, probe) == None <==> forall i :: 0 <= i < |xs| ==> probe(xs[i]) != 0
    ensures Scan(xs, probe).Some? ==>
      Scan(xs, probe).value in xs && probe(Scan(xs, probe).value) == 0
  {
    if xs != [] {
      ScanFinds(xs[1..], probe);
      assert forall i :: 0 < i < |xs| ==> xs[i] == xs[1..][i - 1];
    }
  }

  lemma {:induction false} ScanSplit<T>(xs: seq<T>, ys: seq<T>, probe: T -> int)
    ensures Scan(xs + ys, probe) == if Scan(xs, probe).Some? then Scan(xs, probe) else Scan(ys, probe)
  {
    if xs == [] {
      assert xs + ys == ys;
    } else {
      assert (xs + ys)[1..] == xs[1..] + ys;
      ScanSplit(xs[1..], ys, probe);
    }
  }

  lemma {:induction false} ScanMisses<T>(xs: seq<T>, probe: T -> int)
    requires forall i :: 0 <= i < |xs| ==> probe(xs[i]) != 0
    ensures Scan(xs, probe) == None
  {
    ScanFinds(xs, probe);
  }

  lemma SeparatedParts<T>(l: seq<T>, x: T, r: seq<T>, probe: T -> int)
    requires Separated(l + [x] + r, probe)
    ensures Separated(l, probe) && Separated(r, probe)
    ensures probe(x) <= 0 ==> forall i :: 0 <= i < |r| ==> probe(r[i]) < 0
    ensures probe(x) >= 0 ==> forall i :: 0 <= i < |l| ==> probe(l[i]) > 0
  {
    var xs := l + [x] + r;
    assert forall i :: 0 <= i < |l| ==> xs[i] == l[i];
    assert xs[|l|] == x;
    assert forall i :: 0 <= i < |r| ==> xs[|l| + 1 + i] == r[i];
  }

  /** A tree search on a separated sequence is a linear scan, whatever the shape of the tree. */
  lemma {:induction false} SearchIsScan<T>(t: Tree<T>, probe: T -> int)
    requires Separated(InOrder(t), probe)
    ensures Search(t, probe) == Scan(InOrder(t), probe)
  {
    if t.Node? {
      var l, r := InOrder(t.left), InOrder(t.right);
      SeparatedParts(l, t.val, r, probe);
      SearchIsScan(t.left, probe);
      SearchIsScan(t.right, probe);
      ScanSplit(l + [t.val], r, probe);
      ScanSplit(l, [t.val], probe);
      if probe(t.val) < 0 {
        ScanMisses(r, probe);
      } else {
        ScanMisses(l, probe);
      }
    }
  }

  /** The one place a match may be for every shape to find it. */
  ghost predicate Located<T>(xs: seq<T>, probe: T -> int, m: nat) {
    && m < |xs| && probe(xs[m]) == 0
    && (forall i :: 0 <= i < m ==> probe(xs[i]) > 0)
    && (forall i :: m < i < |xs| ==> probe(xs[i]) < 0)
  }

  function Spine<T>(xs: seq<T>): (t: Tree<T>)
    ensures InOrder(t) == xs
  {
    if xs == [] then Leaf else Node(Leaf, xs[0], Spine(xs[1..]))
  }

  /** A tree with entry `i` on top. */
  lemma Rooted<T>(xs: seq<T>, i: nat) returns (t: Tree<T>)
    requires i < |xs|
    ensures t == Node(Spine(xs[..i]), xs[i], Spine(xs[i + 1..])) && InOrder(t) == xs
  {
    t := Node(Spine(xs[..i]), xs[i], Spine(xs[i + 1..]));
  }

  lemma {:induction false} FoundIsThere<T>(t: Tree<T>, probe: T -> int)
    ensures Search(t, probe).Some? ==>
      Search(t, probe).value in InOrder(t) && probe(Search(t, probe).value) == 0
  {
    if t.Node? {
      FoundIsThere(t.left, probe);
      FoundIsThere(t.right, probe);
    }
  }

  /** Exactly when every shape of tree finds what a linear scan finds: nothing matches, or one entry
      does and the probe points at it from both sides. */
  lemma EveryShapeFindsIff<T(!new)>(xs: seq<T>, probe: T -> int)
    requires forall i, j :: 0 <= i < j < |xs| ==> xs[i] != xs[j]
    ensures (forall t :: InOrder(t) == xs ==> Search(t, probe) == Scan(xs, probe))
       <==> Scan(xs, probe) == None || exists m :: Located(xs, probe, m)
  {
    ScanFinds(xs, probe);
    if Scan(xs, probe) == None {
      forall t | InOrder(t) == xs ensures Search(t, probe) == None {
        FoundIsThere(t, probe);
      }
    } else if exists m :: Located(xs, probe, m) {
      forall t | InOrder(t) == xs ensures Search(t, probe) == Scan(xs, probe) {
        SearchIsScan(t, probe);
      }
    } else {
      var m :| 0 <= m < |xs| && xs[m] == Scan(xs, probe).value;
      assert !Located(xs, probe, m);
      var i :| 0 <= i < |xs| && i != m && !(if i < m then probe(xs[i]) > 0 else probe(xs[i]) < 0);
      var t := Rooted(xs, i);
      FoundIsThere(Spine(xs[..i]), probe);
      FoundIsThere(Spine(xs[i + 1..]), probe);
      assert Search(t, probe) != Some(xs[m]);
    }
  }

  // ----- In-order effect of the updates

  /** `zs` is `xs` with `y` between the entries it compares above and those it compares below. */
  ghost predicate InsertedAt<T>(xs: seq<T>, probe: T -> int, y: T, k: nat, zs: seq<T>) {
    && k <= |xs| && zs == xs[..k] + [y] + xs[k..]
    && (forall i :: 0 <= i < k ==> probe(xs[i]) > 0)
    && (forall i :: k <= i < |xs| ==> probe(xs[i]) < 0)
  }

  lemma InsertedLeft<T>(l: seq<T>, x: T, r: seq<T>, probe: T -> int, y: T, k: nat, zs: seq<T>)
    requires InsertedAt(l, probe, y, k, zs) && Separated(l + [x] + r, probe) && probe(x) < 0
    ensures InsertedAt(l + [x] + r, probe, y, k, zs + [x] + r)
  {
    SeparatedParts(l, x, r, probe);
    var xs := l + [x] + r;
    assert xs[..k] == l[..k] && xs[k..] == l[k..] + [x] + r;
    assert l[..k] + [y] + l[k..] + [x] + r == l[..k] + [y] + (l[k..] + [x] + r);
  }

  lemma InsertedRight<T>(l: seq<T>, x: T, r: seq<T>, probe: T -> int, y: T, k: nat, zs: seq<T>)
    requires InsertedAt(r, probe, y, k, zs) && Separated(l + [x] + r, probe) && probe(x) > 0
    ensures InsertedAt(l + [x] + r, probe, y, |l| + 1 + k, l + [x] + zs)
  {
    SeparatedParts(l, x, r, probe);
    var xs := l + [x] + r;
    assert xs[..|l| + 1 + k] == l + [x] + r[..k] && xs[|l| + 1 + k..] == r[k..];
    assert l + [x] + (r[..k] + [y] + r[k..]) == l + [x] + r[..k] + [y] + r[k..];
    forall i | 0 <= i < |l| + 1 + k ensures probe(xs[i]) > 0 {
      if i > |l| { assert xs[i] == r[i - |l| - 1]; }
    }
    forall i | |l| + 1 + k <= i < |xs| ensures probe(xs[i]) < 0 {
      assert xs[i] == r[i - |l| - 1];
    }
  }

  /** An insertion fails exactly on a match, and else goes where the probe points. */
  lemma {:induction false} InsertInOrder<T>(t: Tree<T>, probe: T -> int, y: T) returns (k: nat)
    requires Separated(InOrder(t), probe)
    ensures Insert(t, probe, y) == None <==> Search(t, probe).Some?
    ensures Insert(t, probe, y).Some? ==>
      InsertedAt(InOrder(t), probe, y, k, InOrder(Insert(t, probe, y).value))
  {
    k := 0;
    if t.Node? {
      var l, r := InOrder(t.left), InOrder(t.right);
      SeparatedParts(l, t.val, r, probe);
      if probe(t.val) < 0 {
        k := InsertInOrder(t.left, probe, y);
        if Insert(t, probe, y).Some? {
          InsertedLeft(l, t.val, r, probe, y, k, InOrder(Insert(t.left, probe, y).value));
        }
      } else if probe(t.val) > 0 {
        k := InsertInOrder(t.right, probe, y);
        if Insert(t, probe, y).Some? {
          InsertedRight(l, t.val, r, probe, y, k, InOrder(Insert(t.right, probe, y).value));
          k := |l| + 1 + k;
        }
      }
    }
  }

  /** `m` is the matching place, `es` the sequence without it, `rs` the sequence with `y` there. */
  ghost predicate ChangedAt<T>(xs: seq<T>, probe: T -> int, y: T, m: nat, es: seq<T>, rs: seq<T>) {
    Located(xs, probe, m) && es == xs[..m] + xs[m + 1..] && rs == xs[m := y]
  }

  lemma ChangedLeft<T>(l: seq<T>, x: T, r: seq<T>, probe: T -> int, y: T, m: nat, es: seq<T>, rs: seq<T>)
    requires ChangedAt(l, probe, y, m, es, rs) && Separated(l + [x] + r, probe) && probe(x) < 0
    ensures ChangedAt(l + [x] + r, probe, y, m, es + [x] + r, rs + [x] + r)
  {
    SeparatedParts(l, x, r, probe);
    var xs := l + [x] + r;
    assert xs[..m] == l[..m] && xs[m + 1..] == l[m + 1..] + [x] + r;
    assert l[..m] + l[m + 1..] + [x] + r == l[..m] + (l[m + 1..] + [x] + r);
    forall i | m < i < |xs| ensures probe(xs[i]) < 0 {
      if i > |l| { assert xs[i] == r[i - |l| - 1]; }
    }
  }

  lemma ChangedRight<T>(l: seq<T>, x: T, r: seq<T>, probe: T -> int, y: T, m: nat, es: seq<T>, rs: seq<T>)
    requires ChangedAt(r, probe, y, m, es, rs) && Separated(l + [x] + r, probe) && probe(x) > 0
    ensures ChangedAt(l + [x] + r, probe, y, |l| + 1 + m, l + [x] + es, l + [x] + rs)
  {
    SeparatedParts(l, x, r, probe);
    var xs := l + [x] + r;
    assert xs[..|l| + 1 + m] == l + [x] + r[..m] && xs[|l| + 1 + m + 1..] == r[m + 1..];
    assert l + [x] + (r[..m] + r[m + 1..]) == l + [x] + r[..m] + r[m + 1..];
    forall i | 0 <= i < |l| + 1 + m ensures probe(xs[i]) > 0 {
      if i > |l| { assert xs[i] == r[i - |l| - 1]; }
    }
    forall i | |l| + 1 + m < i < |xs| ensures probe(xs[i]) < 0 {
      assert xs[i] == r[i - |l| - 1];
    }
  }

  lemma ChangedHere<T>(l: seq<T>, x: T, r: seq<T>, probe: T -> int, y: T)
    requires Separated(l + [x] + r, probe) && probe(x) == 0
    ensures ChangedAt(l + [x] + r, probe, y, |l|, l + r, l + [y] + r)
    ensures (l + [x] + r)[|l|] == x
  {
    SeparatedParts(l, x, r, probe);
    var xs := l + [x] + r;
    assert xs[..|l|] == l && xs[|l| + 1..] == r && xs[|l| := y] == l + [y] + r;
    forall i | |l| < i < |xs| ensures probe(xs[i]) < 0 {
      assert xs[i] == r[i - |l| - 1];
    }
  }

  /** Erasing and replacing act on the one matching entry. */
  lemma {:induction false} MatchInOrder<T>(t: Tree<T>, probe: T -> int, y: T) returns (m: nat)
    requires Separated(InOrder(t), probe) && Search(t, probe).Some?
    ensures ChangedAt(InOrder(t), probe, y, m, InOrder(Erase(t, probe)), InOrder(Replace(t, probe, y)))
    ensures Search(t, probe) == Some(InOrder(t)[m])
  {
    var l, r := InOrder(t.left), InOrder(t.right);
    SeparatedParts(l, t.val, r, probe);
    if probe(t.val) < 0 {
      m := MatchInOrder(t.left, probe, y);
      ChangedLeft(l, t.val, r, probe, y, m, InOrder(Erase(t.left, probe)), InOrder(Replace(t.left, probe, y)));
    } else if probe(t.val) > 0 {
      m := MatchInOrder(t.right, probe, y);
      ChangedRight(l, t.val, r, probe, y, m, InOrder(Erase(t.right, probe)), InOrder(Replace(t.right, probe, y)));
      m := |l| + 1 + m;
    } else {
      m := |l|;
      ChangedHere(l, t.val, r, probe, y);
    }
  }

  // ----- Members and places after the updates

  lemma InsertedPlace<T>(xs: seq<T>, y: T, k: nat, i: nat)
    requires k <= |xs| && i <= |xs|
    ensures (xs[..k] + [y] + xs[k..])[i] == if i < k then xs[i] else if i == k then y else xs[i - 1]
  {
  }

  lemma InsertedMembers<T>(xs: seq<T>, y: T, k: nat)
    requires k <= |xs|
    ensures forall x :: x in xs[..k] + [y] + xs[k..] <==> x == y || x in xs
  {
    assert xs == xs[..k] + xs[k..];
  }

  lemma RemovedPlace<T>(xs: seq<T>, m: nat, i: nat)
    requires m < |xs| && i < |xs| - 1
    ensures (xs[..m] + xs[m + 1..])[i] == xs[if i < m then i else i + 1]
  {
  }

  lemma RemovedMembers<T>(xs: seq<T>, m: nat)
    requires m < |xs|
    requires forall i :: 0 <= i < |xs| && i != m ==> xs[i] != xs[m]
    ensures forall x :: x in xs[..m] + xs[m + 1..] <==> x in xs && x != xs[m]
  {
    assert xs == xs[..m] + [xs[m]] + xs[m + 1..];
    assert forall i :: 0 <= i < |xs[..m]| ==> xs[..m][i] == xs[i];
    assert forall i :: m < i < |xs| ==> xs[i] == xs[m + 1..][i - m - 1];
  }
}
