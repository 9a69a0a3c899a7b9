/**
 The post-order walk of `nfstat/internal.h` over nodes with parent links, and its use to free a tree
 while walking it. The shape of a tree is a ghost value; `Links` lists, in post-order, what each node's
 fields hold. A freed node may hold anything and must not be read.
 */
module Postorder {
  import opened Wrappers
  import opened SearchTree

  /** A node with its fields. */
  datatype Link<T> = Link(node: T, left: Option<T>, right: Option<T>, parent: Option<T>)

  function PostOrder<T>(t: Tree<T>): seq<T> {
    match t
    case Leaf => []
    case Node(l, x, r) => PostOrder(l) + PostOrder(r) + [x]
  }

  function Top<T>(t: Tree<T>): Option<T> {
    if t.Leaf? then None else Some(t.val)
  }

  /** The links of all nodes in post-order, for a tree hanging under `parent`. */
  function Links<T>(t: Tree<T>, parent: Option<T>): seq<Link<T>> {
    match t
    case Leaf => []
    case Node(l, x, r) => Links(l, Some(x)) + Links(r, Some(x)) + [Link(x, Top(l), Top(r), parent)]
  }

  function Nodes<T>(s: seq<Link<T>>): (r: seq<T>)
    ensures |r| == |s| && forall i :: 0 <= i < |s| ==> r[i] == s[i].node
  {
    seq(|s|, i requires 0 <= i < |s| => s[i].node)
  }

  ghost predicate Apart<T>(s: seq<Link<T>>) {
    forall i, j :: 0 <= i < j < |s| ==> s[i].node != s[j].node
  }

  lemma {:induction false} LinksArePostOrder<T>(t: Tree<T>, parent: Option<T>)
    ensures Nodes(Links(t, parent)) == PostOrder(t)
    ensures t.Node? ==>
      |Links(t, parent)| > 0 && Links(t, parent)[|Links(t, parent)| - 1] == Link(t.val, Top(t.left), Top(t.right), parent)
  {
    if t.Node? {
      LinksArePostOrder(t.left, Some(t.val));
      LinksArePostOrder(t.right, Some(t.val));
      var a, b := Links(t.left, Some(t.val)), Links(t.right, Some(t.val));
      assert Nodes(a + b + [Link(t.val, Top(t.left), Top(t.right), parent)]) == Nodes(a) + Nodes(b) + [t.val];
    }
  }

  lemma ApartParts<T>(a: seq<Link<T>>, b: seq<Link<T>>, x: Link<T>)
    requires Apart(a + b + [x])
    ensures Apart(a) && Apart(b)
    ensures forall i, j :: 0 <= i < |a| && 0 <= j < |b| ==> a[i].node != b[j].node
  {
    var s := a + b + [x];
    assert forall i :: 0 <= i < |a| ==> s[i] == a[i];
    assert forall i :: 0 <= i < |b| ==> s[|a| + i] == b[i];
  }

  /** What the next node after the i-th is, in terms of links alone: its parent at place `j`, unless it is
      a left child with a right sibling; then the first node of the sibling's subtree `sub`. */
  ghost predicate IsNext<T>(s: seq<Link<T>>, i: nat, j: nat, sub: Tree<T>) {
    && i < j < |s| && s[i].parent == Some(s[j].node)
    && (s[j].left != Some(s[i].node) || s[j].right == None ==> j == i + 1)
    && (s[j].left == Some(s[i].node) && s[j].right != None ==>
          && s[j].right == Top(sub) && i + 1 + |Links(sub, s[i].parent)| <= |s|
          && s[i + 1..i + 1 + |Links(sub, s[i].parent)|] == Links(sub, s[i].parent))
  }

  lemma NextShift<T>(all: seq<Link<T>>, a: seq<Link<T>>, s: seq<Link<T>>, b: seq<Link<T>>, n: nat, i: nat, j: nat,
                     sub: Tree<T>)
    requires IsNext(s, i, j, sub) && all == a + s + b && n == |a|
    ensures IsNext(all, n + i, n + j, sub)
  {
    assert forall k :: 0 <= k < |s| ==> all[|a| + k] == s[k];
    if s[j].left == Some(s[i].node) && s[j].right != None {
      var m := |Links(sub, s[i].parent)|;
      assert all[n + i + 1..n + i + 1 + m] == s[i + 1..i + 1 + m];
    }
  }

  /** The successor of the left child's top: the right sibling's first node, or the parent. */
  lemma AfterLeftTop<T>(t: Tree<T>, parent: Option<T>, i: nat)
    requires t.Node? && i + 1 == |Links(t.left, Some(t.val))|
    ensures IsNext(Links(t, parent), i, |Links(t, parent)| - 1, t.right)
  {
    var a, b := Links(t.left, Some(t.val)), Links(t.right, Some(t.val));
    LinksArePostOrder(t.left, Some(t.val));
    LinksArePostOrder(t.right, Some(t.val));
    var s := Links(t, parent);
    assert s[i] == a[i] && s[i + 1..i + 1 + |b|] == b;
    assert t.right == Leaf ==> b == [];
  }

  /** The successor of the right child's top: the parent. */
  lemma AfterRightTop<T>(t: Tree<T>, parent: Option<T>, i: nat)
    requires t.Node? && t.right.Node? && Top(t.left) != Some(t.right.val)
    requires i + 1 == |Links(t.left, Some(t.val))| + |Links(t.right, Some(t.val))|
    ensures IsNext(Links(t, parent), i, i + 1, Leaf)
  {
    LinksArePostOrder(t.right, Some(t.val));
    var s := Links(t, parent);
    assert s[i] == Links(t.right, Some(t.val))[|Links(t.right, Some(t.val))| - 1];
  }

  lemma Grouped<T>(a: seq<T>, b: seq<T>, c: seq<T>)
    ensures [] + a + (b + c) == a + b + c
  {
  }

  lemma WithinLeft<T>(t: Tree<T>, parent: Option<T>, i: nat, j: nat, sub: Tree<T>)
    requires t.Node? && IsNext(Links(t.left, Some(t.val)), i, j, sub)
    ensures IsNext(Links(t, parent), i, j, sub)
  {
    var a, b := Links(t.left, Some(t.val)), Links(t.right, Some(t.val));
    var x := Link(t.val, Top(t.left), Top(t.right), parent);
    Grouped(a, b, [x]);
    NextShift(Links(t, parent), [], a, b + [x], 0, i, j, sub);
  }

  lemma WithinRight<T>(t: Tree<T>, parent: Option<T>, n: nat, i: nat, j: nat, sub: Tree<T>)
    requires t.Node? && n == |Links(t.left, Some(t.val))|
    requires IsNext(Links(t.right, Some(t.val)), i, j, sub)
    ensures IsNext(Links(t, parent), n + i, n + j, sub)
  {
    var a, b := Links(t.left, Some(t.val)), Links(t.right, Some(t.val));
    var x := Link(t.val, Top(t.left), Top(t.right), parent);
    NextShift(Links(t, parent), a, b, [x], n, i, j, sub);
  }

  lemma SubtreesApart<T>(t: Tree<T>, parent: Option<T>)
    requires t.Node? && Apart(Links(t, parent))
    ensures Apart(Links(t.left, Some(t.val))) && Apart(Links(t.right, Some(t.val)))
    ensures |Links(t, parent)| == |Links(t.left, Some(t.val))| + |Links(t.right, Some(t.val))| + 1
    ensures t.right.Node? ==> Top(t.left) != Some(t.right.val)
  {
    ApartParts(Links(t.left, Some(t.val)), Links(t.right, Some(t.val)),
               Link(t.val, Top(t.left), Top(t.right), parent));
    RightTopIsNotLeft(t.left, t.right, t.val);
  }

  /** Every node but the last has its successor where the code looks for it. */
  lemma {:induction false} Successor<T>(t: Tree<T>, parent: Option<T>, i: nat) returns (j: nat, sub: Tree<T>)
    requires Apart(Links(t, parent)) && i + 1 < |Links(t, parent)|
    ensures IsNext(Links(t, parent), i, j, sub)
  {
    SubtreesApart(t, parent);
    var a, b := |Links(t.left, Some(t.val))|, |Links(t.right, Some(t.val))|;
    if i + 1 < a {
      j, sub := Successor(t.left, Some(t.val), i);
      WithinLeft(t, parent, i, j, sub);
    } else if i + 1 == a {
      j, sub := |Links(t, parent)| - 1, t.right;
      AfterLeftTop(t, parent, i);
    } else if i + 1 < a + b {
      j, sub := Successor(t.right, Some(t.val), i - a);
      WithinRight(t, parent, a, i - a, j, sub);
      j := a + j;
    } else {
      j, sub := i + 1, Leaf;
      AfterRightTop(t, parent, i);
    }
  }

  lemma RightTopIsNotLeft<T>(l: Tree<T>, r: Tree<T>, x: T)
    requires forall i, j :: 0 <= i < |Links(l, Some(x))| && 0 <= j < |Links(r, Some(x))| ==>
      Links(l, Some(x))[i].node != Links(r, Some(x))[j].node
    ensures r.Node? ==> Top(l) != Some(r.val)
  {
    LinksArePostOrder(l, Some(x));
    LinksArePostOrder(r, Some(x));
    if l.Node? && r.Node? {
      assert Links(l, Some(x))[|Links(l, Some(x))| - 1].node != Links(r, Some(x))[|Links(r, Some(x))| - 1].node;
    }
  }

  lemma {:induction false} Places<T>(t: Tree<T>, x: T)
    ensures x in PostOrder(t) <==> x in InOrder(t)
    ensures |PostOrder(t)| == |InOrder(t)|
  {
    if t.Node? {
      Places(t.left, x);
      Places(t.right, x);
    }
  }

  /** `y` is `t` itself or below it. */
  ghost predicate Under<T>(t: Tree<T>, y: T) { y in InOrder(t) }

  /** Children first: every node under a node comes before it. */
  lemma {:induction false} ChildrenFirst<T>(t: Tree<T>, path: seq<bool>, y: T)
    requires At(t, path).Node? && Under(At(t, path), y) && y != At(t, path).val
    ensures exists i, j :: 0 <= i < j < |PostOrder(t)| && PostOrder(t)[i] == y && PostOrder(t)[j] == At(t, path).val
  {
    var s := PostOrder(t);
    if path == [] {
      Places(t, y);
      var i :| 0 <= i < |s| && s[i] == y;
      assert s[|s| - 1] == t.val;
    } else {
      var u := if path[0] then t.right else t.left;
      ChildrenFirst(u, path[1..], y);
      var i, j :| 0 <= i < j < |PostOrder(u)| && PostOrder(u)[i] == y && PostOrder(u)[j] == At(u, path[1..]).val;
      var k := if path[0] then |PostOrder(t.left)| else 0;
      assert s[k + i] == y && s[k + j] == At(t, path).val;
    }
  }

  /** Left before right: every node to the left of a node comes before every node to its right. */
  lemma {:induction false} LeftFirst<T>(t: Tree<T>, path: seq<bool>, x: T, y: T)
    requires At(t, path).Node? && Under(At(t, path).left, x) && Under(At(t, path).right, y)
    ensures exists i, j :: 0 <= i < j < |PostOrder(t)| && PostOrder(t)[i] == x && PostOrder(t)[j] == y
  {
    var s := PostOrder(t);
    if path == [] {
      Places(t.left, x);
      Places(t.right, y);
      var i :| 0 <= i < |PostOrder(t.left)| && PostOrder(t.left)[i] == x;
      var j :| 0 <= j < |PostOrder(t.right)| && PostOrder(t.right)[j] == y;
      assert s[i] == x && s[|PostOrder(t.left)| + j] == y;
    } else {
      var u := if path[0] then t.right else t.left;
      LeftFirst(u, path[1..], x, y);
      var i, j :| 0 <= i < j < |PostOrder(u)| && PostOrder(u)[i] == x && PostOrder(u)[j] == y;
      var k := if path[0] then |PostOrder(t.left)| else 0;
      assert s[k + i] == x && s[k + j] == y;
    }
  }

  // ----- The walk in the heap

  class RbNode {
    var left: RbNode?
    var right: RbNode?
    var parent: RbNode?
    var freed: bool

    constructor ()
      ensures left == null && right == null && parent == null && !freed
    {
      left, right, parent, freed := null, null, null, false;
    }

    /** Reading a field of a freed node is an error. */
    function Left(): RbNode?
      requires !freed
      reads this
    {
      left
    }

    function Right(): RbNode?
      requires !freed
      reads this
    {
      right
    }

    function Parent(): RbNode?
      requires !freed
      reads this
    {
      parent
    }
  }

  function Ref(o: Option<RbNode>): RbNode? {
    if o.None? then null else o.value
  }

  /** The node is alive and its fields are as listed. */
  ghost predicate Intact(s: Link<RbNode>)
    reads s.node
  {
    && !s.node.freed && s.node.left == Ref(s.left) && s.node.right == Ref(s.right)
    && s.node.parent == Ref(s.parent)
  }

  ghost predicate IntactFrom(s: seq<Link<RbNode>>, from: nat)
    reads set i | 0 <= i < |s| :: s[i].node
  {
    forall i :: from <= i < |s| ==> Intact(s[i])
  }

  /** `nfs_rb_left_most`: down to the left where possible, else to the right, to a leaf. */
  method LeftMost(node: RbNode?, ghost t: Tree<RbNode>, ghost parent: Option<RbNode>) returns (n: RbNode?)
    requires node == Ref(Top(t)) && IntactFrom(Links(t, parent), 0)
    ensures t.Leaf? ==> n == null
    ensures t.Node? ==> PostOrder(t) != [] && n == PostOrder(t)[0]
  {
    if node == null {
      return null;
    }
    n := node;
    ghost var sub, up := t, parent;
    while true
      invariant sub.Node? && n == sub.val && IntactFrom(Links(sub, up), 0)
      invariant PostOrder(sub) != [] && PostOrder(t) != [] && PostOrder(sub)[0] == PostOrder(t)[0]
      decreases sub
    {
      ghost var a, b := Links(sub.left, Some(sub.val)), Links(sub.right, Some(sub.val));
      ghost var s := Links(sub, up);
      assert s[|s| - 1] == Link(sub.val, Top(sub.left), Top(sub.right), up);
      assert forall i :: 0 <= i < |a| ==> s[i] == a[i];
      assert forall i :: 0 <= i < |b| ==> s[|a| + i] == b[i];
      if n.Left() != null {
        sub, up := sub.left, Some(sub.val);
        n := n.Left();
      } else if n.Right() != null {
        assert sub.left == Leaf;
        sub, up := sub.right, Some(sub.val);
        n := n.Right();
      } else {
        return;
      }
    }
  }

  /** `nfs_rb_next` for the i-th node, while it and all later ones are alive: it reads no earlier one. */
  method NextNode(node: RbNode, ghost t: Tree<RbNode>, ghost i: nat) returns (n: RbNode?)
    requires Apart(Links(t, None)) && i < |Links(t, None)| && node == Links(t, None)[i].node
    requires IntactFrom(Links(t, None), i)
    ensures i < |PostOrder(t)| && n == if i + 1 < |PostOrder(t)| then PostOrder(t)[i + 1] else null
  {
    ghost var s := Links(t, None);
    LinksArePostOrder(t, None);
    assert Intact(s[i]);
    ghost var j, sub := i, Leaf;
    if i + 1 < |s| {
      j, sub := Successor(t, None, i);
      assert Intact(s[j]);
    }
    var parent := node.Parent();
    if parent == null {
      return null;
    }
    if node != parent.Left() {
      return parent;
    }
    if parent.Right() == null {
      return parent;
    }
    ghost var tail := Links(sub, s[i].parent);
    assert forall k :: 0 <= k < |tail| ==> tail[k] == s[i + 1..i + 1 + |tail|][k] == s[i + 1 + k];
    LinksArePostOrder(sub, s[i].parent);
    n := LeftMost(parent.Right(), sub, s[i].parent);
  }

  /** `kfree`: afterwards the memory may hold anything. */
  method Free(x: RbNode)
    requires !x.freed
    modifies x
    ensures x.freed
  {
    x.left, x.right, x.parent := *, *, *;
    x.freed := true;
  }

  /** One turn of the safe loop: the next node is found before the current one is freed. */
  method FreeOne(cur: RbNode, ghost t: Tree<RbNode>, ghost k: nat) returns (next: RbNode?)
    requires Apart(Links(t, None)) && k < |Links(t, None)| && cur == Links(t, None)[k].node
    requires IntactFrom(Links(t, None), k)
    modifies cur
    ensures cur.freed && IntactFrom(Links(t, None), k + 1)
    ensures k < |PostOrder(t)| && next == if k + 1 < |PostOrder(t)| then PostOrder(t)[k + 1] else null
  {
    ghost var s := Links(t, None);
    assert IntactFrom(s, k) && Intact(s[k]);
    next := NextNode(cur, t, k);
    assert IntactFrom(s, k);
    Free(cur);
  }

  lemma Append<T>(s: seq<T>, k: nat)
    requires k < |s|
    ensures s[..k + 1] == s[..k] + [s[k]] && s[k] in s
  {
  }

  /** The safe loop of `clear_iptree` and `clear_nfsrule`. It visits the post-order sequence, frees every
      node once, and never reads a freed one. */
  method FreeAll(root: RbNode?, ghost t: Tree<RbNode>) returns (ghost visited: seq<RbNode>)
    requires root == Ref(Top(t)) && IntactFrom(Links(t, None), 0) && Apart(Links(t, None))
    modifies set x | x in PostOrder(t)
    ensures visited == PostOrder(t)
    ensures forall x :: x in PostOrder(t) ==> x.freed
  {
    ghost var s, all := Links(t, None), PostOrder(t);
    LinksArePostOrder(t, None);
    visited := [];
    assert IntactFrom(s, 0);
    var pos := LeftMost(root, t, None);
    assert IntactFrom(s, 0);
    while pos != null
      invariant |visited| <= |s| && visited == all[..|visited|]
      invariant pos == if |visited| < |s| then s[|visited|].node else null
      invariant IntactFrom(s, |visited|)
      invariant forall x :: x in visited ==> x.freed
      decreases |s| - |visited|
    {
      ghost var k := |visited|;
      var cur: RbNode := pos;
      Append(all, k);
      pos := FreeOne(cur, t, k);
      visited := visited + [cur];
    }
  }
}
