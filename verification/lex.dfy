/** `memcmp` on equally long byte strings, as the sign of its result. */
module Lex {

  function Cmp(a: seq<int>, b: seq<int>): int
    requires |a| == |b|
  {
    if a == [] then 0
    else if a[0] < b[0] then -1
    else if a[0] > b[0] then 1
    else Cmp(a[1..], b[1..])
  }

  lemma {:induction false} CmpBasics(a: seq<int>, b: seq<int>)
    requires |a| == |b|
    ensures Cmp(a, b) == -Cmp(b, a)
    ensures Cmp(a, b) == 0 <==> a == b
  {
    if a != [] {
      CmpBasics(a[1..], b[1..]);
      assert a == [a[0]] + a[1..] && b == [b[0]] + b[1..];
    }
  }

  lemma {:induction false} CmpTransitive(a: seq<int>, b: seq<int>, c: seq<int>)
    requires |a| == |b| == |c|
    requires Cmp(a, b) <= 0 && Cmp(b, c) <= 0
    ensures Cmp(a, c) <= 0
    ensures Cmp(a, b) < 0 || Cmp(b, c) < 0 ==> Cmp(a, c) < 0
  {
    if a != [] && a[0] == b[0] == c[0] {
      CmpTransitive(a[1..], b[1..], c[1..]);
    }
  }

  lemma {:induction false} CmpConcat(a: seq<int>, a': seq<int>, b: seq<int>, b': seq<int>)
    requires |a| == |b| && |a'| == |b'|
    ensures Cmp(a + a', b + b') == if Cmp(a, b) != 0 then Cmp(a, b) else Cmp(a', b')
  {
    if a == [] {
      assert a + a' == a' && b + b' == b';
    } else {
      assert (a + a')[1..] == a[1..] + a' && (b + b')[1..] == b[1..] + b';
      CmpConcat(a[1..], a', b[1..], b');
    }
  }

  /** The first place that differs decides. */
  lemma {:induction false} FirstDecides(a: seq<int>, b: seq<int>, k: nat)
    requires |a| == |b| && k < |a| && (forall i :: 0 <= i < k ==> a[i] == b[i]) && a[k] != b[k]
    ensures Cmp(a, b) == if a[k] < b[k] then -1 else 1
  {
    if k > 0 {
      FirstDecides(a[1..], b[1..], k - 1);
    }
  }
}
