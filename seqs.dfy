/** `Array.from(new Set(xs))`: the distinct elements of a sequence in order of
    first appearance. Used for the caching queue and for the order of the merged
    history records (a JavaScript `Map` keeps its keys in first-insertion order). */
module Seqs {

  predicate Distinct<T(==)>(xs: seq<T>) {
    forall i, j :: 0 <= i < j < |xs| ==> xs[i] != xs[j]
  }

  /** Index of the first occurrence of `x` in `xs`. */
  function FirstIndex<T(==)>(xs: seq<T>, x: T): (i: nat)
    requires x in xs
    ensures i < |xs| && xs[i] == x
  {
    if xs[0] == x then 0 else 1 + FirstIndex(xs[1..], x)
  }

  /** No occurrence of `x` comes before `FirstIndex(xs, x)`. */
  lemma {:induction false} FirstIndexIsFirst<T>(xs: seq<T>, x: T)
    requires x in xs
    ensures forall k :: 0 <= k < FirstIndex(xs, x) ==> xs[k] != x
  {
    if xs[0] != x {
      FirstIndexIsFirst(xs[1..], x);
    }
  }

  lemma FirstIndexOfPrefix<T>(xs: seq<T>, n: nat, x: T)
    requires n <= |xs| && x in xs[..n]
    ensures FirstIndex(xs, x) == FirstIndex(xs[..n], x)
    decreases n
  {
    if xs[0] != x {
      assert xs[1..][..n - 1] == xs[..n][1..];
      FirstIndexOfPrefix(xs[1..], n - 1, x);
    }
  }

  function Dedup<T(==)>(xs: seq<T>): (d: seq<T>)
    ensures Distinct(d)
    ensures forall k :: 0 <= k < |xs| ==> xs[k] in d
    ensures forall k :: 0 <= k < |d| ==> d[k] in xs
    ensures |d| <= |xs|
  {
    if xs == [] then []
    else
      var init := xs[..|xs| - 1];
      var x := xs[|xs| - 1];
      var d0 := Dedup(init);
      assert xs == init + [x];
      if x in d0 then d0 else d0 + [x]
  }

  /** Appending an element adds it at the end unless it was already there. */
  lemma DedupSnoc<T>(xs: seq<T>, x: T)
    ensures Dedup(xs + [x]) == if x in Dedup(xs) then Dedup(xs) else Dedup(xs) + [x]
  {
    assert (xs + [x])[..|xs|] == xs;
  }

  lemma DedupMembers<T>(xs: seq<T>, x: T)
    ensures x in Dedup(xs) <==> x in xs
  {
    if x in xs {
      var k :| 0 <= k < |xs| && xs[k] == x;
    }
  }

  /** The distinct elements come in the order of their first appearance. */
  lemma {:induction false} DedupKeepsFirstOrder<T>(xs: seq<T>)
    ensures var d := Dedup(xs);
            forall i, j :: 0 <= i < j < |d| ==> FirstIndex(xs, d[i]) < FirstIndex(xs, d[j])
    decreases |xs|
  {
    if xs != [] {
      var init := xs[..|xs| - 1];
      var x := xs[|xs| - 1];
      var d0 := Dedup(init);
      var d := Dedup(xs);
      DedupKeepsFirstOrder(init);
      SnocOfLast(xs);
      DedupSnoc(init, x);
      forall i, j | 0 <= i < j < |d| ensures FirstIndex(xs, d[i]) < FirstIndex(xs, d[j]) {
        assert d0[i] in init;
        if j < |d0| {
          assert d0[j] in init;
          SnocOrderOld(xs, d0[i], d0[j]);
        } else {
          DedupMembers(init, x);
          SnocOrderNew(xs, d0[i]);
        }
      }
    }
  }

  lemma SnocOfLast<T>(xs: seq<T>)
    requires xs != []
    ensures xs == xs[..|xs| - 1] + [xs[|xs| - 1]]
  {}

  /** Two elements of the prefix keep their first indices. */
  lemma SnocOrderOld<T>(xs: seq<T>, a: T, b: T)
    requires xs != [] && a in xs[..|xs| - 1] && b in xs[..|xs| - 1]
    ensures FirstIndex(xs, a) == FirstIndex(xs[..|xs| - 1], a)
    ensures FirstIndex(xs, b) == FirstIndex(xs[..|xs| - 1], b)
  {
    FirstIndexOfPrefix(xs, |xs| - 1, a);
    FirstIndexOfPrefix(xs, |xs| - 1, b);
  }

  /** An element first seen at the back comes after every element of the prefix. */
  lemma SnocOrderNew<T>(xs: seq<T>, a: T)
    requires xs != [] && a in xs[..|xs| - 1] && xs[|xs| - 1] !in xs[..|xs| - 1]
    ensures FirstIndex(xs, a) < FirstIndex(xs, xs[|xs| - 1])
  {
    FirstIndexOfPrefix(xs, |xs| - 1, a);
    assert FirstIndex(xs, xs[|xs| - 1]) == |xs| - 1;
  }
}
