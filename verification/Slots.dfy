/** The order in which nested `for` loops visit their combinations. */
module Slots {
  import opened Seqs

  function RowOf<A, B>(a: A, bs: seq<B>): (r: seq<(A, B)>)
    ensures |r| == |bs|
    ensures forall i :: 0 <= i < |bs| ==> r[i] == (a, bs[i])
  {
    if bs == [] then [] else RowOf(a, bs[..|bs| - 1]) + [(a, bs[|bs| - 1])]
  }

  /** Every pair, the first component varying slowest. */
  function Product<A, B>(outer: seq<A>, inner: seq<B>): seq<(A, B)> {
    if outer == [] then []
    else
      var n := |outer| - 1;
      Product(outer[..n], inner) + RowOf(outer[n], inner)
  }

  /** The combinations visited before position `j` of the inner loop of round `i`. */
  function Visited<A, B>(outer: seq<A>, inner: seq<B>, i: nat, j: nat): seq<(A, B)>
    requires i < |outer| && j <= |inner|
  {
    Product(outer[..i], inner) + RowOf(outer[i], inner[..j])
  }

  lemma {:induction false} VisitedStep<A, B>(outer: seq<A>, inner: seq<B>, i: nat, j: nat)
    requires i < |outer| && j < |inner|
    ensures Visited(outer, inner, i, j + 1) == Visited(outer, inner, i, j) + [(outer[i], inner[j])]
  {
    assert inner[..j + 1][..j] == inner[..j];
    assert RowOf(outer[i], inner[..j + 1]) == RowOf(outer[i], inner[..j]) + [(outer[i], inner[j])];
  }

  lemma {:induction false} VisitedRound<A, B>(outer: seq<A>, inner: seq<B>, i: nat)
    requires i < |outer|
    ensures Visited(outer, inner, i, 0) == Product(outer[..i], inner)
    ensures Visited(outer, inner, i, |inner|) == Product(outer[..i + 1], inner)
  {
    assert inner[..0] == [] && inner[..|inner|] == inner;
    var longer := outer[..i + 1];
    assert longer[..i] == outer[..i] && longer[i] == outer[i];
    assert Product(longer, inner) == Product(longer[..i], inner) + RowOf(longer[i], inner);
  }

  lemma {:induction false} VisitedIsPrefix<A, B>(outer: seq<A>, inner: seq<B>, i: nat, j: nat)
    requires i < |outer| && j <= |inner|
    ensures Visited(outer, inner, i, j) <= Product(outer, inner)
    decreases |outer|
  {
    var n := |outer| - 1;
    assert Product(outer, inner) == Product(outer[..n], inner) + RowOf(outer[n], inner);
    if i == n {
      assert RowOf(outer[n], inner[..j]) == RowOf(outer[n], inner)[..j];
    } else {
      VisitedIsPrefix(outer[..n], inner, i, j);
      assert outer[..n][..i] == outer[..i];
    }
  }

  lemma {:induction false} ProductMembers<A, B>(outer: seq<A>, inner: seq<B>)
    ensures forall i :: 0 <= i < |Product(outer, inner)| ==>
              Product(outer, inner)[i].0 in outer && Product(outer, inner)[i].1 in inner
  {
    if outer != [] {
      var n := |outer| - 1;
      ProductMembers(outer[..n], inner);
      assert forall a :: a in outer[..n] ==> a in outer;
    }
  }

  /** Every pair of components is visited. */
  lemma {:induction false} ProductCovers<A, B>(outer: seq<A>, inner: seq<B>, a: A, b: B)
    requires a in outer && b in inner
    ensures (a, b) in Product(outer, inner)
  {
    var n := |outer| - 1;
    assert outer == outer[..n] + [outer[n]];
    if a == outer[n] {
      var j :| 0 <= j < |inner| && inner[j] == b;
      assert RowOf(outer[n], inner)[j] == (a, b);
    } else {
      ProductCovers(outer[..n], inner, a, b);
    }
  }

  lemma {:induction false} ProductDistinct<A, B>(outer: seq<A>, inner: seq<B>)
    requires Distinct(outer) && Distinct(inner)
    ensures Distinct(Product(outer, inner))
  {
    if outer != [] {
      var n := |outer| - 1;
      ProductDistinct(outer[..n], inner);
      var p, r := Product(outer[..n], inner), RowOf(outer[n], inner);
      assert outer[n] !in outer[..n];
      ProductMembers(outer[..n], inner);
      assert forall i :: 0 <= i < |r| ==> r[i].0 == outer[n];
    }
  }

  /** What `have` lacks of `all`, in the order of `all`. */
  function Missing<T(==)>(all: seq<T>, have: seq<T>): seq<T> {
    if all == [] then []
    else
      var n := |all| - 1;
      Missing(all[..n], have) + if all[n] in have then [] else [all[n]]
  }

  lemma {:induction false} MissingAppend<T>(all: seq<T>, t: T, have: seq<T>)
    ensures Missing(all + [t], have) == Missing(all, have) + if t in have then [] else [t]
  {
    assert (all + [t])[..|all|] == all;
  }

  /** A prefix of a list without repeats lacks exactly the rest of the list. */
  lemma {:induction false} MissingIsTheRest<T>(all: seq<T>, have: seq<T>)
    requires Distinct(all) && have <= all
    ensures have + Missing(all, have) == all
    decreases |all|
  {
    if all != [] {
      var front, last := all[..|all| - 1], all[|all| - 1];
      if have == all {
        NothingMissing(all, have);
      } else {
        MissingIsTheRest(front, have);
        assert last !in have;
      }
    }
  }

  lemma {:induction false} NothingMissing<T>(all: seq<T>, have: seq<T>)
    requires forall t :: t in all ==> t in have
    ensures Missing(all, have) == []
  {
    if all != [] {
      assert all == all[..|all| - 1] + [all[|all| - 1]];
      NothingMissing(all[..|all| - 1], have);
    }
  }

  /** Where round `i` starts when every round has `n` steps. */
  function Start(i: nat, n: nat): nat {
    if i == 0 then 0 else Start(i - 1, n) + n
  }

  lemma {:induction false} StartIsProduct(i: nat, n: nat)
    ensures Start(i, n) == i * n
  {
    if i > 0 {
      StartIsProduct(i - 1, n);
      assert i * n == (i - 1) * n + n;
    }
  }

  lemma {:induction false} StartMonotone(i: nat, k: nat, n: nat)
    requires i <= k
    ensures Start(i, n) <= Start(k, n)
    decreases k
  {
    if i < k {
      StartMonotone(i, k - 1, n);
    }
  }

  lemma {:induction false} ProductLength<A, B>(outer: seq<A>, inner: seq<B>)
    ensures |Product(outer, inner)| == Start(|outer|, |inner|)
  {
    if outer != [] {
      ProductLength(outer[..|outer| - 1], inner);
    }
  }

  lemma {:induction false} SlotAt<A, B>(outer: seq<A>, inner: seq<B>, i: nat, j: nat)
    requires i < |outer| && j < |inner|
    ensures Start(i, |inner|) + j < |Product(outer, inner)|
    ensures Product(outer, inner)[Start(i, |inner|) + j] == (outer[i], inner[j])
  {
    VisitedStep(outer, inner, i, j);
    VisitedIsPrefix(outer, inner, i, j + 1);
    ProductLength(outer[..i], inner);
    var longer := Visited(outer, inner, i, j + 1);
    assert longer[Start(i, |inner|) + j] == (outer[i], inner[j]);
    assert longer == Product(outer, inner)[..|longer|];
  }

  lemma {:induction false} VisitedLength<A, B>(outer: seq<A>, inner: seq<B>, i: nat, j: nat)
    requires i < |outer| && j <= |inner|
    ensures |Visited(outer, inner, i, j)| == Start(i, |inner|) + j
  {
    ProductLength(outer[..i], inner);
  }

  /** Where in its round of `n` steps the step number `k` comes. */
  function InRound(k: nat, n: nat): (p: nat)
    requires n > 0
    ensures p < n
  {
    if k < n then k else InRound(k - n, n)
  }

  lemma {:induction false} InRoundOf(i: nat, j: nat, n: nat)
    requires j < n
    ensures InRound(Start(i, n) + j, n) == j
  {
    if i > 0 {
      InRoundOf(i - 1, j, n);
    }
  }

  lemma {:induction false} InRoundOfVisited<A, B>(outer: seq<A>, inner: seq<B>, i: nat, j: nat)
    requires i < |outer| && j < |inner|
    ensures InRound(|Visited(outer, inner, i, j)|, |inner|) == j
  {
    VisitedLength(outer, inner, i, j);
    InRoundOf(i, j, |inner|);
  }
}
