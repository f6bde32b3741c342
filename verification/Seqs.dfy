/** Facts about sequences that several components share: sums, counts and
    permutations. A Python `sum(... for x in xs)` is `Sum`, and a list whose
    order is not promised is compared through its multiset. */
module Seqs {

  ghost predicate Distinct<T>(s: seq<T>) {
    forall i, j :: 0 <= i < j < |s| ==> s[i] != s[j]
  }

  function Sum<T>(s: seq<T>, f: T -> int): int {
    if s == [] then 0 else f(s[0]) + Sum(s[1..], f)
  }

  function Count<T>(s: seq<T>, p: T -> bool): nat {
    if s == [] then 0 else (if p(s[0]) then 1 else 0) + Count(s[1..], p)
  }

  lemma {:induction false} SumAppend<T>(s: seq<T>, t: seq<T>, f: T -> int)
    ensures Sum(s + t, f) == Sum(s, f) + Sum(t, f)
  {
    if s == [] {
      assert s + t == t;
    } else {
      assert (s + t)[1..] == s[1..] + t;
      SumAppend(s[1..], t, f);
    }
  }

  lemma {:induction false} CountAppend<T>(s: seq<T>, t: seq<T>, p: T -> bool)
    ensures Count(s + t, p) == Count(s, p) + Count(t, p)
  {
    if s == [] {
      assert s + t == t;
    } else {
      assert (s + t)[1..] == s[1..] + t;
      CountAppend(s[1..], t, p);
    }
  }

  /** Removing one occurrence of the first element of `s` from a permutation of `s`. */
  lemma RemoveHead<T>(s: seq<T>, t: seq<T>) returns (i: nat)
    requires s != [] && multiset(s) == multiset(t)
    ensures i < |t| && t[i] == s[0]
    ensures t == t[..i] + [t[i]] + t[i + 1..]
    ensures multiset(s[1..]) == multiset(t[..i] + t[i + 1..])
  {
    assert s[0] in multiset(t);
    i :| 0 <= i < |t| && t[i] == s[0];
    assert s == [s[0]] + s[1..];
    assert t == t[..i] + [t[i]] + t[i + 1..];
    assert multiset(s) == multiset{s[0]} + multiset(s[1..]);
    assert multiset(t) == multiset(t[..i]) + multiset{t[i]} + multiset(t[i + 1..]);
    assert multiset(s[1..]) == multiset(s) - multiset{s[0]};
    assert multiset(t[..i]) + multiset(t[i + 1..]) == multiset(t) - multiset{t[i]};
    assert multiset(t[..i] + t[i + 1..]) == multiset(t[..i]) + multiset(t[i + 1..]);
  }

  lemma {:induction false} SumPermutation<T>(s: seq<T>, t: seq<T>, f: T -> int)
    requires multiset(s) == multiset(t)
    ensures Sum(s, f) == Sum(t, f)
  {
    if s == [] {
      assert |multiset(t)| == 0;
      assert t == [];
    } else {
      var i := RemoveHead(s, t);
      SumPermutation(s[1..], t[..i] + t[i + 1..], f);
      SumAppend(t[..i], t[i + 1..], f);
      SumAppend(t[..i] + [t[i]], t[i + 1..], f);
      SumAppend(t[..i], [t[i]], f);
    }
  }

  lemma {:induction false} CountPermutation<T>(s: seq<T>, t: seq<T>, p: T -> bool)
    requires multiset(s) == multiset(t)
    ensures Count(s, p) == Count(t, p)
  {
    if s == [] {
      assert |multiset(t)| == 0;
      assert t == [];
    } else {
      var i := RemoveHead(s, t);
      CountPermutation(s[1..], t[..i] + t[i + 1..], p);
      CountAppend(t[..i], t[i + 1..], p);
      CountAppend(t[..i] + [t[i]], t[i + 1..], p);
      CountAppend(t[..i], [t[i]], p);
    }
  }

  /** A list without repeats is determined, up to order, by the set of its elements. */
  lemma {:induction false} DistinctPermutation<T>(s: seq<T>, t: seq<T>)
    requires Distinct(s) && Distinct(t)
    requires (forall x :: x in s ==> x in t) && forall x :: x in t ==> x in s
    ensures multiset(s) == multiset(t) && |s| == |t|
  {
    MultisetOfDistinct(s);
    MultisetOfDistinct(t);
    forall x | x in multiset(s) ensures multiset(s)[x] == multiset(t)[x] {
      assert x in s && x in t;
    }
    forall x | x in multiset(t) ensures multiset(s)[x] == multiset(t)[x] {
      assert x in t && x in s;
    }
    assert multiset(s) == multiset(t);
    assert |multiset(s)| == |s| && |multiset(t)| == |t|;
  }

  lemma {:induction false} MultisetOfDistinct<T>(s: seq<T>)
    requires Distinct(s)
    ensures forall x :: x in s ==> multiset(s)[x] == 1
  {
    if s != [] {
      assert s == [s[0]] + s[1..];
      MultisetOfDistinct(s[1..]);
      assert multiset(s) == multiset{s[0]} + multiset(s[1..]);
      assert s[0] !in s[1..];
    }
  }

  lemma {:induction false} DistinctAppend<T>(s: seq<T>, x: T)
    requires Distinct(s) && x !in s
    ensures Distinct(s + [x])
  {
    var t := s + [x];
    forall i, j | 0 <= i < j < |t| ensures t[i] != t[j] {
      assert t[i] in s;
    }
  }

  lemma {:induction false} DistinctFront<T>(s: seq<T>)
    requires s != [] && Distinct(s)
    ensures Distinct(s[..|s| - 1]) && s == s[..|s| - 1] + [s[|s| - 1]]
  {
  }

  lemma {:induction false} CountBounds<T>(s: seq<T>, p: T -> bool)
    ensures Count(s, p) <= |s|
    ensures Count(s, p) == 0 <==> forall x :: x in s ==> !p(x)
    ensures Count(s, p) == |s| <==> forall x :: x in s ==> p(x)
  {
    if s != [] {
      assert s == [s[0]] + s[1..];
      assert forall x :: x in s <==> x == s[0] || x in s[1..];
      CountBounds(s[1..], p);
    }
  }

  lemma {:induction false} SumCongruent<S, T>(s: seq<S>, t: seq<T>, f: S -> int, g: T -> int)
    requires |s| == |t|
    requires forall i :: 0 <= i < |s| ==> f(s[i]) == g(t[i])
    ensures Sum(s, f) == Sum(t, g)
  {
    if s != [] {
      SumCongruent(s[1..], t[1..], f, g);
    }
  }

  function Filter<T>(s: seq<T>, p: T -> bool): seq<T> {
    if s == [] then [] else (if p(s[0]) then [s[0]] else []) + Filter(s[1..], p)
  }

  function Map<S, T>(s: seq<S>, f: S -> T): (r: seq<T>)
    ensures |r| == |s| && forall i :: 0 <= i < |s| ==> r[i] == f(s[i])
  {
    if s == [] then [] else [f(s[0])] + Map(s[1..], f)
  }

  lemma {:induction false} FilterAppend<T>(s: seq<T>, t: seq<T>, p: T -> bool)
    ensures Filter(s + t, p) == Filter(s, p) + Filter(t, p)
  {
    if s == [] {
      assert s + t == t;
    } else {
      var head := if p(s[0]) then [s[0]] else [];
      assert (s + t)[0] == s[0] && (s + t)[1..] == s[1..] + t;
      FilterAppend(s[1..], t, p);
      assert head + (Filter(s[1..], p) + Filter(t, p)) == (head + Filter(s[1..], p)) + Filter(t, p);
    }
  }

  lemma {:induction false} FilterMembers<T>(s: seq<T>, p: T -> bool)
    ensures forall x :: x in Filter(s, p) ==> x in s && p(x)
    ensures forall x :: x in s && p(x) ==> x in Filter(s, p)
  {
    if s != [] {
      assert s == [s[0]] + s[1..];
      FilterMembers(s[1..], p);
    }
  }

  lemma {:induction false} FilterPermutation<T>(s: seq<T>, t: seq<T>, p: T -> bool)
    requires multiset(s) == multiset(t)
    ensures multiset(Filter(s, p)) == multiset(Filter(t, p))
  {
    if s == [] {
      assert |multiset(t)| == 0;
      assert t == [];
    } else {
      var i := RemoveHead(s, t);
      FilterPermutation(s[1..], t[..i] + t[i + 1..], p);
      FilterAppend(t[..i], t[i + 1..], p);
      FilterAppend(t[..i] + [t[i]], t[i + 1..], p);
      FilterAppend(t[..i], [t[i]], p);
    }
  }

  lemma {:induction false} MapAppend<S, T>(s: seq<S>, t: seq<S>, f: S -> T)
    ensures Map(s + t, f) == Map(s, f) + Map(t, f)
  {
  }

  lemma {:induction false} MapPermutation<S, T>(s: seq<S>, t: seq<S>, f: S -> T)
    requires multiset(s) == multiset(t)
    ensures multiset(Map(s, f)) == multiset(Map(t, f))
  {
    if s == [] {
      assert |multiset(t)| == 0;
      assert t == [];
    } else {
      var i := RemoveHead(s, t);
      MapPermutation(s[1..], t[..i] + t[i + 1..], f);
      MapAppend(t[..i], t[i + 1..], f);
      MapAppend(t[..i] + [t[i]], t[i + 1..], f);
      MapAppend(t[..i], [t[i]], f);
      MapAppend([s[0]], s[1..], f);
      assert s == [s[0]] + s[1..];
      assert Map([t[i]], f) == [f(t[i])] == Map([s[0]], f);
    }
  }

  /** Everything in a list of lists, in order. */
  function Flatten<T>(ss: seq<seq<T>>): seq<T> {
    if ss == [] then [] else ss[0] + Flatten(ss[1..])
  }

  lemma {:induction false} FlattenAppend<T>(ss: seq<seq<T>>, tt: seq<seq<T>>)
    ensures Flatten(ss + tt) == Flatten(ss) + Flatten(tt)
  {
    if ss == [] {
      assert ss + tt == tt;
    } else {
      assert (ss + tt)[1..] == ss[1..] + tt;
      FlattenAppend(ss[1..], tt);
    }
  }

  lemma {:induction false} FlattenPermutation<T>(ss: seq<seq<T>>, tt: seq<seq<T>>)
    requires multiset(ss) == multiset(tt)
    ensures multiset(Flatten(ss)) == multiset(Flatten(tt))
  {
    if ss == [] {
      assert |multiset(tt)| == 0;
      assert tt == [];
    } else {
      var i := RemoveHead(ss, tt);
      FlattenPermutation(ss[1..], tt[..i] + tt[i + 1..]);
      FlattenAppend(tt[..i], tt[i + 1..]);
      FlattenAppend(tt[..i] + [tt[i]], tt[i + 1..]);
      FlattenAppend(tt[..i], [tt[i]]);
      assert Flatten([tt[i]]) == tt[i];
    }
  }

  /** Putting one more element into one of the lists. */
  lemma {:induction false} FlattenPut<T>(ss: seq<seq<T>>, k: nat, x: T)
    requires k < |ss|
    ensures multiset(Flatten(ss[k := ss[k] + [x]])) == multiset(Flatten(ss)) + multiset{x}
  {
    var tt := ss[k := ss[k] + [x]];
    assert ss == ss[..k] + [ss[k]] + ss[k + 1..];
    assert tt == ss[..k] + [ss[k] + [x]] + ss[k + 1..];
    FlattenAppend(ss[..k] + [ss[k]], ss[k + 1..]);
    FlattenAppend(ss[..k], [ss[k]]);
    FlattenAppend(ss[..k] + [ss[k] + [x]], ss[k + 1..]);
    FlattenAppend(ss[..k], [ss[k] + [x]]);
    assert Flatten([ss[k]]) == ss[k] && Flatten([ss[k] + [x]]) == ss[k] + [x];
  }

  lemma {:induction false} RepeatsCount<T>(t: seq<T>, i: nat, j: nat)
    requires i < j < |t|
    ensures t[i] == t[j] ==> multiset(t)[t[i]] >= 2
  {
    assert t == t[..i] + [t[i]] + t[i + 1..j] + [t[j]] + t[j + 1..];
  }

  lemma {:induction false} DistinctIsPermutationInvariant<T>(s: seq<T>, t: seq<T>)
    requires multiset(s) == multiset(t) && Distinct(s)
    ensures Distinct(t)
  {
    MultisetOfDistinct(s);
    forall i, j | 0 <= i < j < |t| ensures t[i] != t[j] {
      RepeatsCount(t, i, j);
    }
  }

  lemma {:induction false} FilterNone<T>(s: seq<T>, p: T -> bool)
    requires forall x :: x in s ==> !p(x)
    ensures Filter(s, p) == []
  {
    if s != [] {
      assert s[0] in s && forall x :: x in s[1..] ==> x in s;
      FilterNone(s[1..], p);
    }
  }

  lemma {:induction false} FilterAll<T>(s: seq<T>, p: T -> bool)
    requires forall x :: x in s ==> p(x)
    ensures Filter(s, p) == s
  {
    if s != [] {
      assert s[0] in s && forall x :: x in s[1..] ==> x in s;
      FilterAll(s[1..], p);
    }
  }

  lemma {:induction false} FilterSplit<T>(s: seq<T>, p: T -> bool, q: T -> bool, both: T -> bool)
    requires forall x :: x in s ==> !(p(x) && q(x)) && (both(x) <==> p(x) || q(x))
    ensures multiset(Filter(s, both)) == multiset(Filter(s, p)) + multiset(Filter(s, q))
  {
    if s != [] {
      assert s[0] in s && forall x :: x in s[1..] ==> x in s;
      FilterSplit(s[1..], p, q, both);
    }
  }

  // ---------------------------------------------------------------- counting positions

  /** The positions whose element has the property. */
  function Positions<T>(s: seq<T>, p: T -> bool): set<nat> {
    set i: nat | i < |s| && p(s[i])
  }

  lemma {:induction false} PositionsSnoc<T>(s: seq<T>, p: T -> bool)
    requires s != []
    ensures var n := |s| - 1;
            |Positions(s, p)| == |Positions(s[..n], p)| + if p(s[n]) then 1 else 0
  {
    var n := |s| - 1;
    assert Positions(s, p) == Positions(s[..n], p) + if p(s[n]) then {n} else {};
  }

  lemma {:induction false} CountIsPositions<T>(s: seq<T>, p: T -> bool)
    ensures Count(s, p) == |Positions(s, p)|
  {
    if s == [] {
      assert Positions(s, p) == {};
    } else {
      var n := |s| - 1;
      CountIsPositions(s[..n], p);
      PositionsSnoc(s, p);
      assert s == s[..n] + [s[n]];
      CountAppend(s[..n], [s[n]], p);
      assert [s[n]][1..] == [];
    }
  }

  /** The positions, list by list, of the chosen lists whose element has the property. */
  function Pairs<T>(ss: seq<seq<T>>, mine: set<nat>, p: T -> bool): set<(nat, nat)> {
    set i: nat, j: nat | i in mine && i < |ss| && j < |ss[i]| && p(ss[i][j]) :: (i, j)
  }

  function Beside(i: nat, js: set<nat>): set<(nat, nat)> {
    set j: nat | j in js :: (i, j)
  }

  lemma {:induction false} BesideSize(i: nat, js: set<nat>)
    ensures |Beside(i, js)| == |js|
  {
    if js == {} {
      assert Beside(i, js) == {};
    } else {
      var j :| j in js;
      BesideSize(i, js - {j});
      assert Beside(i, js) == Beside(i, js - {j}) + {(i, j)};
    }
  }

  lemma {:induction false} PairsSnoc<T>(ss: seq<seq<T>>, mine: set<nat>, p: T -> bool)
    requires ss != []
    ensures var n := |ss| - 1;
            |Pairs(ss, mine, p)| == |Pairs(ss[..n], mine, p)| + if n in mine then Count(ss[n], p) else 0
  {
    var n := |ss| - 1;
    var own := Beside(n, Positions(ss[n], p));
    BesideSize(n, Positions(ss[n], p));
    CountIsPositions(ss[n], p);
    var front := Pairs(ss[..n], mine, p);
    forall i: nat, j: nat ensures (i, j) in Pairs(ss, mine, p) <==> (i, j) in front || (n in mine && (i, j) in own) {
    }
    assert Pairs(ss, mine, p) == front + if n in mine then own else {};
  }

  lemma {:induction false} CountFiltered<T>(s: seq<T>, p: T -> bool, q: T -> bool, both: T -> bool)
    requires forall x :: both(x) <==> p(x) && q(x)
    ensures Count(Filter(s, p), q) == Count(s, both)
  {
    if s != [] {
      CountFiltered(s[1..], p, q, both);
      CountAppend(if p(s[0]) then [s[0]] else [], Filter(s[1..], p), q);
    }
  }
}
