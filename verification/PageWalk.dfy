/** The page walk of `pr_reviewer/forge.py` (`_walk_pages`, `get_pages`,
    `get_pages_report`), against any server and against one that slices a list. */
module PageWalk {
  import opened Options
  import opened Slots

  /** What a request for one page comes back with. */
  datatype Page<T> = NotAList | List(items: seq<T>)

  type Server<!T> = nat -> Page<T>

  /** The only natural end of a walk: an empty page, or something that is not a page. */
  predicate Ends<T>(p: Page<T>) {
    p.NotAList? || p.items == []
  }

  function ItemsOf<T>(p: Page<T>): seq<T> {
    if p.List? then p.items else []
  }

  /** The items of pages 1 to n. */
  function FirstPages<T>(server: Server<T>, n: nat): seq<T> {
    if n == 0 then [] else FirstPages(server, n - 1) + ItemsOf(server(n))
  }

  /** The walk yielded pages 1 to n, and none of them ended it. */
  ghost predicate Read<T>(server: Server<T>, n: nat) {
    forall p :: 1 <= p <= n ==> !Ends(server(p))
  }

  /** Page `horizon` ends the walk of a server. */
  ghost predicate EndsBy<T>(server: Server<T>, horizon: nat) {
    horizon >= 1 && Ends(server(horizon))
  }

  /** How a walk under a bound came out after reading `n` pages. */
  ghost predicate CameOut<T>(server: Server<T>, bound: Option<int>, n: nat, truncated: bool) {
    && Read(server, n)
    && (truncated <==> bound.Some? && n >= 1 && n == bound.value)
    && (bound.Some? ==> n <= if bound.value <= 0 then 0 else bound.value)
    && (!truncated && (bound.None? || bound.value > 0) ==> Ends(server(n + 1)))
  }

  /** `get_pages_report`: every item, and whether the bound cut the walk. An unbounded walk
      needs a server that ends; `horizon` says where. */
  method GetPagesReport<T>(server: Server<T>, bound: Option<int>, ghost horizon: nat)
    returns (items: seq<T>, truncated: bool)
    requires bound.None? ==> EndsBy(server, horizon)
    ensures exists n: nat :: items == FirstPages(server, n) && CameOut(server, bound, n, truncated)
  {
    items, truncated := [], false;
    ghost var n: nat := 0;
    if bound.Some? && bound.value <= 0 {
      assert items == FirstPages(server, 0) && CameOut(server, bound, 0, truncated);
      return;
    }
    var page := 1;
    while true
      invariant page == n + 1 && items == FirstPages(server, n) && Read(server, n) && !truncated
      invariant bound.Some? ==> page <= bound.value
      invariant bound.None? ==> page <= horizon
      decreases (if bound.Some? then bound.value else horizon) - page
    {
      var data := server(page);
      if data.NotAList? || data.items == [] {
        assert CameOut(server, bound, n, truncated);
        return;
      }
      truncated := bound.Some? && page >= bound.value;
      items := items + data.items;
      n := page;
      if truncated {
        assert CameOut(server, bound, n, truncated);
        return;
      }
      assert bound.None? ==> page != horizon;
      page := page + 1;
    }
  }

  // ---------------------------------------------------------------- a server that slices a list

  function Min(a: nat, b: nat): nat {
    if a <= b then a else b
  }

  /** Page p of a list, `size` items a page. */
  function SliceOf<T>(list: seq<T>, size: nat, p: nat): Page<T> {
    if p == 0 then List([]) else List(list[Min(Start(p - 1, size), |list|)..Min(Start(p, size), |list|)])
  }

  function Slicing<T>(list: seq<T>, size: nat): Server<T> {
    (p: nat) => SliceOf(list, size, p)
  }

  lemma {:induction false} FirstPagesOfSlices<T>(list: seq<T>, size: nat, n: nat)
    ensures FirstPages(Slicing(list, size), n) == list[..Min(Start(n, size), |list|)]
  {
    if n > 0 {
      FirstPagesOfSlices(list, size, n - 1);
      var a, b := Min(Start(n - 1, size), |list|), Min(Start(n, size), |list|);
      assert list[..b] == list[..a] + list[a..b];
    }
  }

  lemma {:induction false} StartGrows(n: nat, size: nat)
    requires size >= 1
    ensures Start(n, size) >= n
  {
    if n > 0 {
      StartGrows(n - 1, size);
    }
  }

  /** A slicing server ends. */
  lemma {:induction false} SlicingEnds<T>(list: seq<T>, size: nat)
    requires size >= 1
    ensures EndsBy(Slicing(list, size), |list| + 1)
  {
    StartGrows(|list|, size);
  }

  lemma {:induction false} PageIsEmpty<T>(list: seq<T>, size: nat, p: nat)
    requires size >= 1 && p >= 1
    ensures Ends(Slicing(list, size)(p)) <==> Start(p - 1, size) >= |list|
  {
  }

  /** Unbounded, the walk reconstructs the list, whatever page size the server uses. */
  lemma {:induction false} UnboundedIsComplete<T>(list: seq<T>, size: nat, n: nat, truncated: bool)
    requires size >= 1 && CameOut(Slicing(list, size), None, n, truncated)
    ensures FirstPages(Slicing(list, size), n) == list && !truncated
  {
    PageIsEmpty(list, size, n + 1);
    FirstPagesOfSlices(list, size, n);
    assert list[..|list|] == list;
  }

  /** The unbounded walk of such a server ends and reads the whole list. */
  method ReadAll<T>(list: seq<T>, size: nat) returns (items: seq<T>, truncated: bool)
    requires size >= 1
    ensures items == list && !truncated
  {
    SlicingEnds(list, size);
    items, truncated := GetPagesReport(Slicing(list, size), None, |list| + 1);
    ghost var n: nat :| items == FirstPages(Slicing(list, size), n) && CameOut(Slicing(list, size), None, n, truncated);
    UnboundedIsComplete(list, size, n, truncated);
  }

  /** Under a bound of m pages it is the first m times k items; it reports truncation exactly
      when page m is not empty, and then only can something be missing. */
  lemma {:induction false} BoundedIsPrefix<T>(list: seq<T>, size: nat, m: nat, n: nat, truncated: bool)
    requires size >= 1 && m >= 1 && CameOut(Slicing(list, size), Some(m), n, truncated)
    ensures FirstPages(Slicing(list, size), n) == list[..Min(m * size, |list|)]
    ensures truncated <==> !Ends(Slicing(list, size)(m))
    ensures truncated <==> (m - 1) * size < |list|
    ensures !truncated ==> FirstPages(Slicing(list, size), n) == list
  {
    FirstPagesOfSlices(list, size, n);
    StartIsProduct(m, size);
    StartIsProduct(m - 1, size);
    PageIsEmpty(list, size, m);
    if !truncated {
      PageIsEmpty(list, size, n + 1);
      StartMonotone(n, m - 1, size);
      assert list[..|list|] == list;
    } else {
      assert !Ends(Slicing(list, size)(n));
    }
  }

  /** A bound of zero or less reads nothing and reports nothing missing, even when the list
      is not empty: the report is only meaningful for a positive bound. */
  lemma {:induction false} ZeroBoundHidesEverything<T>(list: seq<T>, size: nat, bound: int, n: nat, truncated: bool)
    requires size >= 1 && bound <= 0 && CameOut(Slicing(list, size), Some(bound), n, truncated)
    ensures FirstPages(Slicing(list, size), n) == [] && !truncated
    ensures FirstPages(Slicing(list, size), n) == list <==> list == []
  {
  }
}
