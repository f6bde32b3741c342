/** Python string operations that several components use. */
module Texts {

  /** `s.strip(chars)`, for the characters that `drop` tells. */
  function Strip(s: string, drop: char -> bool): string
    decreases |s|
  {
    if s == [] then s
    else if drop(s[0]) then Strip(s[1..], drop)
    else if drop(s[|s| - 1]) then Strip(s[..|s| - 1], drop)
    else s
  }

  /** What `strip` leaves has no such character at either end, and is all of a text that
      had none there. */
  lemma {:induction false} StripEnds(s: string, drop: char -> bool)
    ensures var r := Strip(s, drop);
            && |r| <= |s|
            && (r != [] ==> !drop(r[0]) && !drop(r[|r| - 1]))
            && (r == s <==> s == [] || (!drop(s[0]) && !drop(s[|s| - 1])))
            && forall c :: c in r ==> c in s
    decreases |s|
  {
    if s != [] {
      if drop(s[0]) {
        StripEnds(s[1..], drop);
        assert forall c :: c in s[1..] ==> c in s;
      } else if drop(s[|s| - 1]) {
        StripEnds(s[..|s| - 1], drop);
        assert forall c :: c in s[..|s| - 1] ==> c in s;
      }
    }
  }

  /** Such characters around a text make no difference. */
  lemma {:induction false} StripAround(before: string, s: string, after: string, drop: char -> bool)
    requires (forall c :: c in before ==> drop(c)) && (forall c :: c in after ==> drop(c))
    ensures Strip(before + s + after, drop) == Strip(s, drop)
    decreases |before| + |s| + |after|
  {
    var all := before + s + after;
    if before != [] {
      assert all[0] == before[0] && all[1..] == before[1..] + s + after;
      StripAround(before[1..], s, after, drop);
    } else if s != [] && drop(s[0]) {
      assert all[0] == s[0] && all[1..] == before + s[1..] + after;
      StripAround(before, s[1..], after, drop);
    } else if after != [] {
      StripFront(s, after, drop);
      var n := |after| - 1;
      assert all == s + after && all[..|all| - 1] == before + s + after[..n];
      StripAround(before, s, after[..n], drop);
    } else {
      assert all == s;
    }
  }

  lemma {:induction false} StripFront(s: string, after: string, drop: char -> bool)
    requires after != [] && drop(after[|after| - 1]) && (s != [] ==> !drop(s[0])) && forall c :: c in after ==> drop(c)
    ensures Strip(s + after, drop) == Strip(s + after[..|after| - 1], drop)
  {
    var all := s + after;
    assert all[|all| - 1] == after[|after| - 1] && all[..|all| - 1] == s + after[..|after| - 1];
    if s == [] {
      assert all == after;
      StripAll(after, drop);
      StripAll(after[..|after| - 1], drop);
      assert s + after[..|after| - 1] == after[..|after| - 1];
    }
  }

  lemma {:induction false} StripAll(s: string, drop: char -> bool)
    requires forall c :: c in s ==> drop(c)
    ensures Strip(s, drop) == []
  {
    if s != [] {
      StripAll(s[1..], drop);
    }
  }

  /** The text is what `strip` leaves, between two stretches of such characters. */
  lemma {:induction false} StripLeaves(s: string, drop: char -> bool) returns (before: string, after: string)
    ensures s == before + Strip(s, drop) + after
    ensures (forall c :: c in before ==> drop(c)) && (forall c :: c in after ==> drop(c))
    decreases |s|
  {
    before, after := "", "";
    if s != [] {
      if drop(s[0]) {
        before, after := StripLeaves(s[1..], drop);
        before := [s[0]] + before;
      } else if drop(s[|s| - 1]) {
        before, after := StripLeaves(s[..|s| - 1], drop);
        after := after + [s[|s| - 1]];
      }
    }
  }

  /** `s.rstrip(chars)`. */
  function StripRight(s: string, drop: char -> bool): (r: string)
    ensures r <= s && (r != "" ==> !drop(r[|r| - 1]))
    ensures r == s <==> s == "" || !drop(s[|s| - 1])
    ensures (forall c :: c in s ==> drop(c)) ==> r == ""
  {
    if s != "" && drop(s[|s| - 1]) then StripRight(s[..|s| - 1], drop) else s
  }

  /** Behind a text whose ends stay, only the right end is stripped. */
  lemma {:induction false} StripAnchored(a: string, b: string, drop: char -> bool)
    requires a != "" && !drop(a[0]) && !drop(a[|a| - 1])
    ensures Strip(a + b, drop) == a + StripRight(b, drop)
    decreases |b|
  {
    if b == "" {
      assert a + b == a;
    } else if drop(b[|b| - 1]) {
      assert (a + b)[..|a + b| - 1] == a + b[..|b| - 1];
      StripAnchored(a, b[..|b| - 1], drop);
    }
  }

  /** `s.lstrip("/")`. */
  function DropSlashes(s: string): string {
    if s != "" && s[0] == '/' then DropSlashes(s[1..]) else s
  }

  /** `s.rstrip("/")`. */
  function DropTrailing(s: string): (r: string)
    ensures r == "" || r[|r| - 1] != '/'
    ensures r <= s
  {
    if s != "" && s[|s| - 1] == '/' then DropTrailing(s[..|s| - 1]) else s
  }

  lemma {:induction false} DropTrailingAfter(a: string, b: string)
    requires a != "" && a[|a| - 1] != '/'
    ensures DropTrailing(a + b) == a + DropTrailing(b)
    decreases |b|
  {
    if b == "" {
      assert a + b == a;
    } else if b[|b| - 1] == '/' {
      assert (a + b)[..|a + b| - 1] == a + b[..|b| - 1];
      DropTrailingAfter(a, b[..|b| - 1]);
    }
  }
}
