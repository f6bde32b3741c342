/** `scripts/eval_adjudicate.py`: `pack` hides which arm made a finding, shuffles the
    findings and deals them into packets; `score` puts the verdicts back together. */
module Adjudication {
  import opened Seqs
  import opened Numerals
  import opened RunKeys

  datatype Item = Item(fid: string, finding: Finding)
  datatype Tag = Tag(item: Item, key: Key)
  datatype Group = Group(pr: string, items: seq<Item>)

  /** The truncated digest, as an arbitrary function. */
  type Hash = string -> string

  function RawText(key: Key, i: nat): string {
    key.pr + "|" + key.arm + "|" + key.rep + "|" + Digits(i)
  }

  /** The first `n` findings of a run, each with its id and the key it hides. */
  function TagsOf(hash: Hash, run: Run, n: nat): (tags: seq<Tag>)
    requires n <= |run.findings|
    ensures |tags| == n
    ensures forall i :: 0 <= i < n ==> tags[i] == Tag(Item(hash(RawText(run.key, i)), run.findings[i]), run.key)
  {
    if n == 0 then []
    else TagsOf(hash, run, n - 1) + [Tag(Item(hash(RawText(run.key, n - 1)), run.findings[n - 1]), run.key)]
  }

  function AllTagsOf(hash: Hash, run: Run): seq<Tag> {
    TagsOf(hash, run, |run.findings|)
  }

  function Tagged(hash: Hash, runs: seq<Run>): seq<Tag> {
    if runs == [] then [] else Tagged(hash, runs[..|runs| - 1]) + AllTagsOf(hash, runs[|runs| - 1])
  }

  function ItemOf(t: Tag): Item { t.item }

  function FidOf(i: Item): string { i.fid }

  function ItemsOf(g: Group): seq<Item> { g.items }

  function AboutPr(pr: string): Tag -> bool { (t: Tag) => t.key.pr == pr }

  function AboutAny(prs: seq<string>): Tag -> bool { (t: Tag) => t.key.pr in prs }

  function HiddenBehind(key: Key): Tag -> bool { (t: Tag) => t.key == key }

  function Items(tags: seq<Tag>): seq<Item> {
    Map(tags, ItemOf)
  }

  function Fids(items: seq<Item>): seq<string> {
    Map(items, FidOf)
  }

  function ItemsFor(tags: seq<Tag>, pr: string): seq<Item> {
    Items(Filter(tags, AboutPr(pr)))
  }

  function UnblindOf(tags: seq<Tag>): map<string, Key> {
    if tags == [] then map[]
    else UnblindOf(tags[..|tags| - 1])[tags[|tags| - 1].item.fid := tags[|tags| - 1].key]
  }

  lemma {:induction false} UnblindKnows(tags: seq<Tag>)
    ensures forall fid :: fid in UnblindOf(tags) <==> fid in Fids(Items(tags))
  {
    if tags != [] {
      UnblindKnows(tags[..|tags| - 1]);
      FidsSplit(tags);
    }
  }

  lemma {:induction false} FidsSplit(tags: seq<Tag>)
    requires tags != []
    ensures Fids(Items(tags)) == Fids(Items(tags[..|tags| - 1])) + [tags[|tags| - 1].item.fid]
  {
  }

  lemma {:induction false} UnblindReveals(tags: seq<Tag>, i: nat)
    requires Distinct(Fids(Items(tags))) && i < |tags|
    ensures tags[i].item.fid in UnblindOf(tags) && UnblindOf(tags)[tags[i].item.fid] == tags[i].key
  {
    var n := |tags| - 1;
    if i < n {
      FidsSplit(tags);
      DistinctFront(Fids(Items(tags)));
      UnblindReveals(tags[..n], i);
      FidsDiffer(tags, i, n);
    }
  }

  lemma {:induction false} FidsDiffer(tags: seq<Tag>, i: nat, j: nat)
    requires Distinct(Fids(Items(tags))) && i < j < |tags|
    ensures tags[i].item.fid != tags[j].item.fid
  {
    assert Fids(Items(tags))[i] != Fids(Items(tags))[j];
  }

  // ---------------------------------------------------------------- which findings share an id

  /** Where finding `j` of run `i` stands among the tags. */
  ghost function Place(hash: Hash, runs: seq<Run>, i: nat, j: nat): nat
    requires i < |runs|
  {
    |Tagged(hash, runs[..i])| + j
  }

  lemma {:induction false} PlaceHolds(hash: Hash, runs: seq<Run>, i: nat, j: nat)
    requires i < |runs| && j < |runs[i].findings|
    ensures Place(hash, runs, i, j) < |Tagged(hash, runs[..i + 1])| <= |Tagged(hash, runs)|
    ensures Tagged(hash, runs)[Place(hash, runs, i, j)] == TagAt(hash, runs[i], j)
    decreases |runs|
  {
    var n := |runs| - 1;
    if i < n {
      assert runs[..n][..i] == runs[..i] && runs[..n][..i + 1] == runs[..i + 1] && runs[..n][i] == runs[i];
      PlaceHolds(hash, runs[..n], i, j);
    } else {
      assert runs[..n + 1] == runs;
      assert AllTagsOf(hash, runs[n])[j] == TagAt(hash, runs[n], j);
    }
  }

  lemma {:induction false} PlaceOf(hash: Hash, runs: seq<Run>, k: nat) returns (i: nat, j: nat)
    requires k < |Tagged(hash, runs)|
    ensures i < |runs| && j < |runs[i].findings| && Place(hash, runs, i, j) == k
  {
    var n := |runs| - 1;
    if k < |Tagged(hash, runs[..n])| {
      i, j := PlaceOf(hash, runs[..n], k);
      assert runs[..n][..i] == runs[..i];
    } else {
      i, j := n, k - |Tagged(hash, runs[..n])|;
    }
  }

  lemma {:induction false} TaggedGrows(hash: Hash, runs: seq<Run>, i: nat, j: nat)
    requires i <= j <= |runs|
    ensures |Tagged(hash, runs[..i])| <= |Tagged(hash, runs[..j])|
    decreases j
  {
    if i < j {
      assert runs[..j][..j - 1] == runs[..j - 1];
      TaggedGrows(hash, runs, i, j - 1);
    }
  }

  lemma {:induction false} PlacesDiffer(hash: Hash, runs: seq<Run>, i: nat, j: nat, x: nat, y: nat)
    requires i < |runs| && j < |runs[i].findings| && x < |runs| && y < |runs[x].findings|
    requires (i, j) != (x, y)
    ensures Place(hash, runs, i, j) != Place(hash, runs, x, y)
  {
    PlaceHolds(hash, runs, i, j);
    PlaceHolds(hash, runs, x, y);
    if i < x {
      TaggedGrows(hash, runs, i + 1, x);
    } else if x < i {
      TaggedGrows(hash, runs, x + 1, i);
    }
  }

  /** The id of finding `j` of a run. */
  function IdAt(hash: Hash, run: Run, j: nat): string {
    hash(run.key.pr + "|" + run.key.arm + "|" + run.key.rep + "|" + Digits(j))
  }

  /** `pack` aborts exactly when two findings have one id. */
  lemma {:induction false} CollisionIff(hash: Hash, runs: seq<Run>)
    ensures Distinct(Fids(Items(Tagged(hash, runs)))) <==>
            forall i: nat, j: nat, x: nat, y: nat ::
              i < |runs| && j < |runs[i].findings| && x < |runs| && y < |runs[x].findings| && (i, j) != (x, y) ==>
                IdAt(hash, runs[i], j) != IdAt(hash, runs[x], y)
  {
    if Distinct(Fids(Items(Tagged(hash, runs)))) {
      forall i: nat, j: nat, x: nat, y: nat |
        i < |runs| && j < |runs[i].findings| && x < |runs| && y < |runs[x].findings| && (i, j) != (x, y)
        ensures IdAt(hash, runs[i], j) != IdAt(hash, runs[x], y)
      {
        IdsDifferAt(hash, runs, i, j, x, y);
      }
    } else {
      var i, j, x, y := SharedId(hash, runs);
    }
  }

  lemma {:induction false} IdsDifferAt(hash: Hash, runs: seq<Run>, i: nat, j: nat, x: nat, y: nat)
    requires Distinct(Fids(Items(Tagged(hash, runs))))
    requires i < |runs| && j < |runs[i].findings| && x < |runs| && y < |runs[x].findings| && (i, j) != (x, y)
    ensures IdAt(hash, runs[i], j) != IdAt(hash, runs[x], y)
  {
    var a, b := Place(hash, runs, i, j), Place(hash, runs, x, y);
    PlaceHolds(hash, runs, i, j);
    PlaceHolds(hash, runs, x, y);
    PlacesDiffer(hash, runs, i, j, x, y);
    FidsDiffer(Tagged(hash, runs), if a < b then a else b, if a < b then b else a);
  }

  lemma {:induction false} SharedId(hash: Hash, runs: seq<Run>) returns (i: nat, j: nat, x: nat, y: nat)
    requires !Distinct(Fids(Items(Tagged(hash, runs))))
    ensures i < |runs| && j < |runs[i].findings| && x < |runs| && y < |runs[x].findings| && (i, j) != (x, y)
    ensures IdAt(hash, runs[i], j) == IdAt(hash, runs[x], y)
  {
    var tags := Tagged(hash, runs);
    var a, b :| 0 <= a < b < |tags| && Fids(Items(tags))[a] == Fids(Items(tags))[b];
    i, j := PlaceOf(hash, runs, a);
    x, y := PlaceOf(hash, runs, b);
    PlaceHolds(hash, runs, i, j);
    PlaceHolds(hash, runs, x, y);
  }

  // ---------------------------------------------------------------- what an id is made of

  lemma {:induction false} CutAtBar(a: string, x: string, b: string, y: string)
    requires '|' !in a && '|' !in b && a + "|" + x == b + "|" + y
    ensures a == b && x == y
  {
    var s := a + "|" + x;
    assert s[|a|] == '|' && forall k :: 0 <= k < |a| ==> s[k] == a[k];
    var t := b + "|" + y;
    assert t[|b|] == '|' && forall k :: 0 <= k < |b| ==> t[k] == b[k];
    assert |a| == |b|;
    assert a == s[..|a|] && b == t[..|b|] && x == s[|a| + 1..] && y == t[|b| + 1..];
  }

  lemma {:induction false} CutAtLastBar(a: string, x: string, b: string, y: string)
    requires '|' !in x && '|' !in y && a + "|" + x == b + "|" + y
    ensures a == b && x == y
  {
    var s := a + "|" + x;
    assert s[|a|] == '|' && forall k :: |a| < k < |s| ==> s[k] == x[k - |a| - 1];
    var t := b + "|" + y;
    assert t[|b|] == '|' && forall k :: |b| < k < |t| ==> t[k] == y[k - |b| - 1];
    assert |a| == |b|;
    assert a == s[..|a|] && b == t[..|b|] && x == s[|a| + 1..] && y == t[|b| + 1..];
  }

  lemma {:induction false} DigitsHaveNoBar(n: nat)
    ensures '|' !in Digits(n)
  {
    ValueOfDigits(n);
  }

  lemma {:induction false} BarText(key: Key, i: nat)
    ensures RawText(key, i) == key.pr + "|" + (key.arm + "|" + (key.rep + "|" + Digits(i)))
  {
  }

  /** The text behind an id determines arm, pull request, label and place, when neither the
      arm nor the pull request has a bar in its name; the label may. */
  lemma {:induction false} RawTextInjective(k: Key, i: nat, l: Key, j: nat)
    requires '|' !in k.pr && '|' !in k.arm && '|' !in l.pr && '|' !in l.arm
    requires RawText(k, i) == RawText(l, j)
    ensures k == l && i == j
  {
    BarText(k, i);
    BarText(l, j);
    CutAtBar(k.pr, k.arm + "|" + (k.rep + "|" + Digits(i)), l.pr, l.arm + "|" + (l.rep + "|" + Digits(j)));
    CutAtBar(k.arm, k.rep + "|" + Digits(i), l.arm, l.rep + "|" + Digits(j));
    DigitsHaveNoBar(i);
    DigitsHaveNoBar(j);
    CutAtLastBar(k.rep, Digits(i), l.rep, Digits(j));
    ValueOfDigits(i);
    ValueOfDigits(j);
  }

  lemma {:induction false} OneRunPerKey(raws: seq<RawRun>, i: nat, x: nat)
    requires i < |raws| && x < |raws| && Labelled(raws)[i].key == Labelled(raws)[x].key
    ensures i == x
  {
    RunKeysDistinct(raws);
    assert Keys(Labelled(raws))[i] == Keys(Labelled(raws))[x];
  }

  /** With such names, a hash without collisions gives no two findings one id. */
  lemma {:induction false} PlainNamesNeverCollide(hash: Hash, raws: seq<RawRun>)
    requires forall r :: r in raws ==> '|' !in r.arm && '|' !in r.pr
    requires forall s, t :: hash(s) == hash(t) ==> s == t
    ensures Distinct(Fids(Items(Tagged(hash, Labelled(raws)))))
  {
    var runs := Labelled(raws);
    forall i: nat, j: nat, x: nat, y: nat |
      i < |runs| && j < |runs[i].findings| && x < |runs| && y < |runs[x].findings|
      ensures IdAt(hash, runs[i], j) == IdAt(hash, runs[x], y) ==> (i, j) == (x, y)
    {
      assert raws[i] in raws && raws[x] in raws;
      if IdAt(hash, runs[i], j) == IdAt(hash, runs[x], y) {
        assert hash(RawText(runs[i].key, j)) == hash(RawText(runs[x].key, y));
        RawTextInjective(runs[i].key, j, runs[x].key, y);
        OneRunPerKey(raws, i, x);
      }
    }
    CollisionIff(hash, runs);
  }

  /** With a bar in a name two arms can share an id under every hash, and `pack` aborts. */
  lemma {:induction false} BarsCollide(hash: Hash, f: Finding)
    ensures var raws := [RawRun("a|b", "x", "live", [f]), RawRun("b", "x|a", "live", [f])];
            !Distinct(Fids(Items(Tagged(hash, Labelled(raws)))))
  {
    var raws := [RawRun("a|b", "x", "live", [f]), RawRun("b", "x|a", "live", [f])];
    var runs := Labelled(raws);
    LabelledRun(raws, 0);
    LabelledRun(raws, 1);
    assert SeriesPlaces(raws[..0], raws[0]) == {} && SeriesPlaces(raws[..1], raws[1]) == {};
    var rep := "" + "r" + Digits(1);
    assert runs[0].key == Key("a|b", "x", rep) && runs[1].key == Key("b", "x|a", rep);
    BarTexts(rep);
    assert IdAt(hash, runs[0], 0) == IdAt(hash, runs[1], 0);
    if Distinct(Fids(Items(Tagged(hash, runs)))) {
      IdsDifferAt(hash, runs, 0, 0, 1, 0);
      assert false;
    }
  }

  lemma {:induction false} BarTexts(rep: string)
    ensures "x" + "|" + "a|b" + "|" + rep + "|" + Digits(0) == "x|a" + "|" + "b" + "|" + rep + "|" + Digits(0)
  {
    assert "x" + "|" + "a|b" == "x|a" + "|" + "b";
  }

  // ---------------------------------------------------------------- blinding

  /** The groups and the key file after the tags `done`. */
  ghost predicate Blinded(done: seq<Tag>, prs: seq<string>, groups: map<string, seq<Item>>, unblind: map<string, Key>) {
    && Distinct(Fids(Items(done)))
    && unblind == UnblindOf(done)
    && forall pr :: pr in prs ==> pr in groups && groups[pr] == ItemsFor(done, pr)
  }

  lemma {:induction false} RepeatedFid(done: seq<Tag>, t: Tag)
    requires t.item.fid in UnblindOf(done)
    ensures !Distinct(Fids(Items(done + [t])))
  {
    UnblindKnows(done);
    assert Fids(Items(done + [t])) == Fids(Items(done)) + [t.item.fid];
    var i :| 0 <= i < |done| && Fids(Items(done))[i] == t.item.fid;
    assert Fids(Items(done + [t]))[i] == Fids(Items(done + [t]))[|done|];
  }

  lemma {:induction false} NewFid(done: seq<Tag>, prs: seq<string>, groups: map<string, seq<Item>>,
                                  unblind: map<string, Key>, t: Tag)
    requires Blinded(done, prs, groups, unblind) && t.key.pr in prs && t.item.fid !in unblind
    ensures Blinded(done + [t], prs, groups[t.key.pr := groups[t.key.pr] + [t.item]], unblind[t.item.fid := t.key])
  {
    DistinctFidsStep(done, t);
    assert (done + [t])[..|done|] == done;
    var after := groups[t.key.pr := groups[t.key.pr] + [t.item]];
    forall pr | pr in prs ensures pr in after && after[pr] == ItemsFor(done + [t], pr) {
      ItemsForStep(done, t, pr);
    }
  }

  lemma {:induction false} DistinctFidsStep(done: seq<Tag>, t: Tag)
    requires Distinct(Fids(Items(done))) && t.item.fid !in UnblindOf(done)
    ensures Distinct(Fids(Items(done + [t])))
  {
    UnblindKnows(done);
    DistinctAppend(Fids(Items(done)), t.item.fid);
    assert Fids(Items(done + [t])) == Fids(Items(done)) + [t.item.fid];
  }

  lemma {:induction false} ItemsForStep(done: seq<Tag>, t: Tag, pr: string)
    ensures ItemsFor(done + [t], pr) == ItemsFor(done, pr) + if t.key.pr == pr then [t.item] else []
  {
    FilterAppend(done, [t], AboutPr(pr));
    assert Filter([t][1..], AboutPr(pr)) == [];
  }

  /** The id pass of `pack`, with its abort on a repeated id. */
  method Blind(hash: Hash, runs: seq<Run>, prs: seq<string>)
    returns (collision: bool, groups: map<string, seq<Item>>, unblind: map<string, Key>)
    requires forall r :: r in runs ==> r.key.pr in prs
    ensures collision <==> !Distinct(Fids(Items(Tagged(hash, runs))))
    ensures !collision ==> Blinded(Tagged(hash, runs), prs, groups, unblind)
  {
    collision, unblind := false, map[];
    groups := map pr | pr in prs :: [];
    for n := 0 to |runs|
      invariant !collision && Blinded(Tagged(hash, runs[..n]), prs, groups, unblind)
    {
      collision, groups, unblind := BlindRun(hash, Tagged(hash, runs[..n]), runs[n], prs, groups, unblind);
      assert runs[..n + 1][..n] == runs[..n];
      if collision {
        RepeatStays(hash, runs, n + 1);
        return;
      }
    }
    assert runs[..|runs|] == runs;
  }

  method BlindRun(hash: Hash, ghost done: seq<Tag>, run: Run, prs: seq<string>,
                  groups0: map<string, seq<Item>>, unblind0: map<string, Key>)
    returns (collision: bool, groups: map<string, seq<Item>>, unblind: map<string, Key>)
    requires run.key.pr in prs && Blinded(done, prs, groups0, unblind0)
    ensures collision ==> !Distinct(Fids(Items(done + AllTagsOf(hash, run))))
    ensures !collision ==> Blinded(done + AllTagsOf(hash, run), prs, groups, unblind)
  {
    collision, groups, unblind := false, groups0, unblind0;
    assert done + TagsOf(hash, run, 0) == done;
    for i := 0 to |run.findings|
      invariant !collision && Blinded(done + TagsOf(hash, run, i), prs, groups, unblind)
    {
      collision, groups, unblind := BlindFinding(hash, done + TagsOf(hash, run, i), run, i, prs, groups, unblind);
      TagsGrow(hash, done, run, i);
      if collision {
        RepeatInPrefix(done + TagsOf(hash, run, i + 1), done + AllTagsOf(hash, run));
        return;
      }
    }
  }

  function TagAt(hash: Hash, run: Run, i: nat): Tag
    requires i < |run.findings|
  {
    Tag(Item(hash(RawText(run.key, i)), run.findings[i]), run.key)
  }

  lemma {:induction false} TagsGrow(hash: Hash, done: seq<Tag>, run: Run, i: nat)
    requires i < |run.findings|
    ensures done + TagsOf(hash, run, i + 1) == done + TagsOf(hash, run, i) + [TagAt(hash, run, i)]
    ensures done + TagsOf(hash, run, i + 1) <= done + AllTagsOf(hash, run)
  {
  }

  method BlindFinding(hash: Hash, ghost done: seq<Tag>, run: Run, i: nat, prs: seq<string>,
                      groups0: map<string, seq<Item>>, unblind0: map<string, Key>)
    returns (collision: bool, groups: map<string, seq<Item>>, unblind: map<string, Key>)
    requires run.key.pr in prs && i < |run.findings| && Blinded(done, prs, groups0, unblind0)
    ensures collision ==> !Distinct(Fids(Items(done + [TagAt(hash, run, i)])))
    ensures !collision ==> Blinded(done + [TagAt(hash, run, i)], prs, groups, unblind)
  {
    collision, groups, unblind := false, groups0, unblind0;
    var fid := hash(RawText(run.key, i));
    if fid in unblind {
      RepeatedFid(done, TagAt(hash, run, i));
      collision := true;
      return;
    }
    NewFid(done, prs, groups, unblind, TagAt(hash, run, i));
    groups := groups[run.key.pr := groups[run.key.pr] + [Item(fid, run.findings[i])]];
    unblind := unblind[fid := run.key];
  }

  lemma {:induction false} RepeatInPrefix(a: seq<Tag>, b: seq<Tag>)
    requires a <= b && !Distinct(Fids(Items(a)))
    ensures !Distinct(Fids(Items(b)))
  {
    var i, j :| 0 <= i < j < |a| && Fids(Items(a))[i] == Fids(Items(a))[j];
    assert a[i] == b[i] && a[j] == b[j];
    assert Fids(Items(b))[i] == Fids(Items(b))[j];
  }

  lemma {:induction false} RepeatStays(hash: Hash, runs: seq<Run>, n: nat)
    requires n <= |runs| && !Distinct(Fids(Items(Tagged(hash, runs[..n]))))
    ensures !Distinct(Fids(Items(Tagged(hash, runs))))
    decreases |runs| - n
  {
    if n < |runs| {
      assert runs[..n + 1][..n] == runs[..n];
      RepeatInPrefix(Tagged(hash, runs[..n]), Tagged(hash, runs[..n + 1]));
      RepeatStays(hash, runs, n + 1);
    } else {
      assert runs[..n] == runs;
    }
  }

  // ---------------------------------------------------------------- dealing

  function ItemsAt(groups: map<string, seq<Item>>, pr: string): seq<Item> {
    if pr in groups then groups[pr] else []
  }

  function GroupsIn(order: seq<string>, groups: map<string, seq<Item>>): seq<Group> {
    Map(order, (pr: string) => Group(pr, ItemsAt(groups, pr)))
  }

  /** What packet `k` of `n` gets. */
  function DealtTo(all: seq<Group>, n: nat, k: nat): seq<Group>
    requires n >= 1
  {
    if all == [] then []
    else DealtTo(all[..|all| - 1], n, k) + if (|all| - 1) % n == k then [all[|all| - 1]] else []
  }

  /** The packets after the first `i` groups. */
  ghost predicate Dealt(packets: seq<seq<Group>>, dealt: seq<Group>, n: nat)
    requires n >= 1
  {
    && |packets| == n
    && (forall k :: 0 <= k < n ==> packets[k] == DealtTo(dealt, n, k))
    && multiset(Flatten(packets)) == multiset(dealt)
  }

  lemma {:induction false} DivStep(t: nat, n: nat)
    requires n >= 1
    ensures t % n == n - 1 ==> (t + 1) / n == t / n + 1 && (t + 1) % n == 0
    ensures t % n != n - 1 ==> (t + 1) / n == t / n && (t + 1) % n == t % n + 1
  {
    var q, r := t / n, t % n;
    assert t == q * n + r;
    if r == n - 1 {
      assert t + 1 == (q + 1) * n + 0;
      Division(t + 1, n, q + 1, 0);
    } else {
      Division(t + 1, n, q, r + 1);
    }
  }

  /** Group `i` goes to packet `i % n`, where it is number `i / n`, and no packet holds
      anything else: the packets differ by one group at most. */
  lemma {:induction false} RoundRobin(all: seq<Group>, n: nat, k: nat)
    requires n >= 1 && k < n
    ensures |DealtTo(all, n, k)| == |all| / n + if k < |all| % n then 1 else 0
    ensures forall i :: 0 <= i < |all| && i % n == k ==> i / n < |DealtTo(all, n, k)| && DealtTo(all, n, k)[i / n] == all[i]
  {
    if all != [] {
      var t := |all| - 1;
      RoundRobin(all[..t], n, k);
      DivStep(t, n);
    } else {
      Division(0, n, 0, 0);
    }
  }

  lemma {:induction false} DealStep(packets: seq<seq<Group>>, dealt: seq<Group>, n: nat, g: Group)
    requires n >= 1 && Dealt(packets, dealt, n)
    ensures var turn := |dealt| % n;
            Dealt(packets[turn := packets[turn] + [g]], dealt + [g], n)
  {
    var turn := |dealt| % n;
    assert (dealt + [g])[..|dealt|] == dealt;
    forall k | 0 <= k < n ensures DealtTo(dealt + [g], n, k) == DealtTo(dealt, n, k) + if turn == k then [g] else [] {
    }
    FlattenPut(packets, turn, g);
    assert multiset(dealt + [g]) == multiset(dealt) + multiset{g};
  }

  lemma {:induction false} DealNext(packets: seq<seq<Group>>, all: seq<Group>, n: nat, i: nat, turn: nat)
    requires n >= 1 && i < |all| && turn == i % n && Dealt(packets, all[..i], n)
    ensures Dealt(packets[turn := packets[turn] + [all[i]]], all[..i + 1], n)
  {
    DealStep(packets, all[..i], n, all[i]);
    assert all[..i + 1] == all[..i] + [all[i]];
  }

  /** The packets of `pack`, from the groups in the shuffled order. */
  method Deal(all: seq<Group>, n: nat) returns (packets: seq<seq<Group>>)
    requires n >= 1
    ensures Dealt(packets, all, n)
  {
    packets := seq(n, _ => []);
    NothingDealt(packets);
    for i := 0 to |all|
      invariant Dealt(packets, all[..i], n)
    {
      var turn := i % n;
      DealNext(packets, all, n, i, turn);
      packets := packets[turn := packets[turn] + [all[i]]];
    }
    assert all[..|all|] == all;
  }

  lemma {:induction false} NothingDealt(packets: seq<seq<Group>>)
    requires forall k :: 0 <= k < |packets| ==> packets[k] == []
    ensures Flatten(packets) == []
  {
    if packets != [] {
      NothingDealt(packets[1..]);
    }
  }

  /** Everything in the packets, in the order `score` reads them. */
  function Loaded(packets: seq<seq<Group>>): seq<Item> {
    Flatten(Map(Flatten(packets), ItemsOf))
  }

  function ShuffledAt(groups: map<string, seq<Item>>): string -> seq<Item> {
    pr => ItemsAt(groups, pr)
  }

  lemma {:induction false} SplitByPr(tags: seq<Tag>, first: string, rest: seq<string>)
    requires first !in rest
    ensures multiset(Items(Filter(tags, AboutAny([first] + rest))))
         == multiset(ItemsFor(tags, first)) + multiset(Items(Filter(tags, AboutAny(rest))))
  {
    var p, q, both := AboutPr(first), AboutAny(rest), AboutAny([first] + rest);
    FilterSplit(tags, p, q, both);
    MapPermutation(Filter(tags, both), Filter(tags, p) + Filter(tags, q), ItemOf);
    assert Items(Filter(tags, p) + Filter(tags, q)) == ItemsFor(tags, first) + Items(Filter(tags, q));
  }

  lemma {:induction false} GroupsCover(tags: seq<Tag>, order: seq<string>, shuffled: map<string, seq<Item>>)
    requires Distinct(order)
    requires forall pr :: pr in order ==> multiset(ItemsAt(shuffled, pr)) == multiset(ItemsFor(tags, pr))
    ensures multiset(Flatten(Map(order, ShuffledAt(shuffled)))) == multiset(Items(Filter(tags, AboutAny(order))))
  {
    if order == [] {
      FilterNone(tags, AboutAny(order));
    } else {
      var first, rest := order[0], order[1..];
      assert order == [first] + rest;
      GroupsCover(tags, rest, shuffled);
      SplitByPr(tags, first, rest);
    }
  }

  /** However the groups are ordered, shuffled and dealt, the packets hold every finding
      exactly once, under its own id. */
  lemma {:induction false} PacketsHoldEverything(tags: seq<Tag>, order: seq<string>, shuffled: map<string, seq<Item>>,
                                                 packets: seq<seq<Group>>)
    requires Distinct(order) && forall t :: t in tags ==> t.key.pr in order
    requires forall pr :: pr in order ==> multiset(ItemsAt(shuffled, pr)) == multiset(ItemsFor(tags, pr))
    requires multiset(Flatten(packets)) == multiset(GroupsIn(order, shuffled))
    ensures multiset(Loaded(packets)) == multiset(Items(tags))
  {
    MapPermutation(Flatten(packets), GroupsIn(order, shuffled), ItemsOf);
    assert Map(GroupsIn(order, shuffled), ItemsOf) == Map(order, ShuffledAt(shuffled));
    FlattenPermutation(Map(Flatten(packets), ItemsOf), Map(GroupsIn(order, shuffled), ItemsOf));
    GroupsCover(tags, order, shuffled);
    FilterAll(tags, AboutAny(order));
  }

  /** What `pack` writes, for any shuffles: `order` and `shuffled` are what the seeded
      generator made of the groups. */
  ghost predicate Packed(hash: Hash, raws: seq<RawRun>, order: seq<string>, shuffled: map<string, seq<Item>>,
                         packetFiles: seq<seq<Group>>) {
    var tags := Tagged(hash, Labelled(raws));
    && Distinct(Fids(Items(tags)))
    && Distinct(order) && (forall t :: t in tags ==> t.key.pr in order)
    && (forall pr :: pr in order ==> multiset(ItemsAt(shuffled, pr)) == multiset(ItemsFor(tags, pr)))
    && multiset(Flatten(packetFiles)) == multiset(GroupsIn(order, shuffled))
  }

  /** `cmd_pack` from the collected runs to the packets, the key file and the roster. */
  method Pack(hash: Hash, raws: seq<RawRun>, prs: seq<string>, order: seq<string>, shuffle: seq<Item> -> seq<Item>, n: nat)
    returns (aborted: bool, packetFiles: seq<seq<Group>>, unblind: map<string, Key>, roster: seq<Key>)
    requires n >= 1 && (forall r :: r in raws ==> r.pr in prs)
    requires Distinct(order) && forall pr :: pr in order <==> pr in prs
    requires forall s :: multiset(shuffle(s)) == multiset(s)
    ensures aborted <==> !Distinct(Fids(Items(Tagged(hash, Labelled(raws)))))
    ensures !aborted ==> exists shuffled :: Packed(hash, raws, order, shuffled, packetFiles)
    ensures !aborted ==> unblind == UnblindOf(Tagged(hash, Labelled(raws))) && roster == Keys(Labelled(raws))
    ensures !aborted ==> |packetFiles| == n
  {
    packetFiles, unblind, roster := [], map[], [];
    RunKeysDistinct(raws);
    var runs;
    aborted, runs := AssignReps(raws);
    assert forall r :: r in runs ==> r.key.pr in prs;
    var groups;
    aborted, groups, unblind := Blind(hash, runs, prs);
    if aborted {
      return;
    }
    roster := Keys(runs);
    var shuffled := map pr | pr in prs :: shuffle(groups[pr]);
    packetFiles := Deal(GroupsIn(order, shuffled), n);
    KeysOfTags(hash, runs);
    assert Packed(hash, raws, order, shuffled, packetFiles);
  }

  lemma {:induction false} KeysOfTags(hash: Hash, runs: seq<Run>)
    ensures forall t :: t in Tagged(hash, runs) ==> t.key in Keys(runs)
    ensures forall t :: t in Tagged(hash, runs) ==> exists r :: r in runs && r.key == t.key
  {
    if runs != [] {
      var n := |runs| - 1;
      KeysOfTags(hash, runs[..n]);
      assert runs == runs[..n] + [runs[n]];
    }
  }
}
