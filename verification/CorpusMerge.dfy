/** `scripts/merge_bot_branch_corpus.py`: the union, by id, of main's corpus list
    with the list on the bot branch. */
module CorpusMerge {

  /** The `id` field of a JSON object, as far as the script looks at it. */
  datatype IdField = NoId | NotText | Text(text: string)

  /** One element of `real_pr_corpus.vulnerable`; `body` is the rest of the object. */
  datatype Item = Object(id: IdField, body: string) | NotAnObject

  predicate Usable(e: Item) {
    e.Object? && e.id.Text? && e.id.text != ""
  }

  /** An element the scripts keep: an object with a non-empty string id. */
  type Entry = e: Item | Usable(e) witness Object(Text("a"), "")

  function Key(e: Entry): string { e.id.text }

  function ValidEntries(items: seq<Item>): seq<Entry> {
    if items == [] then []
    else if Usable(items[0]) then [items[0]] + ValidEntries(items[1..])
    else ValidEntries(items[1..])
  }

  /** The ids of a list of usable entries. */
  function Keys(entries: seq<Entry>): set<string> {
    set e | e in entries :: Key(e)
  }

  /** The ids a corpus list carries; elements without a usable id carry none. */
  function Ids(items: seq<Item>): set<string> {
    Keys(ValidEntries(items))
  }

  ghost predicate UniqueKeys(entries: seq<Entry>) {
    forall i, j :: 0 <= i < j < |entries| ==> Key(entries[i]) != Key(entries[j])
  }

  /** The entries whose id is neither in `seen` nor on an earlier entry kept. */
  function NewOnes(seen: set<string>, entries: seq<Entry>): seq<Entry>
    decreases |entries|
  {
    if entries == [] then []
    else if Key(entries[0]) in seen then NewOnes(seen, entries[1..])
    else [entries[0]] + NewOnes(seen + {Key(entries[0])}, entries[1..])
  }

  function Merge(main: seq<Item>, bot: seq<Item>): seq<Entry> {
    ValidEntries(main) + NewOnes(Ids(main), ValidEntries(bot))
  }

  method MergeVulnerable(main: seq<Item>, bot: seq<Item>) returns (merged: seq<Entry>)
    ensures merged == Merge(main, bot)
  {
    merged := ValidEntries(main);
    var seen := Keys(merged);
    var rest := ValidEntries(bot);
    while rest != []
      invariant merged + NewOnes(seen, rest) == Merge(main, bot)
      decreases |rest|
    {
      var entry := rest[0];
      if Key(entry) !in seen {
        assert merged + ([entry] + NewOnes(seen + {Key(entry)}, rest[1..]))
            == (merged + [entry]) + NewOnes(seen + {Key(entry)}, rest[1..]);
        merged := merged + [entry];
        seen := seen + {Key(entry)};
      }
      rest := rest[1..];
    }
  }

  // ---------------------------------------------------------------- keys of lists

  lemma {:induction false} ValidEntriesFacts(items: seq<Item>)
    ensures forall e :: e in ValidEntries(items) <==> e in items && e.Object? && e.id.Text? && e.id.text != ""
  {
    if items != [] {
      ValidEntriesFacts(items[1..]);
      assert items == [items[0]] + items[1..];
    }
  }

  lemma {:induction false} ValidEntriesFixed(entries: seq<Entry>)
    ensures ValidEntries(entries) == entries
  {
    if entries != [] {
      ValidEntriesFixed(entries[1..]);
    }
  }

  lemma KeysCons(entries: seq<Entry>)
    requires entries != []
    ensures Keys(entries) == {Key(entries[0])} + Keys(entries[1..])
  {
    assert entries == [entries[0]] + entries[1..];
    assert forall e :: e in entries <==> e == entries[0] || e in entries[1..];
  }

  lemma KeysAppend(a: seq<Entry>, b: seq<Entry>)
    ensures Keys(a + b) == Keys(a) + Keys(b)
  {
    assert forall e :: e in a + b <==> e in a || e in b;
  }

  lemma {:induction false} NewOnesKeys(seen: set<string>, entries: seq<Entry>)
    ensures Keys(NewOnes(seen, entries)) == Keys(entries) - seen
    ensures UniqueKeys(NewOnes(seen, entries))
    decreases |entries|
  {
    if entries != [] {
      var id := Key(entries[0]);
      KeysCons(entries);
      if id in seen {
        NewOnesKeys(seen, entries[1..]);
      } else {
        NewOnesKeys(seen + {id}, entries[1..]);
        KeysCons(NewOnes(seen, entries));
        assert NewOnes(seen, entries)[1..] == NewOnes(seen + {id}, entries[1..]);
        var rest := NewOnes(seen + {id}, entries[1..]);
        assert forall e :: e in rest ==> Key(e) in Keys(rest);
      }
    }
  }

  lemma {:induction false} NewOnesAppend(seen: set<string>, a: seq<Entry>, b: seq<Entry>)
    ensures NewOnes(seen, a + b) == NewOnes(seen, a) + NewOnes(seen + Keys(a), b)
    decreases |a|
  {
    if a == [] {
      assert a + b == b;
      assert seen + Keys(a) == seen;
    } else {
      assert (a + b)[1..] == a[1..] + b;
      KeysCons(a);
      var id := Key(a[0]);
      if id in seen {
        NewOnesAppend(seen, a[1..], b);
        assert seen + Keys(a[1..]) == seen + Keys(a);
      } else {
        NewOnesAppend(seen + {id}, a[1..], b);
        assert seen + {id} + Keys(a[1..]) == seen + Keys(a);
      }
    }
  }

  /** Filtering first by fewer ids changes nothing. */
  lemma {:induction false} NewOnesAbsorb(few: set<string>, many: set<string>, entries: seq<Entry>)
    requires few <= many
    ensures NewOnes(many, NewOnes(few, entries)) == NewOnes(many, entries)
    decreases |entries|
  {
    if entries != [] {
      var id := Key(entries[0]);
      if id in few {
        NewOnesAbsorb(few, many, entries[1..]);
      } else {
        assert NewOnes(few, entries)[1..] == NewOnes(few + {id}, entries[1..]);
        if id in many {
          NewOnesAbsorb(few + {id}, many, entries[1..]);
        } else {
          NewOnesAbsorb(few + {id}, many + {id}, entries[1..]);
        }
      }
    }
  }

  lemma {:induction false} NewOnesNothing(seen: set<string>, entries: seq<Entry>)
    requires Keys(entries) <= seen
    ensures NewOnes(seen, entries) == []
  {
    if entries != [] {
      KeysCons(entries);
      NewOnesNothing(seen, entries[1..]);
    }
  }

  // ---------------------------------------------------------------- main results

  /** The merge is a union by id; main's usable entries are an unchanged prefix, on an id
      both sides carry every entry kept is one of main's, and what follows them repeats no
      id, neither its own nor one of main's. */
  lemma MergeIsUnion(main: seq<Item>, bot: seq<Item>)
    ensures Ids(Merge(main, bot)) == Ids(main) + Ids(bot)
    ensures ValidEntries(main) <= Merge(main, bot)
    ensures forall e :: e in Merge(main, bot) && Key(e) in Ids(main) ==> e in main
    ensures forall i, j :: 0 <= i < j < |Merge(main, bot)| && |ValidEntries(main)| <= j ==>
              Key(Merge(main, bot)[i]) != Key(Merge(main, bot)[j])
  {
    var added := NewOnes(Ids(main), ValidEntries(bot));
    ValidEntriesFacts(main);
    ValidEntriesFixed(Merge(main, bot));
    NewOnesKeys(Ids(main), ValidEntries(bot));
    KeysAppend(ValidEntries(main), added);
    assert forall e :: e in added ==> Key(e) in Keys(added);
    AddedAreNew(ValidEntries(main), added);
  }

  lemma AddedAreNew(a: seq<Entry>, b: seq<Entry>)
    requires UniqueKeys(b) && Keys(a) !! Keys(b)
    ensures forall i, j :: 0 <= i < j < |a + b| && |a| <= j ==> Key((a + b)[i]) != Key((a + b)[j])
  {
    assert forall i :: 0 <= i < |a| ==> Key(a[i]) in Keys(a);
    assert forall j :: 0 <= j < |b| ==> Key(b[j]) in Keys(b);
  }

  /** What the merge puts behind main's usable entries are usable entries of the branch with
      an id that main does not have. */
  lemma MergeAdds(main: seq<Item>, bot: seq<Item>)
    ensures forall e :: e in Merge(main, bot)[|ValidEntries(main)|..] ==> e in bot && Usable(e) && Key(e) !in Ids(main)
  {
    var added := NewOnes(Ids(main), ValidEntries(bot));
    assert Merge(main, bot)[|ValidEntries(main)|..] == added;
    NewOnesFrom(Ids(main), ValidEntries(bot));
    ValidEntriesFacts(bot);
  }

  lemma {:induction false} NewOnesFrom(seen: set<string>, entries: seq<Entry>)
    ensures forall e :: e in NewOnes(seen, entries) ==> e in entries && Key(e) !in seen
    decreases |entries|
  {
    if entries != [] {
      var id := Key(entries[0]);
      NewOnesFrom(if id in seen then seen else seen + {id}, entries[1..]);
      assert forall e :: e in entries[1..] ==> e in entries;
    }
  }

  lemma {:induction false} ValidEntriesAppend(a: seq<Item>, b: seq<Item>)
    ensures ValidEntries(a + b) == ValidEntries(a) + ValidEntries(b)
  {
    if a == [] {
      assert a + b == b;
    } else {
      assert (a + b)[0] == a[0] && (a + b)[1..] == a[1..] + b;
      ValidEntriesAppend(a[1..], b);
    }
  }

  /** Position `i` is the first one to carry its id, and main does not carry it. */
  ghost predicate FirstNew(seen: set<string>, entries: seq<Entry>, i: nat)
    requires i < |entries|
  {
    && Key(entries[i]) !in seen
    && forall j :: 0 <= j < i ==> Key(entries[j]) != Key(entries[i])
  }

  lemma FirstNewTail(seen: set<string>, entries: seq<Entry>, i: nat)
    requires 0 < i < |entries|
    ensures FirstNew(seen, entries, i) <==>
            FirstNew(seen + {Key(entries[0])}, entries[1..], i - 1)
    ensures Key(entries[0]) in seen ==>
              (FirstNew(seen, entries, i) <==> FirstNew(seen, entries[1..], i - 1))
  {
    var tail := entries[1..];
    assert forall j :: 0 <= j < i - 1 ==> tail[j] == entries[j + 1];
    assert forall j :: 0 < j < i ==> entries[j] == tail[j - 1];
  }

  /** `picked` are the entries at these positions, in their order. */
  ghost predicate Picks(entries: seq<Entry>, picked: seq<Entry>, at: seq<nat>) {
    && |at| == |picked|
    && (forall k :: 0 <= k < |at| ==> at[k] < |entries| && picked[k] == entries[at[k]])
    && forall k, l :: 0 <= k < l < |at| ==> at[k] < at[l]
  }

  /** What follows main's entries are exactly the branch's first occurrences of ids that
      main lacks, in the branch's order; `at` gives their positions. */
  lemma {:induction false} NewOnesPositions(seen: set<string>, entries: seq<Entry>) returns (at: seq<nat>)
    ensures Picks(entries, NewOnes(seen, entries), at)
    ensures forall i: nat :: i < |entries| ==> (i in at <==> FirstNew(seen, entries, i))
    decreases |entries|
  {
    if entries == [] {
      at := [];
      return;
    }
    var id := Key(entries[0]);
    var tail := NewOnesPositions(if id in seen then seen else seen + {id}, entries[1..]);
    at := (if id in seen then [] else [0]) + Shift(tail);
    PositionsGrow(seen, entries, tail, at);
    PicksGrow(entries, NewOnes(if id in seen then seen else seen + {id}, entries[1..]), tail, id in seen);
  }

  lemma {:induction false} PicksGrow(entries: seq<Entry>, picked: seq<Entry>, tail: seq<nat>, skipped: bool)
    requires entries != [] && Picks(entries[1..], picked, tail)
    ensures Picks(entries, (if skipped then [] else [entries[0]]) + picked, (if skipped then [] else [0]) + Shift(tail))
  {
  }

  lemma {:induction false} PositionsGrow(seen: set<string>, entries: seq<Entry>, tail: seq<nat>, at: seq<nat>)
    requires entries != [] && at == (if Key(entries[0]) in seen then [] else [0]) + Shift(tail)
    requires var later := if Key(entries[0]) in seen then seen else seen + {Key(entries[0])};
             forall i: nat :: i < |entries| - 1 ==> (i in tail <==> FirstNew(later, entries[1..], i))
    ensures forall i: nat :: i < |entries| ==> (i in at <==> FirstNew(seen, entries, i))
  {
    forall i: nat | 0 < i < |entries| ensures i in at <==> FirstNew(seen, entries, i) {
      FirstNewTail(seen, entries, i);
      ShiftMember(tail, i);
    }
  }

  function Shift(at: seq<nat>): (r: seq<nat>)
    ensures |r| == |at|
    ensures forall k :: 0 <= k < |r| ==> r[k] == at[k] + 1
  {
    if at == [] then [] else [at[0] + 1] + Shift(at[1..])
  }

  lemma ShiftMember(at: seq<nat>, i: nat)
    requires i > 0
    ensures i in Shift(at) <==> i - 1 in at
  {
    if i - 1 in at {
      var k :| 0 <= k < |at| && at[k] == i - 1;
      assert Shift(at)[k] == i;
    }
  }

  lemma NewOnesOfUnion(seen: set<string>, b: seq<Entry>, c: seq<Entry>)
    ensures NewOnes(seen, b + NewOnes(Keys(b), c)) == NewOnes(seen, b) + NewOnes(seen + Keys(b), c)
  {
    NewOnesAppend(seen, b, NewOnes(Keys(b), c));
    NewOnesAbsorb(Keys(b), seen + Keys(b), c);
  }

  lemma MergeAssociative(a: seq<Item>, b: seq<Item>, c: seq<Item>)
    ensures Merge(Merge(a, b), c) == Merge(a, Merge(b, c))
  {
    var va, vb, vc := ValidEntries(a), ValidEntries(b), ValidEntries(c);
    var x, y := NewOnes(Keys(va), vb), NewOnes(Keys(va) + Keys(vb), vc);
    NewOnesOfUnion(Keys(va), vb, vc);
    NewOnesKeys(Keys(va), vb);
    KeysAppend(va, x);
    assert Keys(va + x) == Keys(va) + Keys(vb);
    ValidEntriesFixed(va + x);
    ValidEntriesFixed(vb + NewOnes(Keys(vb), vc));
    AppendAssociative(va, x, y);
  }

  lemma AppendAssociative<T>(a: seq<T>, b: seq<T>, c: seq<T>)
    ensures a + b + c == a + (b + c)
  {
  }

  lemma MergeIdempotent(main: seq<Item>, bot: seq<Item>)
    ensures Merge(main, main) == ValidEntries(main)
    ensures Merge(Merge(main, bot), bot) == Merge(main, bot)
  {
    NewOnesNothing(Ids(main), ValidEntries(main));
    MergeIsUnion(main, bot);
    ValidEntriesFixed(Merge(main, bot));
    NewOnesNothing(Ids(Merge(main, bot)), ValidEntries(bot));
  }

  /** The merge repeats an id exactly when main's own usable entries already did:
      duplicates inside main are not removed. */
  lemma MergeUniqueIds(main: seq<Item>, bot: seq<Item>)
    ensures UniqueKeys(Merge(main, bot)) <==> UniqueKeys(ValidEntries(main))
  {
    var va, added := ValidEntries(main), NewOnes(Ids(main), ValidEntries(bot));
    NewOnesKeys(Ids(main), ValidEntries(bot));
    UniqueKeysAppend(va, added);
  }

  lemma UniqueKeysAppend(a: seq<Entry>, b: seq<Entry>)
    requires UniqueKeys(b) && Keys(a) !! Keys(b)
    ensures UniqueKeys(a + b) <==> UniqueKeys(a)
  {
    var c := a + b;
    assert forall i :: 0 <= i < |a| ==> c[i] == a[i] && Key(a[i]) in Keys(a);
    assert forall i :: |a| <= i < |c| ==> c[i] == b[i - |a|] && Key(c[i]) in Keys(b);
    assert UniqueKeys(c) ==> forall i, j :: 0 <= i < j < |a| ==> Key(c[i]) != Key(c[j]);
  }
}
