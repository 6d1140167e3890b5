/** `_merge_states`: branches that agree on the hand and on the size of every
    bag are folded into the first of them, whose probability becomes the sum
    of theirs. */
module Merging {
  import opened Tallies
  import opened SearchStates
  import opened HandKeys

  /** `(tuple(sorted(hand.items())), tuple((bag_id, sum(...)) for ...))`:
      the hand's counts and the number of balls in each bag.  KeyOfIff shows
      that two keys are equal exactly when those two tuples are. */
  datatype MergeKey = MergeKey(hand: map<string, nat>, bagSizes: map<int, nat>)

  function BagSizes(bags: map<int, Tally>): (r: map<int, nat>)
    ensures r.Keys == bags.Keys
    ensures forall id :: id in bags ==> r[id] == Total(bags[id])
  {
    map id | id in bags :: Total(bags[id])
  }

  function KeyOf(s: SearchState): MergeKey
  {
    MergeKey(s.hand.counts, BagSizes(s.bags))
  }

  lemma EmptyOrHas(ids: set<int>)
    ensures ids == {} || exists x :: x in ids
  {
    if forall x :: x !in ids {
      assert ids == {};
    }
  }

  /** The least bag id. */
  ghost function MinId(ids: set<int>): (m: int)
    requires ids != {}
    ensures m in ids && forall x :: x in ids ==> m <= x
    decreases |ids|
  {
    EmptyOrHas(ids);
    var x :| x in ids;
    if ids == {x} then x
    else
      var rest := ids - {x};
      var y := MinId(rest);
      assert forall z :: z in ids ==> z == x || z in rest;
      if x < y then x else y
  }

  lemma ConsAscending(m: int, rest: seq<int>)
    requires forall i :: 0 <= i < |rest| ==> m < rest[i]
    requires forall i, j :: 0 <= i < j < |rest| ==> rest[i] < rest[j]
    ensures forall i, j :: 0 <= i < j < |[m] + rest| ==> ([m] + rest)[i] < ([m] + rest)[j]
  {
    var r := [m] + rest;
    forall i, j | 0 <= i < j < |r| ensures r[i] < r[j] {
      assert r[j] == rest[j - 1];
      if i > 0 { assert r[i] == rest[i - 1]; }
    }
  }

  /** The bag ids in ascending order, as `sorted(state["bags"].items())`
      visits them. */
  ghost function SortedIds(ids: set<int>): (r: seq<int>)
    ensures forall x :: x in r <==> x in ids
    ensures forall i, j :: 0 <= i < j < |r| ==> r[i] < r[j]
    decreases |ids|
  {
    if ids == {} then []
    else
      var m := MinId(ids);
      var rest := SortedIds(ids - {m});
      assert forall i :: 0 <= i < |rest| ==> m < rest[i] by {
        forall i | 0 <= i < |rest| ensures m < rest[i] {
          assert rest[i] in ids - {m};
        }
      }
      ConsAscending(m, rest);
      [m] + rest
  }

  ghost function Ids(pairs: seq<(int, nat)>): seq<int>
  {
    seq(|pairs|, i requires 0 <= i < |pairs| => pairs[i].0)
  }

  /** `bag_summaries`: the `(bag_id, size)` pairs in ascending id order. */
  ghost function SizeList(bags: map<int, Tally>): (r: seq<(int, nat)>)
    ensures Ids(r) == SortedIds(bags.Keys)
    ensures forall i :: 0 <= i < |r| ==> r[i].0 in bags && r[i].1 == Total(bags[r[i].0])
  {
    var ids := SortedIds(bags.Keys);
    assert forall i :: 0 <= i < |ids| ==> ids[i] in bags.Keys;
    var r := seq(|ids|, i requires 0 <= i < |ids| && ids[i] in bags => (ids[i], Total(bags[ids[i]])));
    assert Ids(r) == ids;
    r
  }

  /** The size map and the sorted summary list determine each other. */
  lemma SizeListIff(a: map<int, Tally>, b: map<int, Tally>)
    ensures BagSizes(a) == BagSizes(b) <==> SizeList(a) == SizeList(b)
  {
    if BagSizes(a) == BagSizes(b) {
      SameSizesSameList(a, b);
    }
    if SizeList(a) == SizeList(b) {
      SameListSameSizes(a, b);
    }
  }

  lemma SameSizesSameList(a: map<int, Tally>, b: map<int, Tally>)
    requires BagSizes(a) == BagSizes(b)
    ensures SizeList(a) == SizeList(b)
  {
    assert a.Keys == BagSizes(a).Keys == b.Keys;
    var ids := SortedIds(a.Keys);
    assert forall i :: 0 <= i < |ids| ==> Total(a[ids[i]]) == BagSizes(a)[ids[i]] == Total(b[ids[i]]);
  }

  lemma SameListSameSizes(a: map<int, Tally>, b: map<int, Tally>)
    requires SizeList(a) == SizeList(b)
    ensures BagSizes(a) == BagSizes(b)
  {
    SameListSameIds(a, b);
    forall id | id in a ensures Total(a[id]) == Total(b[id]) {
      SameListSameTotal(a, b, id);
    }
  }

  lemma SameListSameIds(a: map<int, Tally>, b: map<int, Tally>)
    requires SizeList(a) == SizeList(b)
    ensures a.Keys == b.Keys
  {
    assert SortedIds(a.Keys) == Ids(SizeList(a)) == Ids(SizeList(b)) == SortedIds(b.Keys);
    SameSortedIds(a.Keys, b.Keys);
  }

  lemma SameSortedIds(a: set<int>, b: set<int>)
    requires SortedIds(a) == SortedIds(b)
    ensures a == b
  {
    forall x ensures x in a <==> x in b {
      assert x in a <==> x in SortedIds(a);
    }
  }

  lemma SameListSameTotal(a: map<int, Tally>, b: map<int, Tally>, id: int)
    requires SizeList(a) == SizeList(b) && id in a
    ensures id in b && Total(a[id]) == Total(b[id])
  {
    SameListSameIds(a, b);
    var ia := SortedIds(a.Keys);
    var i :| 0 <= i < |ia| && ia[i] == id;
    assert SizeList(a)[i].1 == SizeList(b)[i].1;
  }

  /** Two branches get the same key exactly when the source's key tuples
      agree: the same sorted hand items and the same `(bag_id, size)` pairs. */
  lemma KeyOfIff(a: SearchState, b: SearchState)
    requires WellFormed(a.hand) && NoZeros(a.hand) && WellFormed(b.hand) && NoZeros(b.hand)
    ensures KeyOf(a) == KeyOf(b) <==>
      SortedItems(a.hand) == SortedItems(b.hand) && SizeList(a.bags) == SizeList(b.bags)
  {
    SortedItemsIff(a.hand, b.hand);
    SizeListIff(a.bags, b.bags);
  }

  /** The position of the first branch with key k, or |states| when none has it. */
  function FindKey(states: seq<SearchState>, k: MergeKey): (r: nat)
    ensures r <= |states|
    ensures r < |states| ==> KeyOf(states[r]) == k
    ensures forall i :: 0 <= i < r ==> KeyOf(states[i]) != k
  {
    if states == [] then 0
    else if KeyOf(states[0]) == k then 0
    else 1 + FindKey(states[1..], k)
  }

  /** One pass of the merge loop: add the probability to the entry with the
      same key, or append a copy of the branch. */
  function MergeInto(merged: seq<SearchState>, s: SearchState): seq<SearchState>
  {
    var j := FindKey(merged, KeyOf(s));
    if j < |merged| then merged[j := merged[j].(prob := merged[j].prob + s.prob)]
    else merged + [s]
  }

  /** `list(merged_dict.values())` after the loop over the states. */
  function Merge(states: seq<SearchState>): seq<SearchState>
  {
    if states == [] then [] else MergeInto(Merge(states[..|states| - 1]), states[|states| - 1])
  }

  ghost predicate DistinctKeys(states: seq<SearchState>)
  {
    forall i, j :: 0 <= i < j < |states| ==> KeyOf(states[i]) != KeyOf(states[j])
  }

  function KeySet(states: seq<SearchState>): set<MergeKey>
  {
    set s | s in states :: KeyOf(s)
  }

  /** The probability of the branches with key k. */
  function MassWhere(states: seq<SearchState>, k: MergeKey): real
  {
    if states == [] then 0.0
    else MassWhere(states[..|states| - 1], k) + (if KeyOf(states[|states| - 1]) == k then states[|states| - 1].prob else 0.0)
  }

  /** `merged_dict` as the loop keeps it: each key's position in the list of
      merged branches. */
  ghost predicate Indexes(index: map<MergeKey, nat>, merged: seq<SearchState>)
  {
    forall k :: (k in index <==> FindKey(merged, k) < |merged|) && (k in index ==> index[k] == FindKey(merged, k))
  }

  method MergeStates(states: seq<SearchState>) returns (merged: seq<SearchState>)
    ensures merged == Merge(states)
  {
    var index: map<MergeKey, nat> := map[];
    merged := [];
    var i := 0;
    while i < |states|
      invariant 0 <= i <= |states|
      invariant merged == Merge(states[..i])
      invariant Indexes(index, merged)
    {
      assert states[..i + 1][..i] == states[..i];
      index, merged := Absorb(index, merged, states[i]);
      i := i + 1;
    }
    assert states[..i] == states;
  }

  /** The body of the merge loop for one branch. */
  method Absorb(index: map<MergeKey, nat>, merged: seq<SearchState>, s: SearchState)
    returns (index': map<MergeKey, nat>, merged': seq<SearchState>)
    requires Indexes(index, merged)
    ensures merged' == MergeInto(merged, s) && Indexes(index', merged')
  {
    var key := KeyOf(s);
    if key in index {
      var j := index[key];
      var entry := merged[j].(prob := merged[j].prob + s.prob);
      FindKeyUpdate(merged, j, entry);
      index', merged' := index, merged[j := entry];
    } else {
      FindKeySnoc(merged, s);
      index', merged' := index[key := |merged|], merged + [s];
    }
  }

  lemma FindKeyUpdate(merged: seq<SearchState>, j: nat, x: SearchState)
    requires j < |merged| && KeyOf(x) == KeyOf(merged[j])
    ensures forall k :: FindKey(merged[j := x], k) == FindKey(merged, k)
  {
    forall k ensures FindKey(merged[j := x], k) == FindKey(merged, k) {
      FindKeySame(merged, merged[j := x], k);
    }
  }

  /** FindKey only looks at the keys. */
  lemma {:induction false} FindKeySame(a: seq<SearchState>, b: seq<SearchState>, k: MergeKey)
    requires |a| == |b| && forall i :: 0 <= i < |a| ==> KeyOf(a[i]) == KeyOf(b[i])
    ensures FindKey(a, k) == FindKey(b, k)
  {
    if a != [] && KeyOf(a[0]) != k {
      FindKeySame(a[1..], b[1..], k);
    }
  }

  /** Where FindKey lands once s is appended to a list without its key. */
  function FoundAfter(merged: seq<SearchState>, s: SearchState, k: MergeKey): nat
  {
    if FindKey(merged, k) < |merged| then FindKey(merged, k) else if k == KeyOf(s) then |merged| else |merged| + 1
  }

  lemma FindKeySnoc(merged: seq<SearchState>, s: SearchState)
    ensures forall k :: FindKey(merged + [s], k) == FoundAfter(merged, s, k)
  {
    forall k ensures FindKey(merged + [s], k) == FoundAfter(merged, s, k) {
      FindKeyAppend(merged, s, k);
    }
  }

  lemma {:induction false} FindKeyAppend(merged: seq<SearchState>, s: SearchState, k: MergeKey)
    ensures FindKey(merged + [s], k) == FoundAfter(merged, s, k)
  {
    if merged != [] {
      assert (merged + [s])[1..] == merged[1..] + [s];
      FindKeyAppend(merged[1..], s, k);
    } else {
      assert (merged + [s])[1..] == [];
    }
  }

  // What merging keeps

  /** Merging never lengthens the list. */
  lemma {:induction false} MergeLength(states: seq<SearchState>)
    ensures |Merge(states)| <= |states|
  {
    if states != [] {
      MergeLength(states[..|states| - 1]);
    }
  }

  lemma MassSnoc(states: seq<SearchState>, s: SearchState)
    ensures Mass(states + [s]) == Mass(states) + s.prob
  {
    assert (states + [s])[..|states|] == states;
  }

  lemma {:induction false} MassUpdate(states: seq<SearchState>, j: nat, x: SearchState)
    requires j < |states|
    ensures Mass(states[j := x]) == Mass(states) - states[j].prob + x.prob
  {
    var n := |states| - 1;
    if j == n {
      assert states[j := x][..n] == states[..n];
    } else {
      assert states[j := x][..n] == states[..n][j := x];
      MassUpdate(states[..n], j, x);
    }
  }

  lemma MergeIntoMass(merged: seq<SearchState>, s: SearchState)
    ensures Mass(MergeInto(merged, s)) == Mass(merged) + s.prob
  {
    var j := FindKey(merged, KeyOf(s));
    if j < |merged| {
      MassUpdate(merged, j, merged[j].(prob := merged[j].prob + s.prob));
    } else {
      MassSnoc(merged, s);
    }
  }

  /** Merging conserves probability. */
  lemma {:induction false} MergeMass(states: seq<SearchState>)
    ensures Mass(Merge(states)) == Mass(states)
  {
    if states != [] {
      var init := states[..|states| - 1];
      MergeMass(init);
      MergeIntoMass(Merge(init), states[|states| - 1]);
    }
  }

  lemma KeySetSnoc(states: seq<SearchState>, s: SearchState)
    ensures KeySet(states + [s]) == KeySet(states) + {KeyOf(s)}
  {
    forall k | k in KeySet(states + [s]) ensures k in KeySet(states) + {KeyOf(s)} {
      var t :| t in states + [s] && KeyOf(t) == k;
    }
    forall k | k in KeySet(states) ensures k in KeySet(states + [s]) {
      var t :| t in states && KeyOf(t) == k;
      assert t in states + [s];
    }
    assert s in states + [s];
  }

  /** A key is found exactly when some branch has it. */
  lemma FindKeyFound(states: seq<SearchState>, k: MergeKey)
    ensures FindKey(states, k) < |states| <==> k in KeySet(states)
  {
    if k in KeySet(states) {
      var t :| t in states && KeyOf(t) == k;
      var i :| 0 <= i < |states| && states[i] == t;
    }
    if FindKey(states, k) < |states| {
      assert states[FindKey(states, k)] in states;
    }
  }

  lemma MergeIntoKeys(merged: seq<SearchState>, s: SearchState)
    requires DistinctKeys(merged)
    ensures DistinctKeys(MergeInto(merged, s))
    ensures KeySet(MergeInto(merged, s)) == KeySet(merged) + {KeyOf(s)}
  {
    var j := FindKey(merged, KeyOf(s));
    if j < |merged| {
      UpdateKeys(merged, j, merged[j].(prob := merged[j].prob + s.prob));
      assert merged[j] in merged;
    } else {
      KeySetSnoc(merged, s);
    }
  }

  /** Replacing a branch by one with the same key keeps the keys. */
  lemma UpdateKeys(merged: seq<SearchState>, j: nat, x: SearchState)
    requires j < |merged| && KeyOf(x) == KeyOf(merged[j]) && DistinctKeys(merged)
    ensures DistinctKeys(merged[j := x]) && KeySet(merged[j := x]) == KeySet(merged)
  {
    var n := merged[j := x];
    assert forall i :: 0 <= i < |n| ==> KeyOf(n[i]) == KeyOf(merged[i]);
    forall k | k in KeySet(n) ensures k in KeySet(merged) {
      var t :| t in n && KeyOf(t) == k;
      var i :| 0 <= i < |n| && n[i] == t;
      assert merged[i] in merged;
    }
    forall k | k in KeySet(merged) ensures k in KeySet(n) {
      var t :| t in merged && KeyOf(t) == k;
      var i :| 0 <= i < |merged| && merged[i] == t;
      assert n[i] in n;
    }
  }

  /** The merged branches have pairwise different keys, and between them the
      keys of all the branches. */
  lemma {:induction false} MergeKeys(states: seq<SearchState>)
    ensures DistinctKeys(Merge(states))
    ensures KeySet(Merge(states)) == KeySet(states)
  {
    if states != [] {
      var init, last := states[..|states| - 1], states[|states| - 1];
      MergeKeys(init);
      MergeIntoKeys(Merge(init), last);
      assert states == init + [last];
      KeySetSnoc(init, last);
    }
  }

  /** Each merged branch is the first branch with its key, carrying the
      probability of every branch with that key. */
  ghost predicate Represents(states: seq<SearchState>, merged: seq<SearchState>)
  {
    forall j :: 0 <= j < |merged| ==>
      FindKey(states, KeyOf(merged[j])) < |states| &&
      merged[j] == states[FindKey(states, KeyOf(merged[j]))].(prob := MassWhere(states, KeyOf(merged[j])))
  }

  lemma MassWhereSnoc(states: seq<SearchState>, s: SearchState, k: MergeKey)
    ensures MassWhere(states + [s], k) == MassWhere(states, k) + (if KeyOf(s) == k then s.prob else 0.0)
  {
    assert (states + [s])[..|states|] == states;
  }

  lemma {:induction false} MassWhereAbsent(states: seq<SearchState>, k: MergeKey)
    requires k !in KeySet(states)
    ensures MassWhere(states, k) == 0.0
  {
    if states != [] {
      var init, last := states[..|states| - 1], states[|states| - 1];
      assert states == init + [last];
      KeySetSnoc(init, last);
      MassWhereAbsent(init, k);
    }
  }

  lemma DistinctFind(merged: seq<SearchState>, j: nat)
    requires DistinctKeys(merged) && j < |merged|
    ensures FindKey(merged, KeyOf(merged[j])) == j
  {
  }

  /** The entry at j after one more branch has been merged. */
  lemma EntryAfter(init: seq<SearchState>, last: SearchState, merged: seq<SearchState>, j: nat)
    requires DistinctKeys(merged) && KeySet(merged) == KeySet(init) && Represents(init, merged)
    requires j < |MergeInto(merged, last)|
    ensures var n, all := MergeInto(merged, last), init + [last];
      FindKey(all, KeyOf(n[j])) < |all| &&
      n[j] == all[FindKey(all, KeyOf(n[j]))].(prob := MassWhere(all, KeyOf(n[j])))
  {
    var f := FindKey(merged, KeyOf(last));
    var n := MergeInto(merged, last);
    var k := KeyOf(n[j]);
    FindKeyAppend(init, last, k);
    MassWhereSnoc(init, last, k);
    if j < |merged| && j != f {
      DistinctFind(merged, j);
      assert k == KeyOf(merged[j]) != KeyOf(last);
    } else if j < |merged| {
      assert k == KeyOf(last);
    } else {
      FindKeyFound(merged, k);
      FindKeyFound(init, k);
      MassWhereAbsent(init, k);
    }
  }

  lemma {:induction false} MergeRepresents(states: seq<SearchState>)
    ensures Represents(states, Merge(states))
  {
    if states != [] {
      var init, last := states[..|states| - 1], states[|states| - 1];
      MergeRepresents(init);
      MergeKeys(init);
      assert states == init + [last];
      forall j | 0 <= j < |Merge(states)|
        ensures FindKey(states, KeyOf(Merge(states)[j])) < |states| &&
          Merge(states)[j] == states[FindKey(states, KeyOf(Merge(states)[j]))].(prob := MassWhere(states, KeyOf(Merge(states)[j])))
      {
        EntryAfter(init, last, Merge(init), j);
      }
    }
  }

  /** The merged branches come in the order their keys first appear. */
  ghost predicate FirstSeenOrder(states: seq<SearchState>, merged: seq<SearchState>)
  {
    forall i, j :: 0 <= i < j < |merged| ==> FindKey(states, KeyOf(merged[i])) < FindKey(states, KeyOf(merged[j]))
  }

  lemma {:induction false} MergeOrder(states: seq<SearchState>)
    ensures FirstSeenOrder(states, Merge(states))
  {
    if states != [] {
      var init, last := states[..|states| - 1], states[|states| - 1];
      MergeOrder(init);
      MergeKeys(init);
      MergeRepresents(init);
      assert states == init + [last];
      assert Merge(states) == MergeInto(Merge(init), last);
      OrderStep(init, last, Merge(init));
    }
  }

  /** Merging one more branch keeps the entries in first-seen order. */
  lemma OrderStep(init: seq<SearchState>, last: SearchState, m: seq<SearchState>)
    requires KeySet(m) == KeySet(init) && Represents(init, m) && FirstSeenOrder(init, m)
    ensures FirstSeenOrder(init + [last], MergeInto(m, last))
  {
    var n := MergeInto(m, last);
    FindKeyUpdateSnoc(init, last, m);
    forall i, j | 0 <= i < j < |n| ensures FindKey(init + [last], KeyOf(n[i])) < FindKey(init + [last], KeyOf(n[j])) {
      assert KeyOf(n[i]) == KeyOf(m[i]);
      if j < |m| {
        assert KeyOf(n[j]) == KeyOf(m[j]);
      }
    }
  }

  /** The old entries keep their keys and their first positions when one
      more branch is merged, and an appended entry comes after them all. */
  lemma FindKeyUpdateSnoc(init: seq<SearchState>, last: SearchState, merged: seq<SearchState>)
    requires KeySet(merged) == KeySet(init) && Represents(init, merged)
    ensures var n := MergeInto(merged, last);
      |merged| <= |n| <= |merged| + 1 &&
      (forall i :: 0 <= i < |merged| ==>
         (KeyOf(n[i]) == KeyOf(merged[i]) && FindKey(init + [last], KeyOf(n[i])) == FindKey(init, KeyOf(merged[i])) < |init|)) &&
      (|n| > |merged| ==> FindKey(init + [last], KeyOf(n[|merged|])) == |init|)
  {
    var n := MergeInto(merged, last);
    forall i | 0 <= i < |merged| ensures FindKey(init + [last], KeyOf(n[i])) == FindKey(init, KeyOf(merged[i])) < |init| {
      FindKeyAppend(init, last, KeyOf(n[i]));
    }
    if |n| > |merged| {
      FindKeyFound(merged, KeyOf(last));
      FindKeyFound(init, KeyOf(last));
      FindKeyAppend(init, last, KeyOf(last));
    }
  }

  lemma {:induction false} MassWhereSign(states: seq<SearchState>, k: MergeKey)
    requires forall i :: 0 <= i < |states| ==> states[i].prob > 0.0
    ensures MassWhere(states, k) >= 0.0
    ensures FindKey(states, k) < |states| ==> MassWhere(states, k) > 0.0
  {
    if states != [] {
      var init, last := states[..|states| - 1], states[|states| - 1];
      MassWhereSign(init, k);
      assert states == init + [last];
      FindKeyAppend(init, last, k);
    }
  }

  /** Merging keeps every branch sound. */
  lemma MergeSound(states: seq<SearchState>)
    requires forall i :: 0 <= i < |states| ==> Sound(states[i])
    ensures forall j :: 0 <= j < |Merge(states)| ==> Sound(Merge(states)[j])
  {
    MergeRepresents(states);
    forall j | 0 <= j < |Merge(states)| ensures Sound(Merge(states)[j]) {
      MassWhereSign(states, KeyOf(Merge(states)[j]));
    }
  }

  /** Merging keeps every bag table over the same ids. */
  lemma MergeIds(states: seq<SearchState>, ids: set<int>)
    requires forall i :: 0 <= i < |states| ==> states[i].bags.Keys == ids
    ensures forall j :: 0 <= j < |Merge(states)| ==> Merge(states)[j].bags.Keys == ids
  {
    MergeRepresents(states);
  }
}
