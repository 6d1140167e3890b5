/** `_prune_states`: past the limit, only the most probable branches are kept
    and their probabilities are rescaled to sum to one. */
module Pruning {
  import opened SearchStates
  import opened Draws

  /** Puts x after every branch at least as probable: the place a stable sort
      on descending probability gives a later element. */
  function InsertByProb(x: SearchState, sorted: seq<SearchState>): (r: seq<SearchState>)
    ensures |r| == |sorted| + 1
  {
    if sorted == [] then [x]
    else if sorted[0].prob >= x.prob then [sorted[0]] + InsertByProb(x, sorted[1..])
    else [x] + sorted
  }

  /** `sorted(states, key=lambda x: x["prob"], reverse=True)`: Python's sort is
      stable also in reverse, so equally probable branches keep their order. */
  function SortByProb(states: seq<SearchState>): (r: seq<SearchState>)
    ensures |r| == |states|
  {
    if states == [] then [] else InsertByProb(states[|states| - 1], SortByProb(states[..|states| - 1]))
  }

  ghost predicate Descending(s: seq<SearchState>)
  {
    forall i, j :: 0 <= i < j < |s| ==> s[i].prob >= s[j].prob
  }

  /** Every probability divided by total. */
  function Normalize(states: seq<SearchState>, total: real): (r: seq<SearchState>)
    requires total != 0.0
    ensures |r| == |states|
  {
    if states == [] then []
    else
      var last := states[|states| - 1];
      Normalize(states[..|states| - 1], total) + [last.(prob := last.prob / total)]
  }

  /** The list `_prune_states` returns. */
  function PruneOf(states: seq<SearchState>, maxStates: nat): seq<SearchState>
  {
    if |states| <= maxStates then states
    else
      var kept := SortByProb(states)[..maxStates];
      if Mass(kept) > 0.0 then Normalize(kept, Mass(kept)) else kept
  }

  method PruneStates(states: seq<SearchState>, maxStates: nat) returns (pruned: seq<SearchState>)
    ensures pruned == PruneOf(states, maxStates)
  {
    if |states| <= maxStates {
      return states;
    }
    var kept := SortByProb(states)[..maxStates];
    var total := SumProb(kept);
    pruned := kept;
    if total > 0.0 {
      pruned := Rescale(kept, total);
    }
  }

  /** `sum(s["prob"] for s in pruned_states)` */
  method SumProb(states: seq<SearchState>) returns (total: real)
    ensures total == Mass(states)
  {
    total := 0.0;
    var i := 0;
    while i < |states|
      invariant 0 <= i <= |states|
      invariant total == Mass(states[..i])
    {
      assert states[..i + 1][..i] == states[..i];
      total := total + states[i].prob;
      i := i + 1;
    }
    assert states[..i] == states;
  }

  /** `for state in pruned_states: state["prob"] /= total_prob` */
  method Rescale(kept: seq<SearchState>, total: real) returns (pruned: seq<SearchState>)
    requires total != 0.0
    ensures pruned == Normalize(kept, total)
  {
    pruned := kept;
    var i := 0;
    while i < |kept|
      invariant 0 <= i <= |kept| && |pruned| == |kept|
      invariant pruned[..i] == Normalize(kept[..i], total)
      invariant pruned[i..] == kept[i..]
    {
      assert kept[..i + 1][..i] == kept[..i];
      assert pruned[i] == kept[i];
      NormalizeStep(kept, i, total);
      pruned := pruned[i := pruned[i].(prob := pruned[i].prob / total)];
      assert pruned[..i + 1] == pruned[..i] + [pruned[i]];
      i := i + 1;
    }
    assert pruned[..i] == pruned;
    assert kept[..i] == kept;
  }

  lemma NormalizeStep(kept: seq<SearchState>, i: nat, total: real)
    requires i < |kept| && total != 0.0
    ensures Normalize(kept[..i + 1], total) == Normalize(kept[..i], total) + [kept[i].(prob := kept[i].prob / total)]
  {
    assert kept[..i + 1][..i] == kept[..i];
  }

  // What pruning keeps

  lemma {:induction false} InsertPermutes(x: SearchState, sorted: seq<SearchState>)
    ensures multiset(InsertByProb(x, sorted)) == multiset(sorted) + multiset{x}
  {
    if sorted != [] && sorted[0].prob >= x.prob {
      InsertPermutes(x, sorted[1..]);
      assert sorted == [sorted[0]] + sorted[1..];
    }
  }

  /** The sort is a permutation. */
  lemma {:induction false} SortPermutes(states: seq<SearchState>)
    ensures multiset(SortByProb(states)) == multiset(states)
  {
    if states != [] {
      var init, last := states[..|states| - 1], states[|states| - 1];
      SortPermutes(init);
      InsertPermutes(last, SortByProb(init));
      assert states == init + [last];
    }
  }

  lemma {:induction false} InsertDescending(x: SearchState, sorted: seq<SearchState>)
    requires Descending(sorted)
    ensures Descending(InsertByProb(x, sorted))
    ensures forall y :: y in InsertByProb(x, sorted) ==> y == x || y in sorted
  {
    if sorted != [] && sorted[0].prob >= x.prob {
      InsertDescending(x, sorted[1..]);
      var r := InsertByProb(x, sorted);
      forall j | 0 < j < |r| ensures r[0].prob >= r[j].prob {
        assert r[j] in InsertByProb(x, sorted[1..]);
        if r[j] != x {
          assert r[j] in sorted[1..];
        }
      }
    }
  }

  /** The sort puts the branches in descending order of probability. */
  lemma {:induction false} SortDescending(states: seq<SearchState>)
    ensures Descending(SortByProb(states))
  {
    if states != [] {
      SortDescending(states[..|states| - 1]);
      InsertDescending(states[|states| - 1], SortByProb(states[..|states| - 1]));
    }
  }

  /** The branches of probability exactly p, in list order. */
  function WithProb(s: seq<SearchState>, p: real): seq<SearchState>
  {
    if s == [] then [] else (if s[0].prob == p then [s[0]] else []) + WithProb(s[1..], p)
  }

  lemma {:induction false} WithProbAppend(a: seq<SearchState>, b: seq<SearchState>, p: real)
    ensures WithProb(a + b, p) == WithProb(a, p) + WithProb(b, p)
  {
    if a != [] {
      assert (a + b)[1..] == a[1..] + b;
      WithProbAppend(a[1..], b, p);
    } else {
      assert a + b == b;
    }
  }

  lemma {:induction false} WithProbNone(s: seq<SearchState>, p: real)
    requires forall i :: 0 <= i < |s| ==> s[i].prob < p
    ensures WithProb(s, p) == []
  {
    if s != [] {
      WithProbNone(s[1..], p);
    }
  }

  lemma {:induction false} InsertStable(x: SearchState, sorted: seq<SearchState>, p: real)
    requires Descending(sorted)
    ensures WithProb(InsertByProb(x, sorted), p) == WithProb(sorted, p) + (if x.prob == p then [x] else [])
  {
    if sorted != [] && sorted[0].prob >= x.prob {
      InsertStable(x, sorted[1..], p);
      assert InsertByProb(x, sorted)[1..] == InsertByProb(x, sorted[1..]);
    } else if x.prob == p {
      WithProbNone(sorted, p);
      assert ([x] + sorted)[1..] == sorted;
    } else {
      assert ([x] + sorted)[1..] == sorted;
    }
  }

  /** The sort is stable: the branches of any one probability come out in
      the order they went in. */
  lemma {:induction false} SortStable(states: seq<SearchState>, p: real)
    ensures WithProb(SortByProb(states), p) == WithProb(states, p)
  {
    if states != [] {
      var init, last := states[..|states| - 1], states[|states| - 1];
      SortStable(init, p);
      SortDescending(init);
      InsertStable(last, SortByProb(init), p);
      assert states == init + [last];
      WithProbAppend(init, [last], p);
      assert [last][1..] == [];
    }
  }

  /** Below the limit the list comes back unchanged; past it, exactly
      maxStates branches remain, the most probable ones: they and the dropped
      ones together are the original branches, and none dropped is more
      probable than one kept. */
  lemma PruneKeepsMostProbable(states: seq<SearchState>, maxStates: nat)
    ensures |states| <= maxStates ==> PruneOf(states, maxStates) == states
    ensures |states| > maxStates ==>
      var sorted := SortByProb(states);
      |PruneOf(states, maxStates)| == maxStates &&
      multiset(sorted[..maxStates]) + multiset(sorted[maxStates..]) == multiset(states) &&
      (forall i, j :: 0 <= i < maxStates <= j < |states| ==> sorted[i].prob >= sorted[j].prob)
  {
    if |states| > maxStates {
      var sorted := SortByProb(states);
      SortPermutes(states);
      SortDescending(states);
      assert sorted == sorted[..maxStates] + sorted[maxStates..];
    }
  }

  lemma NormalizeEntries(states: seq<SearchState>, total: real)
    requires total != 0.0
    ensures forall i :: 0 <= i < |states| ==> Normalize(states, total)[i] == states[i].(prob := states[i].prob / total)
  {
    forall i | 0 <= i < |states| ensures Normalize(states, total)[i] == states[i].(prob := states[i].prob / total) {
      NormalizeEntry(states, total, i);
    }
  }

  lemma {:induction false} NormalizeEntry(states: seq<SearchState>, total: real, i: nat)
    requires total != 0.0 && i < |states|
    ensures Normalize(states, total)[i] == states[i].(prob := states[i].prob / total)
  {
    if i < |states| - 1 {
      NormalizeEntry(states[..|states| - 1], total, i);
    }
  }

  lemma {:induction false} NormalizeMass(states: seq<SearchState>, total: real)
    requires total != 0.0
    ensures Mass(Normalize(states, total)) == Mass(states) / total
  {
    if states != [] {
      var init, last := states[..|states| - 1], states[|states| - 1];
      NormalizeMass(init, total);
      var n := Normalize(states, total);
      assert n[..|n| - 1] == Normalize(init, total);
      DivAdd(Mass(init), last.prob, total);
    }
  }

  lemma {:induction false} MassPositive(states: seq<SearchState>)
    requires states != [] && forall i :: 0 <= i < |states| ==> states[i].prob > 0.0
    ensures Mass(states) > 0.0
  {
    if |states| > 1 {
      MassPositive(states[..|states| - 1]);
    }
  }

  /** Past the limit, with branches of positive probability, the kept ones
      are rescaled to carry probability one between them. */
  lemma PruneMass(states: seq<SearchState>, maxStates: nat)
    requires |states| > maxStates > 0
    requires forall i :: 0 <= i < |states| ==> states[i].prob > 0.0
    ensures Mass(PruneOf(states, maxStates)) == 1.0
  {
    var kept := SortByProb(states)[..maxStates];
    SortPermutes(states);
    forall i | 0 <= i < |kept| ensures kept[i].prob > 0.0 {
      assert kept[i] in multiset(states);
      var k :| 0 <= k < |states| && states[k] == kept[i];
    }
    MassPositive(kept);
    NormalizeMass(kept, Mass(kept));
    DivSelf(Mass(kept));
  }

  /** Pruning keeps every branch sound and every bag table over the same ids. */
  lemma PruneSound(states: seq<SearchState>, maxStates: nat, ids: set<int>)
    requires forall i :: 0 <= i < |states| ==> Sound(states[i]) && states[i].bags.Keys == ids
    ensures forall j :: 0 <= j < |PruneOf(states, maxStates)| ==>
      Sound(PruneOf(states, maxStates)[j]) && PruneOf(states, maxStates)[j].bags.Keys == ids
  {
    if |states| > maxStates {
      var kept := SortByProb(states)[..maxStates];
      SortPermutes(states);
      forall i | 0 <= i < |kept| ensures Sound(kept[i]) && kept[i].bags.Keys == ids {
        assert kept[i] in multiset(states);
        var k :| 0 <= k < |states| && states[k] == kept[i];
      }
      if Mass(kept) > 0.0 {
        NormalizeEntries(kept, Mass(kept));
        forall j | 0 <= j < |kept| ensures kept[j].prob / Mass(kept) > 0.0 {
          DivPositive(kept[j].prob, Mass(kept));
        }
      }
    }
  }
}
