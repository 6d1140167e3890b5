/** `_aggregate_results`: the probability of each final hand, keyed by its
    description. */
module Aggregation {
  import opened Tallies
  import opened SearchStates
  import opened Merging
  import opened Distributions
  import opened HandKeys

  /** `hand_distribution[hand_desc] += state["prob"]` over the branches. */
  function Aggregate(states: seq<SearchState>): Dist
  {
    if states == [] then EmptyDist
    else
      var last := states[|states| - 1];
      AddTo(Aggregate(states[..|states| - 1]), HandKey(last.hand), last.prob)
  }

  /** The description of each branch's hand, in order. */
  function Labels(states: seq<SearchState>): (r: seq<string>)
    ensures |r| == |states|
    ensures forall i :: 0 <= i < |states| ==> r[i] == HandKey(states[i].hand)
  {
    seq(|states|, i requires 0 <= i < |states| => HandKey(states[i].hand))
  }

  lemma LabelsSnoc(states: seq<SearchState>)
    requires states != []
    ensures Labels(states) == Labels(states[..|states| - 1]) + [HandKey(states[|states| - 1].hand)]
  {
    var n := |states| - 1;
    var prefix := states[..n];
    forall i | 0 <= i < n ensures Labels(states)[i] == Labels(prefix)[i] {
      assert prefix[i] == states[i];
    }
    assert Labels(states)[..n] == Labels(prefix);
  }

  /** The probability of the branches whose hand is described by key. */
  function HandMass(states: seq<SearchState>, key: string): real
  {
    if states == [] then 0.0
    else
      var n := |states| - 1;
      HandMass(states[..n], key) + (if HandKey(states[n].hand) == key then states[n].prob else 0.0)
  }

  /** The dictionary `_aggregate_results` returns, without the constant
      `calculation_method` entry. */
  datatype ExactResult = ExactResult(totalStates: nat, totalProbability: real, handDistribution: Dist)

  function ResultOf(states: seq<SearchState>): ExactResult
  {
    var d := Aggregate(states);
    ExactResult(|states|, SumValues(d), d)
  }

  method AggregateResults(states: seq<SearchState>) returns (r: ExactResult)
    ensures r == ResultOf(states)
  {
    var d := EmptyDist;
    var i := 0;
    while i < |states|
      invariant 0 <= i <= |states|
      invariant d == Aggregate(states[..i])
    {
      assert states[..i + 1][..i] == states[..i];
      d := AddTo(d, HandKey(states[i].hand), states[i].prob);
      i := i + 1;
    }
    assert states[..i] == states;
    var total := SumDist(d);
    r := ExactResult(|states|, total, d);
  }

  /** `sum(hand_distribution.values())` */
  method SumDist(d: Dist) returns (total: real)
    ensures total == SumValues(d)
  {
    total := 0.0;
    var i := 0;
    while i < |d.keys|
      invariant 0 <= i <= |d.keys|
      invariant total == SumOverKeys(d.keys[..i], d)
    {
      assert d.keys[..i + 1][..i] == d.keys[..i];
      total := total + Get(d, d.keys[i]);
      i := i + 1;
    }
    assert d.keys[..i] == d.keys;
  }

  // What the table holds

  lemma {:induction false} AggregateProper(states: seq<SearchState>)
    ensures Proper(Aggregate(states))
  {
    if states != [] {
      AggregateProper(states[..|states| - 1]);
    }
  }

  /** Each description carries the probability of the branches it describes. */
  lemma {:induction false} AggregateGet(states: seq<SearchState>, key: string)
    ensures Get(Aggregate(states), key) == HandMass(states, key)
  {
    if states != [] {
      AggregateGet(states[..|states| - 1], key);
    }
  }

  /** The table's total is the probability of all branches. */
  lemma {:induction false} AggregateSum(states: seq<SearchState>)
    ensures SumValues(Aggregate(states)) == Mass(states)
  {
    if states != [] {
      var init, last := states[..|states| - 1], states[|states| - 1];
      AggregateSum(init);
      AggregateProper(init);
      AddToSum(Aggregate(init), HandKey(last.hand), last.prob);
    }
  }

  /** A description is listed exactly when some branch has that hand. */
  lemma {:induction false} AggregateKeys(states: seq<SearchState>)
    ensures forall key :: key in Aggregate(states).values <==> key in Labels(states)
  {
    if states != [] {
      AggregateKeys(states[..|states| - 1]);
      LabelsSnoc(states);
    }
  }

  // Merging does not change the answer

  lemma HandMassSnoc(states: seq<SearchState>, s: SearchState, key: string)
    ensures HandMass(states + [s], key) == HandMass(states, key) + (if HandKey(s.hand) == key then s.prob else 0.0)
  {
    assert (states + [s])[..|states|] == states;
  }

  /** Replacing a branch by one with the same hand changes only that
      branch's share. */
  lemma {:induction false} HandMassUpdate(states: seq<SearchState>, j: nat, x: SearchState, key: string)
    requires j < |states| && x.hand == states[j].hand
    ensures HandMass(states[j := x], key) ==
      HandMass(states, key) + (if HandKey(x.hand) == key then x.prob - states[j].prob else 0.0)
  {
    var n := |states| - 1;
    if j == n {
      assert states[j := x][..n] == states[..n];
    } else {
      assert states[j := x][..n] == states[..n][j := x];
      assert states[j := x][n] == states[n];
      HandMassUpdate(states[..n], j, x, key);
    }
  }

  /** Branches with the same merge key have the same hand description. */
  lemma SameKeySameHand(a: SearchState, b: SearchState)
    requires Sound(a) && Sound(b) && KeyOf(a) == KeyOf(b)
    ensures HandKey(a.hand) == HandKey(b.hand)
  {
    HandKeyCanonical(a.hand, b.hand);
  }

  lemma AbsorbHandMass(merged: seq<SearchState>, s: SearchState, j: nat, key: string)
    requires j < |merged| && HandKey(merged[j].hand) == HandKey(s.hand)
    ensures HandMass(merged[j := merged[j].(prob := merged[j].prob + s.prob)], key) ==
      HandMass(merged, key) + (if HandKey(s.hand) == key then s.prob else 0.0)
  {
    HandMassUpdate(merged, j, merged[j].(prob := merged[j].prob + s.prob), key);
  }

  lemma MergeIntoHandMass(merged: seq<SearchState>, s: SearchState, key: string)
    requires Sound(s) && forall i :: 0 <= i < |merged| ==> Sound(merged[i])
    ensures HandMass(MergeInto(merged, s), key) == HandMass(merged, key) + (if HandKey(s.hand) == key then s.prob else 0.0)
  {
    var j := FindKey(merged, KeyOf(s));
    if j < |merged| {
      assert KeyOf(merged[j]) == KeyOf(s);
      assert Sound(merged[j]);
      SameKeySameHand(merged[j], s);
      assert HandKey(merged[j].hand) == HandKey(s.hand);
      assert MergeInto(merged, s) == merged[j := merged[j].(prob := merged[j].prob + s.prob)];
      AbsorbHandMass(merged, s, j, key);
    } else {
      HandMassSnoc(merged, s, key);
    }
  }

  /** Merging keeps the probability of every hand description, so the
      distribution computed from the merged list is the unmerged one. */
  lemma {:induction false} MergeKeepsDistribution(states: seq<SearchState>, key: string)
    requires forall i :: 0 <= i < |states| ==> Sound(states[i])
    ensures HandMass(Merge(states), key) == HandMass(states, key)
  {
    if states != [] {
      var init, last := states[..|states| - 1], states[|states| - 1];
      MergeKeepsDistribution(init, key);
      MergeSound(init);
      MergeIntoHandMass(Merge(init), last, key);
    }
  }
}
