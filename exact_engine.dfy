/** `calculate_exact`: expand every branch by each operation in turn, merge
    branches with the same key, prune when there are too many, and
    aggregate the final branches by hand. */
module ExactEngine {
  import opened Tallies
  import opened Operations
  import opened SearchStates
  import opened Merging
  import opened Pruning
  import opened Distributions
  import opened Aggregation

  /** Pruning starts above this many branches ... */
  const PruneThreshold: nat := 100000
  /** ... and keeps this many. */
  const PruneTarget: nat := 50000

  /** Every branch is sound and holds exactly the bags ids. */
  ghost predicate Branches(states: seq<SearchState>, ids: set<int>)
  {
    forall i :: 0 <= i < |states| ==> Sound(states[i]) && states[i].bags.Keys == ids
  }

  /** The initial branch: an empty hand, the configured bags, probability 1. */
  function Initial(config: map<int, Tally>): SearchState
  {
    SearchState(Empty, config, 1.0)
  }

  /** The loop over `states` for one operation: the children of every
      branch in branch order, or `None` where a branch looks up a bag that
      does not exist (`KeyError`). */
  function ExpandAll(states: seq<SearchState>, op: BallDrawOperation, ghost ids: set<int>): (r: Option<seq<SearchState>>)
    requires Branches(states, ids)
    ensures r.Some? ==> Branches(r.value, ids)
  {
    if states == [] then Some([])
    else
      var n := |states| - 1;
      var s := states[n];
      match ExpandAll(states[..n], op, ids)
      case None => None
      case Some(init) =>
        if NeedsBag(s, op) && op.bagId !in s.bags then None
        else
          ChildrenSound(s, op);
          BranchesConcat(init, Children(s, op), ids);
          Some(init + Children(s, op))
  }

  lemma BranchesConcat(a: seq<SearchState>, b: seq<SearchState>, ids: set<int>)
    requires Branches(a, ids)
    requires forall c :: c in b ==> Sound(c) && c.bags.Keys == ids
    ensures Branches(a + b, ids)
  {
    forall i | 0 <= i < |a + b| ensures Sound((a + b)[i]) && (a + b)[i].bags.Keys == ids {
      if i >= |a| {
        assert (a + b)[i] == b[i - |a|];
      }
    }
  }

  /** One operation: expand, merge, and prune above the threshold. */
  function Step(states: seq<SearchState>, op: BallDrawOperation, ghost ids: set<int>): (r: Option<seq<SearchState>>)
    requires Branches(states, ids)
    ensures r.Some? ==> Branches(r.value, ids)
  {
    match ExpandAll(states, op, ids)
    case None => None
    case Some(expanded) =>
      MergeSound(expanded);
      MergeIds(expanded, ids);
      var merged := Merge(expanded);
      if |merged| > PruneThreshold then
        PruneSound(merged, PruneTarget, ids);
        Some(PruneOf(merged, PruneTarget))
      else Some(merged)
  }

  /** The branches after the operations, or `None` after a `KeyError`. */
  function Run(config: map<int, Tally>, ops: seq<BallDrawOperation>): (r: Option<seq<SearchState>>)
    requires Configured(config)
    ensures r.Some? ==> Branches(r.value, config.Keys)
  {
    if ops == [] then Some([Initial(config)])
    else
      match Run(config, ops[..|ops| - 1])
      case None => None
      case Some(states) => Step(states, ops[|ops| - 1], config.Keys)
  }

  /** The result `calculate_exact` returns. */
  function CalculateExactOf(config: map<int, Tally>, ops: seq<BallDrawOperation>): Option<ExactResult>
    requires Configured(config)
  {
    match Run(config, ops)
    case None => None
    case Some(states) => Some(ResultOf(states))
  }

  /** `calculate_exact(bags_config, operations)`. */
  method CalculateExact(config: map<int, Tally>, ops: seq<BallDrawOperation>) returns (r: Option<ExactResult>)
    requires Configured(config)
    ensures r == CalculateExactOf(config, ops)
  {
    var states := [Initial(config)];
    var k := 0;
    while k < |ops|
      invariant 0 <= k <= |ops|
      invariant Run(config, ops[..k]) == Some(states)
    {
      RunStep(config, ops, k);
      var next := StepStates(states, ops[k], config.Keys);
      if next.None? {
        RunNoneStays(config, ops, k + 1);
        return None;
      }
      states := next.value;
      k := k + 1;
    }
    assert ops[..k] == ops;
    var result := AggregateResults(states);
    r := Some(result);
  }

  /** One pass of the loop over `operations`. */
  method StepStates(states: seq<SearchState>, op: BallDrawOperation, ghost ids: set<int>) returns (r: Option<seq<SearchState>>)
    requires Branches(states, ids)
    ensures r == Step(states, op, ids)
  {
    var expanded := ExpandStates(states, op, ids);
    if expanded.None? {
      return None;
    }
    var merged := MergeStates(expanded.value);
    if |merged| > PruneThreshold {
      merged := PruneStates(merged, PruneTarget);
    }
    r := Some(merged);
  }

  /** The loop over `states`, appending each branch's children to
      `new_states`; it stops at the first `KeyError`. */
  method ExpandStates(states: seq<SearchState>, op: BallDrawOperation, ghost ids: set<int>) returns (r: Option<seq<SearchState>>)
    requires Branches(states, ids)
    ensures r == ExpandAll(states, op, ids)
  {
    var next: seq<SearchState> := [];
    var i := 0;
    while i < |states|
      invariant 0 <= i <= |states|
      invariant ExpandAll(states[..i], op, ids) == Some(next)
    {
      ExpandAllStep(states, op, ids, i);
      var s := states[i];
      if NeedsBag(s, op) && op.bagId !in s.bags {
        ExpandNoneStays(states, op, ids, i + 1);
        return None;
      }
      var children := ExpandState(s, op);
      next := next + children;
      i := i + 1;
    }
    assert states[..i] == states;
    r := Some(next);
  }

  lemma ExpandAllStep(states: seq<SearchState>, op: BallDrawOperation, ids: set<int>, i: nat)
    requires Branches(states, ids) && i < |states|
    ensures ExpandAll(states[..i + 1], op, ids) ==
      match ExpandAll(states[..i], op, ids)
      case None => None
      case Some(init) =>
        if NeedsBag(states[i], op) && op.bagId !in states[i].bags then None
        else Some(init + Children(states[i], op))
  {
    assert states[..i + 1][..i] == states[..i];
  }

  // Errors

  /** A `KeyError` on one branch ends the whole operation. */
  lemma {:induction false} ExpandNoneStays(states: seq<SearchState>, op: BallDrawOperation, ids: set<int>, k: nat)
    requires Branches(states, ids) && k <= |states|
    requires ExpandAll(states[..k], op, ids) == None
    ensures ExpandAll(states, op, ids) == None
  {
    if k < |states| {
      var n := |states| - 1;
      assert states[..n][..k] == states[..k];
      ExpandNoneStays(states[..n], op, ids, k);
    } else {
      assert states[..k] == states;
    }
  }

  lemma RunStep(config: map<int, Tally>, ops: seq<BallDrawOperation>, k: nat)
    requires Configured(config) && k < |ops|
    ensures Run(config, ops[..k + 1]) ==
      match Run(config, ops[..k])
      case None => None
      case Some(states) => Step(states, ops[k], config.Keys)
  {
    assert ops[..k + 1][..k] == ops[..k];
  }

  /** A `KeyError` in one operation ends the whole calculation. */
  lemma {:induction false} RunNoneStays(config: map<int, Tally>, ops: seq<BallDrawOperation>, k: nat)
    requires Configured(config) && k <= |ops|
    requires Run(config, ops[..k]) == None
    ensures Run(config, ops) == None
    decreases |ops| - k
  {
    if k < |ops| {
      RunStep(config, ops, k);
      RunNoneStays(config, ops, k + 1);
    } else {
      assert ops[..k] == ops;
    }
  }

  /** Where every operation's bag exists, no `KeyError` is raised. */
  lemma {:induction false} ExpandAllDefined(states: seq<SearchState>, op: BallDrawOperation, ids: set<int>)
    requires Branches(states, ids)
    requires KnownKind(op.operationType) ==> op.bagId in ids
    ensures ExpandAll(states, op, ids).Some?
  {
    if states != [] {
      ExpandAllDefined(states[..|states| - 1], op, ids);
    }
  }

  lemma {:induction false} RunDefined(config: map<int, Tally>, ops: seq<BallDrawOperation>)
    requires Configured(config)
    requires forall k :: 0 <= k < |ops| && KnownKind(ops[k].operationType) ==> ops[k].bagId in config
    ensures Run(config, ops).Some?
  {
    if ops != [] {
      var n := |ops| - 1;
      RunDefined(config, ops[..n]);
      ExpandAllDefined(Run(config, ops[..n]).value, ops[n], config.Keys);
    }
  }

  /** A draw or discard from a bag that does not exist, reached while some
      branch remains, raises `KeyError`. */
  lemma MissingBagRaises(config: map<int, Tally>, ops: seq<BallDrawOperation>, k: nat)
    requires Configured(config) && k < |ops|
    requires Run(config, ops[..k]).Some? && Run(config, ops[..k]).value != []
    requires ops[k].operationType == DrawKind || ops[k].operationType == DiscardKind
    requires ops[k].bagId !in config
    ensures Run(config, ops) == None
  {
    RunStep(config, ops, k);
    RunNoneStays(config, ops, k + 1);
  }

  // Lost probability

  /** An operation of unknown type, or a draw or discard of a negative count
      from an existing bag, leaves no branch. */
  lemma {:induction false} ExpandAllLost(states: seq<SearchState>, op: BallDrawOperation, ids: set<int>)
    requires Branches(states, ids)
    requires !KnownKind(op.operationType) || (op.operationType != ReturnKind && op.drawCount < 0 && op.bagId in ids)
    ensures ExpandAll(states, op, ids) == Some([])
  {
    if states != [] {
      var n := |states| - 1;
      ExpandAllLost(states[..n], op, ids);
      assert states[n].bags.Keys == ids;
      ChildrenLost(states[n], op);
      assert [] + Children(states[n], op) == [];
    }
  }

  /** With no branch left, no later operation adds one. */
  lemma {:induction false} RunEmptyStays(config: map<int, Tally>, ops: seq<BallDrawOperation>, k: nat)
    requires Configured(config) && k <= |ops|
    requires Run(config, ops[..k]) == Some([])
    ensures Run(config, ops) == Some([])
    decreases |ops| - k
  {
    if k < |ops| {
      RunStep(config, ops, k);
      assert ExpandAll([], ops[k], config.Keys) == Some([]);
      RunEmptyStays(config, ops, k + 1);
    } else {
      assert ops[..k] == ops;
    }
  }

  /** So such an operation makes the result empty: no branches and total
      probability 0. */
  lemma LostOperation(config: map<int, Tally>, ops: seq<BallDrawOperation>, k: nat)
    requires Configured(config) && k < |ops| && Run(config, ops[..k]).Some?
    requires !KnownKind(ops[k].operationType)
      || (ops[k].operationType != ReturnKind && ops[k].drawCount < 0 && ops[k].bagId in config)
    ensures CalculateExactOf(config, ops) == Some(ExactResult(0, 0.0, EmptyDist))
  {
    RunStep(config, ops, k);
    ExpandAllLost(Run(config, ops[..k]).value, ops[k], config.Keys);
    RunEmptyStays(config, ops, k + 1);
  }

  // Conserved probability

  /** Each operation of a known kind keeps the total probability. */
  lemma {:induction false} ExpandAllMass(states: seq<SearchState>, op: BallDrawOperation, ids: set<int>)
    requires Branches(states, ids) && KnownKind(op.operationType)
    requires op.operationType != ReturnKind ==> op.drawCount >= 0
    requires ExpandAll(states, op, ids).Some?
    ensures Mass(ExpandAll(states, op, ids).value) == Mass(states)
  {
    if states != [] {
      var n := |states| - 1;
      var s := states[n];
      ExpandAllMass(states[..n], op, ids);
      ChildrenMass(s, op);
      MassConcat(ExpandAll(states[..n], op, ids).value, Children(s, op));
    }
  }

  lemma StepMass(states: seq<SearchState>, op: BallDrawOperation, ids: set<int>)
    requires Branches(states, ids) && KnownKind(op.operationType) && Mass(states) == 1.0
    requires op.operationType != ReturnKind ==> op.drawCount >= 0
    requires Step(states, op, ids).Some?
    ensures Mass(Step(states, op, ids).value) == 1.0
  {
    var expanded := ExpandAll(states, op, ids).value;
    ExpandAllMass(states, op, ids);
    MergeMass(expanded);
    MergeSound(expanded);
    var merged := Merge(expanded);
    if |merged| > PruneThreshold {
      PruneMass(merged, PruneTarget);
    }
  }

  /** Without an unknown type or a negative count, the final branches carry
      probability 1 between them. */
  lemma {:induction false} RunMass(config: map<int, Tally>, ops: seq<BallDrawOperation>)
    requires Configured(config) && Run(config, ops).Some?
    requires forall k :: 0 <= k < |ops| ==> KnownKind(ops[k].operationType)
    requires forall k :: 0 <= k < |ops| && ops[k].operationType != ReturnKind ==> ops[k].drawCount >= 0
    ensures Mass(Run(config, ops).value) == 1.0
  {
    if ops == [] {
      assert [Initial(config)][..0] == [];
    } else {
      var n := |ops| - 1;
      RunNoneStaysContra(config, ops);
      RunMass(config, ops[..n]);
      StepMass(Run(config, ops[..n]).value, ops[n], config.Keys);
    }
  }

  lemma RunNoneStaysContra(config: map<int, Tally>, ops: seq<BallDrawOperation>)
    requires Configured(config) && ops != [] && Run(config, ops).Some?
    ensures Run(config, ops[..|ops| - 1]).Some?
  {
  }

  /** The probabilities `calculate_exact` reports: the total is 1, and each
      hand description carries the probability of the branches with that
      hand. */
  lemma ExactResultTotal(config: map<int, Tally>, ops: seq<BallDrawOperation>, key: string)
    requires Configured(config) && CalculateExactOf(config, ops).Some?
    requires forall k :: 0 <= k < |ops| ==> KnownKind(ops[k].operationType)
    requires forall k :: 0 <= k < |ops| && ops[k].operationType != ReturnKind ==> ops[k].drawCount >= 0
    ensures var r := CalculateExactOf(config, ops).value;
      r.totalProbability == 1.0 && r.totalStates == |Run(config, ops).value| &&
      Get(r.handDistribution, key) == HandMass(Run(config, ops).value, key)
  {
    var states := Run(config, ops).value;
    RunMass(config, ops);
    AggregateSum(states);
    AggregateGet(states, key);
  }
}
