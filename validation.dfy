/** `ProbabilityCalculator.validate_configuration`: the list of problems found
    in a configuration, empty when the configuration is usable. */
module Validation {
  import opened Operations

  /** A key of `bags_config` as it may arrive: an `int`, or something else
      (a JSON object's keys are strings). */
  datatype BagKey = IntKey(n: int) | TextKey(s: string)

  /** One `bag_id: color_counts` item of `bags_config`, in dict order; counts
      are whatever integers the caller supplied, negative ones included. */
  datatype RawBag = RawBag(id: BagKey, counts: seq<(string, int)>)

  /** One appended error message, carrying what the message reports. */
  datatype Violation =
    | BadBagId(id: BagKey)                              // "袋子ID必须是正整数"
    | EmptyBag(id: BagKey)                              // "袋子…必须至少有一个球"
    | NegativeCount(id: BagKey, color: string, count: int) // "…的数量不能为负数"
    | MissingBag(step: nat, bagId: int)                 // "操作…引用不存在的袋子"
    | NonPositiveDraw(step: nat, drawCount: int)        // "操作…的摸球数量必须为正数"
    | UnknownType(step: nat, operationType: string)     // "操作…的类型无效"

  /** `not isinstance(bag_id, int) or bag_id <= 0` */
  predicate BadId(id: BagKey)
  {
    !id.IntKey? || id.n <= 0
  }

  /** `sum(color_counts.values())` */
  function CountSum(counts: seq<(string, int)>): int
  {
    if counts == [] then 0 else CountSum(counts[..|counts| - 1]) + counts[|counts| - 1].1
  }

  /** The negative-count messages of one bag, in colour order. */
  function NegativeCounts(id: BagKey, counts: seq<(string, int)>): (r: seq<Violation>)
    ensures forall v :: v in r <==> exists i :: 0 <= i < |counts| && counts[i].1 < 0 && v == NegativeCount(id, counts[i].0, counts[i].1)
  {
    if counts == [] then []
    else
      var n := |counts| - 1;
      NegativeCounts(id, counts[..n]) +
        (if counts[n].1 < 0 then [NegativeCount(id, counts[n].0, counts[n].1)] else [])
  }

  /** The messages about one bag, in the order they are appended. */
  function BagViolations(b: RawBag): seq<Violation>
  {
    (if BadId(b.id) then [BadBagId(b.id)] else []) +
    (if CountSum(b.counts) <= 0 then [EmptyBag(b.id)] else []) +
    NegativeCounts(b.id, b.counts)
  }

  function AllBagViolations(bags: seq<RawBag>): seq<Violation>
  {
    if bags == [] then [] else AllBagViolations(bags[..|bags| - 1]) + BagViolations(bags[|bags| - 1])
  }

  /** `op.bag_id in bags_config`: only an `int` key can equal an `int` id. */
  predicate HasBag(bags: seq<RawBag>, bagId: int)
  {
    exists b :: b in bags && b.id == IntKey(bagId)
  }

  /** The messages about the operation numbered `step` (from 1). */
  function OpViolations(bags: seq<RawBag>, op: BallDrawOperation, step: nat): seq<Violation>
  {
    (if !HasBag(bags, op.bagId) then [MissingBag(step, op.bagId)] else []) +
    (if op.drawCount <= 0 then [NonPositiveDraw(step, op.drawCount)] else []) +
    (if !KnownKind(op.operationType) then [UnknownType(step, op.operationType)] else [])
  }

  function AllOpViolations(bags: seq<RawBag>, ops: seq<BallDrawOperation>): seq<Violation>
  {
    if ops == [] then []
    else
      var n := |ops| - 1;
      AllOpViolations(bags, ops[..n]) + OpViolations(bags, ops[n], n + 1)
  }

  /** The list `validate_configuration` returns. */
  function Violations(bags: seq<RawBag>, ops: seq<BallDrawOperation>): seq<Violation>
  {
    AllBagViolations(bags) + AllOpViolations(bags, ops)
  }

  // The checks, one by one

  /** A bag passes when its id is a positive int, it holds a ball, and no
      count is negative. */
  ghost predicate GoodBag(b: RawBag)
  {
    !BadId(b.id) && CountSum(b.counts) > 0 && forall i :: 0 <= i < |b.counts| ==> b.counts[i].1 >= 0
  }

  /** An operation passes when its bag exists, it moves at least one ball and
      its kind is one of the three; a return of more than one ball passes. */
  ghost predicate GoodOp(bags: seq<RawBag>, op: BallDrawOperation)
  {
    HasBag(bags, op.bagId) && op.drawCount > 0 && KnownKind(op.operationType)
  }

  // The method

  method ValidateConfiguration(bags: seq<RawBag>, ops: seq<BallDrawOperation>) returns (errors: seq<Violation>)
    ensures errors == Violations(bags, ops)
  {
    errors := [];
    var i := 0;
    while i < |bags|
      invariant 0 <= i <= |bags|
      invariant errors == AllBagViolations(bags[..i])
    {
      assert bags[..i + 1][..i] == bags[..i];
      var found := CheckBag(bags[i]);
      errors := errors + found;
      i := i + 1;
    }
    assert bags[..i] == bags;
    ghost var bagErrors := errors;
    var k := 0;
    while k < |ops|
      invariant 0 <= k <= |ops|
      invariant errors == bagErrors + AllOpViolations(bags, ops[..k])
    {
      assert ops[..k + 1][..k] == ops[..k];
      var found := CheckOperation(bags, ops[k], k + 1);
      errors := errors + found;
      k := k + 1;
    }
    assert ops[..k] == ops;
  }

  method CheckBag(b: RawBag) returns (errors: seq<Violation>)
    ensures errors == BagViolations(b)
  {
    errors := [];
    if !b.id.IntKey? || b.id.n <= 0 {
      errors := errors + [BadBagId(b.id)];
    }
    var total := SumCounts(b.counts);
    if total <= 0 {
      errors := errors + [EmptyBag(b.id)];
    }
    var negatives := FindNegatives(b.id, b.counts);
    errors := errors + negatives;
  }

  method SumCounts(counts: seq<(string, int)>) returns (total: int)
    ensures total == CountSum(counts)
  {
    total := 0;
    for i := 0 to |counts|
      invariant total == CountSum(counts[..i])
    {
      assert counts[..i + 1][..i] == counts[..i];
      total := total + counts[i].1;
    }
    assert counts[..|counts|] == counts;
  }

  method FindNegatives(id: BagKey, counts: seq<(string, int)>) returns (errors: seq<Violation>)
    ensures errors == NegativeCounts(id, counts)
  {
    errors := [];
    for i := 0 to |counts|
      invariant errors == NegativeCounts(id, counts[..i])
    {
      assert counts[..i + 1][..i] == counts[..i];
      var (color, count) := counts[i];
      if count < 0 {
        errors := errors + [NegativeCount(id, color, count)];
      }
    }
    assert counts[..|counts|] == counts;
  }

  method CheckOperation(bags: seq<RawBag>, op: BallDrawOperation, step: nat) returns (errors: seq<Violation>)
    ensures errors == OpViolations(bags, op, step)
  {
    errors := [];
    var present := FindBag(bags, op.bagId);
    if !present {
      errors := errors + [MissingBag(step, op.bagId)];
    }
    if op.drawCount <= 0 {
      errors := errors + [NonPositiveDraw(step, op.drawCount)];
    }
    if op.operationType != DrawKind && op.operationType != DiscardKind && op.operationType != ReturnKind {
      errors := errors + [UnknownType(step, op.operationType)];
    }
  }

  /** The dictionary lookup behind `in`. */
  method FindBag(bags: seq<RawBag>, bagId: int) returns (present: bool)
    ensures present <==> HasBag(bags, bagId)
  {
    present := false;
    var i := 0;
    while i < |bags|
      invariant 0 <= i <= |bags|
      invariant !present ==> forall j :: 0 <= j < i ==> bags[j].id != IntKey(bagId)
      invariant present ==> HasBag(bags, bagId)
    {
      if bags[i].id == IntKey(bagId) {
        present := true;
      }
      i := i + 1;
    }
  }

  // What the list says

  lemma BagViolationsEmpty(b: RawBag)
    ensures BagViolations(b) == [] <==> GoodBag(b)
  {
    if GoodBag(b) {
      NoNegativesNoMessages(b.id, b.counts);
    } else if !BadId(b.id) && CountSum(b.counts) > 0 {
      var i :| 0 <= i < |b.counts| && b.counts[i].1 < 0;
      assert NegativeCount(b.id, b.counts[i].0, b.counts[i].1) in NegativeCounts(b.id, b.counts);
    }
  }

  lemma {:induction false} NoNegativesNoMessages(id: BagKey, counts: seq<(string, int)>)
    requires forall i :: 0 <= i < |counts| ==> counts[i].1 >= 0
    ensures NegativeCounts(id, counts) == []
  {
    if counts != [] {
      NoNegativesNoMessages(id, counts[..|counts| - 1]);
    }
  }

  lemma {:induction false} AllBagViolationsEmpty(bags: seq<RawBag>)
    ensures AllBagViolations(bags) == [] <==> forall i :: 0 <= i < |bags| ==> GoodBag(bags[i])
  {
    if bags != [] {
      var n := |bags| - 1;
      AllBagViolationsEmpty(bags[..n]);
      BagViolationsEmpty(bags[n]);
      assert forall i :: 0 <= i < n ==> bags[..n][i] == bags[i];
    }
  }

  lemma {:induction false} AllOpViolationsEmpty(bags: seq<RawBag>, ops: seq<BallDrawOperation>)
    ensures AllOpViolations(bags, ops) == [] <==> forall k :: 0 <= k < |ops| ==> GoodOp(bags, ops[k])
  {
    if ops != [] {
      var n := |ops| - 1;
      AllOpViolationsEmpty(bags, ops[..n]);
      assert forall k :: 0 <= k < n ==> ops[..n][k] == ops[k];
    }
  }

  /** The configuration is reported valid exactly when every bag and every
      operation passes every check. */
  lemma ValidIff(bags: seq<RawBag>, ops: seq<BallDrawOperation>)
    ensures Violations(bags, ops) == [] <==>
      (forall i :: 0 <= i < |bags| ==> GoodBag(bags[i])) && (forall k :: 0 <= k < |ops| ==> GoodOp(bags, ops[k]))
  {
    AllBagViolationsEmpty(bags);
    AllOpViolationsEmpty(bags, ops);
  }

  /** Operation `step` (counted from 1) is reported as naming a missing bag
      exactly when it does. */
  lemma {:induction false} MissingBagReported(bags: seq<RawBag>, ops: seq<BallDrawOperation>, step: nat, bagId: int)
    ensures MissingBag(step, bagId) in AllOpViolations(bags, ops) <==>
      1 <= step <= |ops| && ops[step - 1].bagId == bagId && !HasBag(bags, bagId)
  {
    if ops != [] {
      var n := |ops| - 1;
      var init := ops[..n];
      MissingBagReported(bags, init, step, bagId);
      var x, y := AllOpViolations(bags, init), OpViolations(bags, ops[n], n + 1);
      assert AllOpViolations(bags, ops) == x + y;
      assert MissingBag(step, bagId) in x + y <==> MissingBag(step, bagId) in x || MissingBag(step, bagId) in y;
      assert MissingBag(step, bagId) in y <==> step == n + 1 && ops[n].bagId == bagId && !HasBag(bags, bagId);
      if 1 <= step <= n {
        assert init[step - 1] == ops[step - 1];
      }
    }
  }

  /** Operation `step` is reported for its draw count exactly when that count
      is not positive. */
  lemma {:induction false} NonPositiveDrawReported(bags: seq<RawBag>, ops: seq<BallDrawOperation>, step: nat, count: int)
    ensures NonPositiveDraw(step, count) in AllOpViolations(bags, ops) <==>
      1 <= step <= |ops| && ops[step - 1].drawCount == count && count <= 0
  {
    if ops != [] {
      var n := |ops| - 1;
      var init := ops[..n];
      NonPositiveDrawReported(bags, init, step, count);
      var x, y := AllOpViolations(bags, init), OpViolations(bags, ops[n], n + 1);
      assert AllOpViolations(bags, ops) == x + y;
      assert NonPositiveDraw(step, count) in x + y <==> NonPositiveDraw(step, count) in x || NonPositiveDraw(step, count) in y;
      assert NonPositiveDraw(step, count) in y <==> step == n + 1 && ops[n].drawCount == count && count <= 0;
      if 1 <= step <= n {
        assert init[step - 1] == ops[step - 1];
      }
    }
  }

  /** Operation `step` is reported for its kind exactly when the kind is not
      one of the three. */
  lemma {:induction false} UnknownTypeReported(bags: seq<RawBag>, ops: seq<BallDrawOperation>, step: nat, kind: string)
    ensures UnknownType(step, kind) in AllOpViolations(bags, ops) <==>
      1 <= step <= |ops| && ops[step - 1].operationType == kind && !KnownKind(kind)
  {
    if ops != [] {
      var n := |ops| - 1;
      var init := ops[..n];
      UnknownTypeReported(bags, init, step, kind);
      var x, y := AllOpViolations(bags, init), OpViolations(bags, ops[n], n + 1);
      assert AllOpViolations(bags, ops) == x + y;
      assert UnknownType(step, kind) in x + y <==> UnknownType(step, kind) in x || UnknownType(step, kind) in y;
      assert UnknownType(step, kind) in y <==> step == n + 1 && ops[n].operationType == kind && !KnownKind(kind);
      if 1 <= step <= n {
        assert init[step - 1] == ops[step - 1];
      }
    }
  }

  /** A message about bags comes from one of the bags. */
  lemma {:induction false} FromSomeBag(bags: seq<RawBag>, v: Violation)
    ensures v in AllBagViolations(bags) <==> exists b :: b in bags && v in BagViolations(b)
  {
    if bags != [] {
      var n := |bags| - 1;
      FromSomeBag(bags[..n], v);
      assert bags == bags[..n] + [bags[n]];
    }
  }

  /** A bag is reported for its id exactly when the id is not a positive int. */
  lemma BadBagIdReported(bags: seq<RawBag>, id: BagKey)
    ensures BadBagId(id) in AllBagViolations(bags) <==> BadId(id) && exists b :: b in bags && b.id == id
  {
    FromSomeBag(bags, BadBagId(id));
  }

  /** A bag is reported as empty exactly when its counts do not add up to a
      positive number. */
  lemma EmptyBagReported(bags: seq<RawBag>, id: BagKey)
    ensures EmptyBag(id) in AllBagViolations(bags) <==>
      exists b :: b in bags && b.id == id && CountSum(b.counts) <= 0
  {
    FromSomeBag(bags, EmptyBag(id));
  }

  /** A negative count is reported, with its bag and colour, exactly when a
      bag holds it. */
  lemma NegativeCountReported(bags: seq<RawBag>, id: BagKey, color: string, count: int)
    ensures NegativeCount(id, color, count) in AllBagViolations(bags) <==>
      count < 0 && exists b :: b in bags && b.id == id && (color, count) in b.counts
  {
    FromSomeBag(bags, NegativeCount(id, color, count));
  }
}
