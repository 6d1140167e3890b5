/** The branches of the exact engine and how one operation expands one branch:
    the body of the `for state in states` loop of `calculate_exact`. */
module SearchStates {
  import opened Tallies
  import opened Draws
  import opened Operations
  import opened BagStates

  /** One branch: the hand `Counter`, the table of every bag, and the
      probability of reaching it.  (The debugging `path` is not kept.) */
  datatype SearchState = SearchState(hand: Tally, bags: map<int, Tally>, prob: real)

  /** Every bag of a `bags_config` is a well-formed colour table. */
  ghost predicate Configured(config: map<int, Tally>)
  {
    forall id :: id in config ==> WellFormed(config[id])
  }

  /** The probability mass of a list of branches. */
  function Mass(states: seq<SearchState>): real
  {
    if states == [] then 0.0 else Mass(states[..|states| - 1]) + states[|states| - 1].prob
  }

  /** What every branch of the engine satisfies: a hand kept without zeros,
      well-formed bag tables, and a positive probability. */
  ghost predicate Sound(s: SearchState)
  {
    WellFormed(s.hand) && NoZeros(s.hand) && (s.hand.counts != map[] ==> Total(s.hand) > 0)
    && s.prob > 0.0 && forall id :: id in s.bags ==> WellFormed(s.bags[id])
  }

  /** Whether expanding s by op looks up bag `op.bagId`, which raises
      `KeyError` when the bag does not exist: a draw or discard always, a
      return when the hand is not empty. */
  predicate NeedsBag(s: SearchState, op: BallDrawOperation)
  {
    op.operationType == DrawKind || op.operationType == DiscardKind
    || (op.operationType == ReturnKind && s.hand.counts != map[])
  }

  /** `state.probability * prob`: a branch's probability times that of the
      step taken from it. */
  function Times(p: real, q: real): real
  {
    p * q
  }

  /** The branch in which outcome o was drawn from bag id: the balls leave
      the bag, join the hand when it is a draw, and the probability is
      multiplied by the outcome's. */
  function DrawChild(s: SearchState, id: int, o: DrawOutcome, toHand: bool): SearchState
    requires id in s.bags
  {
    SearchState(if toHand then AddAll(s.hand, o.balls) else s.hand,
                s.bags[id := RemoveAll(s.bags[id], o.balls)],
                Times(s.prob, o.prob))
  }

  /** The children of a draw or discard, one per outcome of positive
      probability, in outcome order. */
  function DrawChildren(s: SearchState, id: int, outs: seq<DrawOutcome>, toHand: bool): seq<SearchState>
    requires id in s.bags
  {
    if outs == [] then []
    else
      var o := outs[|outs| - 1];
      DrawChildren(s, id, outs[..|outs| - 1], toHand) + (if o.prob <= 0.0 then [] else [DrawChild(s, id, o, toHand)])
  }

  lemma CountWithinTotal(t: Tally, c: string)
    requires WellFormed(t)
    ensures Count(t, c) <= Total(t)
  {
    BallsCountAt(t, c);
    TotalIsSize(t);
    var m := Balls(t);
    var one := multiset{}[c := m[c]];
    assert m == one + (m - one);
  }

  /** The branch in which one ball of colour c goes back from the hand to
      bag id, chosen with probability hand[c] / |hand|. */
  function ReturnChild(s: SearchState, id: int, c: string): SearchState
    requires id in s.bags && Count(s.hand, c) > 0 && Total(s.hand) > 0
  {
    SearchState(DecrementDrop(s.hand, c),
                s.bags[id := Increment(s.bags[id], c)],
                Times(s.prob, Count(s.hand, c) as real / Total(s.hand) as real))
  }

  /** The children of a return, one per colour the hand holds, taken in the
      order the colours are listed. */
  function ReturnChildren(s: SearchState, id: int, colors: seq<string>): seq<SearchState>
    requires id in s.bags && Total(s.hand) > 0
  {
    if colors == [] then []
    else
      var c := colors[|colors| - 1];
      ReturnChildren(s, id, colors[..|colors| - 1]) + (if Count(s.hand, c) > 0 then [ReturnChild(s, id, c)] else [])
  }

  /** All children of one branch under one operation.  A type other than
      the three known kinds has no branch of its own and yields nothing. */
  function Children(s: SearchState, op: BallDrawOperation): (r: seq<SearchState>)
    requires s.hand.counts != map[] ==> Total(s.hand) > 0
    requires NeedsBag(s, op) ==> op.bagId in s.bags
  {
    if op.operationType == DrawKind then
      DrawChildren(s, op.bagId, Outcomes(s.bags[op.bagId], op.drawCount), true)
    else if op.operationType == DiscardKind then
      DrawChildren(s, op.bagId, Outcomes(s.bags[op.bagId], op.drawCount), false)
    else if op.operationType == ReturnKind then
      if s.hand.counts == map[] then [s] else ReturnChildren(s, op.bagId, s.hand.order)
    else []
  }

  /** `for ball in balls_drawn: new_hand[ball] += 1` */
  method AddToHand(hand: Tally, balls: seq<string>) returns (h: Tally)
    ensures h == AddAll(hand, balls)
  {
    h := hand;
    var i := 0;
    while i < |balls|
      invariant 0 <= i <= |balls|
      invariant h == AddAll(hand, balls[..i])
    {
      assert balls[..i + 1][..i] == balls[..i];
      h := Increment(h, balls[i]);
      i := i + 1;
    }
    assert balls[..i] == balls;
  }

  /** One pass of the body of the loop over `states`: the children of one
      branch, or none for an unknown operation type. */
  method ExpandState(s: SearchState, op: BallDrawOperation) returns (children: seq<SearchState>)
    requires Sound(s) && (NeedsBag(s, op) ==> op.bagId in s.bags)
    ensures children == Children(s, op)
  {
    if op.operationType == DrawKind || op.operationType == DiscardKind {
      children := ExpandDraw(s, op);
    } else if op.operationType == ReturnKind {
      children := ExpandReturn(s, op);
    } else {
      children := [];
    }
  }

  /** A draw or discard: copy the bag, list its outcomes, and make one child
      per outcome of positive probability, removing the balls from a fresh
      copy of the bag and, for a draw, adding them to the hand. */
  method ExpandDraw(s: SearchState, op: BallDrawOperation) returns (children: seq<SearchState>)
    requires Sound(s) && op.bagId in s.bags
    requires op.operationType == DrawKind || op.operationType == DiscardKind
    ensures children == Children(s, op)
  {
    var toHand := op.operationType == DrawKind;
    var bag := new BagState(s.bags[op.bagId]);
    var possible := bag.DrawBalls(op.drawCount);
    children := [];
    var i := 0;
    while i < |possible|
      invariant 0 <= i <= |possible|
      invariant bag.Valid() && bag.colorCounts == s.bags[op.bagId]
      invariant children == DrawChildren(s, op.bagId, possible[..i], toHand)
    {
      DrawChildrenStep(s, op.bagId, possible, i, toHand);
      var o := possible[i];
      if o.prob > 0.0 {
        var child := DrawnState(s, op.bagId, bag, o, toHand);
        children := children + [child];
      }
      i := i + 1;
    }
    assert possible[..i] == possible;
  }

  /** The branch for one outcome: a copy of the bag without the drawn balls,
      the hand with them when it is a draw, and the product probability. */
  method DrawnState(s: SearchState, id: int, bag: BagState, o: DrawOutcome, toHand: bool) returns (child: SearchState)
    requires id in s.bags && bag.Valid() && bag.colorCounts == s.bags[id]
    ensures child == DrawChild(s, id, o, toHand)
  {
    var newCounts := CopyRemove(bag, o.balls);
    var newHand := s.hand;
    if toHand {
      newHand := AddToHand(s.hand, o.balls);
    }
    child := SearchState(newHand, s.bags[id := newCounts], Times(s.prob, o.prob));
  }

  /** `new_bag = bag.copy(); new_bag.remove_balls(balls)`: the contents of
      the copy after the removal. */
  method CopyRemove(bag: BagState, balls: seq<string>) returns (counts: Tally)
    requires bag.Valid()
    ensures counts == RemoveAll(bag.colorCounts, balls)
  {
    var newBag := bag.Copy();
    newBag.RemoveBalls(balls);
    counts := newBag.colorCounts;
  }

  /** `new_bag = bag.copy(); new_bag.add_ball(color)` */
  method CopyAdd(bag: BagState, color: string) returns (counts: Tally)
    requires bag.Valid()
    ensures counts == Increment(bag.colorCounts, color)
  {
    var newBag := bag.Copy();
    newBag.AddBall(color);
    counts := newBag.colorCounts;
  }

  lemma DrawChildrenStep(s: SearchState, id: int, outs: seq<DrawOutcome>, i: nat, toHand: bool)
    requires id in s.bags && i < |outs|
    ensures outs[i].prob <= 0.0 ==> DrawChildren(s, id, outs[..i + 1], toHand) == DrawChildren(s, id, outs[..i], toHand)
    ensures outs[i].prob > 0.0 ==>
      DrawChildren(s, id, outs[..i + 1], toHand) == DrawChildren(s, id, outs[..i], toHand) + [DrawChild(s, id, outs[i], toHand)]
  {
    assert outs[..i + 1][..i] == outs[..i];
  }

  /** A return: an empty hand passes the branch on; otherwise one child per
      colour the hand holds, moving one ball of it into a fresh copy of the
      bag with probability hand[c] / |hand|. */
  method ExpandReturn(s: SearchState, op: BallDrawOperation) returns (children: seq<SearchState>)
    requires Sound(s) && op.operationType == ReturnKind && (NeedsBag(s, op) ==> op.bagId in s.bags)
    ensures children == Children(s, op)
  {
    if s.hand.counts == map[] {
      return [s];
    }
    var handSize := |Elements(s.hand)|;
    TotalIsSize(s.hand);
    var bag := new BagState(s.bags[op.bagId]);
    children := ReturnEach(s, op.bagId, bag, s.hand.order, handSize);
  }

  /** The loop over the colours of the hand. */
  method ReturnEach(s: SearchState, id: int, bag: BagState, colors: seq<string>, handSize: nat)
    returns (children: seq<SearchState>)
    requires id in s.bags && bag.Valid() && bag.colorCounts == s.bags[id]
    requires handSize == Total(s.hand) > 0
    ensures children == ReturnChildren(s, id, colors)
  {
    children := [];
    var i := 0;
    while i < |colors|
      invariant 0 <= i <= |colors|
      invariant children == ReturnChildren(s, id, colors[..i])
    {
      ReturnChildrenStep(s, id, colors, i);
      var color := colors[i];
      if color in s.hand.counts && s.hand.counts[color] > 0 {
        var child := ReturnedState(s, id, bag, color, handSize);
        children := children + [child];
      }
      i := i + 1;
    }
    assert colors[..i] == colors;
  }

  /** The branch for one colour: the hand less one ball of it, a copy of the
      bag with it, and probability hand[color] / |hand|. */
  method ReturnedState(s: SearchState, id: int, bag: BagState, color: string, handSize: nat) returns (child: SearchState)
    requires id in s.bags && bag.Valid() && bag.colorCounts == s.bags[id]
    requires Count(s.hand, color) > 0 && handSize == Total(s.hand) > 0
    ensures child == ReturnChild(s, id, color)
  {
    var returnProb := s.hand.counts[color] as real / handSize as real;
    var newHand := DecrementDrop(s.hand, color);
    var newCounts := CopyAdd(bag, color);
    child := SearchState(newHand, s.bags[id := newCounts], Times(s.prob, returnProb));
  }

  lemma ReturnChildrenStep(s: SearchState, id: int, colors: seq<string>, i: nat)
    requires id in s.bags && Total(s.hand) > 0 && i < |colors|
    ensures Count(s.hand, colors[i]) == 0 ==> ReturnChildren(s, id, colors[..i + 1]) == ReturnChildren(s, id, colors[..i])
    ensures Count(s.hand, colors[i]) > 0 ==>
      ReturnChildren(s, id, colors[..i + 1]) == ReturnChildren(s, id, colors[..i]) + [ReturnChild(s, id, colors[i])]
  {
    assert colors[..i + 1][..i] == colors[..i];
  }

  // Probability mass

  lemma {:induction false} MassConcat(a: seq<SearchState>, b: seq<SearchState>)
    ensures Mass(a + b) == Mass(a) + Mass(b)
    decreases |b|
  {
    if b == [] {
      assert a + b == a;
    } else {
      var init := b[..|b| - 1];
      assert (a + b)[..|a + b| - 1] == a + init;
      assert (a + b)[|a + b| - 1] == b[|b| - 1];
      MassConcat(a, init);
    }
  }

  lemma {:induction false} SumProbsSnoc(outs: seq<DrawOutcome>)
    requires outs != []
    ensures SumProbs(outs) == SumProbs(outs[..|outs| - 1]) + outs[|outs| - 1].prob
  {
    if |outs| > 1 {
      assert outs[1..][..|outs[1..]| - 1] == outs[..|outs| - 1][1..];
      SumProbsSnoc(outs[1..]);
    }
  }

  /** Every outcome `draw_balls` reports has positive probability. */
  lemma OutcomesPositive(t: Tally, k: int)
    requires WellFormed(t)
    ensures forall o :: o in Outcomes(t, k) ==> o.prob > 0.0
  {
    if 0 <= k <= Total(t) {
      forall o | o in Outcomes(t, k) ensures o.prob > 0.0 {
        OutcomeFacts(t, k, o);
      }
    }
  }

  /** p * o.prob summed over the outcomes, in the order the children are
      built. */
  function ScaledSum(p: real, outs: seq<DrawOutcome>): real
  {
    if outs == [] then 0.0 else ScaledSum(p, outs[..|outs| - 1]) + Times(p, outs[|outs| - 1].prob)
  }

  lemma {:induction false} ScaledSumProduct(p: real, outs: seq<DrawOutcome>)
    ensures ScaledSum(p, outs) == p * SumProbs(outs)
  {
    if outs == [] {
      MulZero(p);
    } else {
      ScaledSumProduct(p, outs[..|outs| - 1]);
      SumProbsSnoc(outs);
      MulSplit(p, SumProbs(outs), SumProbs(outs[..|outs| - 1]), outs[|outs| - 1].prob);
    }
  }

  /** ScaledSum over outcomes whose weights add up to one is the scale. */
  lemma ScaledWhole(p: real, outs: seq<DrawOutcome>, m: real)
    requires SumProbs(outs) == 1.0 && m == ScaledSum(p, outs)
    ensures m == p
  {
    ScaledSumProduct(p, outs);
    MulOne(p, SumProbs(outs));
  }

  /** The children of a draw carry p * o.prob for each outcome o, in order. */
  lemma {:induction false} DrawChildrenScaled(s: SearchState, id: int, outs: seq<DrawOutcome>, toHand: bool)
    requires id in s.bags
    requires forall o :: o in outs ==> o.prob > 0.0
    ensures Mass(DrawChildren(s, id, outs, toHand)) == ScaledSum(s.prob, outs)
  {
    if outs != [] {
      var init, o := outs[..|outs| - 1], outs[|outs| - 1];
      assert o in outs;
      var head, child := DrawChildren(s, id, init, toHand), DrawChild(s, id, o, toHand);
      DrawChildrenScaled(s, id, init, toHand);
      MassConcat(head, [child]);
      assert Mass([child]) == child.prob by {
        assert [child][..0] == [];
      }
    }
  }

  lemma MulZero(x: real)
    ensures x * 0.0 == 0.0
  {
  }

  lemma MulSplit(x: real, total: real, a: real, b: real)
    requires total == a + b
    ensures x * total == x * a + x * b
  {
  }

  lemma DivMulSplit(x: real, total: real, a: real, b: real, n: real)
    requires n != 0.0 && total == a + b
    ensures x * (total / n) == x * (a / n) + x * (b / n)
  {
    assert total / n == a / n + b / n;
  }

  /** p * hand[c] / |hand| summed over the listed colours the hand holds. */
  function ShareSum(p: real, hand: Tally, colors: seq<string>): real
    requires Total(hand) > 0
  {
    if colors == [] then 0.0
    else
      var c := colors[|colors| - 1];
      ShareSum(p, hand, colors[..|colors| - 1]) + (if Count(hand, c) > 0 then Times(p, Count(hand, c) as real / Total(hand) as real) else 0.0)
  }

  lemma {:induction false} ShareSumProduct(p: real, hand: Tally, colors: seq<string>)
    requires Total(hand) > 0
    ensures ShareSum(p, hand, colors) == p * (SumOver(colors, hand) as real / Total(hand) as real)
  {
    var n := Total(hand) as real;
    if colors == [] {
      assert 0.0 / n == 0.0;
      MulZero(p);
    } else {
      var init, c := colors[..|colors| - 1], colors[|colors| - 1];
      ShareSumProduct(p, hand, init);
      var a, b := SumOver(init, hand) as real, Count(hand, c) as real;
      if Count(hand, c) == 0 {
        assert b / n == 0.0;
        MulZero(p);
      }
      DivMulSplit(p, SumOver(colors, hand) as real, a, b, n);
    }
  }

  /** The shares of all the colours a hand lists make up its whole. */
  lemma SharesWhole(p: real, hand: Tally, m: real)
    requires Total(hand) > 0 && m == ShareSum(p, hand, hand.order)
    ensures m == p
  {
    ShareSumProduct(p, hand, hand.order);
    var n := Total(hand) as real;
    assert SumOver(hand.order, hand) as real / n == 1.0;
    MulOne(p, SumOver(hand.order, hand) as real / n);
  }

  /** The children of a return over some colours carry p * hand[c] / |hand|
      for each colour c the hand holds. */
  lemma {:induction false} ReturnChildrenShares(s: SearchState, id: int, colors: seq<string>)
    requires id in s.bags && Total(s.hand) > 0
    ensures Mass(ReturnChildren(s, id, colors)) == ShareSum(s.prob, s.hand, colors)
  {
    if colors != [] {
      var init, c := colors[..|colors| - 1], colors[|colors| - 1];
      ReturnChildrenShares(s, id, init);
      var head := ReturnChildren(s, id, init);
      if Count(s.hand, c) > 0 {
        var child := ReturnChild(s, id, c);
        MassConcat(head, [child]);
        assert Mass([child]) == child.prob by {
          assert [child][..0] == [];
        }
        SumOfParts(Mass(ReturnChildren(s, id, colors)), Mass(head), child.prob, ShareSum(s.prob, s.hand, colors));
      } else {
        MassConcat(head, []);
        SumOfParts(Mass(ReturnChildren(s, id, colors)), Mass(head), 0.0, ShareSum(s.prob, s.hand, colors));
      }
    }
  }

  /** Closes a sum of two known parts, keeping the arithmetic linear. */
  lemma SumOfParts(total: real, x: real, y: real, goal: real)
    requires total == x + y && goal == x + y
    ensures total == goal
  {
  }

  lemma MulOne(x: real, y: real)
    requires y == 1.0
    ensures x * y == x
  {
  }

  /** Expansion conserves probability: the children of a branch under a
      draw or discard of k >= 0 balls, or under a return, together carry
      exactly the branch's probability. */
  lemma ChildrenMass(s: SearchState, op: BallDrawOperation)
    requires Sound(s) && (NeedsBag(s, op) ==> op.bagId in s.bags)
    requires KnownKind(op.operationType)
    requires op.operationType != ReturnKind ==> op.drawCount >= 0
    ensures Mass(Children(s, op)) == s.prob
  {
    if op.operationType == ReturnKind {
      ReturnMass(s, op);
    } else {
      DrawMass(s, op);
    }
  }

  lemma DrawMass(s: SearchState, op: BallDrawOperation)
    requires Sound(s) && op.bagId in s.bags && op.drawCount >= 0
    requires op.operationType == DrawKind || op.operationType == DiscardKind
    ensures Mass(Children(s, op)) == s.prob
  {
    var bag, toHand := s.bags[op.bagId], op.operationType == DrawKind;
    var outs := Outcomes(bag, op.drawCount);
    OutcomesPositive(bag, op.drawCount);
    OutcomesSumToOne(bag, op.drawCount);
    DrawChildrenScaled(s, op.bagId, outs, toHand);
    ScaledWhole(s.prob, outs, Mass(DrawChildren(s, op.bagId, outs, toHand)));
  }

  lemma ReturnMass(s: SearchState, op: BallDrawOperation)
    requires Sound(s) && op.operationType == ReturnKind && (NeedsBag(s, op) ==> op.bagId in s.bags)
    ensures Mass(Children(s, op)) == s.prob
  {
    if s.hand.counts == map[] {
      assert [s][..0] == [];
    } else {
      ReturnChildrenShares(s, op.bagId, s.hand.order);
      SharesWhole(s.prob, s.hand, Mass(ReturnChildren(s, op.bagId, s.hand.order)));
    }
  }

  /** Where the engine loses probability: an unknown operation type yields
      no children, and so does a draw or discard of a negative count. */
  lemma ChildrenLost(s: SearchState, op: BallDrawOperation)
    requires (s.hand.counts != map[] ==> Total(s.hand) > 0) && (NeedsBag(s, op) ==> op.bagId in s.bags)
    requires !KnownKind(op.operationType) || (op.operationType != ReturnKind && op.drawCount < 0)
    ensures Children(s, op) == []
  {
    if KnownKind(op.operationType) {
      OutcomesSumToOne(s.bags[op.bagId], op.drawCount);
    }
  }

  // Membership

  lemma {:induction false} DrawChildrenMember(s: SearchState, id: int, outs: seq<DrawOutcome>, toHand: bool, c: SearchState)
    requires id in s.bags && c in DrawChildren(s, id, outs, toHand)
    ensures exists o :: o in outs && o.prob > 0.0 && c == DrawChild(s, id, o, toHand)
  {
    var init := outs[..|outs| - 1];
    if c in DrawChildren(s, id, init, toHand) {
      DrawChildrenMember(s, id, init, toHand, c);
      var o :| o in init && o.prob > 0.0 && c == DrawChild(s, id, o, toHand);
      assert o in outs;
    } else {
      assert outs[|outs| - 1] in outs;
    }
  }

  lemma {:induction false} ReturnChildrenMember(s: SearchState, id: int, colors: seq<string>, c: SearchState)
    requires id in s.bags && Total(s.hand) > 0 && c in ReturnChildren(s, id, colors)
    ensures exists col :: col in colors && Count(s.hand, col) > 0 && c == ReturnChild(s, id, col)
  {
    var init := colors[..|colors| - 1];
    if c in ReturnChildren(s, id, init) {
      ReturnChildrenMember(s, id, init, c);
      var col :| col in init && Count(s.hand, col) > 0 && c == ReturnChild(s, id, col);
      assert col in colors;
    } else {
      assert colors[|colors| - 1] in colors;
    }
  }

  /** Moving balls from a bag to a hand: the balls that leave the bag are
      the balls that join the hand. */
  lemma MoveBalls(hand: Tally, bag: Tally, balls: seq<string>)
    requires WellFormed(hand) && WellFormed(bag) && multiset(balls) <= Balls(bag)
    ensures Balls(AddAll(hand, balls)) + Balls(RemoveAll(bag, balls)) == Balls(hand) + Balls(bag)
    ensures Total(AddAll(hand, balls)) == Total(hand) + |balls|
    ensures Balls(RemoveAll(bag, balls)) <= Balls(bag)
    ensures Total(RemoveAll(bag, balls)) + |balls| == Total(bag)
  {
    RemoveAllBalls(bag, balls);
    AddAllBalls(hand, balls);
    TotalIsSize(bag);
    Shift(Balls(hand), Balls(bag), multiset(balls), Balls(AddAll(hand, balls)), Balls(RemoveAll(bag, balls)));
  }

  /** Moving a sub-multiset m from b to a keeps the union and shrinks b by |m|. */
  lemma Shift(a: multiset<string>, b: multiset<string>, m: multiset<string>, a2: multiset<string>, b2: multiset<string>)
    requires m <= b && a2 == a + m && b2 == b - m
    ensures a2 + b2 == a + b && b2 <= b && |b2| + |m| == |b|
  {
    assert b == b2 + m;
  }

  /** The children of a draw or discard are the outcomes' branches. */
  lemma DrawChildOf(s: SearchState, op: BallDrawOperation, c: SearchState) returns (o: DrawOutcome)
    requires (s.hand.counts != map[] ==> Total(s.hand) > 0) && op.bagId in s.bags
    requires op.operationType == DrawKind || op.operationType == DiscardKind
    requires c in Children(s, op)
    ensures o in Outcomes(s.bags[op.bagId], op.drawCount)
    ensures c == DrawChild(s, op.bagId, o, op.operationType == DrawKind)
  {
    var outs := Outcomes(s.bags[op.bagId], op.drawCount);
    DrawChildrenMember(s, op.bagId, outs, op.operationType == DrawKind, c);
    o :| o in outs && o.prob > 0.0 && c == DrawChild(s, op.bagId, o, op.operationType == DrawKind);
  }

  /** The balls of an outcome, with what drawing promises about them. */
  lemma OutcomeBalls(bag: Tally, k: int, o: DrawOutcome)
    requires WellFormed(bag) && o in Outcomes(bag, k)
    ensures multiset(o.balls) <= Balls(bag) && o.prob > 0.0
    ensures k <= Total(bag) ==> |o.balls| == k
    ensures k > Total(bag) ==> o == DrawOutcome([], 1.0)
  {
    if k <= Total(bag) {
      OutcomeFacts(bag, k, o);
    }
  }

  /** A draw child balances: the balls that left the bag are the balls that
      joined the hand, exactly k of them when the bag holds k, and no other
      bag changes; a bag too small for the draw leaves the branch as it was. */
  lemma DrawMovesBalls(s: SearchState, op: BallDrawOperation, c: SearchState)
    requires Sound(s) && op.operationType == DrawKind && op.bagId in s.bags
    requires c in Children(s, op)
    ensures c.bags.Keys == s.bags.Keys
    ensures forall j :: j in s.bags && j != op.bagId ==> c.bags[j] == s.bags[j]
    ensures Balls(c.hand) + Balls(c.bags[op.bagId]) == Balls(s.hand) + Balls(s.bags[op.bagId])
    ensures op.drawCount <= Total(s.bags[op.bagId]) ==> Total(c.hand) == Total(s.hand) + op.drawCount
    ensures op.drawCount > Total(s.bags[op.bagId]) ==> c == s
  {
    var o := DrawChildOf(s, op, c);
    OutcomeBalls(s.bags[op.bagId], op.drawCount, o);
    DrawChildFrame(s, op.bagId, o, true, c);
    DrawChildMoves(s, op.bagId, o, true, c);
    if op.drawCount > Total(s.bags[op.bagId]) {
      EmptyDrawChild(s, op.bagId, true, c);
    }
  }

  /** A draw or discard child changes bag id alone. */
  lemma DrawChildFrame(s: SearchState, id: int, o: DrawOutcome, toHand: bool, c: SearchState)
    requires id in s.bags && c == DrawChild(s, id, o, toHand)
    ensures c.bags.Keys == s.bags.Keys
    ensures forall j :: j in s.bags && j != id ==> c.bags[j] == s.bags[j]
    ensures !toHand ==> c.hand == s.hand
  {
  }

  /** The balls of a draw or discard child, in terms of its outcome. */
  lemma DrawChildMoves(s: SearchState, id: int, o: DrawOutcome, toHand: bool, c: SearchState)
    requires id in s.bags && WellFormed(s.hand) && WellFormed(s.bags[id])
    requires multiset(o.balls) <= Balls(s.bags[id]) && c == DrawChild(s, id, o, toHand)
    ensures toHand ==> Balls(c.hand) + Balls(c.bags[id]) == Balls(s.hand) + Balls(s.bags[id])
    ensures toHand ==> Total(c.hand) == Total(s.hand) + |o.balls|
    ensures Balls(c.bags[id]) <= Balls(s.bags[id]) && Total(c.bags[id]) + |o.balls| == Total(s.bags[id])
  {
    MoveBalls(s.hand, s.bags[id], o.balls);
  }

  /** The single empty outcome of a bag too small for the draw changes nothing. */
  lemma EmptyDrawChild(s: SearchState, id: int, toHand: bool, c: SearchState)
    requires id in s.bags && c == DrawChild(s, id, DrawOutcome([], 1.0), toHand)
    ensures c == s
  {
    assert c.bags == s.bags;
  }

  /** A discard child keeps the hand and loses exactly the discarded balls
      from the bag (k of them when the bag holds k). */
  lemma DiscardKeepsHand(s: SearchState, op: BallDrawOperation, c: SearchState)
    requires Sound(s) && op.operationType == DiscardKind && op.bagId in s.bags
    requires c in Children(s, op)
    ensures c.hand == s.hand && c.bags.Keys == s.bags.Keys
    ensures forall j :: j in s.bags && j != op.bagId ==> c.bags[j] == s.bags[j]
    ensures Balls(c.bags[op.bagId]) <= Balls(s.bags[op.bagId])
    ensures op.drawCount <= Total(s.bags[op.bagId]) ==> Total(c.bags[op.bagId]) + op.drawCount == Total(s.bags[op.bagId])
  {
    var o := DrawChildOf(s, op, c);
    OutcomeBalls(s.bags[op.bagId], op.drawCount, o);
    DrawChildFrame(s, op.bagId, o, false, c);
    DrawChildMoves(s, op.bagId, o, false, c);
  }

  /** The return children are the colours' branches. */
  lemma ReturnChildOf(s: SearchState, op: BallDrawOperation, c: SearchState) returns (col: string)
    requires Total(s.hand) > 0 && op.operationType == ReturnKind && s.hand.counts != map[] && op.bagId in s.bags
    requires c in Children(s, op)
    ensures Count(s.hand, col) > 0 && c == ReturnChild(s, op.bagId, col)
  {
    ReturnChildrenMember(s, op.bagId, s.hand.order, c);
    col :| col in s.hand.order && Count(s.hand, col) > 0 && c == ReturnChild(s, op.bagId, col);
  }

  /** A return child moves exactly one ball of a colour the hand holds from
      the hand to bag `op.bagId`, whatever `draw_count` says, with
      probability hand[c] / |hand|; an empty hand passes through unchanged. */
  lemma ReturnMovesOne(s: SearchState, op: BallDrawOperation, c: SearchState)
    requires Sound(s) && op.operationType == ReturnKind && (NeedsBag(s, op) ==> op.bagId in s.bags)
    requires c in Children(s, op)
    ensures s.hand.counts == map[] ==> c == s
    ensures s.hand.counts != map[] ==>
      (Total(s.hand) > 0 && op.bagId in s.bags && c.bags.Keys == s.bags.Keys &&
       exists col :: Count(s.hand, col) > 0
         && Balls(c.hand) == Balls(s.hand) - multiset{col}
         && Balls(c.bags[op.bagId]) == Balls(s.bags[op.bagId]) + multiset{col}
         && c.prob == s.prob * (Count(s.hand, col) as real / Total(s.hand) as real)
         && forall j :: j in s.bags && j != op.bagId ==> c.bags[j] == s.bags[j])
  {
    if s.hand.counts != map[] {
      var col := ReturnChildOf(s, op, c);
      ReturnChildFrame(s, op.bagId, col, c);
      ReturnChildMoves(s, op.bagId, col, c);
    }
  }

  /** A return child changes bag id alone, with probability hand[col] / |hand|. */
  lemma ReturnChildFrame(s: SearchState, id: int, col: string, c: SearchState)
    requires id in s.bags && Count(s.hand, col) > 0 && Total(s.hand) > 0 && c == ReturnChild(s, id, col)
    ensures c.bags.Keys == s.bags.Keys
    ensures forall j :: j in s.bags && j != id ==> c.bags[j] == s.bags[j]
    ensures c.prob == s.prob * (Count(s.hand, col) as real / Total(s.hand) as real)
  {
  }

  /** The balls of a return child: one ball of colour col changes sides. */
  lemma ReturnChildMoves(s: SearchState, id: int, col: string, c: SearchState)
    requires id in s.bags && WellFormed(s.hand) && WellFormed(s.bags[id])
    requires Count(s.hand, col) > 0 && Total(s.hand) > 0 && c == ReturnChild(s, id, col)
    ensures Balls(c.hand) == Balls(s.hand) - multiset{col}
    ensures Balls(c.bags[id]) == Balls(s.bags[id]) + multiset{col}
  {
    DecrementDropBalls(s.hand, col);
    IncrementBalls(s.bags[id], col);
  }

  /** Expansion keeps every branch sound, with the same bags. */
  lemma ChildrenSound(s: SearchState, op: BallDrawOperation)
    requires Sound(s) && (NeedsBag(s, op) ==> op.bagId in s.bags)
    ensures forall c :: c in Children(s, op) ==> Sound(c) && c.bags.Keys == s.bags.Keys
  {
    forall c | c in Children(s, op) ensures Sound(c) && c.bags.Keys == s.bags.Keys {
      ChildSound(s, op, c);
    }
  }

  lemma ChildSound(s: SearchState, op: BallDrawOperation, c: SearchState)
    requires Sound(s) && (NeedsBag(s, op) ==> op.bagId in s.bags)
    requires c in Children(s, op)
    ensures Sound(c) && c.bags.Keys == s.bags.Keys
  {
    if op.operationType == DrawKind || op.operationType == DiscardKind {
      var o := DrawChildOf(s, op, c);
      OutcomeBalls(s.bags[op.bagId], op.drawCount, o);
      DrawChildSound(s, op.bagId, o, op.operationType == DrawKind, c);
    } else if op.operationType == ReturnKind && s.hand.counts != map[] {
      var col := ReturnChildOf(s, op, c);
      ReturnChildSound(s, op.bagId, col, c);
    }
  }

  lemma DrawChildSound(s: SearchState, id: int, o: DrawOutcome, toHand: bool, c: SearchState)
    requires Sound(s) && id in s.bags && o.prob > 0.0 && c == DrawChild(s, id, o, toHand)
    ensures Sound(c) && c.bags.Keys == s.bags.Keys
  {
    PositiveProduct(s.prob, o.prob);
    HeldTotal(c.hand);
  }

  lemma ReturnChildSound(s: SearchState, id: int, col: string, c: SearchState)
    requires Sound(s) && id in s.bags && Count(s.hand, col) > 0 && c == ReturnChild(s, id, col)
    ensures Sound(c) && c.bags.Keys == s.bags.Keys
  {
    CountWithinTotal(s.hand, col);
    RatioPositive(Count(s.hand, col), Total(s.hand));
    PositiveProduct(s.prob, Count(s.hand, col) as real / Total(s.hand) as real);
    HeldTotal(c.hand);
  }

  lemma RatioPositive(a: nat, b: nat)
    requires 0 < a <= b
    ensures a as real / b as real > 0.0
  {
  }

  /** A non-empty hand kept without zeros holds at least one ball. */
  lemma HeldTotal(h: Tally)
    requires WellFormed(h) && NoZeros(h)
    ensures h.counts != map[] ==> Total(h) > 0
  {
    if h.counts != map[] {
      var c :| c in h.counts;
      CountWithinTotal(h, c);
    }
  }

  lemma PositiveProduct(x: real, y: real)
    requires x > 0.0 && y > 0.0
    ensures x * y > 0.0
  {
  }
}
