/** `BagState`: one bag's colour table and ball count, updated in place by
    the engines. */
module BagStates {
  import opened Combinatorics
  import opened Tallies
  import opened Draws

  class BagState {
    /** `color_counts`, in insertion order */
    var colorCounts: Tally
    /** `total_balls`, kept beside the table rather than recomputed */
    var totalBalls: nat

    /** The table is well formed and `total_balls` is the sum of its counts. */
    ghost predicate Valid()
      reads this
    {
      WellFormed(colorCounts) && totalBalls == Total(colorCounts)
    }

    /** `BagState(color_counts)`: a copy of the table and the sum of its values. */
    constructor (counts: Tally)
      requires WellFormed(counts)
      ensures Valid()
      ensures colorCounts == counts
    {
      var sum := 0;
      for i := 0 to |counts.order|
        invariant sum == SumOver(counts.order[..i], counts)
      {
        assert counts.order[..i + 1][..i] == counts.order[..i];
        sum := sum + counts.counts[counts.order[i]];
      }
      assert counts.order[..|counts.order|] == counts.order;
      colorCounts := counts;
      totalBalls := sum;
    }

    /** `copy()`: a fresh bag holding the same table. */
    method Copy() returns (r: BagState)
      requires Valid()
      ensures fresh(r) && r.Valid()
      ensures r.colorCounts == colorCounts && r.totalBalls == totalBalls
    {
      r := new BagState(colorCounts);
    }

    /** `has_enough_balls(count)`: the bag holds at least count balls. */
    function HasEnoughBalls(count: int): (r: bool)
      reads this
      requires Valid()
      ensures r <==> count <= |Balls(colorCounts)|
    {
      TotalIsSize(colorCounts);
      totalBalls >= count
    }

    /** `remove_balls(colors)`: one ball of each listed colour leaves the bag,
        where the bag still holds one. */
    method RemoveBalls(colors: seq<string>)
      requires Valid()
      modifies this
      ensures Valid()
      ensures colorCounts == RemoveAll(old(colorCounts), colors)
      ensures Balls(colorCounts) == old(Balls(colorCounts)) - multiset(colors)
    {
      ghost var start := colorCounts;
      for i := 0 to |colors|
        invariant Valid()
        invariant colorCounts == RemoveAll(start, colors[..i])
      {
        assert colors[..i + 1][..i] == colors[..i];
        var color := colors[i];
        DecrementTotal(colorCounts, color);
        if color in colorCounts.counts && colorCounts.counts[color] > 0 {
          colorCounts := colorCounts.(counts := colorCounts.counts[color := colorCounts.counts[color] - 1]);
          totalBalls := totalBalls - 1;
        }
      }
      assert colors[..|colors|] == colors;
      RemoveAllBalls(start, colors);
    }

    /** `add_ball(color)`: one more ball of that colour, a new colour joining
        the table at the end. */
    method AddBall(color: string)
      requires Valid()
      modifies this
      ensures Valid()
      ensures colorCounts == Increment(old(colorCounts), color)
      ensures Balls(colorCounts) == old(Balls(colorCounts)) + multiset{color}
    {
      ghost var start := colorCounts;
      var order, counts := colorCounts.order, colorCounts.counts;
      if color !in counts {
        order := order + [color];
        counts := counts[color := 0];
      }
      counts := counts[color := counts[color] + 1];
      colorCounts := Tally(order, counts);
      totalBalls := totalBalls + 1;
      AddBallStep(start, color, colorCounts);
    }

    /** `draw_balls(count)`: every way of drawing count balls with its
        hypergeometric probability, in the order the recursion finds them. */
    method DrawBalls(count: int) returns (results: seq<DrawOutcome>)
      requires Valid()
      ensures results == Outcomes(colorCounts, count)
    {
      if count > totalBalls {
        return [DrawOutcome([], 1.0)];
      }
      var colors := colorCounts.order;
      results := GenerateCombinations(colorCounts, totalBalls, colors, 0, count, [], count, []);
      if count < 0 {
        CombinationsNegative(colorCounts, 0, count, []);
      }
    }
  }

  /** What drawing relies on: every listed colour has a count, and the
      ball total is their sum (implied by `BagState.Valid`). */
  ghost predicate Counted(bag: Tally, totalBalls: nat)
  {
    (forall c :: c in bag.order ==> c in bag.counts) && totalBalls == Total(bag)
  }

  /** The outcomes a run of the enumeration appends for the vectors S: those
      of `Render` for a count that is not negative, none otherwise. */
  ghost function Generated(bag: Tally, S: seq<seq<nat>>, count: int): seq<DrawOutcome>
  {
    if count < 0 then [] else Render(bag, S, count)
  }

  /** The nested `generate_combinations(idx, remaining, _, current_counts)`,
      closing over the bag's table and total: appends to the results the
      outcome of every take vector it reaches. */
  method GenerateCombinations(bag: Tally, totalBalls: nat, colors: seq<string>, idx: nat, remainingCount: int,
                              currentCounts: seq<nat>, count: int, results: seq<DrawOutcome>)
    returns (out: seq<DrawOutcome>)
    requires Counted(bag, totalBalls) && colors == bag.order
    requires |currentCounts| == idx <= |colors|
    requires count <= totalBalls && (count < 0 ==> remainingCount < 0)
    ensures out == results + Generated(bag, Combinations(bag, idx, remainingCount, currentCounts), count)
    decreases |colors| - idx, 1
  {
    if remainingCount == 0 {
      out := RecordCombination(bag, totalBalls, colors, currentCounts, count, results);
      assert Combinations(bag, idx, remainingCount, currentCounts) == [currentCounts];
      return;
    }
    if idx >= |colors| {
      assert results + [] == results;
      return results;
    }
    var color := colors[idx];
    var maxTake := Min(bag.counts[color], remainingCount);
    out := TakeEach(bag, totalBalls, colors, idx, remainingCount, currentCounts, count, results, maxTake);
  }

  /** The loop `for take in range(max_take + 1)` of `generate_combinations`:
      recurse on the next colour with each possible take in turn. */
  method TakeEach(bag: Tally, totalBalls: nat, colors: seq<string>, idx: nat, remainingCount: int,
                  currentCounts: seq<nat>, count: int, results: seq<DrawOutcome>, maxTake: int)
    returns (out: seq<DrawOutcome>)
    requires Counted(bag, totalBalls) && colors == bag.order
    requires |currentCounts| == idx < |colors| && remainingCount != 0
    requires maxTake == MaxTake(bag, idx, remainingCount)
    requires count <= totalBalls && (count < 0 ==> remainingCount < 0)
    ensures out == results + Generated(bag, Combinations(bag, idx, remainingCount, currentCounts), count)
    decreases |colors| - idx, 0
  {
    out := results;
    var take: nat := 0;
    while take < maxTake + 1
      invariant if maxTake < 0 then take == 0 else take <= maxTake + 1
      invariant out == results + Generated(bag, CombinationsUpTo(bag, idx, remainingCount, currentCounts, take), count)
      decreases maxTake + 1 - take
    {
      var newCounts := currentCounts + [take];
      ghost var before := out;
      out := GenerateCombinations(bag, totalBalls, colors, idx + 1, remainingCount - take, newCounts, count, out);
      GeneratedTakeStep(bag, idx, remainingCount, currentCounts, take, count);
      AppendStep(results, before, out,
                 Generated(bag, CombinationsUpTo(bag, idx, remainingCount, currentCounts, take), count),
                 Generated(bag, Combinations(bag, idx + 1, remainingCount - take, newCounts), count));
      take := take + 1;
    }
    CombinationsStep(bag, idx, remainingCount, currentCounts, take);
  }

  /** The `remaining_count == 0` case of `generate_combinations`: the split
      is complete; its outcome is appended when its probability is positive. */
  method RecordCombination(bag: Tally, totalBalls: nat, colors: seq<string>, currentCounts: seq<nat>,
                           count: int, results: seq<DrawOutcome>)
    returns (out: seq<DrawOutcome>)
    requires Counted(bag, totalBalls) && colors == bag.order && |currentCounts| <= |colors|
    requires 0 <= count <= totalBalls
    ensures out == results + Generated(bag, [currentCounts], count)
  {
    var numerator := Numerator(bag, colors, currentCounts);
    var denominator := Choose(totalBalls, count);
    var prob := if denominator > 0 then numerator as real / denominator as real else 0.0;
    RenderSingle(bag, currentCounts, count);
    out := results;
    if prob > 0.0 {
      var balls := BallList(colors, currentCounts);
      assert DrawOutcome(balls, prob) == ToOutcome(bag, currentCounts, count);
      out := results + [DrawOutcome(balls, prob)];
    } else {
      assert results + [] == results;
    }
  }

  /** The numerator loop of `generate_combinations`: the product of
      C(n_i, k_i) over the colours taken from. */
  method Numerator(bag: Tally, colors: seq<string>, currentCounts: seq<nat>) returns (numerator: nat)
    requires (forall c :: c in bag.order ==> c in bag.counts) && colors == bag.order && |currentCounts| <= |colors|
    ensures numerator == Weight(bag, currentCounts)
  {
    numerator := 1;
    for colorIdx := 0 to |currentCounts|
      invariant numerator == Weight(bag, currentCounts[..colorIdx])
    {
      assert currentCounts[..colorIdx + 1][..colorIdx] == currentCounts[..colorIdx];
      var take := currentCounts[colorIdx];
      if take > 0 {
        var color := colors[colorIdx];
        numerator := numerator * Choose(bag.counts[color], take);
      }
    }
    assert currentCounts[..|currentCounts|] == currentCounts;
  }

  /** The ball-list loop of `generate_combinations`: each colour repeated as
      often as it is taken, colour by colour. */
  method BallList(colors: seq<string>, currentCounts: seq<nat>) returns (balls: seq<string>)
    requires |currentCounts| <= |colors|
    ensures balls == BallsOf(colors, currentCounts)
  {
    balls := [];
    for colorIdx := 0 to |currentCounts|
      invariant balls == BallsOf(colors, currentCounts[..colorIdx])
    {
      assert currentCounts[..colorIdx + 1][..colorIdx] == currentCounts[..colorIdx];
      balls := balls + Repeat(colors[colorIdx], currentCounts[colorIdx]);
    }
    assert currentCounts[..|currentCounts|] == currentCounts;
  }

  /** Past a completed or exhausted vector, `generate_combinations` runs the
      take loop up to max_take; the loop exits there, or at once when the
      bound is negative. */
  lemma CombinationsStep(t: Tally, idx: nat, rem: int, cur: seq<nat>, take: nat)
    requires |cur| == idx < |t.order| && rem != 0
    requires if MaxTake(t, idx, rem) < 0 then take == 0 else take == MaxTake(t, idx, rem) + 1
    ensures Combinations(t, idx, rem, cur) == CombinationsUpTo(t, idx, rem, cur, take)
  {
  }

  lemma AppendStep<T>(results: seq<T>, before: seq<T>, after: seq<T>, a: seq<T>, b: seq<T>)
    requires before == results + a && after == before + b
    ensures after == results + (a + b)
  {
  }

  /** One more turn of the take loop appends the outcomes of the vectors that
      start with that take. */
  lemma GeneratedTakeStep(t: Tally, idx: nat, rem: int, cur: seq<nat>, take: nat, k: int)
    requires |cur| == idx < |t.order|
    ensures Generated(t, CombinationsUpTo(t, idx, rem, cur, take + 1), k)
         == Generated(t, CombinationsUpTo(t, idx, rem, cur, take), k)
          + Generated(t, Combinations(t, idx + 1, rem - take, cur + [take]), k)
  {
    if k >= 0 {
      assert CombinationsUpTo(t, idx, rem, cur, take + 1)
          == CombinationsUpTo(t, idx, rem, cur, take) + Combinations(t, idx + 1, rem - take, cur + [take]);
      RenderConcat(t, CombinationsUpTo(t, idx, rem, cur, take), Combinations(t, idx + 1, rem - take, cur + [take]), k);
    }
  }


  /** The two-step update of `add_ball` (insert the colour at zero when
      absent, then add one) is `Increment`, and adds exactly that ball. */
  lemma AddBallStep(t: Tally, c: string, r: Tally)
    requires WellFormed(t)
    requires r == if c in t.counts then Tally(t.order, t.counts[c := t.counts[c] + 1])
                  else Tally(t.order + [c], t.counts[c := 0][c := 0 + 1])
    ensures r == Increment(t, c) && WellFormed(r)
    ensures Total(r) == Total(t) + 1
    ensures Balls(r) == Balls(t) + multiset{c}
  {
    AddBallIsIncrement(t, c, r);
    IncrementBalls(t, c);
  }

  lemma AddBallIsIncrement(t: Tally, c: string, r: Tally)
    requires r == if c in t.counts then Tally(t.order, t.counts[c := t.counts[c] + 1])
                  else Tally(t.order + [c], t.counts[c := 0][c := 0 + 1])
    ensures r == Increment(t, c)
  {
    if c !in t.counts {
      assert t.counts[c := 0][c := 0 + 1] == t.counts[c := 1];
    }
  }

  /** The guarded decrement lowers the total by one exactly when it fires. */
  lemma DecrementTotal(t: Tally, c: string)
    requires WellFormed(t)
    ensures Total(Decrement(t, c)) == if Count(t, c) > 0 then Total(t) - 1 else Total(t)
  {
    DecrementBalls(t, c);
    TotalIsSize(t);
    BallsCountAt(t, c);
  }
}
