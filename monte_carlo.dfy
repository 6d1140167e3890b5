/** `monte_carlo_simulation`: repeated random trials on fresh copies of the
    bags, tallied by the description of the final hand. */
module MonteCarlo {
  import opened Tallies
  import opened Operations
  import opened Distributions
  import opened HandKeys
  import opened SearchStates
  import opened Aggregation
  import opened Pruning
  import opened Draws

  /** The random source: one raw value per call of `randbelow`.  Every
      property below holds whatever the values are. */
  type RandomSource = nat -> nat

  /** `randbelow(n)`: the raw value at the cursor, reduced below n. */
  function Below(rand: RandomSource, cursor: nat, n: nat): (r: nat)
    requires n > 0
    ensures r < n
  {
    rand(cursor) % n
  }

  // random.sample and random.choice

  /** `random.sample(population, k)` on a list, by the pool strategy: pick
      j below the pool size, take pool[j], move the last entry into slot j
      and shrink the pool by one; k raw values are used. */
  function Sample(pool: seq<string>, k: nat, rand: RandomSource, cursor: nat): (r: seq<string>)
    requires k <= |pool|
    ensures |r| == k
    decreases k
  {
    if k == 0 then []
    else
      var n := |pool| - 1;
      var j := Below(rand, cursor, |pool|);
      [pool[j]] + Sample(pool[j := pool[n]][..n], k - 1, rand, cursor + 1)
  }

  /** Moving the last entry into slot j and dropping the last slot takes
      out exactly the entry at j. */
  lemma PoolShrinks(pool: seq<string>, j: nat)
    requires j < |pool|
    ensures multiset(pool[j := pool[|pool| - 1]][..|pool| - 1]) + multiset{pool[j]} == multiset(pool)
  {
    var n := |pool| - 1;
    var next := pool[j := pool[n]];
    if j == n {
      assert pool == next[..n] + [pool[n]];
    } else {
      assert pool == pool[..j] + [pool[j]] + pool[j + 1..n] + [pool[n]];
      assert next[..n] == pool[..j] + [pool[n]] + pool[j + 1..n];
    }
  }

  /** The sample is drawn from the population: no ball is taken more often
      than it occurs there. */
  lemma {:induction false} SampleWithin(pool: seq<string>, k: nat, rand: RandomSource, cursor: nat)
    requires k <= |pool|
    ensures multiset(Sample(pool, k, rand, cursor)) <= multiset(pool)
    decreases k
  {
    if k > 0 {
      var n := |pool| - 1;
      var j := Below(rand, cursor, |pool|);
      SampleWithin(pool[j := pool[n]][..n], k - 1, rand, cursor + 1);
      PoolShrinks(pool, j);
    }
  }

  /** The sampling loop of `random.sample`: `pool = list(population)`,
      then k picks, each moving the last live entry into the slot taken. */
  method RandomSample(population: seq<string>, k: nat, rand: RandomSource, cursor: nat) returns (result: seq<string>)
    requires k <= |population|
    ensures result == Sample(population, k, rand, cursor)
  {
    var n := |population|;
    var pool := population;
    result := [];
    var i := 0;
    SampledStart(population, k, rand, cursor);
    while i < k
      invariant 0 <= i <= k && |pool| == n
      invariant SampledSoFar(population, k, rand, cursor, pool, i, result)
    {
      var j := Below(rand, cursor + i, n - i);
      SampledStep(population, k, rand, cursor, pool, i, result);
      result := result + [pool[j]];
      pool := pool[j := pool[n - i - 1]];
      i := i + 1;
    }
    SampledEnd(population, k, rand, cursor, pool, result);
  }

  /** After i picks the result so far, followed by a sample of the rest
      from the live pool, is the whole sample. */
  ghost predicate SampledSoFar(population: seq<string>, k: nat, rand: RandomSource, cursor: nat,
                               pool: seq<string>, i: nat, result: seq<string>)
  {
    |pool| == |population| && i <= k <= |population|
    && result + Sample(pool[..|pool| - i], k - i, rand, cursor + i) == Sample(population, k, rand, cursor)
  }

  lemma SampledStart(population: seq<string>, k: nat, rand: RandomSource, cursor: nat)
    requires k <= |population|
    ensures SampledSoFar(population, k, rand, cursor, population, 0, [])
  {
    assert population[..|population|] == population;
  }

  lemma SampledStep(population: seq<string>, k: nat, rand: RandomSource, cursor: nat,
                    pool: seq<string>, i: nat, result: seq<string>)
    requires SampledSoFar(population, k, rand, cursor, pool, i, result) && i < k
    ensures var n, j := |pool|, Below(rand, cursor + i, |pool| - i);
      SampledSoFar(population, k, rand, cursor, pool[j := pool[n - i - 1]], i + 1, result + [pool[j]])
  {
    var n, j := |pool|, Below(rand, cursor + i, |pool| - i);
    var live := pool[..n - i];
    assert pool[j := pool[n - i - 1]][..n - (i + 1)] == live[j := live[n - i - 1]][..n - i - 1];
  }

  lemma SampledEnd(population: seq<string>, k: nat, rand: RandomSource, cursor: nat, pool: seq<string>, result: seq<string>)
    requires SampledSoFar(population, k, rand, cursor, pool, k, result)
    ensures result == Sample(population, k, rand, cursor)
  {
    assert result + [] == result;
  }

  /** `all_balls` and `hand_balls`: each colour in key order, as many times
      as it is counted. */
  method Population(t: Tally) returns (balls: seq<string>)
    ensures balls == Elements(t)
  {
    balls := [];
    for i := 0 to |t.order|
      invariant balls == ElementsOf(t.order[..i], t)
    {
      assert t.order[..i + 1][..i] == t.order[..i];
      balls := balls + Repeat(t.order[i], Count(t, t.order[i]));
    }
    assert t.order[..|t.order|] == t.order;
  }

  /** Every listed ball is held. */
  lemma ElementHeld(t: Tally, i: nat)
    requires WellFormed(t) && i < |Elements(t)|
    ensures Count(t, Elements(t)[i]) > 0
  {
    BallsCountAt(t, Elements(t)[i]);
  }

  /** `for ball in drawn: color_counts[ball] -= 1`, deleting a colour that
      reaches zero. */
  method TakeBalls(bag: Tally, balls: seq<string>) returns (r: Tally)
    requires WellFormed(bag) && multiset(balls) <= Balls(bag)
    ensures r == DropAll(bag, balls)
  {
    r := bag;
    var i := 0;
    while i < |balls|
      invariant 0 <= i <= |balls|
      invariant multiset(balls[..i]) <= Balls(bag)
      invariant r == DropAll(bag, balls[..i])
    {
      DropAllStep(bag, balls, i);
      r := DecrementDrop(r, balls[i]);
      i := i + 1;
    }
    assert balls[..i] == balls;
  }

  /** One pass of the removal loop: the next ball is still held. */
  lemma DropAllStep(bag: Tally, balls: seq<string>, i: nat)
    requires WellFormed(bag) && multiset(balls) <= Balls(bag) && i < |balls|
    ensures multiset(balls[..i + 1]) <= Balls(bag)
    ensures multiset(balls[..i]) <= Balls(bag)
    ensures Count(DropAll(bag, balls[..i]), balls[i]) > 0
    ensures DropAll(bag, balls[..i + 1]) == DecrementDrop(DropAll(bag, balls[..i]), balls[i])
  {
    assert balls == balls[..i + 1] + balls[i + 1..];
    assert balls[..i + 1] == balls[..i] + [balls[i]];
    var mid := DropAll(bag, balls[..i]);
    NextHeld(bag, multiset(balls[..i]), balls[i], mid);
  }

  lemma NextHeld(bag: Tally, before: multiset<string>, b: string, mid: Tally)
    requires WellFormed(mid) && Balls(mid) == Balls(bag) - before
    requires before + multiset{b} <= Balls(bag)
    ensures Count(mid, b) > 0
  {
    BallsCountAt(mid, b);
  }

  // One trial

  /** The mutable state of one trial: the hand `Counter`, the bags, and
      how many raw random values have been used. */
  datatype Trial = Trial(hand: Tally, bags: map<int, Tally>, cursor: nat)

  /** A trial's hand is kept without zeros and its bags are well formed. */
  ghost predicate Kept(t: Trial)
  {
    WellFormed(t.hand) && NoZeros(t.hand) && forall id :: id in t.bags ==> WellFormed(t.bags[id])
  }

  /** A draw (toHand) or a discard: `KeyError` on a missing bag, skipped
      when the bag holds fewer than draw_count balls, `ValueError` from
      `random.sample` on a negative count; otherwise the sampled balls leave
      the bag, deleting colours that reach zero, and a draw adds them to
      the hand. */
  function DrawStep(t: Trial, op: BallDrawOperation, rand: RandomSource, toHand: bool): (r: Option<Trial>)
    requires Kept(t)
    ensures r.Some? ==> Kept(r.value) && r.value.bags.Keys == t.bags.Keys
    ensures r.None? <==> op.bagId !in t.bags || (op.drawCount < 0 && |Elements(t.bags[op.bagId])| >= op.drawCount)
    ensures op.bagId in t.bags && |Elements(t.bags[op.bagId])| < op.drawCount ==> r == Some(t)
  {
    if op.bagId !in t.bags then None
    else
      var bag := t.bags[op.bagId];
      var pop := Elements(bag);
      if |pop| < op.drawCount then Some(t)
      else if op.drawCount < 0 then None
      else
        var balls := Sample(pop, op.drawCount, rand, t.cursor);
        SampleWithin(pop, op.drawCount, rand, t.cursor);
        Some(Drawn(t, op.bagId, balls, toHand, op.drawCount))
  }

  /** The trial after the sampled balls leave bag id and, for a draw, join
      the hand. */
  function Drawn(t: Trial, id: int, balls: seq<string>, toHand: bool, used: nat): (r: Trial)
    requires Kept(t) && id in t.bags && multiset(balls) <= Balls(t.bags[id])
    ensures Kept(r) && r.bags.Keys == t.bags.Keys
  {
    Trial(if toHand then AddAll(t.hand, balls) else t.hand,
          t.bags[id := DropAll(t.bags[id], balls)],
          t.cursor + used)
  }

  /** A return: skipped with an empty hand; otherwise `random.choice` picks
      one of the hand's balls, which leaves the hand (deleting a colour
      that reaches zero) and is added to the bag, `KeyError` if it is
      missing. */
  function ReturnStep(t: Trial, op: BallDrawOperation, rand: RandomSource): (r: Option<Trial>)
    requires Kept(t)
    ensures r.Some? ==> Kept(r.value) && r.value.bags.Keys == t.bags.Keys
    ensures t.hand.counts == map[] ==> r == Some(t)
    ensures r.None? <==> t.hand.counts != map[] && op.bagId !in t.bags
  {
    if t.hand.counts == map[] then Some(t)
    else if Elements(t.hand) == [] then Some(t)
    else
      var ball := ReturnedBall(t.hand, rand, t.cursor);
      if op.bagId !in t.bags then None
      else Some(Trial(DecrementDrop(t.hand, ball), t.bags[op.bagId := Increment(t.bags[op.bagId], ball)], t.cursor + 1))
  }

  /** `random.choice(hand_balls)`: the ball at position `Below(rand, cursor,
      n)` of the hand's `n` balls, as `Elements` lists them. */
  function ReturnedBall(hand: Tally, rand: RandomSource, cursor: nat): (ball: string)
    requires WellFormed(hand) && Elements(hand) != []
    ensures Count(hand, ball) > 0
  {
    var held := Elements(hand);
    var i := Below(rand, cursor, |held|);
    ElementHeld(hand, i);
    held[i]
  }

  /** One operation; a type other than the three kinds does nothing. */
  function ApplyOp(t: Trial, op: BallDrawOperation, rand: RandomSource): (r: Option<Trial>)
    requires Kept(t)
    ensures r.Some? ==> Kept(r.value) && r.value.bags.Keys == t.bags.Keys
    ensures !KnownKind(op.operationType) ==> r == Some(t)
  {
    if op.operationType == DrawKind then DrawStep(t, op, rand, true)
    else if op.operationType == DiscardKind then DrawStep(t, op, rand, false)
    else if op.operationType == ReturnKind then ReturnStep(t, op, rand)
    else Some(t)
  }

  /** One trial: fresh bags from the configuration, an empty hand, and the
      operations in order. */
  function RunTrial(config: map<int, Tally>, ops: seq<BallDrawOperation>, rand: RandomSource, cursor: nat): (r: Option<Trial>)
    requires Configured(config)
    ensures r.Some? ==> Kept(r.value) && r.value.bags.Keys == config.Keys
  {
    if ops == [] then Some(Trial(Empty, config, cursor))
    else
      match RunTrial(config, ops[..|ops| - 1], rand, cursor)
      case None => None
      case Some(t) => ApplyOp(t, ops[|ops| - 1], rand)
  }

  // All trials

  /** The hand descriptions of n trials in turn, each trial continuing the
      random source where the last stopped, with the cursor after them. */
  function TrialKeys(config: map<int, Tally>, ops: seq<BallDrawOperation>, rand: RandomSource, n: nat): (r: Option<(seq<string>, nat)>)
    requires Configured(config)
    ensures r.Some? ==> |r.value.0| == n
  {
    if n == 0 then Some(([], 0))
    else
      match TrialKeys(config, ops, rand, n - 1)
      case None => None
      case Some((keys, cursor)) =>
        match RunTrial(config, ops, rand, cursor)
        case None => None
        case Some(t) => Some((keys + [HandKey(t.hand)], t.cursor))
  }

  /** `hand_distribution[hand_desc] = count / total_simulations` for each
      tallied description, in tally order. */
  function Frequencies(keys: seq<string>, results: Tally, total: nat): Dist
    requires keys != [] ==> total > 0
  {
    if keys == [] then EmptyDist
    else
      var k := keys[|keys| - 1];
      Put(Frequencies(keys[..|keys| - 1], results, total), k, Count(results, k) as real / total as real)
  }

  /** The dictionary `monte_carlo_simulation` returns, without the constant
      `calculation_method` entry. */
  datatype MonteCarloResult = MonteCarloResult(totalStates: nat, totalProbability: real, handDistribution: Dist, simulations: int)

  /** The number of trials `range(num_simulations)` runs. */
  function Trials(numSimulations: int): nat
  {
    if numSimulations > 0 then numSimulations else 0
  }

  /** The tally `results[hand_desc] += 1` over the trials. */
  function Tallied(keys: seq<string>): (r: Tally)
    ensures Total(r) == |keys|
  {
    AddAllBalls(Empty, keys);
    AddAll(Empty, keys)
  }

  function MonteCarloOf(config: map<int, Tally>, ops: seq<BallDrawOperation>, rand: RandomSource, numSimulations: int): Option<MonteCarloResult>
    requires Configured(config)
  {
    match Outcomes(config, ops, rand, Trials(numSimulations))
    case None => None
    case Some(results) =>
      Some(Summary(results, numSimulations))
  }

  /** The returned dictionary, from the `results` counter. */
  function Summary(results: Tally, numSimulations: int): MonteCarloResult
    requires results.order != [] ==> Total(results) > 0
  {
    var d := Frequencies(results.order, results, Total(results));
    MonteCarloResult(|d.keys|, SumValues(d), d, numSimulations)
  }

  /** The `results` counter: how many of the `n` trials ended with each hand. */
  function Outcomes(config: map<int, Tally>, ops: seq<BallDrawOperation>, rand: RandomSource, n: nat): Option<Tally>
    requires Configured(config)
  {
    match TrialKeys(config, ops, rand, n)
    case None => None
    case Some((keys, _)) => Some(Tallied(keys))
  }

  // The simulation loop

  /** `monte_carlo_simulation(bags_config, operations, num_simulations)`. */
  method MonteCarloSimulation(config: map<int, Tally>, ops: seq<BallDrawOperation>, rand: RandomSource, numSimulations: int)
    returns (r: Option<MonteCarloResult>)
    requires Configured(config)
    ensures r == MonteCarloOf(config, ops, rand, numSimulations)
  {
    var outcomes := CollectOutcomes(config, ops, rand, Trials(numSimulations));
    if outcomes.None? {
      return None;
    }
    var results := outcomes.value;
    var dist := FrequencyTable(results);
    var totalProbability := SumDist(dist);
    r := Some(MonteCarloResult(|dist.keys|, totalProbability, dist, numSimulations));
  }

  /** The `results` counter after `n` simulations. */
  method CollectOutcomes(config: map<int, Tally>, ops: seq<BallDrawOperation>, rand: RandomSource, n: nat)
    returns (r: Option<Tally>)
    requires Configured(config)
    ensures r == Outcomes(config, ops, rand, n)
  {
    var results := Empty;
    ghost var keys: seq<string> := [];
    var cursor := 0;
    var sim := 0;
    while sim < n
      invariant 0 <= sim <= n
      invariant TrialKeys(config, ops, rand, sim) == Some((keys, cursor))
      invariant results == Tallied(keys)
    {
      var trial := Simulate(config, ops, rand, cursor);
      if trial.None? {
        TrialKeysNoneStays(config, ops, rand, sim + 1, n);
        return None;
      }
      var handDesc := HandKey(trial.value.hand);
      TalliedSnoc(keys, handDesc);
      results := Increment(results, handDesc);
      keys := keys + [handDesc];
      cursor := trial.value.cursor;
      sim := sim + 1;
    }
    r := Some(results);
  }

  lemma TalliedSnoc(keys: seq<string>, k: string)
    ensures Tallied(keys + [k]) == Increment(Tallied(keys), k)
  {
    assert (keys + [k])[..|keys|] == keys;
  }

  /** `{hand: count / total_simulations for hand, count in results.items()}` */
  method FrequencyTable(results: Tally) returns (dist: Dist)
    requires results.order != [] ==> Total(results) > 0
    ensures dist == Frequencies(results.order, results, Total(results))
  {
    var total := SumCounts(results);
    dist := EmptyDist;
    var i := 0;
    while i < |results.order|
      invariant 0 <= i <= |results.order|
      invariant dist == Frequencies(results.order[..i], results, total)
    {
      assert results.order[..i + 1][..i] == results.order[..i];
      var handDesc := results.order[i];
      dist := Put(dist, handDesc, Count(results, handDesc) as real / total as real);
      i := i + 1;
    }
    assert results.order[..i] == results.order;
  }

  /** `sum(results.values())` */
  method SumCounts(results: Tally) returns (total: nat)
    ensures total == Total(results)
  {
    total := 0;
    for i := 0 to |results.order|
      invariant total == SumOver(results.order[..i], results)
    {
      assert results.order[..i + 1][..i] == results.order[..i];
      total := total + Count(results, results.order[i]);
    }
    assert results.order[..|results.order|] == results.order;
  }

  /** One trial: fresh bags, an empty `Counter`, and the operations in turn. */
  method Simulate(config: map<int, Tally>, ops: seq<BallDrawOperation>, rand: RandomSource, cursor: nat)
    returns (r: Option<Trial>)
    requires Configured(config)
    ensures r == RunTrial(config, ops, rand, cursor)
  {
    var t := Trial(Empty, config, cursor);
    var k := 0;
    while k < |ops|
      invariant 0 <= k <= |ops|
      invariant RunTrial(config, ops[..k], rand, cursor) == Some(t)
    {
      RunTrialStep(config, ops, rand, cursor, k);
      var next := ApplyOperation(t, ops[k], rand);
      if next.None? {
        RunTrialNoneStays(config, ops, rand, cursor, k + 1);
        return None;
      }
      t := next.value;
      k := k + 1;
    }
    assert ops[..k] == ops;
    r := Some(t);
  }

  /** The body of the loop over `operations` within one trial. */
  method ApplyOperation(t: Trial, op: BallDrawOperation, rand: RandomSource) returns (r: Option<Trial>)
    requires Kept(t)
    ensures r == ApplyOp(t, op, rand)
  {
    if op.operationType == DrawKind || op.operationType == DiscardKind {
      r := DrawFromBag(t, op, rand, op.operationType == DrawKind);
    } else if op.operationType == ReturnKind {
      r := ReturnToBag(t, op, rand);
    } else {
      r := Some(t);
    }
  }

  method DrawFromBag(t: Trial, op: BallDrawOperation, rand: RandomSource, toHand: bool) returns (r: Option<Trial>)
    requires Kept(t)
    ensures r == DrawStep(t, op, rand, toHand)
  {
    if op.bagId !in t.bags {
      return None;
    }
    var bag := t.bags[op.bagId];
    var allBalls := Population(bag);
    if |allBalls| < op.drawCount {
      return Some(t);
    }
    if op.drawCount < 0 {
      return None;
    }
    var drawn := RandomSample(allBalls, op.drawCount, rand, t.cursor);
    SampleWithin(allBalls, op.drawCount, rand, t.cursor);
    var next := MoveDrawn(t, op.bagId, drawn, toHand, op.drawCount);
    r := Some(next);
  }

  /** `bag.remove_balls(drawn)`, and `current_hand.update(drawn)` for a draw. */
  method MoveDrawn(t: Trial, id: int, balls: seq<string>, toHand: bool, used: nat) returns (r: Trial)
    requires Kept(t) && id in t.bags && multiset(balls) <= Balls(t.bags[id])
    ensures r == Drawn(t, id, balls, toHand, used)
  {
    var left := TakeBalls(t.bags[id], balls);
    var hand := HandAfter(t.hand, balls, toHand);
    r := Trial(hand, t.bags[id := left], t.cursor + used);
    DrawnIs(t, id, balls, toHand, used, r);
  }

  lemma DrawnIs(t: Trial, id: int, balls: seq<string>, toHand: bool, used: nat, r: Trial)
    requires Kept(t) && id in t.bags && multiset(balls) <= Balls(t.bags[id])
    requires r.hand == (if toHand then AddAll(t.hand, balls) else t.hand)
    requires r.bags == t.bags[id := DropAll(t.bags[id], balls)] && r.cursor == t.cursor + used
    ensures r == Drawn(t, id, balls, toHand, used)
  {
  }

  method HandAfter(hand: Tally, balls: seq<string>, toHand: bool) returns (h: Tally)
    ensures h == if toHand then AddAll(hand, balls) else hand
  {
    h := hand;
    if toHand {
      h := AddToHand(hand, balls);
    }
  }

  method ReturnToBag(t: Trial, op: BallDrawOperation, rand: RandomSource) returns (r: Option<Trial>)
    requires Kept(t)
    ensures r == ReturnStep(t, op, rand)
  {
    if t.hand.counts == map[] {
      return Some(t);
    }
    var handBalls := Population(t.hand);
    if handBalls == [] {
      return Some(t);
    }
    var i := Below(rand, t.cursor, |handBalls|);
    var ball := handBalls[i];
    assert ball == ReturnedBall(t.hand, rand, t.cursor);
    var hand := DecrementDrop(t.hand, ball);
    if op.bagId !in t.bags {
      return None;
    }
    r := Some(Trial(hand, t.bags[op.bagId := Increment(t.bags[op.bagId], ball)], t.cursor + 1));
  }

  lemma RunTrialStep(config: map<int, Tally>, ops: seq<BallDrawOperation>, rand: RandomSource, cursor: nat, k: nat)
    requires Configured(config) && k < |ops|
    ensures RunTrial(config, ops[..k + 1], rand, cursor) ==
      match RunTrial(config, ops[..k], rand, cursor)
      case None => None
      case Some(t) => ApplyOp(t, ops[k], rand)
  {
    assert ops[..k + 1][..k] == ops[..k];
  }

  /** An exception in one operation ends the trial, and with it the run. */
  lemma {:induction false} RunTrialNoneStays(config: map<int, Tally>, ops: seq<BallDrawOperation>, rand: RandomSource, cursor: nat, k: nat)
    requires Configured(config) && k <= |ops|
    requires RunTrial(config, ops[..k], rand, cursor) == None
    ensures RunTrial(config, ops, rand, cursor) == None
    decreases |ops| - k
  {
    if k < |ops| {
      RunTrialStep(config, ops, rand, cursor, k);
      RunTrialNoneStays(config, ops, rand, cursor, k + 1);
    } else {
      assert ops[..k] == ops;
    }
  }

  lemma {:induction false} TrialKeysNoneStays(config: map<int, Tally>, ops: seq<BallDrawOperation>, rand: RandomSource, k: nat, n: nat)
    requires Configured(config) && k <= n
    requires TrialKeys(config, ops, rand, k) == None
    ensures TrialKeys(config, ops, rand, n) == None
    decreases n - k
  {
    if k < n {
      TrialKeysNoneStays(config, ops, rand, k + 1, n);
    }
  }

  // What one operation does to a trial

  /** A draw or discard takes `draw_count` of the bag's balls, chosen without
      replacement; a draw puts them in the hand, a discard drops them. */
  lemma DrawMoves(t: Trial, op: BallDrawOperation, rand: RandomSource, toHand: bool)
    requires Kept(t) && op.bagId in t.bags
    requires 0 <= op.drawCount <= |Elements(t.bags[op.bagId])|
    ensures DrawStep(t, op, rand, toHand).Some?
    ensures var r := DrawStep(t, op, rand, toHand).value;
      var drawn := Sample(Elements(t.bags[op.bagId]), op.drawCount, rand, t.cursor);
      && |drawn| == op.drawCount
      && multiset(drawn) <= Balls(t.bags[op.bagId])
      && Balls(r.bags[op.bagId]) == Balls(t.bags[op.bagId]) - multiset(drawn)
      && Balls(r.hand) == (if toHand then Balls(t.hand) + multiset(drawn) else Balls(t.hand))
      && (forall id :: id in t.bags && id != op.bagId ==> r.bags[id] == t.bags[id])
      && r.cursor == t.cursor + op.drawCount
  {
    var bag := t.bags[op.bagId];
    var drawn := Sample(Elements(bag), op.drawCount, rand, t.cursor);
    SampleWithin(Elements(bag), op.drawCount, rand, t.cursor);
    assert DrawStep(t, op, rand, toHand) == Some(Drawn(t, op.bagId, drawn, toHand, op.drawCount));
    DrawnMoves(t, op.bagId, drawn, toHand, op.drawCount);
  }

  lemma DrawnMoves(t: Trial, id: int, balls: seq<string>, toHand: bool, used: nat)
    requires Kept(t) && id in t.bags && multiset(balls) <= Balls(t.bags[id])
    ensures var r := Drawn(t, id, balls, toHand, used);
      && Balls(r.bags[id]) == Balls(t.bags[id]) - multiset(balls)
      && Balls(r.hand) == (if toHand then Balls(t.hand) + multiset(balls) else Balls(t.hand))
      && (forall j :: j in t.bags && j != id ==> r.bags[j] == t.bags[j])
      && r.cursor == t.cursor + used
  {
    AddAllBalls(t.hand, balls);
  }

  /** A return moves one ball of the hand back into the bag, leaving the other
      bags alone. */
  lemma ReturnMovesOne(t: Trial, op: BallDrawOperation, rand: RandomSource)
    requires Kept(t) && op.bagId in t.bags && Elements(t.hand) != []
    ensures ReturnStep(t, op, rand).Some?
    ensures var r := ReturnStep(t, op, rand).value;
      var ball := ReturnedBall(t.hand, rand, t.cursor);
      && ball in Balls(t.hand)
      && Balls(r.hand) == Balls(t.hand) - multiset{ball}
      && Balls(r.bags[op.bagId]) == Balls(t.bags[op.bagId]) + multiset{ball}
      && (forall id :: id in t.bags && id != op.bagId ==> r.bags[id] == t.bags[id])
      && r.cursor == t.cursor + 1
  {
    assert t.hand.order != [];
    assert t.hand.order[0] in t.hand.counts;
    var ball := ReturnedBall(t.hand, rand, t.cursor);
    ReturnStepIs(t, op, rand);
    ReturnedMoves(t, op.bagId, ball);
  }

  lemma ReturnedMoves(t: Trial, id: int, ball: string)
    requires Kept(t) && id in t.bags && Count(t.hand, ball) > 0
    ensures var r := Trial(DecrementDrop(t.hand, ball), t.bags[id := Increment(t.bags[id], ball)], t.cursor + 1);
      && ball in Balls(t.hand)
      && Balls(r.hand) == Balls(t.hand) - multiset{ball}
      && Balls(r.bags[id]) == Balls(t.bags[id]) + multiset{ball}
      && (forall j :: j in t.bags && j != id ==> r.bags[j] == t.bags[j])
  {
    BallsCountAt(t.hand, ball);
    DecrementDropBalls(t.hand, ball);
    IncrementBalls(t.bags[id], ball);
  }

  lemma ReturnStepIs(t: Trial, op: BallDrawOperation, rand: RandomSource)
    requires Kept(t) && op.bagId in t.bags && t.hand.counts != map[] && Elements(t.hand) != []
    ensures var ball := ReturnedBall(t.hand, rand, t.cursor);
      ReturnStep(t, op, rand) ==
        Some(Trial(DecrementDrop(t.hand, ball), t.bags[op.bagId := Increment(t.bags[op.bagId], ball)], t.cursor + 1))
  {
  }

  // What the counter and the frequencies hold

  /** `results[hand]` is the number of trials that ended with that hand. */
  lemma TalliedCount(keys: seq<string>, k: string)
    ensures WellFormed(Tallied(keys)) && NoZeros(Tallied(keys))
    ensures Count(Tallied(keys), k) == multiset(keys)[k]
    ensures k in Tallied(keys).order <==> k in keys
  {
    AddAllBalls(Empty, keys);
    BallsCountAt(Tallied(keys), k);
  }

  lemma {:induction false} FrequenciesShape(order: seq<string>, results: Tally, total: nat)
    requires Distinct(order) && (order != [] ==> total > 0)
    ensures Proper(Frequencies(order, results, total)) && Frequencies(order, results, total).keys == order
  {
    if order != [] {
      var n := |order| - 1;
      var init := order[..n];
      assert Distinct(init);
      FrequenciesShape(init, results, total);
      LastIsNew(order);
      assert order == init + [order[n]];
    }
  }

  lemma LastIsNew(order: seq<string>)
    requires Distinct(order) && order != []
    ensures order[|order| - 1] !in order[..|order| - 1]
  {
    var n := |order| - 1;
    forall i | 0 <= i < n ensures order[..n][i] != order[n] {
      assert order[i] != order[n];
    }
  }

  /** A listed hand's frequency is its count over the total; others are 0. */
  lemma {:induction false} FrequenciesGet(order: seq<string>, results: Tally, total: nat, k: string)
    requires order != [] ==> total > 0
    ensures Get(Frequencies(order, results, total), k) ==
      (if k in order then Count(results, k) as real / total as real else 0.0)
  {
    if order != [] {
      var n := |order| - 1;
      FrequenciesGet(order[..n], results, total, k);
      assert order == order[..n] + [order[n]];
    }
  }

  lemma {:induction false} ScaledSum(keys: seq<string>, d: Dist, results: Tally, total: nat)
    requires total > 0
    requires forall k :: k in keys ==> Get(d, k) == Count(results, k) as real / total as real
    ensures SumOverKeys(keys, d) == SumOver(keys, results) as real / total as real
  {
    if keys != [] {
      var n := |keys| - 1;
      ScaledSum(keys[..n], d, results, total);
      DivAdd(SumOver(keys[..n], results) as real, Count(results, keys[n]) as real, total as real);
    }
  }

  /** The frequencies of all outcomes add up to one. */
  lemma FrequenciesSum(results: Tally)
    requires WellFormed(results) && Total(results) > 0
    ensures SumValues(Frequencies(results.order, results, Total(results))) == 1.0
  {
    var total := Total(results);
    var d := Frequencies(results.order, results, total);
    FrequenciesShape(results.order, results, total);
    forall k | k in results.order
      ensures Get(d, k) == Count(results, k) as real / total as real
    {
      FrequenciesGet(results.order, results, total, k);
    }
    ScaledSum(results.order, d, results, total);
    DivSelf(total as real);
  }

  /** The counter's hands, listed once each, are exactly the hands that
      occurred, and their frequencies add up to one. */
  lemma SummaryShape(keys: seq<string>, numSimulations: int)
    requires |keys| == numSimulations > 0
    ensures var r := Summary(Tallied(keys), numSimulations);
      && Proper(r.handDistribution)
      && r.handDistribution.keys == Tallied(keys).order
      && r.totalStates == |r.handDistribution.keys|
      && r.totalProbability == 1.0
      && r.simulations == numSimulations
  {
    var results := Tallied(keys);
    TalliedCount(keys, "");
    FrequenciesShape(results.order, results, Total(results));
    FrequenciesSum(results);
  }

  /** The frequency of a hand is the fraction of trials that ended with it. */
  lemma SummaryGet(keys: seq<string>, numSimulations: int, hand: string)
    requires |keys| == numSimulations > 0
    ensures var r := Summary(Tallied(keys), numSimulations);
      && Get(r.handDistribution, hand) == multiset(keys)[hand] as real / numSimulations as real
      && (hand in r.handDistribution.values <==> hand in keys)
  {
    TalliedCount(keys, hand);
    SummaryGetOf(Tallied(keys), numSimulations, hand, multiset(keys)[hand]);
  }

  lemma SummaryGetOf(results: Tally, numSimulations: int, hand: string, c: nat)
    requires WellFormed(results) && Total(results) == numSimulations > 0
    requires Count(results, hand) == c && (hand in results.order <==> c > 0)
    ensures Get(Summary(results, numSimulations).handDistribution, hand) == c as real / numSimulations as real
    ensures hand in Summary(results, numSimulations).handDistribution.values <==> c > 0
  {
    FrequenciesShape(results.order, results, Total(results));
    FrequenciesGet(results.order, results, Total(results), hand);
    if c == 0 {
      ZeroShare(numSimulations as real);
    }
  }

  lemma ZeroShare(n: real)
    requires n != 0.0
    ensures 0 as real / n == 0.0
  {
  }

  /** With at least one simulation, `hand_distribution[hand]` is the fraction
      of trials ending with that hand, the hands listed are exactly the ones
      that occurred, `total_states` counts them and `total_probability` is 1. */
  lemma MonteCarloFrequencies(config: map<int, Tally>, ops: seq<BallDrawOperation>, rand: RandomSource,
                              numSimulations: int, keys: seq<string>, cursor: nat, hand: string)
    requires Configured(config) && numSimulations > 0
    requires TrialKeys(config, ops, rand, numSimulations) == Some((keys, cursor))
    ensures MonteCarloOf(config, ops, rand, numSimulations) == Some(Summary(Tallied(keys), numSimulations))
    ensures var r := MonteCarloOf(config, ops, rand, numSimulations).value;
      && Proper(r.handDistribution)
      && Get(r.handDistribution, hand) == multiset(keys)[hand] as real / numSimulations as real
      && (hand in r.handDistribution.values <==> hand in keys)
      && r.totalStates == |r.handDistribution.keys|
      && r.totalProbability == 1.0
  {
    SummaryShape(keys, numSimulations);
    SummaryGet(keys, numSimulations, hand);
  }

  /** With no simulations the counter is empty and so is the distribution. */
  lemma NoSimulations(config: map<int, Tally>, ops: seq<BallDrawOperation>, rand: RandomSource, numSimulations: int)
    requires Configured(config) && numSimulations <= 0
    ensures MonteCarloOf(config, ops, rand, numSimulations) == Some(MonteCarloResult(0, 0.0, EmptyDist, numSimulations))
  {
    assert Tallied([]) == Empty;
  }

  /** An operation on a bag missing from the configuration raises, and the
      whole simulation fails with it. */
  lemma MissingBagFails(config: map<int, Tally>, ops: seq<BallDrawOperation>, rand: RandomSource, numSimulations: int, k: nat)
    requires Configured(config) && numSimulations > 0 && k < |ops|
    requires (ops[k].operationType == DrawKind || ops[k].operationType == DiscardKind) && ops[k].bagId !in config
    ensures MonteCarloOf(config, ops, rand, numSimulations) == None
  {
    forall cursor: nat ensures RunTrial(config, ops, rand, cursor) == None {
      RunTrialStep(config, ops, rand, cursor, k);
      RunTrialNoneStays(config, ops, rand, cursor, k + 1);
    }
    TrialKeysNoneStays(config, ops, rand, 1, Trials(numSimulations));
  }
}
