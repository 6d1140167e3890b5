/** What `BagState.draw_balls(count)` returns, as functions: the per-colour
    splits of a draw that `generate_combinations` walks, each with its
    multivariate hypergeometric probability prod C(n_i, k_i) / C(N, count). */
module Draws {
  import opened Combinatorics
  import opened Tallies

  /** One entry of the list `draw_balls` returns: the drawn colours and the
      probability of drawing exactly them. */
  datatype DrawOutcome = DrawOutcome(balls: seq<string>, prob: real)

  /** The sum of a take vector. */
  function Sum(s: seq<nat>): nat
  {
    if s == [] then 0 else Sum(s[..|s| - 1]) + s[|s| - 1]
  }

  /** The colour at position i of the key order ("" past the end, which no
      take vector reaches). */
  function ColorAt(order: seq<string>, i: nat): string
  {
    if i < |order| then order[i] else ""
  }

  /** The number of balls of the colour at position i of the key order. */
  function CountAt(t: Tally, i: nat): nat
  {
    if i < |t.order| then Count(t, t.order[i]) else 0
  }

  /** The balls from position idx of the key order onwards. */
  function SuffixSum(t: Tally, idx: nat): nat
    decreases |t.order| - idx
  {
    if idx >= |t.order| then 0 else CountAt(t, idx) + SuffixSum(t, idx + 1)
  }

  /** `min(self.color_counts[color], remaining_count)` */
  function MaxTake(t: Tally, idx: nat, rem: int): int
    requires idx < |t.order|
  {
    Min(CountAt(t, idx), rem)
  }

  /** The take vectors `generate_combinations(idx, rem, cur)` reaches, in the
      order it reaches them: a vector is complete as soon as nothing remains,
      and each colour takes 0, 1, ..., min(count, remaining) in turn. */
  function Combinations(t: Tally, idx: nat, rem: int, cur: seq<nat>): (r: seq<seq<nat>>)
    requires |cur| == idx <= |t.order|
    decreases |t.order| - idx, 1, 0
  {
    if rem == 0 then [cur]
    else if idx >= |t.order| then []
    else CombinationsUpTo(t, idx, rem, cur, MaxTake(t, idx, rem) + 1)
  }

  /** The vectors of the first m iterations of `for take in range(max_take + 1)`. */
  function CombinationsUpTo(t: Tally, idx: nat, rem: int, cur: seq<nat>, m: int): (r: seq<seq<nat>>)
    requires |cur| == idx < |t.order|
    decreases |t.order| - idx, 0, m
  {
    if m <= 0 then []
    else CombinationsUpTo(t, idx, rem, cur, m - 1) + Combinations(t, idx + 1, rem - (m - 1), cur + [m - 1])
  }

  /** The numerator prod C(n_i, k_i) of a take vector, colour by colour. */
  function Weight(t: Tally, s: seq<nat>): nat
  {
    if s == [] then 1 else Weight(t, s[..|s| - 1]) * Choose(CountAt(t, |s| - 1), s[|s| - 1])
  }

  /** The ball list of a take vector: `colors[i]` repeated `take` times, colour
      by colour. */
  function BallsOf(order: seq<string>, s: seq<nat>): seq<string>
  {
    if s == [] then [] else BallsOf(order, s[..|s| - 1]) + Repeat(ColorAt(order, |s| - 1), s[|s| - 1])
  }

  /** The outcome of one complete take vector: its ball list, and
      `numerator / denominator if denominator > 0 else 0`. */
  function ToOutcome(t: Tally, s: seq<nat>, k: nat): DrawOutcome
  {
    var denominator := Choose(Total(t), k);
    DrawOutcome(BallsOf(t.order, s), if denominator > 0 then Weight(t, s) as real / denominator as real else 0.0)
  }

  /** The outcomes of the take vectors S, in order; a vector is kept only when
      its probability is positive (`if prob > 0`). */
  function Render(t: Tally, S: seq<seq<nat>>, k: nat): (r: seq<DrawOutcome>)
    ensures |r| <= |S|
  {
    if S == [] then []
    else if ToOutcome(t, S[0], k).prob > 0.0 then [ToOutcome(t, S[0], k)] + Render(t, S[1..], k)
    else Render(t, S[1..], k)
  }

  /** The list `draw_balls(k)` returns for a bag holding t: a single empty draw
      of probability 1 when k exceeds the bag, nothing for a negative k, and
      otherwise one outcome per split. */
  function Outcomes(t: Tally, k: int): seq<DrawOutcome>
  {
    if k > Total(t) then [DrawOutcome([], 1.0)]
    else if k < 0 then []
    else Render(t, Combinations(t, 0, k, []), k)
  }

  function SumProbs(os: seq<DrawOutcome>): real
  {
    if os == [] then 0.0 else os[0].prob + SumProbs(os[1..])
  }

  function SumWeights(t: Tally, S: seq<seq<nat>>): nat
  {
    if S == [] then 0 else Weight(t, S[0]) + SumWeights(t, S[1..])
  }

  // ---------------------------------------------------------------------
  // Sums over the enumeration

  lemma {:induction false} SumWeightsConcat(t: Tally, A: seq<seq<nat>>, B: seq<seq<nat>>)
    ensures SumWeights(t, A + B) == SumWeights(t, A) + SumWeights(t, B)
  {
    if A == [] {
      assert A + B == B;
    } else {
      assert (A + B)[0] == A[0];
      assert (A + B)[1..] == A[1..] + B;
      SumWeightsConcat(t, A[1..], B);
    }
  }

  lemma {:induction false} RenderConcat(t: Tally, A: seq<seq<nat>>, B: seq<seq<nat>>, k: nat)
    ensures Render(t, A + B, k) == Render(t, A, k) + Render(t, B, k)
  {
    if A == [] {
      assert A + B == B;
    } else {
      assert (A + B)[0] == A[0];
      assert (A + B)[1..] == A[1..] + B;
      RenderConcat(t, A[1..], B, k);
    }
  }

  lemma DivAdd(x: real, y: real, c: real)
    requires c != 0.0
    ensures x / c + y / c == (x + y) / c
  {
  }

  lemma DivPositive(x: real, c: real)
    requires x > 0.0 && c > 0.0
    ensures x / c > 0.0
  {
  }

  lemma DivZero(c: real)
    requires c > 0.0
    ensures 0.0 / c == 0.0
  {
  }

  lemma RenderSingle(t: Tally, s: seq<nat>, k: nat)
    ensures Render(t, [s], k) == if ToOutcome(t, s, k).prob > 0.0 then [ToOutcome(t, s, k)] else []
  {
    assert [s][1..] == [];
  }

  /** For a feasible draw the probability is prod C(n_i, k_i) / C(N, k), and
      it is positive exactly when the numerator is. */
  lemma ProbPositive(t: Tally, s: seq<nat>, k: nat)
    requires k <= Total(t)
    ensures Choose(Total(t), k) > 0
    ensures ToOutcome(t, s, k).prob == Weight(t, s) as real / Choose(Total(t), k) as real
    ensures ToOutcome(t, s, k).prob > 0.0 <==> Weight(t, s) > 0
  {
    ChoosePositive(Total(t), k);
    if Weight(t, s) > 0 {
      DivPositive(Weight(t, s) as real, Choose(Total(t), k) as real);
    } else {
      DivZero(Choose(Total(t), k) as real);
    }
  }

  lemma DivSelf(c: real)
    requires c > 0.0
    ensures c / c == 1.0
  {
  }

  lemma {:induction false} RenderProbs(t: Tally, S: seq<seq<nat>>, k: nat)
    requires k <= Total(t)
    ensures Choose(Total(t), k) > 0
    ensures SumProbs(Render(t, S, k)) == SumWeights(t, S) as real / Choose(Total(t), k) as real
  {
    ChoosePositive(Total(t), k);
    if S != [] {
      RenderProbs(t, S[1..], k);
      RenderHead(t, S, k);
      ProbPositive(t, S[0], k);
      DivAdd(Weight(t, S[0]) as real, SumWeights(t, S[1..]) as real, Choose(Total(t), k) as real);
    }
  }

  /** Render's first step, with a dropped outcome's probability being zero. */
  lemma RenderHead(t: Tally, S: seq<seq<nat>>, k: nat)
    requires S != [] && k <= Total(t)
    ensures SumProbs(Render(t, S, k)) == ToOutcome(t, S[0], k).prob + SumProbs(Render(t, S[1..], k))
  {
    var o := ToOutcome(t, S[0], k);
    ProbPositive(t, S[0], k);
    if o.prob > 0.0 {
      var R := Render(t, S, k);
      assert R[1..] == Render(t, S[1..], k);
    } else {
      assert Weight(t, S[0]) == 0;
      DivZero(Choose(Total(t), k) as real);
      assert o.prob == 0.0;
      assert Render(t, S, k) == Render(t, S[1..], k);
    }
  }

  lemma Distribute(total: nat, head: nat, tail: nat, w: nat, p: nat, x: nat, y: nat, wx: nat, pc: nat)
    requires total == head + tail
    requires head == w * p
    requires tail == wx * y
    requires wx == w * x
    requires pc == p + x * y
    ensures total == w * pc
  {
    assert w * (x * y) == (w * x) * y;
  }

  lemma WeightSnoc(t: Tally, cur: seq<nat>, take: nat)
    ensures Weight(t, cur + [take]) == Weight(t, cur) * Choose(CountAt(t, |cur|), take)
  {
    assert (cur + [take])[..|cur|] == cur;
  }

  /** The weights of everything `generate_combinations(idx, rem, cur)` reaches
      add up to Weight(cur) * C(balls from idx on, rem). */
  lemma {:induction false} CombinationsWeight(t: Tally, idx: nat, rem: nat, cur: seq<nat>)
    requires |cur| == idx <= |t.order|
    ensures SumWeights(t, Combinations(t, idx, rem, cur)) == Weight(t, cur) * Choose(SuffixSum(t, idx), rem)
    decreases |t.order| - idx, 1, 0, 0
  {
    if rem == 0 {
    } else if idx >= |t.order| {
    } else {
      var a, b := CountAt(t, idx), SuffixSum(t, idx + 1);
      var m := MaxTake(t, idx, rem) + 1;
      CombinationsUpToWeight(t, idx, rem, cur, m);
      VandermondeTruncated(a, b, rem);
    }
  }

  lemma {:induction false} CombinationsUpToWeight(t: Tally, idx: nat, rem: nat, cur: seq<nat>, m: nat)
    requires |cur| == idx < |t.order| && rem > 0
    requires m <= MaxTake(t, idx, rem) + 1
    ensures SumWeights(t, CombinationsUpTo(t, idx, rem, cur, m))
         == Weight(t, cur) * PartialConv(CountAt(t, idx), SuffixSum(t, idx + 1), rem, m)
    decreases |t.order| - idx, 0, m, 0
  {
    if m > 0 {
      UpToWeightInduct(t, idx, rem, cur, m - 1);
    }
  }

  /** The induction step of CombinationsUpToWeight, from the sums of the
      first take iterations and of the vectors that start with that take. */
  lemma {:induction false} UpToWeightInduct(t: Tally, idx: nat, rem: nat, cur: seq<nat>, take: nat)
    requires |cur| == idx < |t.order| && rem > 0 && take <= MaxTake(t, idx, rem)
    ensures SumWeights(t, CombinationsUpTo(t, idx, rem, cur, take + 1))
         == Weight(t, cur) * PartialConv(CountAt(t, idx), SuffixSum(t, idx + 1), rem, take + 1)
    decreases |t.order| - idx, 0, take, 1
  {
    CombinationsUpToWeight(t, idx, rem, cur, take);
    CombinationsWeight(t, idx + 1, rem - take, cur + [take]);
    var a, b := CountAt(t, idx), SuffixSum(t, idx + 1);
    UpToWeightsStep(t, idx, rem, cur, take + 1);
    WeightSnoc(t, cur, take);
    PartialConvStep(a, b, rem, take + 1);
    Distribute(SumWeights(t, CombinationsUpTo(t, idx, rem, cur, take + 1)),
               SumWeights(t, CombinationsUpTo(t, idx, rem, cur, take)),
               SumWeights(t, Combinations(t, idx + 1, rem - take, cur + [take])),
               Weight(t, cur), PartialConv(a, b, rem, take), Choose(a, take), Choose(b, rem - take),
               Weight(t, cur + [take]), PartialConv(a, b, rem, take + 1));
  }

  /** One more take appends the vectors that start with it. */
  lemma UpToWeightsStep(t: Tally, idx: nat, rem: int, cur: seq<nat>, m: nat)
    requires |cur| == idx < |t.order| && m > 0
    ensures SumWeights(t, CombinationsUpTo(t, idx, rem, cur, m))
         == SumWeights(t, CombinationsUpTo(t, idx, rem, cur, m - 1))
          + SumWeights(t, Combinations(t, idx + 1, rem - (m - 1), cur + [m - 1]))
  {
    var head := CombinationsUpTo(t, idx, rem, cur, m - 1);
    var tail := Combinations(t, idx + 1, rem - (m - 1), cur + [m - 1]);
    assert CombinationsUpTo(t, idx, rem, cur, m) == head + tail;
    SumWeightsConcat(t, head, tail);
  }

  lemma {:induction false} SuffixSumFrom(t: Tally, j: nat)
    requires j <= |t.order|
    ensures SumOver(t.order[..j], t) + SuffixSum(t, j) == Total(t)
    decreases |t.order| - j
  {
    if j < |t.order| {
      SuffixSumFrom(t, j + 1);
      assert t.order[..j + 1][..j] == t.order[..j];
    } else {
      assert t.order[..j] == t.order;
    }
  }

  /** The probabilities of the outcomes of any draw of k >= 0 balls sum to 1;
      a negative k has no outcomes at all. */
  lemma OutcomesSumToOne(t: Tally, k: int)
    ensures k >= 0 ==> SumProbs(Outcomes(t, k)) == 1.0
    ensures k < 0 ==> Outcomes(t, k) == []
  {
    if 0 <= k <= Total(t) {
      var S := Combinations(t, 0, k, []);
      SplitsWeighTotal(t, k);
      RenderProbs(t, S, k);
      var c := Choose(Total(t), k) as real;
      DivSelf(c);
      assert SumProbs(Render(t, S, k)) == 1.0;
    } else if k > Total(t) {
      assert SumProbs(Outcomes(t, k)) == 1.0 + SumProbs([]);
    }
  }

  /** The weights of all splits of k balls add up to C(N, k) (Vandermonde's
      identity, colour by colour). */
  lemma SplitsWeighTotal(t: Tally, k: nat)
    requires k <= Total(t)
    ensures SumWeights(t, Combinations(t, 0, k, [])) == Choose(Total(t), k)
  {
    CombinationsWeight(t, 0, k, []);
    SuffixSumFrom(t, 0);
    assert t.order[..0] == [];
  }

  /** With a negative count left nothing is reached: `range(max_take + 1)` is
      empty once max_take < 0. */
  lemma CombinationsNegative(t: Tally, idx: nat, rem: int, cur: seq<nat>)
    requires |cur| == idx <= |t.order| && rem < 0
    ensures Combinations(t, idx, rem, cur) == []
  {
  }

  // ---------------------------------------------------------------------
  // The shape of each outcome

  lemma {:induction false} CombinationsShape(t: Tally, idx: nat, rem: nat, cur: seq<nat>, s: seq<nat>)
    requires |cur| == idx <= |t.order|
    requires s in Combinations(t, idx, rem, cur)
    ensures idx <= |s| <= |t.order| && s[..idx] == cur
    ensures Sum(s) == Sum(cur) + rem
    ensures forall i :: idx <= i < |s| ==> s[i] <= CountAt(t, i)
    decreases |t.order| - idx, 1, 0
  {
    if rem != 0 && idx < |t.order| {
      CombinationsUpToShape(t, idx, rem, cur, MaxTake(t, idx, rem) + 1, s);
    }
  }

  lemma {:induction false} CombinationsUpToShape(t: Tally, idx: nat, rem: nat, cur: seq<nat>, m: int, s: seq<nat>)
    requires |cur| == idx < |t.order| && rem > 0
    requires m <= MaxTake(t, idx, rem) + 1
    requires s in CombinationsUpTo(t, idx, rem, cur, m)
    ensures idx < |s| <= |t.order| && s[..idx] == cur
    ensures Sum(s) == Sum(cur) + rem
    ensures forall i :: idx <= i < |s| ==> s[i] <= CountAt(t, i)
    decreases |t.order| - idx, 0, m
  {
    var take: nat := m - 1;
    if s in CombinationsUpTo(t, idx, rem, cur, m - 1) {
      CombinationsUpToShape(t, idx, rem, cur, m - 1, s);
    } else {
      var next := cur + [take];
      CombinationsShape(t, idx + 1, rem - take, next, s);
      assert next[..idx] == cur;
      assert s[..idx] == s[..idx + 1][..idx];
      assert s[idx] == next[idx] == take;
    }
  }

  /** Position of a colour in the key order (|order| when absent). */
  function IndexOf(order: seq<string>, c: string): (r: nat)
    ensures r <= |order|
    ensures r < |order| ==> order[r] == c
    ensures r == |order| ==> c !in order
  {
    if order == [] then 0 else if order[0] == c then 0 else 1 + IndexOf(order[1..], c)
  }

  lemma IndexOfDistinct(order: seq<string>, i: nat)
    requires Distinct(order) && i < |order|
    ensures IndexOf(order, order[i]) == i
  {
    if i > 0 {
      assert Distinct(order[1..]);
      assert order[1..][i - 1] == order[i];
      IndexOfDistinct(order[1..], i - 1);
    }
  }

  /** Each of the first n keys sits at its own position (true of distinct keys). */
  ghost predicate Positions(order: seq<string>, n: nat)
    requires n <= |order|
  {
    forall i :: 0 <= i < n ==> IndexOf(order, order[i]) == i
  }

  lemma DistinctPositions(order: seq<string>)
    requires Distinct(order)
    ensures Positions(order, |order|)
  {
    forall i | 0 <= i < |order| ensures IndexOf(order, order[i]) == i {
      IndexOfDistinct(order, i);
    }
  }

  /** The balls are listed colour by colour, following the key order. */
  ghost predicate InKeyOrder(order: seq<string>, balls: seq<string>)
  {
    forall i, j :: 0 <= i < j < |balls| ==> IndexOf(order, balls[i]) <= IndexOf(order, balls[j])
  }

  lemma {:induction false} BallsOfLength(order: seq<string>, s: seq<nat>)
    ensures |BallsOf(order, s)| == Sum(s)
  {
    if s != [] {
      BallsOfLength(order, s[..|s| - 1]);
    }
  }

  /** A colour occurs in the ball list as often as its take says, and colours
      past the vector do not occur at all. */
  lemma {:induction false} BallsOfCount(order: seq<string>, s: seq<nat>, x: string)
    requires |s| <= |order| && Positions(order, |s|)
    ensures multiset(BallsOf(order, s))[x] == if IndexOf(order, x) < |s| then s[IndexOf(order, x)] else 0
  {
    if s != [] {
      var n := |s| - 1;
      var init := s[..n];
      BallsOfCount(order, init, x);
      var B, R := BallsOf(order, init), Repeat(order[n], s[n]);
      assert BallsOf(order, s) == B + R;
      assert multiset(B + R) == multiset(B) + multiset(R);
      var j := IndexOf(order, x);
      if x == order[n] {
        assert j == n;
      } else {
        assert multiset(R)[x] == 0;
        if j < n {
          assert init[j] == s[j];
        }
      }
    }
  }

  /** Every ball lies within the vector's colours. */
  lemma {:induction false} BallsOfInside(order: seq<string>, s: seq<nat>)
    requires |s| <= |order| && Positions(order, |s|)
    ensures forall p :: 0 <= p < |BallsOf(order, s)| ==> IndexOf(order, BallsOf(order, s)[p]) < |s|
  {
    if s != [] {
      var n := |s| - 1;
      BallsOfInside(order, s[..n]);
      var B, R := BallsOf(order, s[..n]), Repeat(order[n], s[n]);
      assert BallsOf(order, s) == B + R;
      forall p | 0 <= p < |B + R| ensures IndexOf(order, (B + R)[p]) < |s| {
        if p >= |B| {
          assert (B + R)[p] == R[p - |B|];
        }
      }
    }
  }

  /** The balls appear colour by colour in key order. */
  lemma {:induction false} BallsOfOrdered(order: seq<string>, s: seq<nat>)
    requires |s| <= |order| && Positions(order, |s|)
    ensures InKeyOrder(order, BallsOf(order, s))
  {
    if s != [] {
      var n := |s| - 1;
      BallsOfOrdered(order, s[..n]);
      BallsOfInside(order, s[..n]);
      var B, R := BallsOf(order, s[..n]), Repeat(order[n], s[n]);
      assert BallsOf(order, s) == B + R;
      forall i, j | 0 <= i < j < |B + R| ensures IndexOf(order, (B + R)[i]) <= IndexOf(order, (B + R)[j]) {
        if j < |B| {
          assert (B + R)[i] == B[i] && (B + R)[j] == B[j];
        } else if i < |B| {
          assert (B + R)[i] == B[i] && (B + R)[j] == R[j - |B|];
        } else {
          assert (B + R)[i] == R[i - |B|] && (B + R)[j] == R[j - |B|];
        }
      }
    }
  }

  /** Each outcome of a feasible draw (0 <= k <= total) takes exactly k balls,
      never more of a colour than the bag holds, lists them colour by colour
      in the bag's key order, and has probability
      prod C(n_i, k_i) / C(N, k) > 0 for its take vector. */
  lemma OutcomeFacts(t: Tally, k: int, o: DrawOutcome)
    requires WellFormed(t) && 0 <= k <= Total(t)
    requires o in Outcomes(t, k)
    ensures |o.balls| == k
    ensures multiset(o.balls) <= Balls(t)
    ensures InKeyOrder(t.order, o.balls)
    ensures o.prob > 0.0
    ensures Choose(Total(t), k) > 0
    ensures exists s :: s in Combinations(t, 0, k, []) && o.balls == BallsOf(t.order, s)
              && o.prob == Weight(t, s) as real / Choose(Total(t), k) as real
  {
    var S := Combinations(t, 0, k, []);
    assert Outcomes(t, k) == Render(t, S, k);
    RenderMember(t, S, k, o);
    var i :| 0 <= i < |S| && o == ToOutcome(t, S[i], k);
    var s := S[i];
    SplitFacts(t, k, s);
    ProbPositive(t, s, k);
  }

  /** The ball list of a split of k balls has k balls, all from the bag and
      in key order, and its weight is positive. */
  lemma SplitFacts(t: Tally, k: nat, s: seq<nat>)
    requires WellFormed(t) && s in Combinations(t, 0, k, [])
    ensures |BallsOf(t.order, s)| == k
    ensures multiset(BallsOf(t.order, s)) <= Balls(t)
    ensures InKeyOrder(t.order, BallsOf(t.order, s))
    ensures Weight(t, s) > 0
  {
    CombinationsShape(t, 0, k, [], s);
    BallsOfLength(t.order, s);
    WeightPositive(t, s);
    DistinctPositions(t.order);
    BallsWithin(t, s);
  }

  /** The balls of a vector that takes no more of a colour than the bag holds
      are drawn from the bag, and come in key order. */
  lemma BallsWithin(t: Tally, s: seq<nat>)
    requires WellFormed(t) && |s| <= |t.order| && Positions(t.order, |t.order|)
    requires forall i :: 0 <= i < |s| ==> s[i] <= CountAt(t, i)
    ensures multiset(BallsOf(t.order, s)) <= Balls(t)
    ensures InKeyOrder(t.order, BallsOf(t.order, s))
  {
    assert Positions(t.order, |s|);
    BallsOfOrdered(t.order, s);
    forall x ensures multiset(BallsOf(t.order, s))[x] <= Balls(t)[x] {
      BallsOfCount(t.order, s, x);
      BallsCountAt(t, x);
    }
  }

  lemma {:induction false} RenderMember(t: Tally, S: seq<seq<nat>>, k: nat, o: DrawOutcome)
    requires o in Render(t, S, k)
    ensures exists i :: 0 <= i < |S| && o == ToOutcome(t, S[i], k)
  {
    if o != ToOutcome(t, S[0], k) || ToOutcome(t, S[0], k).prob <= 0.0 {
      RenderMember(t, S[1..], k, o);
      var i :| 0 <= i < |S[1..]| && o == ToOutcome(t, S[1..][i], k);
      assert S[1..][i] == S[i + 1];
    }
  }

  lemma {:induction false} WeightPositive(t: Tally, s: seq<nat>)
    requires forall i :: 0 <= i < |s| ==> s[i] <= CountAt(t, i)
    ensures Weight(t, s) > 0
  {
    if s != [] {
      WeightPositive(t, s[..|s| - 1]);
      ChoosePositive(CountAt(t, |s| - 1), s[|s| - 1]);
    }
  }
}
