/** An insertion-ordered colour -> count table: the `Dict[str, int]` of a bag's
    `color_counts` and the `Counter` of a hand.  Python dicts remember the order
    in which keys were inserted, and the engine's enumeration order depends on
    it, so the table keeps that order beside the counts. */
module Tallies {

  datatype Tally = Tally(order: seq<string>, counts: map<string, nat>)

  predicate Distinct(s: seq<string>)
  {
    forall i, j :: 0 <= i < j < |s| ==> s[i] != s[j]
  }

  /** A distinct list holds each name at most once. */
  lemma {:induction false} DistinctAtMostOnce(s: seq<string>)
    requires Distinct(s)
    ensures forall c :: multiset(s)[c] <= 1
  {
    if s != [] {
      var init := s[..|s| - 1];
      assert Distinct(init);
      DistinctAtMostOnce(init);
      assert s == init + [s[|s| - 1]];
      assert s[|s| - 1] !in init;
    }
  }

  /** The keys in `order` are exactly the keys of `counts`, each once. */
  ghost predicate WellFormed(t: Tally)
  {
    Distinct(t.order) && (forall c :: c in t.counts <==> c in t.order)
  }

  /** No colour is kept with count zero (how a `Counter` hand is kept). */
  predicate NoZeros(t: Tally)
  {
    forall c :: c in t.counts ==> t.counts[c] > 0
  }

  /** Counter semantics: an absent colour counts zero. */
  function Count(t: Tally, c: string): nat
  {
    if c in t.counts then t.counts[c] else 0
  }

  const Empty: Tally := Tally([], map[])

  /** `sum(color_counts.values())`, walking the keys in order. */
  function SumOver(order: seq<string>, t: Tally): nat
  {
    if order == [] then 0 else SumOver(order[..|order| - 1], t) + Count(t, order[|order| - 1])
  }

  function Total(t: Tally): nat
  {
    SumOver(t.order, t)
  }

  function Repeat(c: string, n: nat): (r: seq<string>)
    ensures |r| == n && multiset(r) == multiset{}[c := n]
    ensures forall i :: 0 <= i < n ==> r[i] == c
  {
    if n == 0 then [] else Repeat(c, n - 1) + [c]
  }

  /** Every ball as its own entry, colour by colour in key order: the
      `all_balls` / `hand_balls` lists and `Counter.elements()`. */
  function ElementsOf(order: seq<string>, t: Tally): seq<string>
  {
    if order == [] then [] else ElementsOf(order[..|order| - 1], t) + Repeat(order[|order| - 1], Count(t, order[|order| - 1]))
  }

  function Elements(t: Tally): seq<string>
  {
    ElementsOf(t.order, t)
  }

  /** The table as a multiset of balls. */
  function Balls(t: Tally): multiset<string>
  {
    multiset(Elements(t))
  }

  lemma {:induction false} ElementsOfLength(order: seq<string>, t: Tally)
    ensures |ElementsOf(order, t)| == SumOver(order, t)
  {
    if order != [] {
      ElementsOfLength(order[..|order| - 1], t);
    }
  }

  lemma {:induction false} ElementsOfCount(order: seq<string>, t: Tally, x: string)
    requires Distinct(order)
    ensures multiset(ElementsOf(order, t))[x] == if x in order then Count(t, x) else 0
  {
    if order != [] {
      var init, last := order[..|order| - 1], order[|order| - 1];
      assert Distinct(init);
      ElementsOfCount(init, t, x);
      assert x in order <==> x in init || x == last;
      assert last !in init;
    }
  }

  /** The number of balls of a table is its total. */
  lemma TotalIsSize(t: Tally)
    ensures |Elements(t)| == Total(t) == |Balls(t)|
  {
    ElementsOfLength(t.order, t);
  }

  /** The multiset of balls has multiplicity Count(t, c) for every colour c. */
  lemma BallsCount(t: Tally)
    requires WellFormed(t)
    ensures forall x :: Balls(t)[x] == Count(t, x)
  {
    forall x ensures Balls(t)[x] == Count(t, x) {
      ElementsOfCount(t.order, t, x);
    }
  }

  /** Two well-formed tables with the same counts hold the same balls. */
  lemma SameCountsSameBalls(t: Tally, u: Tally)
    requires WellFormed(t) && WellFormed(u)
    requires forall x :: Count(t, x) == Count(u, x)
    ensures Balls(t) == Balls(u) && Total(t) == Total(u)
  {
    BallsCount(t);
    BallsCount(u);
    assert forall x :: Balls(t)[x] == Balls(u)[x];
    TotalIsSize(t);
    TotalIsSize(u);
  }

  /** Counts, as multiplicities, determine the ball multiset. */
  lemma BallsFromCounts(t: Tally, m: multiset<string>)
    requires WellFormed(t)
    requires forall x :: Count(t, x) == m[x]
    ensures Balls(t) == m && Total(t) == |m|
  {
    BallsCount(t);
    assert forall x :: Balls(t)[x] == m[x];
    TotalIsSize(t);
  }

  /** `counts[c] += 1`, inserting c at the end when absent (`add_ball`,
      `hand[ball] += 1`). */
  function Increment(t: Tally, c: string): (r: Tally)
    ensures WellFormed(t) ==> WellFormed(r)
    ensures NoZeros(t) ==> NoZeros(r)
    ensures forall x :: Count(r, x) == Count(t, x) + (if x == c then 1 else 0)
  {
    if c in t.counts then Tally(t.order, t.counts[c := t.counts[c] + 1])
    else
      var r := Tally(t.order + [c], t.counts[c := 1]);
      assert WellFormed(t) ==> Distinct(r.order) by {
        if WellFormed(t) {
          forall i, j | 0 <= i < j < |r.order| ensures r.order[i] != r.order[j] {
            if j == |t.order| { assert r.order[i] == t.order[i]; assert t.order[i] in t.counts; }
          }
        }
      }
      r
  }

  /** The guarded decrement of `remove_balls`: an absent or exhausted colour is
      left alone, and a colour reaching zero stays in the table. */
  function Decrement(t: Tally, c: string): (r: Tally)
    ensures WellFormed(t) ==> WellFormed(r)
    ensures r.order == t.order && r.counts.Keys == t.counts.Keys
    ensures forall x :: Count(r, x) == if x == c && Count(t, x) > 0 then Count(t, x) - 1 else Count(t, x)
  {
    if c in t.counts && t.counts[c] > 0 then Tally(t.order, t.counts[c := t.counts[c] - 1]) else t
  }

  function RemoveFrom(s: seq<string>, c: string): (r: seq<string>)
    ensures forall x :: x in r <==> x in s && x != c
    ensures Distinct(s) ==> Distinct(r)
  {
    if s == [] then []
    else if s[0] == c then RemoveFrom(s[1..], c)
    else
      var rest := RemoveFrom(s[1..], c);
      assert Distinct(s) ==> Distinct(s[1..]);
      assert Distinct(s) ==> s[0] !in rest by { if Distinct(s) { assert s[0] !in s[1..]; } }
      [s[0]] + rest
  }

  /** `counts[c] -= 1` followed by `del counts[c]` when it reaches zero (the
      Monte Carlo bag update and every hand update on a return). */
  function DecrementDrop(t: Tally, c: string): (r: Tally)
    requires Count(t, c) > 0
    ensures WellFormed(t) ==> WellFormed(r)
    ensures NoZeros(t) ==> NoZeros(r)
    ensures forall x :: Count(r, x) == if x == c then Count(t, x) - 1 else Count(t, x)
    ensures c in r.counts <==> Count(t, c) > 1
    ensures forall x :: x != c ==> (x in r.counts <==> x in t.counts)
  {
    if t.counts[c] == 1 then Tally(RemoveFrom(t.order, c), t.counts - {c})
    else Tally(t.order, t.counts[c := t.counts[c] - 1])
  }

  /** `remove_balls(colors)`: the guarded decrement for each colour in turn. */
  function RemoveAll(t: Tally, balls: seq<string>): (r: Tally)
    ensures WellFormed(t) ==> WellFormed(r)
    ensures r.order == t.order
  {
    if balls == [] then t else Decrement(RemoveAll(t, balls[..|balls| - 1]), balls[|balls| - 1])
  }

  /** `hand[ball] += 1` for each drawn ball in turn. */
  function AddAll(t: Tally, balls: seq<string>): (r: Tally)
    ensures WellFormed(t) ==> WellFormed(r)
    ensures NoZeros(t) ==> NoZeros(r)
  {
    if balls == [] then t else Increment(AddAll(t, balls[..|balls| - 1]), balls[|balls| - 1])
  }

  /** The multiplicity of one colour in the ball multiset. */
  lemma BallsCountAt(t: Tally, x: string)
    requires WellFormed(t)
    ensures Balls(t)[x] == Count(t, x)
  {
    ElementsOfCount(t.order, t, x);
  }

  lemma MultisetSnoc(init: seq<string>, last: string, a: multiset<string>)
    ensures multiset(init + [last]) == multiset(init) + multiset{last}
    ensures (a - multiset(init)) - multiset{last} == a - multiset(init + [last])
  {
    var m := multiset(init + [last]);
    assert m == multiset(init) + multiset{last};
    var l, r := (a - multiset(init)) - multiset{last}, a - m;
    forall y ensures l[y] == r[y] {
    }
  }

  /** The Monte Carlo removal of an already chosen sample.  The requirement
      holds because the sample is taken from the bag's own balls. */
  function DropAll(t: Tally, balls: seq<string>): (r: Tally)
    requires WellFormed(t) && multiset(balls) <= Balls(t)
    ensures WellFormed(r)
    ensures Balls(r) == Balls(t) - multiset(balls)
    ensures NoZeros(t) ==> NoZeros(r)
  {
    if balls == [] then t
    else
      var init, last := balls[..|balls| - 1], balls[|balls| - 1];
      assert balls == init + [last];
      MultisetSnoc(init, last, Balls(t));
      var mid := DropAll(t, init);
      assert Count(mid, last) > 0 by {
        BallsCountAt(mid, last);
        assert multiset(balls)[last] == multiset(init)[last] + 1;
      }
      DecrementDropBalls(mid, last);
      DecrementDrop(mid, last)
  }

  /** `del color_counts[ball]` when a count reaches zero: a colour that was
      drawn stays listed exactly while some of it is left, and a colour that
      was not drawn stays listed exactly when it was listed before, zero
      counts included. */
  lemma {:induction false} DropAllKeys(t: Tally, balls: seq<string>, x: string)
    requires WellFormed(t) && multiset(balls) <= Balls(t)
    ensures x in multiset(balls) ==> (x in DropAll(t, balls).counts <==> Count(DropAll(t, balls), x) > 0)
    ensures x !in multiset(balls) ==> (x in DropAll(t, balls).counts <==> x in t.counts)
  {
    if balls != [] {
      var init, last := balls[..|balls| - 1], balls[|balls| - 1];
      assert balls == init + [last];
      MultisetSnoc(init, last, Balls(t));
      var mid := DropAll(t, init);
      assert Count(mid, last) > 0 by {
        BallsCountAt(mid, last);
        assert multiset(balls)[last] == multiset(init)[last] + 1;
      }
      DropAllKeys(t, init, x);
      assert DropAll(t, balls) == DecrementDrop(mid, last);
    }
  }

  /** `remove_balls` never drives a count below zero: it removes the balls it
      names, skipping the ones the table does not hold. */
  lemma {:induction false} RemoveAllBalls(t: Tally, balls: seq<string>)
    requires WellFormed(t)
    ensures Balls(RemoveAll(t, balls)) == Balls(t) - multiset(balls)
    ensures Total(RemoveAll(t, balls)) == |Balls(t) - multiset(balls)|
  {
    if balls != [] {
      var init, last := balls[..|balls| - 1], balls[|balls| - 1];
      assert balls == init + [last];
      RemoveAllBalls(t, init);
      MultisetSnoc(init, last, Balls(t));
      DecrementBalls(RemoveAll(t, init), last);
    } else {
      TotalIsSize(t);
    }
  }

  /** The guarded decrement removes the colour from the multiset (multiset
      difference never goes below zero either). */
  lemma DecrementBalls(t: Tally, c: string)
    requires WellFormed(t)
    ensures Balls(Decrement(t, c)) == Balls(t) - multiset{c}
    ensures Total(Decrement(t, c)) == |Balls(t) - multiset{c}|
  {
    BallsCount(t);
    BallsFromCounts(Decrement(t, c), Balls(t) - multiset{c});
  }

  /** Adding balls one at a time adds them to the multiset. */
  lemma {:induction false} AddAllBalls(t: Tally, balls: seq<string>)
    requires WellFormed(t)
    ensures Balls(AddAll(t, balls)) == Balls(t) + multiset(balls)
    ensures Total(AddAll(t, balls)) == Total(t) + |balls|
  {
    if balls != [] {
      var init, last := balls[..|balls| - 1], balls[|balls| - 1];
      assert balls == init + [last];
      AddAllBalls(t, init);
      var mid := AddAll(t, init);
      assert AddAll(t, balls) == Increment(mid, last);
      IncrementBalls(mid, last);
    }
  }

  /** `add_ball(c)` raises exactly colour c by one and the total by one. */
  lemma IncrementBalls(t: Tally, c: string)
    requires WellFormed(t)
    ensures Balls(Increment(t, c)) == Balls(t) + multiset{c}
    ensures Total(Increment(t, c)) == Total(t) + 1
  {
    BallsCount(t);
    BallsFromCounts(Increment(t, c), Balls(t) + multiset{c});
    TotalIsSize(t);
  }

  /** Taking one ball of a colour the table holds lowers the total by one. */
  lemma DecrementDropBalls(t: Tally, c: string)
    requires WellFormed(t) && Count(t, c) > 0
    ensures Balls(DecrementDrop(t, c)) == Balls(t) - multiset{c}
    ensures Total(DecrementDrop(t, c)) + 1 == Total(t)
  {
    BallsCount(t);
    BallsFromCounts(DecrementDrop(t, c), Balls(t) - multiset{c});
    TotalIsSize(t);
  }

  /** A dict built from its items, in order (`BagState.__init__`'s copy). */
  function FromItems(items: seq<(string, nat)>): Tally
  {
    if items == [] then Empty
    else
      var init := FromItems(items[..|items| - 1]);
      var (c, n) := items[|items| - 1];
      if c in init.counts then Tally(init.order, init.counts[c := n]) else Tally(init.order + [c], init.counts[c := n])
  }

  /** The items of a table, in key order. */
  function ItemsOf(order: seq<string>, t: Tally): (r: seq<(string, nat)>)
    ensures |r| == |order|
    ensures forall i :: 0 <= i < |order| ==> r[i] == (order[i], Count(t, order[i]))
  {
    if order == [] then [] else ItemsOf(order[..|order| - 1], t) + [(order[|order| - 1], Count(t, order[|order| - 1]))]
  }

  function Items(t: Tally): seq<(string, nat)>
  {
    ItemsOf(t.order, t)
  }

  lemma {:induction false} FromItemsOf(order: seq<string>, t: Tally)
    requires WellFormed(t) && Distinct(order) && (forall c :: c in order ==> c in t.order)
    ensures FromItems(ItemsOf(order, t)).order == order
    ensures forall c :: c in FromItems(ItemsOf(order, t)).counts <==> c in order
    ensures forall c :: c in order ==> FromItems(ItemsOf(order, t)).counts[c] == t.counts[c]
  {
    if order != [] {
      var init := order[..|order| - 1];
      assert Distinct(init);
      FromItemsOf(init, t);
      assert ItemsOf(order, t)[..|order| - 1] == ItemsOf(init, t);
      assert order[|order| - 1] !in init;
    }
  }

  /** Copying a dict through its items gives back the same dict. */
  lemma FromItemsRoundTrip(t: Tally)
    requires WellFormed(t)
    ensures FromItems(Items(t)) == t
  {
    FromItemsOf(t.order, t);
    var u := FromItems(Items(t));
    assert u.counts == t.counts;
  }
}
