/** `_calculate_color_expectations` of `modules/ui/display.py`: the expected
    number of balls of each colour in the final hand, read back from the hand
    descriptions of a distribution. */
module Display {
  import opened Tallies
  import opened Distributions
  import opened HandKeys
  import opened Operations

  // Reading a description

  /** `s.split('+')` */
  function SplitPlus(s: string): (r: seq<string>)
    ensures |r| >= 1
  {
    if s == [] then [""]
    else if s[0] == '+' then [""] + SplitPlus(s[1..])
    else
      var rest := SplitPlus(s[1..]);
      [[s[0]] + rest[0]] + rest[1..]
  }

  /** The index of the first character of `part` that is not a digit, or
      `|part|` when there is none. */
  function FirstNonDigit(part: string): (i: nat)
    ensures i <= |part|
  {
    if part == [] || !IsDigit(part[0]) then 0 else 1 + FirstNonDigit(part[1..])
  }

  /** The characters before that index are digits, the one at it is not. */
  lemma {:induction false} FirstNonDigitSpec(part: string)
    ensures AllDigits(part[..FirstNonDigit(part)])
    ensures FirstNonDigit(part) < |part| ==> !IsDigit(part[FirstNonDigit(part)])
  {
    if part != [] && IsDigit(part[0]) {
      FirstNonDigitSpec(part[1..]);
      var i := FirstNonDigit(part);
      assert forall j :: 1 <= j < i ==> part[..i][j] == part[1..][..i - 1][j - 1];
    }
  }

  /** One `"+"`-separated part: the digits before the first non-digit are
      the count (1 when there are none), the rest is the colour; a part of
      digits only yields nothing. */
  function ParsePart(part: string): Option<(nat, string)>
  {
    var i := FirstNonDigit(part);
    FirstNonDigitSpec(part);
    if i == |part| then None
    else Some((if i > 0 then DecimalValue(part[..i]) else 1, part[i..]))
  }

  /** `count * prob` */
  function Times(count: nat, prob: real): real
  {
    count as real * prob
  }

  /** `color_expectations[color] = color_expectations.get(color, 0) + count * prob`
      for each parsed (count, colour) item of one description. */
  function AddItems(d: Dist, items: seq<(nat, string)>, prob: real): Dist
  {
    if items == [] then d
    else
      var n := |items| - 1;
      AddTo(AddItems(d, items[..n], prob), items[n].1, Times(items[n].0, prob))
  }

  /** The parsed (count, colour) items of the parts, the all-digit ones left
      out. */
  function ParsedItems(parts: seq<string>): seq<(nat, string)>
  {
    if parts == [] then []
    else
      var n := |parts| - 1;
      ParsedItems(parts[..n]) + ParsedOne(parts[n])
  }

  function ParsedOne(part: string): seq<(nat, string)>
  {
    match ParsePart(part) case Some(item) => [item] case None => []
  }

  /** The table after the listed descriptions; "空手" is skipped. */
  function ExpectationsOver(keys: seq<string>, dist: Dist): Dist
  {
    if keys == [] then EmptyDist
    else
      var n := |keys| - 1;
      var prev := ExpectationsOver(keys[..n], dist);
      if keys[n] == EmptyHand then prev else AddItems(prev, ParsedItems(SplitPlus(keys[n])), Get(dist, keys[n]))
  }

  /** The dictionary `_calculate_color_expectations` returns. */
  function ColorExpectationsOf(dist: Dist): Dist
  {
    ExpectationsOver(dist.keys, dist)
  }

  // The method

  method CalculateColorExpectations(dist: Dist) returns (e: Dist)
    ensures e == ColorExpectationsOf(dist)
  {
    e := EmptyDist;
    var i := 0;
    while i < |dist.keys|
      invariant 0 <= i <= |dist.keys|
      invariant e == ExpectationsOver(dist.keys[..i], dist)
    {
      assert dist.keys[..i + 1][..i] == dist.keys[..i];
      var handDesc := dist.keys[i];
      if handDesc != EmptyHand {
        e := AddDescription(e, handDesc, Get(dist, handDesc));
      }
      i := i + 1;
    }
    assert dist.keys[..i] == dist.keys;
  }

  method AddDescription(e: Dist, handDesc: string, prob: real) returns (r: Dist)
    ensures r == AddItems(e, ParsedItems(SplitPlus(handDesc)), prob)
  {
    var parts := SplitPlus(handDesc);
    r := e;
    var j := 0;
    while j < |parts|
      invariant 0 <= j <= |parts|
      invariant r == AddItems(e, ParsedItems(parts[..j]), prob)
    {
      var parsed := ParsePartLoop(parts[j]);
      ParsedItemsSnoc(parts, j);
      AddParsedStep(e, ParsedItems(parts[..j]), parts[j], prob);
      if parsed.Some? {
        var (count, color) := parsed.value;
        r := AddTo(r, color, Times(count, prob));
      }
      assert r == AddItems(e, ParsedItems(parts[..j]) + ParsedOne(parts[j]), prob);
      j := j + 1;
    }
    assert parts[..j] == parts;
  }

  lemma ParsedItemsSnoc(parts: seq<string>, j: nat)
    requires j < |parts|
    ensures ParsedItems(parts[..j + 1]) == ParsedItems(parts[..j]) + ParsedOne(parts[j])
  {
    assert parts[..j + 1][..j] == parts[..j];
  }

  lemma AddParsedStep(d: Dist, items: seq<(nat, string)>, part: string, prob: real)
    ensures AddItems(d, items + ParsedOne(part), prob) ==
      match ParsePart(part)
      case Some((count, color)) => AddTo(AddItems(d, items, prob), color, Times(count, prob))
      case None => AddItems(d, items, prob)
  {
    match ParsePart(part)
    case Some(item) => AddItemsSnoc(d, items, item, prob);
    case None => assert items + ParsedOne(part) == items;
  }

  lemma AddItemsSnoc(d: Dist, items: seq<(nat, string)>, item: (nat, string), prob: real)
    ensures AddItems(d, items + [item], prob) == AddTo(AddItems(d, items, prob), item.1, Times(item.0, prob))
  {
    var s := items + [item];
    assert s[..|items|] == items;
    assert s[|items|] == item;
  }

  /** The loop over the characters of one part, with its `break`. */
  method ParsePartLoop(part: string) returns (r: Option<(nat, string)>)
    ensures r == ParsePart(part)
  {
    FirstNonDigitSpec(part);
    var i := 0;
    while i < |part|
      invariant 0 <= i <= |part|
      invariant i <= FirstNonDigit(part)
    {
      if !IsDigit(part[i]) {
        var count := if i > 0 then DecimalValue(part[..i]) else 1;
        return Some((count, part[i..]));
      }
      i := i + 1;
    }
    r := None;
  }

  // What the table holds

  /** The number of balls of colour `c` the items name. */
  function ColorTotal(items: seq<(nat, string)>, c: string): nat
  {
    if items == [] then 0
    else
      var n := |items| - 1;
      ColorTotal(items[..n], c) + (if items[n].1 == c then items[n].0 else 0)
  }

  /** How many balls of colour `c` a description names; "空手" names none. */
  function KeyCount(key: string, c: string): nat
  {
    if key == EmptyHand then 0 else ColorTotal(ParsedItems(SplitPlus(key)), c)
  }

  /** The expectation as a sum: count times probability, over the listed
      descriptions. */
  function Expected(keys: seq<string>, dist: Dist, c: string): real
  {
    if keys == [] then 0.0
    else
      var n := |keys| - 1;
      Expected(keys[..n], dist, c) + Times(KeyCount(keys[n], c), Get(dist, keys[n]))
  }

  /** The share of colour `c` in the items, the product taken item by item. */
  function ItemsShare(items: seq<(nat, string)>, c: string, prob: real): real
  {
    if items == [] then 0.0
    else
      var n := |items| - 1;
      ItemsShare(items[..n], c, prob) + (if items[n].1 == c then Times(items[n].0, prob) else 0.0)
  }

  lemma {:induction false} AddItemsGet(d: Dist, items: seq<(nat, string)>, prob: real, c: string)
    ensures Get(AddItems(d, items, prob), c) == Get(d, c) + ItemsShare(items, c, prob)
  {
    if items != [] {
      AddItemsGet(d, items[..|items| - 1], prob, c);
    }
  }

  lemma {:induction false} ItemsShareScaled(items: seq<(nat, string)>, c: string, prob: real)
    ensures ItemsShare(items, c, prob) == Times(ColorTotal(items, c), prob)
  {
    if items != [] {
      var n := |items| - 1;
      ItemsShareScaled(items[..n], c, prob);
      Distribute(ColorTotal(items[..n], c), if items[n].1 == c then items[n].0 else 0, prob);
    }
  }

  lemma ZeroTimes(p: real)
    ensures Times(0, p) == 0.0
  {
  }

  lemma Distribute(a: nat, b: nat, p: real)
    ensures Times(a + b, p) == Times(a, p) + Times(b, p)
  {
  }

  /** `color_expectations[c]` is the sum, over the descriptions, of the
      number of `c` balls each names times its probability. */
  lemma {:induction false} ExpectationsGet(keys: seq<string>, dist: Dist, c: string)
    ensures Get(ExpectationsOver(keys, dist), c) == Expected(keys, dist, c)
  {
    if keys != [] {
      var n := |keys| - 1;
      var k := keys[n];
      var p := Get(dist, k);
      var prev := ExpectationsOver(keys[..n], dist);
      ExpectationsGet(keys[..n], dist, c);
      if k == EmptyHand {
        assert ExpectationsOver(keys, dist) == prev;
        assert KeyCount(k, c) == 0;
        ZeroTimes(p);
      } else {
        var items := ParsedItems(SplitPlus(k));
        assert ExpectationsOver(keys, dist) == AddItems(prev, items, p);
        assert KeyCount(k, c) == ColorTotal(items, c);
        AddItemsGet(prev, items, p, c);
        ItemsShareScaled(items, c, p);
      }
    }
  }

  /** A part of digits only, and only such a part, parses to nothing. */
  lemma ParsePartNone(part: string)
    ensures ParsePart(part).None? <==> AllDigits(part)
  {
    FirstNonDigitSpec(part);
    if FirstNonDigit(part) == |part| {
      assert part[..|part|] == part;
    }
  }

  /** A part made of digits only names no colour. */
  lemma DigitsOnlyIgnored(parts: seq<string>, part: string)
    requires AllDigits(part)
    ensures ParsedItems(parts + [part]) == ParsedItems(parts)
  {
    ParsePartNone(part);
    assert (parts + [part])[..|parts|] == parts;
  }

  // Reading back what the aggregator wrote

  /** Colour names the format can carry: non-empty, not starting with a
      digit, and without "+". */
  ghost predicate Plain(c: string)
  {
    c != [] && !IsDigit(c[0]) && '+' !in c
  }

  lemma {:induction false} SplitNoPlus(s: string)
    requires '+' !in s
    ensures SplitPlus(s) == [s]
  {
    if s != [] {
      SplitNoPlus(s[1..]);
      assert s[0] != '+' by {
        assert s[0] in s;
      }
      assert s == [s[0]] + s[1..];
    }
  }

  lemma {:induction false} SplitAtPlus(a: string, rest: string)
    requires '+' !in a
    ensures SplitPlus(a + "+" + rest) == [a] + SplitPlus(rest)
  {
    if a == [] {
      assert a + "+" + rest == "+" + rest;
      assert ("+" + rest)[1..] == rest;
    } else {
      SplitAtPlus(a[1..], rest);
      var s := a + "+" + rest;
      assert s[0] == a[0] && s[0] != '+' by {
        assert a[0] in a;
      }
      assert s[1..] == a[1..] + "+" + rest;
      assert a == [a[0]] + a[1..];
    }
  }

  /** `"+".join(parts).split('+') == parts` when no part holds "+". */
  lemma {:induction false} SplitJoin(parts: seq<string>)
    requires parts != [] && forall i :: 0 <= i < |parts| ==> '+' !in parts[i]
    ensures SplitPlus(Join(parts)) == parts
  {
    if |parts| == 1 {
      SplitNoPlus(parts[0]);
    } else {
      SplitJoin(parts[1..]);
      SplitAtPlus(parts[0], Join(parts[1..]));
    }
  }

  lemma {:induction false} FirstNonDigitAfter(digits: string, rest: string)
    requires AllDigits(digits) && rest != [] && !IsDigit(rest[0])
    ensures FirstNonDigit(digits + rest) == |digits|
  {
    if digits != [] {
      assert (digits + rest)[1..] == digits[1..] + rest;
      FirstNonDigitAfter(digits[1..], rest);
    }
  }

  /** `f"{count}{color}"` reads back as (count, color). */
  lemma ParsePartOf(count: nat, color: string)
    requires color != [] && !IsDigit(color[0])
    ensures ParsePart(Part(count, color)) == Some((count, color))
  {
    var digits := NatToDecimal(count);
    FirstNonDigitAfter(digits, color);
    assert (digits + color)[..|digits|] == digits;
    assert (digits + color)[|digits|..] == color;
    DecimalRoundTrip(count);
  }

  lemma {:induction false} ParsedItemsAppend(a: seq<string>, b: seq<string>)
    ensures ParsedItems(a + b) == ParsedItems(a) + ParsedItems(b)
    decreases |b|
  {
    if b == [] {
      assert a + b == a;
    } else {
      var n := |b| - 1;
      ParsedItemsAppend(a, b[..n]);
      ParsedItemsLast(a, b);
      var x, y, z := ParsedItems(a), ParsedItems(b[..n]), ParsedOne(b[n]);
      assert (x + y) + z == x + (y + z);
    }
  }

  lemma ParsedItemsLast(a: seq<string>, b: seq<string>)
    requires b != []
    ensures ParsedItems(a + b) == ParsedItems(a + b[..|b| - 1]) + ParsedOne(b[|b| - 1])
  {
    var ab := a + b;
    assert ab[..|ab| - 1] == a + b[..|b| - 1];
    assert ab[|ab| - 1] == b[|b| - 1];
  }

  lemma {:induction false} ParsedParts(items: seq<(nat, string)>)
    requires forall i :: 0 <= i < |items| ==> items[i].1 != [] && !IsDigit(items[i].1[0])
    ensures ParsedItems(Parts(items)) == items
  {
    if items != [] {
      ParsedParts(items[1..]);
      ParsePartOf(items[0].0, items[0].1);
      ParsedItemsAppend([Part(items[0].0, items[0].1)], Parts(items[1..]));
      assert ParsedItems([Part(items[0].0, items[0].1)]) == [items[0]];
    }
  }

  lemma {:induction false} PartsNoPlus(items: seq<(nat, string)>)
    requires forall i :: 0 <= i < |items| ==> '+' !in items[i].1
    ensures forall i :: 0 <= i < |Parts(items)| ==> '+' !in Parts(items)[i]
  {
    if items != [] {
      PartsNoPlus(items[1..]);
      var p := Part(items[0].0, items[0].1);
      assert forall j :: 0 <= j < |NatToDecimal(items[0].0)| ==> IsDigit(p[j]);
      assert forall i :: 1 <= i < |Parts(items)| ==> Parts(items)[i] == Parts(items[1..])[i - 1];
    }
  }

  /** For a hand whose colours are plain, parsing its description gives back
      exactly its (count, colour) items in colour order. */
  lemma ParseHandKey(hand: Tally)
    requires forall c :: Count(hand, c) > 0 ==> Plain(c)
    requires SortedItems(hand) != []
    ensures ParsedItems(SplitPlus(HandKey(hand))) == SortedItems(hand)
  {
    var items := SortedItems(hand);
    HeldItemsFacts(hand, SortStrings(hand.order));
    assert forall i :: 0 <= i < |items| ==> Plain(items[i].1);
    PartsNoPlus(items);
    SplitJoin(Parts(items));
    ParsedParts(items);
  }

  lemma {:induction false} ColorTotalAppend(a: seq<(nat, string)>, b: seq<(nat, string)>, c: string)
    ensures ColorTotal(a + b, c) == ColorTotal(a, c) + ColorTotal(b, c)
    decreases |b|
  {
    if b == [] {
      assert a + b == a;
    } else {
      var n := |b| - 1;
      ColorTotalAppend(a, b[..n], c);
      assert (a + b)[..|a + b| - 1] == a + b[..n];
    }
  }

  lemma {:induction false} HeldItemsTotal(hand: Tally, colors: seq<string>, c: string)
    requires Distinct(colors)
    ensures ColorTotal(HeldItems(hand, colors), c) == if c in colors then Count(hand, c) else 0
  {
    if colors != [] {
      var rest := colors[1..];
      assert Distinct(rest) by {
        forall i, j | 0 <= i < j < |rest| ensures rest[i] != rest[j] {
          assert colors[i + 1] != colors[j + 1];
        }
      }
      HeldItemsTotal(hand, rest, c);
      var head := if Count(hand, colors[0]) > 0 then [(Count(hand, colors[0]), colors[0])] else [];
      ColorTotalAppend(head, HeldItems(hand, rest), c);
      if colors[0] == c {
        assert c !in rest by {
          forall j | 0 <= j < |rest| ensures rest[j] != c {
            assert colors[j + 1] != colors[0];
          }
        }
      }
    }
  }

  lemma AscendingDistinct(s: seq<string>)
    requires Ascending(s)
    ensures Distinct(s)
  {
    forall i, j | 0 <= i < j < |s| ensures s[i] != s[j] {
      if s[i] == s[j] {
        StrLessIrreflexive(s[i]);
      }
    }
  }

  /** A description names each colour as many times as the hand holds it. */
  lemma KeyCountIsCount(hand: Tally, c: string)
    requires WellFormed(hand)
    requires forall x :: Count(hand, x) > 0 ==> Plain(x)
    ensures KeyCount(HandKey(hand), c) == Count(hand, c)
  {
    var colors := SortStrings(hand.order);
    SortAscending(hand.order);
    AscendingDistinct(colors);
    HeldItemsTotal(hand, colors, c);
    assert c in multiset(colors) <==> c in multiset(hand.order);
    HandKeyEmpty(hand);
    if SortedItems(hand) != [] {
      ParseHandKey(hand);
    }
  }

  /** The expected number of balls of each colour in a hand: for a
      distribution over descriptions of hands with plain colours,
      `color_expectations[c]` is the sum over hands of their `c` count times
      their probability. */
  function HandsExpected(hands: seq<Tally>, probs: seq<real>, c: string): real
    requires |probs| == |hands|
  {
    if hands == [] then 0.0
    else
      var n := |hands| - 1;
      HandsExpected(hands[..n], probs[..n], c) + Times(Count(hands[n], c), probs[n])
  }

  lemma {:induction false} ExpectedOverHands(keys: seq<string>, dist: Dist, hands: seq<Tally>, c: string)
    requires |hands| == |keys|
    requires forall i :: 0 <= i < |hands| ==> WellFormed(hands[i]) && keys[i] == HandKey(hands[i])
    requires forall i, x :: 0 <= i < |hands| && Count(hands[i], x) > 0 ==> Plain(x)
    ensures Expected(keys, dist, c) == HandsExpected(hands, Probs(keys, dist), c)
  {
    if keys != [] {
      var n := |keys| - 1;
      ExpectedOverHands(keys[..n], dist, hands[..n], c);
      KeyCountIsCount(hands[n], c);
      assert Probs(keys, dist)[..n] == Probs(keys[..n], dist);
    }
  }

  /** The probabilities of the listed descriptions. */
  function Probs(keys: seq<string>, dist: Dist): (r: seq<real>)
    ensures |r| == |keys|
  {
    if keys == [] then [] else Probs(keys[..|keys| - 1], dist) + [Get(dist, keys[|keys| - 1])]
  }

  lemma ColorExpectationsOfHands(dist: Dist, hands: seq<Tally>, c: string)
    requires |hands| == |dist.keys|
    requires forall i :: 0 <= i < |hands| ==> WellFormed(hands[i]) && dist.keys[i] == HandKey(hands[i])
    requires forall i, x :: 0 <= i < |hands| && Count(hands[i], x) > 0 ==> Plain(x)
    ensures Get(ColorExpectationsOf(dist), c) == HandsExpected(hands, Probs(dist.keys, dist), c)
  {
    ExpectationsGet(dist.keys, dist, c);
    ExpectedOverHands(dist.keys, dist, hands, c);
  }
}
