/** The canonical description of a hand that both engines tally by, such as
    "2B+1R": the colours held, in sorted order, each as its count in decimal
    followed by the colour name, joined by "+"; "空手" (empty hand) when no
    colour is held. */
module HandKeys {
  import opened Tallies

  // ---------------------------------------------------------------------
  // String order (Python compares `str` code point by code point)

  predicate StrLess(a: string, b: string)
  {
    if a == [] then b != []
    else if b == [] then false
    else if a[0] != b[0] then a[0] < b[0]
    else StrLess(a[1..], b[1..])
  }

  lemma {:induction false} StrLessIrreflexive(a: string)
    ensures !StrLess(a, a)
  {
    if a != [] {
      StrLessIrreflexive(a[1..]);
    }
  }

  lemma {:induction false} StrLessTotal(a: string, b: string)
    requires a != b
    ensures StrLess(a, b) || StrLess(b, a)
  {
    if a != [] && b != [] && a[0] == b[0] {
      StrLessTotal(a[1..], b[1..]);
    }
  }

  lemma {:induction false} StrLessTransitive(a: string, b: string, c: string)
    requires StrLess(a, b) && StrLess(b, c)
    ensures StrLess(a, c)
  {
    if a != [] && a[0] == b[0] && b[0] == c[0] {
      StrLessTransitive(a[1..], b[1..], c[1..]);
    }
  }

  lemma StrLessAsymmetric(a: string, b: string)
    requires StrLess(a, b)
    ensures !StrLess(b, a)
  {
    if StrLess(b, a) {
      StrLessTransitive(a, b, a);
      StrLessIrreflexive(a);
    }
  }

  // ---------------------------------------------------------------------
  // `sorted` on distinct colour names

  function Insert(x: string, s: seq<string>): (r: seq<string>)
    ensures multiset(r) == multiset(s) + multiset{x}
  {
    if s == [] then [x]
    else if StrLess(x, s[0]) then [x] + s
    else
      assert s == [s[0]] + s[1..];
      [s[0]] + Insert(x, s[1..])
  }

  function SortStrings(s: seq<string>): (r: seq<string>)
    ensures multiset(r) == multiset(s)
  {
    if s == [] then []
    else
      assert s == s[..|s| - 1] + [s[|s| - 1]];
      Insert(s[|s| - 1], SortStrings(s[..|s| - 1]))
  }

  ghost predicate Ascending(s: seq<string>)
  {
    forall i, j :: 0 <= i < j < |s| ==> StrLess(s[i], s[j])
  }

  lemma {:induction false} InsertAscending(x: string, s: seq<string>)
    requires Ascending(s) && x !in s
    ensures Ascending(Insert(x, s))
  {
    if s != [] {
      if StrLess(x, s[0]) {
        forall j | 0 < j < |s| ensures StrLess(x, s[j]) {
          StrLessTransitive(x, s[0], s[j]);
        }
        assert forall j :: 0 <= j < |s| ==> ([x] + s)[j + 1] == s[j];
      } else {
        StrLessTotal(x, s[0]);
        var tail := s[1..];
        assert Ascending(tail);
        InsertAscending(x, tail);
        var rest := Insert(x, tail);
        forall y | y in rest ensures StrLess(s[0], y) {
          assert y in multiset(rest);
          if y != x {
            assert y in multiset(tail);
            var j :| 0 <= j < |tail| && tail[j] == y;
            assert s[j + 1] == y;
          }
        }
        var r := [s[0]] + rest;
        forall i, j | 0 <= i < j < |r| ensures StrLess(r[i], r[j]) {
          assert r[j] == rest[j - 1];
          if i > 0 {
            assert r[i] == rest[i - 1];
          }
        }
      }
    }
  }

  lemma {:induction false} SortAscending(s: seq<string>)
    requires Distinct(s)
    ensures Ascending(SortStrings(s))
  {
    if s != [] {
      var init := s[..|s| - 1];
      assert Distinct(init);
      SortAscending(init);
      var x := s[|s| - 1];
      forall j | 0 <= j < |init| ensures init[j] != x {
        assert s[j] == init[j];
      }
      assert x !in multiset(SortStrings(init));
      InsertAscending(x, SortStrings(init));
    }
  }

  /** Two ascending lists of the same names are the same list. */
  lemma {:induction false} AscendingUnique(a: seq<string>, b: seq<string>)
    requires Ascending(a) && Ascending(b) && multiset(a) == multiset(b)
    ensures a == b
  {
    if a != [] {
      AscendingHeads(a, b);
      assert a == [a[0]] + a[1..] && b == [b[0]] + b[1..];
      assert multiset(a[1..]) == multiset(a) - multiset{a[0]};
      assert multiset(b[1..]) == multiset(b) - multiset{b[0]};
      AscendingUnique(a[1..], b[1..]);
    }
  }

  /** Both start with the least name. */
  lemma AscendingHeads(a: seq<string>, b: seq<string>)
    requires Ascending(a) && Ascending(b) && multiset(a) == multiset(b) && a != []
    ensures b != [] && a[0] == b[0]
  {
    assert a[0] in multiset(a);
    assert b != [];
    if a[0] != b[0] {
      assert a[0] in multiset(b);
      assert b[0] in multiset(a);
      var i :| 0 <= i < |b| && b[i] == a[0];
      var j :| 0 <= j < |a| && a[j] == b[0];
      StrLessAsymmetric(b[0], a[0]);
    }
  }

  // ---------------------------------------------------------------------
  // Decimal notation (`f"{count}"` and `int(digits)`)

  predicate IsDigit(c: char)
  {
    '0' <= c <= '9'
  }

  predicate AllDigits(s: string)
  {
    forall i :: 0 <= i < |s| ==> IsDigit(s[i])
  }

  function DigitChar(d: nat): (c: char)
    requires d < 10
    ensures IsDigit(c) && c as int - '0' as int == d
  {
    (d + '0' as int) as char
  }

  function NatToDecimal(n: nat): (r: string)
    ensures r != [] && AllDigits(r)
  {
    if n < 10 then [DigitChar(n)] else NatToDecimal(n / 10) + [DigitChar(n % 10)]
  }

  /** `int(s)` for a string of decimal digits. */
  function DecimalValue(s: string): nat
    requires AllDigits(s)
  {
    if s == [] then 0 else DecimalValue(s[..|s| - 1]) * 10 + (s[|s| - 1] as int - '0' as int)
  }

  lemma {:induction false} DecimalRoundTrip(n: nat)
    ensures DecimalValue(NatToDecimal(n)) == n
  {
    if n >= 10 {
      DecimalRoundTrip(n / 10);
      var r := NatToDecimal(n);
      assert r[..|r| - 1] == NatToDecimal(n / 10);
    }
  }

  // ---------------------------------------------------------------------
  // The key

  const EmptyHand: string := "空手"

  /** `f"{count}{color}"` */
  function Part(count: nat, color: string): string
  {
    NatToDecimal(count) + color
  }

  /** The (count, colour) items of the listed colours held in positive number. */
  function HeldItems(hand: Tally, colors: seq<string>): (r: seq<(nat, string)>)
    ensures |r| <= |colors|
  {
    if colors == [] then []
    else (if Count(hand, colors[0]) > 0 then [(Count(hand, colors[0]), colors[0])] else [])
         + HeldItems(hand, colors[1..])
  }

  /** Each item is a listed colour with its positive count in the hand. */
  lemma {:induction false} HeldItemsFacts(hand: Tally, colors: seq<string>)
    ensures forall i :: 0 <= i < |HeldItems(hand, colors)| ==>
      var r := HeldItems(hand, colors);
      r[i].0 > 0 && r[i].0 == Count(hand, r[i].1) && r[i].1 in colors
  {
    if colors != [] {
      HeldItemsFacts(hand, colors[1..]);
    }
  }

  /** The hand's items by colour name: the loop over `sorted(hand.items())`
      keeping `count > 0`. */
  function SortedItems(hand: Tally): seq<(nat, string)>
  {
    HeldItems(hand, SortStrings(hand.order))
  }

  function Parts(items: seq<(nat, string)>): (r: seq<string>)
    ensures |r| == |items|
  {
    if items == [] then [] else [Part(items[0].0, items[0].1)] + Parts(items[1..])
  }

  /** `"+".join(parts)` */
  function Join(parts: seq<string>): string
  {
    if parts == [] then ""
    else if |parts| == 1 then parts[0]
    else parts[0] + "+" + Join(parts[1..])
  }

  /** `"+".join(hand_desc_parts) if hand_desc_parts else "空手"` */
  function HandKey(hand: Tally): string
  {
    var items := SortedItems(hand);
    if items == [] then EmptyHand else Join(Parts(items))
  }

  /** A non-empty key starts with the decimal count of its first colour, so
      only the empty hand is described as "空手". */
  lemma HandKeyEmpty(hand: Tally)
    ensures HandKey(hand) == EmptyHand <==> SortedItems(hand) == []
  {
    var items := SortedItems(hand);
    if items != [] {
      var first := Part(items[0].0, items[0].1);
      assert Parts(items)[0] == first;
      assert Join(Parts(items))[0] == first[0];
      assert IsDigit(first[0]);
      assert !IsDigit(EmptyHand[0]);
    }
  }

  /** The colours a hand holds in positive number. */
  lemma {:induction false} HeldItemsNone(hand: Tally, colors: seq<string>)
    requires forall c :: c in colors ==> Count(hand, c) == 0
    ensures HeldItems(hand, colors) == []
  {
    if colors != [] {
      HeldItemsNone(hand, colors[1..]);
    }
  }

  /** The key does not depend on insertion order: hands holding the same
      balls are described alike. */
  lemma HandKeyCanonical(h: Tally, g: Tally)
    requires WellFormed(h) && WellFormed(g) && NoZeros(h) && NoZeros(g)
    requires forall c :: Count(h, c) == Count(g, c)
    ensures HandKey(h) == HandKey(g)
  {
    SameCountsSameItems(h, g);
  }

  /** Hands holding the same counts list the same sorted items. */
  lemma SameCountsSameItems(h: Tally, g: Tally)
    requires WellFormed(h) && WellFormed(g) && NoZeros(h) && NoZeros(g)
    requires forall c :: Count(h, c) == Count(g, c)
    ensures SortedItems(h) == SortedItems(g)
  {
    assert forall c :: c in h.order <==> c in g.order by {
      forall c ensures c in h.order <==> c in g.order {
        if c in h.order { assert Count(g, c) > 0; }
        if c in g.order { assert Count(h, c) > 0; }
      }
    }
    SameNames(h.order, g.order);
    SortAscending(h.order);
    SortAscending(g.order);
    AscendingUnique(SortStrings(h.order), SortStrings(g.order));
    HeldItemsSameCounts(h, g, SortStrings(h.order));
  }

  lemma {:induction false} HeldItemsSameCounts(h: Tally, g: Tally, colors: seq<string>)
    requires forall c :: Count(h, c) == Count(g, c)
    ensures HeldItems(h, colors) == HeldItems(g, colors)
  {
    if colors != [] {
      HeldItemsSameCounts(h, g, colors[1..]);
    }
  }

  /** A listed colour held in positive number is among the items, with its count. */
  lemma {:induction false} HeldItemsHas(hand: Tally, colors: seq<string>, c: string)
    requires c in colors && Count(hand, c) > 0
    ensures (Count(hand, c), c) in HeldItems(hand, colors)
  {
    if colors[0] != c {
      HeldItemsHas(hand, colors[1..], c);
    }
  }

  /** Every colour the hand holds is among its sorted items, with its count. */
  lemma ItemOf(hand: Tally, c: string)
    requires WellFormed(hand) && Count(hand, c) > 0
    ensures (Count(hand, c), c) in SortedItems(hand)
  {
    assert c in hand.order;
    assert c in multiset(hand.order);
    assert c in SortStrings(hand.order) by {
      assert c in multiset(SortStrings(hand.order));
    }
    HeldItemsHas(hand, SortStrings(hand.order), c);
  }

  /** A colour among the sorted items carries the hand's count of it. */
  lemma ItemCount(hand: Tally, n: nat, c: string)
    requires (n, c) in SortedItems(hand)
    ensures n == Count(hand, c)
  {
    var r := SortedItems(hand);
    var i :| 0 <= i < |r| && r[i] == (n, c);
    HeldItemsFacts(hand, SortStrings(hand.order));
  }

  /** `tuple(sorted(hand.items()))` of two hands without zero counts are
      equal exactly when the hands hold the same counts. */
  lemma SortedItemsIff(h: Tally, g: Tally)
    requires WellFormed(h) && WellFormed(g) && NoZeros(h) && NoZeros(g)
    ensures SortedItems(h) == SortedItems(g) <==> h.counts == g.counts
  {
    if h.counts == g.counts {
      SameCountsSameItems(h, g);
    }
    if SortedItems(h) == SortedItems(g) {
      forall c ensures Count(h, c) == Count(g, c) {
        if Count(h, c) > 0 {
          ItemOf(h, c);
          ItemCount(g, Count(h, c), c);
        } else if Count(g, c) > 0 {
          ItemOf(g, c);
          ItemCount(h, Count(g, c), c);
        }
      }
      assert forall c :: c in h.counts <==> c in g.counts by {
        forall c ensures c in h.counts <==> c in g.counts {
          assert c in h.counts <==> Count(h, c) > 0;
          assert c in g.counts <==> Count(g, c) > 0;
        }
      }
      assert forall c :: c in h.counts ==> h.counts[c] == Count(h, c) == Count(g, c) == g.counts[c];
    }
  }

  /** Distinct lists holding the same names are permutations of each other. */
  lemma SameNames(a: seq<string>, b: seq<string>)
    requires Distinct(a) && Distinct(b)
    requires forall c :: c in a <==> c in b
    ensures multiset(a) == multiset(b)
  {
    DistinctAtMostOnce(a);
    DistinctAtMostOnce(b);
    forall c ensures multiset(a)[c] == multiset(b)[c] {
      assert c in multiset(a) <==> c in a;
      assert c in multiset(b) <==> c in b;
    }
  }
}
