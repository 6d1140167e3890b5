/** An insertion-ordered string -> real table: the `defaultdict(float)` of
    hand probabilities, the Monte Carlo distribution and the colour
    expectations. */
module Distributions {
  import opened Tallies

  datatype Dist = Dist(keys: seq<string>, values: map<string, real>)

  /** Keys listed once each, exactly the keys of the table. */
  ghost predicate Proper(d: Dist)
  {
    Distinct(d.keys) && (forall k :: k in d.values <==> k in d.keys)
  }

  const EmptyDist: Dist := Dist([], map[])

  /** `d.get(k, 0)` */
  function Get(d: Dist, k: string): real
  {
    if k in d.values then d.values[k] else 0.0
  }

  /** `d[k] += x` on a defaultdict, the same as `d[k] = d.get(k, 0) + x`: a
      new key joins at the end. */
  function AddTo(d: Dist, k: string, x: real): (r: Dist)
    ensures Proper(d) ==> Proper(r)
    ensures forall j :: Get(r, j) == Get(d, j) + (if j == k then x else 0.0)
    ensures k in d.values ==> r.keys == d.keys
    ensures k !in d.values ==> r.keys == d.keys + [k]
  {
    if k in d.values then Dist(d.keys, d.values[k := d.values[k] + x])
    else
      var r := Dist(d.keys + [k], d.values[k := x]);
      assert Proper(d) ==> Distinct(r.keys) by {
        if Proper(d) {
          forall i, j | 0 <= i < j < |r.keys| ensures r.keys[i] != r.keys[j] {
            if j == |d.keys| { assert r.keys[i] == d.keys[i]; }
          }
        }
      }
      r
  }

  /** `d[k] = x`: a new key joins at the end. */
  function Put(d: Dist, k: string, x: real): (r: Dist)
    ensures Proper(d) ==> Proper(r)
    ensures forall j :: Get(r, j) == if j == k then x else Get(d, j)
    ensures k in d.values ==> r.keys == d.keys
    ensures k !in d.values ==> r.keys == d.keys + [k]
  {
    if k in d.values then Dist(d.keys, d.values[k := x])
    else
      var r := Dist(d.keys + [k], d.values[k := x]);
      assert Proper(d) ==> Distinct(r.keys) by {
        if Proper(d) {
          forall i, j | 0 <= i < j < |r.keys| ensures r.keys[i] != r.keys[j] {
            if j == |d.keys| { assert r.keys[i] == d.keys[i]; }
          }
        }
      }
      r
  }

  /** The values of the listed keys, added in order. */
  function SumOverKeys(keys: seq<string>, d: Dist): real
  {
    if keys == [] then 0.0 else SumOverKeys(keys[..|keys| - 1], d) + Get(d, keys[|keys| - 1])
  }

  /** `sum(d.values())` */
  function SumValues(d: Dist): real
  {
    SumOverKeys(d.keys, d)
  }

  /** Raising one key's value raises the sum over keys listing it once. */
  lemma {:induction false} SumOverKeysRaise(keys: seq<string>, d: Dist, e: Dist, k: string, x: real)
    requires forall j :: Get(e, j) == Get(d, j) + (if j == k then x else 0.0)
    requires multiset(keys)[k] <= 1
    ensures SumOverKeys(keys, e) == SumOverKeys(keys, d) + (if k in keys then x else 0.0)
  {
    if keys != [] {
      var init := keys[..|keys| - 1];
      assert keys == init + [keys[|keys| - 1]];
      assert multiset(keys) == multiset(init) + multiset{keys[|keys| - 1]};
      SumOverKeysRaise(init, d, e, k, x);
    }
  }

  /** Adding x to a key adds x to the total. */
  lemma AddToSum(d: Dist, k: string, x: real)
    requires Proper(d)
    ensures SumValues(AddTo(d, k, x)) == SumValues(d) + x
  {
    var r := AddTo(d, k, x);
    DistinctAtMostOnce(d.keys);
    if k in d.values {
      SumOverKeysRaise(d.keys, d, r, k, x);
    } else {
      assert r.keys[..|r.keys| - 1] == d.keys;
      SumOverKeysRaise(d.keys, d, r, k, x);
    }
  }
}
