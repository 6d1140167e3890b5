/** Binomial coefficients (the `math.comb` the engine calls) and Vandermonde's
    identity, which is what makes the multivariate hypergeometric weights of a
    draw sum to one. */
module Combinatorics {

  /** C(n, k) by Pascal's rule; zero when k > n, as `math.comb` returns. */
  function Choose(n: nat, k: nat): nat
    decreases n
  {
    if k == 0 then 1
    else if n == 0 then 0
    else Choose(n - 1, k - 1) + Choose(n - 1, k)
  }

  lemma {:induction false} ChooseAbove(n: nat, k: nat)
    requires k > n
    ensures Choose(n, k) == 0
    decreases n
  {
    if n > 0 {
      ChooseAbove(n - 1, k - 1);
      ChooseAbove(n - 1, k);
    }
  }

  lemma {:induction false} ChoosePositive(n: nat, k: nat)
    requires k <= n
    ensures Choose(n, k) > 0
    decreases n
  {
    if k > 0 {
      ChoosePositive(n - 1, k - 1);
    }
  }

  /** sum over j in [t, k] of C(a, j) * C(b, k - j) */
  function Conv(a: nat, b: nat, k: nat, t: nat): nat
    decreases k + 1 - t
  {
    if t > k then 0
    else Choose(a, t) * Choose(b, k - t) + Conv(a, b, k, t + 1)
  }

  /** The terms with j > a vanish. */
  lemma {:induction false} ConvAbove(a: nat, b: nat, k: nat, t: nat)
    requires t > a
    ensures Conv(a, b, k, t) == 0
    decreases k + 1 - t
  {
    if t <= k {
      ChooseAbove(a, t);
      ConvAbove(a, b, k, t + 1);
    }
  }

  lemma AddMul(x: nat, y: nat, z: nat)
    ensures (x + y) * z == x * z + y * z
  {
  }

  /** Pascal's rule lifted to the convolution. */
  lemma {:induction false} ConvPascal(a: nat, b: nat, k: nat, t: nat)
    requires 1 <= k && 1 <= t <= k + 1
    ensures Conv(a + 1, b, k, t) == Conv(a, b, k, t) + Conv(a, b, k - 1, t - 1)
    decreases k + 1 - t
  {
    if t <= k {
      ConvPascal(a, b, k, t + 1);
      var x, y, z := Choose(a, t), Choose(a, t - 1), Choose(b, k - t);
      assert Choose(a + 1, t) == x + y;
      assert Conv(a + 1, b, k, t) == (x + y) * z + Conv(a + 1, b, k, t + 1);
      assert Conv(a, b, k, t) == x * z + Conv(a, b, k, t + 1);
      assert Conv(a, b, k - 1, t - 1) == y * z + Conv(a, b, k - 1, t);
      AddMul(x, y, z);
    }
  }

  /** Vandermonde's identity: sum over j of C(a, j) * C(b, k - j) == C(a + b, k). */
  lemma {:induction false} Vandermonde(a: nat, b: nat, k: nat)
    ensures Conv(a, b, k, 0) == Choose(a + b, k)
    decreases a, k
  {
    if a == 0 {
      ConvAbove(0, b, k, 1);
    } else if k > 0 {
      ConvPascal(a - 1, b, k, 1);
      Vandermonde(a - 1, b, k);
      Vandermonde(a - 1, b, k - 1);
      assert Choose(a, 0) == Choose(a - 1, 0);
    }
  }

  function Min(a: int, b: int): int
  {
    if a <= b then a else b
  }

  /** sum over j in [0, m) of C(a, j) * C(b, k - j), for m <= k + 1: the
      partial sums the enumeration of draws builds one take at a time. */
  function PartialConv(a: nat, b: nat, k: nat, m: nat): nat
    requires m <= k + 1
  {
    if m == 0 then 0
    else PartialConv(a, b, k, m - 1) + Choose(a, m - 1) * Choose(b, k - (m - 1))
  }

  lemma PartialConvStep(a: nat, b: nat, k: nat, m: nat)
    requires 0 < m <= k + 1
    ensures PartialConv(a, b, k, m) == PartialConv(a, b, k, m - 1) + Choose(a, m - 1) * Choose(b, k - (m - 1))
  {
  }

  lemma {:induction false} ConvSplit(a: nat, b: nat, k: nat, m: nat)
    requires m <= k + 1
    ensures Conv(a, b, k, 0) == PartialConv(a, b, k, m) + Conv(a, b, k, m)
  {
    if m > 0 {
      ConvSplit(a, b, k, m - 1);
    }
  }

  /** Vandermonde's identity with the sum cut off where the terms vanish, at
      j = min(a, k), which is where the draw enumeration stops. */
  lemma VandermondeTruncated(a: nat, b: nat, k: nat)
    ensures PartialConv(a, b, k, Min(a, k) + 1) == Choose(a + b, k)
  {
    var m := Min(a, k) + 1;
    ConvSplit(a, b, k, m);
    Vandermonde(a, b, k);
    if m <= k {
      ConvAbove(a, b, k, m);
    }
  }
}
