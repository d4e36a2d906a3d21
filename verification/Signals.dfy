/** Causal discrete-time signals over the reals, and the two recurrences every filter in
    the library is made of.  A signal or a coefficient list is a finite sequence, read as
    zero outside its range. */
module Signals {

  /** The value of a signal at time n, zero before the start and after the end. */
  function At(s: seq<real>, n: int): real {
    if 0 <= n < |s| then s[n] else 0.0
  }

  /** The sum over k of b[k] * y[n - k]. */
  function FirAt(b: seq<real>, y: seq<real>, n: int): real {
    if |b| == 0 then 0.0 else b[0] * At(y, n) + FirAt(b[1..], y, n - 1)
  }

  /** The output of the FIR filter b fed with y. */
  function Fir(b: seq<real>, y: seq<real>): (z: seq<real>)
    ensures |z| == |y|
    ensures forall n :: 0 <= n < |z| ==> z[n] == FirAt(b, y, n)
  {
    seq(|y|, n requires 0 <= n < |y| => FirAt(b, y, n))
  }

  function Times(c: real, d: real): real {
    c * d
  }

  function Over(x: real, d: real): real
    requires d != 0.0
  {
    x / d
  }

  /** The output of the IIR filter a fed with x: the causal y that solves
      a[0]*y[n] + a[1]*y[n-1] + ... == x[n]. */
  function Iir(a: seq<real>, x: seq<real>): (y: seq<real>)
    requires |a| > 0 && a[0] != 0.0
    ensures |y| == |x|
    decreases |x|
  {
    if |x| == 0 then []
    else
      var n := |x| - 1;
      var y := Iir(a, x[..n]);
      y + [Over(x[n] - FirAt(a[1..], y, n - 1), a[0])]
  }

  /** Multiplication by a constant gain. */
  function Scale(c: real, x: seq<real>): (z: seq<real>)
    ensures |z| == |x|
    ensures forall n :: 0 <= n < |z| ==> z[n] == c * x[n]
  {
    seq(|x|, n requires 0 <= n < |x| => c * x[n])
  }

  /** The product of two coefficient lists read as polynomials in the unit delay. */
  function Product(a: seq<real>, b: seq<real>): (p: seq<real>)
    requires |a| > 0 && |b| > 0
    ensures |p| == |a| + |b| - 1
    ensures forall n :: 0 <= n < |p| ==> p[n] == FirAt(a, b, n)
  {
    seq(|a| + |b| - 1, n requires 0 <= n < |a| + |b| - 1 => FirAt(a, b, n))
  }

  /** A single one followed by zeros. */
  function Impulse(m: nat): (u: seq<real>)
    requires m > 0
    ensures |u| == m
  {
    [1.0] + seq(m - 1, _ => 0.0)
  }

  predicate IsZero(p: seq<real>) {
    forall n :: 0 <= n < |p| ==> p[n] == 0.0
  }

  // ---------------------------------------------------------------- linearity

  lemma {:induction false} MulAdd(b: real, c: real, v: real, w: real, p: real, q: real)
    ensures b * (c * v + w) + (c * p + q) == c * (b * v + p) + (b * w + q)
  {
  }

  /** A filter output at n only depends on the input up to n, and is linear in it; the
      second operand may be delayed by d. */
  lemma {:induction false} FirLinear(b: seq<real>, u: seq<real>, c: real, v: seq<real>, w: seq<real>, d: int, n: int)
    requires forall m :: m <= n ==> At(u, m) == c * At(v, m) + At(w, m - d)
    ensures FirAt(b, u, n) == c * FirAt(b, v, n) + FirAt(b, w, n - d)
    decreases |b|
  {
    if |b| > 0 {
      FirLinear(b[1..], u, c, v, w, d, n - 1);
      MulAdd(b[0], c, At(v, n), At(w, n - d), FirAt(b[1..], v, n - 1), FirAt(b[1..], w, n - 1 - d));
    }
  }

  lemma {:induction false} FirZero(b: seq<real>, u: seq<real>, n: int)
    requires forall m :: m <= n ==> At(u, m) == 0.0
    ensures FirAt(b, u, n) == 0.0
    decreases |b|
  {
    if |b| > 0 { FirZero(b[1..], u, n - 1); }
  }

  /** Equal inputs up to n give equal outputs at n. */
  lemma {:induction false} FirPrefix(b: seq<real>, u: seq<real>, v: seq<real>, n: int)
    requires forall m :: m <= n ==> At(u, m) == At(v, m)
    ensures FirAt(b, u, n) == FirAt(b, v, n)
  {
    var none: seq<real> := [];
    FirZero(b, none, n);
    FirLinear(b, u, 1.0, v, none, 0, n);
    assert FirAt(b, none, n - 0) == 0.0;
  }

  lemma {:induction false} FirScaled(b: seq<real>, c: real, v: seq<real>, n: int)
    ensures FirAt(b, Scale(c, v), n) == c * FirAt(b, v, n)
  {
    FirZero(b, [], n);
    FirLinear(b, Scale(c, v), c, v, [], 0, n);
  }

  // ------------------------------------------------- convolution as a product

  /** Peeling the first sample of the input instead of the first coefficient. */
  lemma {:induction false} FirPeel(b: seq<real>, y: seq<real>, n: int)
    requires |y| > 0
    ensures FirAt(b, y, n) == y[0] * At(b, n) + FirAt(b, y[1..], n - 1)
    decreases |b|
  {
    if |b| > 0 {
      FirPeel(b[1..], y, n - 1);
      assert At(b, n) == if n == 0 then b[0] else At(b[1..], n - 1);
      assert n != 0 ==> At(y, n) == At(y[1..], n - 1);
      if n == 0 { assert At(y[1..], -1) == 0.0; }
    }
  }

  /** Convolution is symmetric. */
  lemma {:induction false} FirCommutes(b: seq<real>, y: seq<real>, n: int)
    ensures FirAt(b, y, n) == FirAt(y, b, n)
    decreases |y|
  {
    if |y| == 0 {
      FirZero(b, y, n);
    } else {
      FirPeel(b, y, n);
      FirCommutes(b, y[1..], n - 1);
    }
  }

  /** A sum over the first k + 1 coefficients, by the one over the first k. */
  lemma {:induction false} FirSnoc(b: seq<real>, k: nat, y: seq<real>, n: int)
    requires k < |b|
    ensures FirAt(b[..k + 1], y, n) == FirAt(b[..k], y, n) + b[k] * At(y, n - k)
    decreases k
  {
    if k == 0 {
      assert b[..1] == [b[0]] && b[..0] == [];
    } else {
      assert b[..k + 1][1..] == b[1..][..k] && b[..k][1..] == b[1..][..k - 1];
      FirSnoc(b[1..], k - 1, y, n - 1);
    }
  }

  /** Two FIR filters in series may be exchanged. */
  lemma {:induction false} FirExchange(a: seq<real>, b: seq<real>, y: seq<real>, n: int)
    requires n < |y|
    ensures FirAt(a, Fir(b, y), n) == FirAt(b, Fir(a, y), n)
    decreases |a|
  {
    hide FirAt, Fir;
    if |a| == 0 {
      FirNone(a, y);
      FirNone(a, Fir(b, y));
      forall m | m <= n ensures At(Fir(a, y), m) == 0.0 { AtFir(a, y, m); }
      FirZero(b, Fir(a, y), n);
    } else {
      var t := a[1..];
      FirExchange(t, b, y, n - 1);
      forall m | m <= n ensures At(Fir(a, y), m) == a[0] * At(y, m) + At(Fir(t, y), m - 1) {
        FirHead(a, y, m);
        AtFir(a, y, m);
        AtFir(t, y, m - 1);
      }
      FirLinear(b, Fir(a, y), a[0], y, Fir(t, y), 1, n);
      FirHead(a, Fir(b, y), n);
      AtFir(b, y, n);
    }
  }

  lemma {:induction false} FirNone(a: seq<real>, y: seq<real>)
    requires |a| == 0
    ensures forall n :: FirAt(a, y, n) == 0.0
  {
  }

  lemma {:induction false} AtFir(a: seq<real>, y: seq<real>, n: int)
    requires n < |y|
    ensures At(Fir(a, y), n) == FirAt(a, y, n)
  {
    FirBeforeStart(a, y);
  }

  lemma {:induction false} FirBeforeStart(b: seq<real>, y: seq<real>)
    ensures forall n :: n < 0 ==> FirAt(b, y, n) == 0.0
  {
    forall n | n < 0 ensures FirAt(b, y, n) == 0.0 { FirZero(b, y, n); }
  }

  /** A product of coefficient lists filters like the two lists in series. */
  lemma {:induction false} FirProduct(a: seq<real>, b: seq<real>, y: seq<real>, n: int)
    requires |a| > 0 && |b| > 0 && n < |y|
    ensures FirAt(Product(a, b), y, n) == FirAt(a, Fir(b, y), n)
    decreases |a|
  {
    hide FirAt, Fir, Product;
    FirProductHead(a, b, y, n);
    FirHead(a, Fir(b, y), n);
    AtFir(b, y, n);
    if |a| > 1 {
      FirProduct(a[1..], b, y, n - 1);
    } else {
      FirNone([], y);
      FirNone(a[1..], Fir(b, y));
    }
  }

  lemma {:induction false} FirHead(a: seq<real>, z: seq<real>, n: int)
    requires |a| > 0
    ensures FirAt(a, z, n) == a[0] * At(z, n) + FirAt(a[1..], z, n - 1)
  {
  }

  lemma {:induction false} FirProductHead(a: seq<real>, b: seq<real>, y: seq<real>, n: int)
    requires |a| > 0 && |b| > 0
    ensures FirAt(Product(a, b), y, n)
         == a[0] * FirAt(b, y, n) + FirAt(if |a| == 1 then [] else Product(a[1..], b), y, n - 1)
  {
    ProductStep(a, b);
    CoefficientsLinear(Product(a, b), a[0], b, if |a| == 1 then [] else Product(a[1..], b), 1, y, n);
  }

  /** A filter is linear in its coefficients too. */
  lemma {:induction false} CoefficientsLinear(p: seq<real>, c: real, b: seq<real>, q: seq<real>, d: int, y: seq<real>, n: int)
    requires forall m :: At(p, m) == c * At(b, m) + At(q, m - d)
    ensures FirAt(p, y, n) == c * FirAt(b, y, n) + FirAt(q, y, n - d)
  {
    calc {
      FirAt(p, y, n);
      { FirCommutes(p, y, n); }
      FirAt(y, p, n);
      { FirLinear(y, p, c, b, q, d, n); }
      c * FirAt(y, b, n) + FirAt(y, q, n - d);
      { FirCommutes(b, y, n); }
      c * FirAt(b, y, n) + FirAt(y, q, n - d);
      { FirCommutes(q, y, n - d); }
      c * FirAt(b, y, n) + FirAt(q, y, n - d);
    }
  }

  /** Splitting off the first coefficient of the left factor. */
  lemma {:induction false} ProductStep(a: seq<real>, b: seq<real>)
    requires |a| > 0 && |b| > 0
    ensures var q := if |a| == 1 then [] else Product(a[1..], b);
      forall m :: At(Product(a, b), m) == a[0] * At(b, m) + At(q, m - 1)
  {
    var t := a[1..];
    var q := if |t| == 0 then [] else Product(t, b);
    FirBeforeStart(t, b);
    forall m ensures At(Product(a, b), m) == a[0] * At(b, m) + At(q, m - 1) {
      if 0 <= m < |a| + |b| - 1 {
        assert FirAt(a, b, m) == a[0] * At(b, m) + FirAt(t, b, m - 1);
      }
    }
  }

  // ----------------------------------------------------------- the recurrence

  /** The IIR output solves its difference equation at every sample ... */
  lemma {:induction false} IirSolves(a: seq<real>, x: seq<real>, n: nat)
    requires |a| > 0 && a[0] != 0.0 && n < |x|
    ensures FirAt(a, Iir(a, x), n) == x[n]
    decreases |x|
  {
    var l := |x| - 1;
    var y := Iir(a, x[..l]);
    if n < l {
      IirSolves(a, x[..l], n);
      FirPrefix(a, Iir(a, x), y, n);
    } else {
      FirPrefix(a[1..], Iir(a, x), y, l - 1);
      FirHead(a, Iir(a, x), n);
    }
  }

  /** ... and is the only causal signal that does. */
  lemma {:induction false} IirUnique(a: seq<real>, x: seq<real>, y: seq<real>)
    requires |a| > 0 && a[0] != 0.0 && |y| == |x|
    requires forall n :: 0 <= n < |x| ==> FirAt(a, y, n) == x[n]
    ensures y == Iir(a, x)
    decreases |x|
  {
    if |x| > 0 {
      var l := |x| - 1;
      forall n | 0 <= n < l ensures FirAt(a, y[..l], n) == x[..l][n] {
        FirPrefix(a, y[..l], y, n);
      }
      IirUnique(a, x[..l], y[..l]);
      FirPrefix(a[1..], y, y[..l], l - 1);
      FirHead(a, y, l);
      DivideBack(a[0], y[l], FirAt(a[1..], y[..l], l - 1), x[l]);
      assert y == y[..l] + [y[l]];
    }
  }

  lemma {:induction false} DivideBack(a: real, y: real, rest: real, x: real)
    requires a != 0.0 && a * y + rest == x
    ensures y == Over(x - rest, a)
  {
  }

  /** Both filters are causal: a longer input does not change earlier outputs. */
  lemma {:induction false} Causal(a: seq<real>, b: seq<real>, x: seq<real>, k: nat)
    requires |a| > 0 && a[0] != 0.0 && k <= |x|
    ensures Iir(a, x[..k]) == Iir(a, x)[..k]
    ensures Fir(b, x[..k]) == Fir(b, x)[..k]
  {
    var y := Iir(a, x)[..k];
    forall n | 0 <= n < k ensures FirAt(a, y, n) == x[..k][n] {
      IirSolves(a, x, n);
      FirPrefix(a, y, Iir(a, x), n);
    }
    IirUnique(a, x[..k], y);
    forall n | 0 <= n < k ensures FirAt(b, x[..k], n) == FirAt(b, x, n) {
      FirPrefix(b, x[..k], x, n);
    }
  }

  /** Extending the input by one sample extends both outputs by one. */
  lemma {:induction false} FirGrows(b: seq<real>, z: seq<real>, n: nat)
    requires |z| == n + 1
    ensures Fir(b, z) == Fir(b, z[..n]) + [FirAt(b, z, n)]
  {
    forall m | 0 <= m < n ensures FirAt(b, z, m) == FirAt(b, z[..n], m) {
      FirPrefix(b, z, z[..n], m);
    }
  }

  lemma {:induction false} IirGrows(a: seq<real>, z: seq<real>, n: nat)
    requires |a| > 0 && a[0] == 1.0 && |z| == n + 1
    ensures Iir(a, z) == Iir(a, z[..n]) + [z[n] - FirAt(a, Iir(a, z[..n]), n)]
  {
    var y := Iir(a, z[..n]);
    IirUnfold(a, z, n);
    Residue(a, y, z[n], n);
    var q := Over(z[n] - FirAt(a[1..], y, n - 1), a[0]);
    assert Iir(a, z) == y + [q];
    assert q == z[n] - FirAt(a, y, n);
  }

  lemma {:induction false} IirUnfold(a: seq<real>, z: seq<real>, n: int)
    requires |a| > 0 && a[0] != 0.0 && |z| > 0 && n == |z| - 1
    ensures Iir(a, z) == Iir(a, z[..n]) + [Over(z[n] - FirAt(a[1..], Iir(a, z[..n]), n - 1), a[0])]
  {
  }

  /** With head 1, the difference equation is solved without a division. */
  lemma {:induction false} Residue(a: seq<real>, y: seq<real>, v: real, n: nat)
    requires |a| > 0 && a[0] == 1.0 && |y| == n
    ensures Over(v - FirAt(a[1..], y, n - 1), a[0]) == v - FirAt(a, y, n)
  {
    FirHead(a, y, n);
    DivideByOne(v - FirAt(a[1..], y, n - 1), a[0]);
  }

  lemma {:induction false} DivideByOne(x: real, one: real)
    requires one == 1.0
    ensures Over(x, one) == x
  {
  }

  /** A constant gain passes through both filters. */
  lemma {:induction false} GainPassesIir(a: seq<real>, c: real, x: seq<real>)
    requires |a| > 0 && a[0] != 0.0
    ensures Iir(a, Scale(c, x)) == Scale(c, Iir(a, x))
  {
    var y := Scale(c, Iir(a, x));
    forall n | 0 <= n < |x| ensures FirAt(a, y, n) == Scale(c, x)[n] {
      calc {
        FirAt(a, y, n);
        { FirScaled(a, c, Iir(a, x), n); }
        c * FirAt(a, Iir(a, x), n);
        { IirSolves(a, x, n); }
        Scale(c, x)[n];
      }
    }
    IirUnique(a, Scale(c, x), y);
  }

  lemma {:induction false} GainPassesFir(b: seq<real>, c: real, x: seq<real>)
    ensures Fir(b, Scale(c, x)) == Scale(c, Fir(b, x))
  {
    forall n | 0 <= n < |x| ensures Fir(b, Scale(c, x))[n] == Scale(c, Fir(b, x))[n] {
      FirScaled(b, c, x, n);
    }
  }

  /** Multiplying an IIR coefficient list by c divides the output by c. */
  lemma {:induction false} IirRescaled(c: real, a: seq<real>, x: seq<real>)
    requires c != 0.0 && |a| > 0 && a[0] != 0.0
    ensures c * a[0] != 0.0
    ensures Iir(a, x) == Scale(c, Iir(Scale(c, a), x))
  {
    NonZeroProduct(c, a[0]);
    var z := Iir(Scale(c, a), x);
    var y := Scale(c, z);
    forall n | 0 <= n < |x| ensures FirAt(a, y, n) == x[n] {
      calc {
        FirAt(a, y, n);
        { FirScaled(a, c, z, n); }
        c * FirAt(a, z, n);
        { CoefficientsScaled(c, a, z, n); }
        FirAt(Scale(c, a), z, n);
        { IirSolves(Scale(c, a), x, n); }
        x[n];
      }
    }
    IirUnique(a, x, y);
  }

  lemma {:induction false} CoefficientsScaled(c: real, b: seq<real>, y: seq<real>, n: int)
    ensures FirAt(Scale(c, b), y, n) == c * FirAt(b, y, n)
  {
    FirZero(y, [], n);
    CoefficientsLinear(Scale(c, b), c, b, [], 0, y, n);
  }

  lemma {:induction false} NonZeroProduct(c: real, d: real)
    requires c != 0.0 && d != 0.0
    ensures c * d != 0.0
  {
    assert c * d / c == d;
  }

  // -------------------------------------------------------- cancellation

  /** Signals have no zero divisors: the convolution of two non-zero signals is non-zero,
      no later than at the sum of the positions of any two non-zero samples. */
  lemma {:induction false} NoZeroDivisors(d: seq<real>, h: seq<real>, i: nat, j: nat) returns (n: nat)
    requires i < |d| && d[i] != 0.0 && j < |h| && h[j] != 0.0
    ensures n <= i + j && FirAt(d, h, n) != 0.0
    decreases |d| + |h|
  {
    if d[0] == 0.0 {
      n := NoZeroDivisors(d[1..], h, i - 1, j);
      n := n + 1;
    } else if h[0] == 0.0 {
      n := NoZeroDivisors(d, h[1..], i, j - 1);
      FirPeel(d, h, n + 1);
      n := n + 1;
    } else {
      n := 0;
      FirBeforeStart(d[1..], h);
      FirHead(d, h, 0);
      NonZeroProduct(d[0], h[0]);
    }
  }
}
