/** Pole and zero lists: the transforms from an analogue prototype to the unit circle, and
    the biquads made of the result. */
module PoleZero {
  import opened Response

  /** A list entry: minus infinity, or a finite number. */
  datatype Coord = MinusInf | Fin(v: real)

  const REAL := 1
  const PAIR := 2
  const SECOND := 0

  function Value(c: Coord): real {
    if c == MinusInf then 0.0 else c.v
  }

  ghost predicate EntryTyped(typ: seq<int>, val: seq<Coord>, n: nat, a: nat)
    requires a < n <= |typ| && n <= |val|
  {
    match typ[a]
    case 1 => true
    case 2 => a + 1 < n && typ[a + 1] == SECOND && val[a].Fin? && val[a + 1].Fin?
    case 0 => a > 0 && typ[a - 1] == PAIR
    case _ => false
  }

  /** The first n entries: real values, and conjugate pairs as two entries holding the real
      and imaginary part of one of the two. */
  ghost predicate WellTyped(typ: seq<int>, val: seq<Coord>, n: nat) {
    n <= |typ| && n <= |val| && forall a :: 0 <= a < n ==> EntryTyped(typ, val, n, a)
  }

  /** The value of the pair that starts at a. */
  function At2(val: seq<Coord>, a: nat): Complex {
    if a + 1 < |val| then Complex(Value(val[a]), Value(val[a + 1])) else ZERO
  }

  ghost predicate LeftHalf(typ: seq<int>, val: seq<Coord>, n: nat)
    requires n <= |typ| && n <= |val|
  {
    forall a :: 0 <= a < n && (typ[a] == REAL || typ[a] == PAIR) ==> val[a].Fin? && val[a].v < 0.0
  }

  /** All values strictly inside the unit circle. */
  ghost predicate Inside(typ: seq<int>, val: seq<Coord>, n: nat)
    requires WellTyped(typ, val, n)
  {
    && (forall a :: 0 <= a < n && typ[a] == REAL ==> val[a].Fin? && -1.0 < val[a].v < 1.0)
    && (forall a :: 0 <= a < n && typ[a] == PAIR ==> Norm(At2(val, a)) < 1.0)
  }

  // ------------------------------------------------------------- the bilinear transform

  /** (2 + s) / (2 - s) on the real line; minus infinity goes to -1. */
  function Bilinear(c: Coord): Coord
    requires c != Fin(2.0)
  {
    match c
    case MinusInf => Fin(-1.0)
    case Fin(v) => Fin((2.0 + v) / (2.0 - v))
  }

  /** The same for a complex value: t times (2 - s) is 2 + s. */
  ghost predicate IsBilinear(s: Complex, t: Complex) {
    Mul(t, Complex(2.0 - s.re, -s.im)) == Complex(2.0 + s.re, s.im)
  }

  ghost predicate AvoidsTwo(typ: seq<int>, val: seq<Coord>, n: nat)
    requires WellTyped(typ, val, n)
  {
    && (forall a :: 0 <= a < n && typ[a] == REAL ==> val[a] != Fin(2.0))
    && (forall a :: 0 <= a < n && typ[a] == PAIR ==> At2(val, a) != Complex(2.0, 0.0))
  }

  /** One list through the transform. */
  ghost predicate Transformed(typ: seq<int>, before: seq<Coord>, after: seq<Coord>, n: nat)
    requires WellTyped(typ, before, n) && AvoidsTwo(typ, before, n)
  {
    && WellTyped(typ, after, n)
    && (forall a :: 0 <= a < n && typ[a] == REAL ==> after[a] == Bilinear(before[a]))
    && (forall a :: 0 <= a < n && typ[a] == PAIR ==> IsBilinear(At2(before, a), At2(after, a)))
  }

  /** What that says of one entry, in numbers. */
  lemma {:induction false} EntryTransformed(typ: seq<int>, before: seq<Coord>, after: seq<Coord>, n: nat, a: nat)
    requires WellTyped(typ, before, n) && AvoidsTwo(typ, before, n) && Transformed(typ, before, after, n) && a < n
    ensures typ[a] == REAL ==>
      && after[a].Fin?
      && if before[a] == MinusInf then after[a].v == -1.0 else after[a].v * (2.0 - before[a].v) == 2.0 + before[a].v
    ensures typ[a] == PAIR ==>
      && a + 1 < n && before[a].Fin? && before[a + 1].Fin? && after[a].Fin? && after[a + 1].Fin?
      && after[a].v * (2.0 - before[a].v) + after[a + 1].v * before[a + 1].v == 2.0 + before[a].v
      && after[a + 1].v * (2.0 - before[a].v) - after[a].v * before[a + 1].v == before[a + 1].v
  {
    hide IsBilinear, Norm;
    assert EntryTyped(typ, before, n, a) && EntryTyped(typ, after, n, a);
    if typ[a] == REAL && before[a].Fin? {
      QuotientBack(2.0 + before[a].v, 2.0 - before[a].v);
    } else if typ[a] == PAIR {
      PairTransformed(At2(before, a), At2(after, a));
    }
  }

  lemma {:induction false} QuotientBack(x: real, d: real)
    requires d != 0.0
    ensures x / d * d == x
  {
  }

  lemma {:induction false} PairTransformed(s: Complex, t: Complex)
    requires IsBilinear(s, t)
    ensures t.re * (2.0 - s.re) + t.im * s.im == 2.0 + s.re && t.im * (2.0 - s.re) - t.re * s.im == s.im
  {
  }

  method BilinearPair(s: Complex) returns (t: Complex)
    requires s != Complex(2.0, 0.0)
    ensures IsBilinear(s, t)
  {
    hide Mul, Norm;
    var val, aa := new real[2], new real[2];
    val[0], val[1] := s.re, s.im;
    val[0], val[1] := -val[0], -val[1];
    val[0] := val[0] + 2.0;
    aa[0], aa[1] := s.re + 2.0, s.im;
    NormPositive(Val(val));
    CDiv(aa, val);
    t := Complex(aa[0], aa[1]);
  }

  /** The square of a number, as a value of its own. */
  lemma {:induction false} Square(x: real) returns (s: real)
    ensures s == x * x && s >= 0.0 && (s == 0.0 ==> x == 0.0)
  {
    s := 0.0;
    if x > 0.0 {
      s := Positive(x, x);
    } else if x < 0.0 {
      s := Positive(-x, -x);
      assert s == x * x;
    }
  }

  lemma {:induction false} Positive(x: real, d: real) returns (p: real)
    requires x > 0.0 && d > 0.0
    ensures p == x * d && p > 0.0
  {
    PositiveProduct(x, d);
    p := x * d;
  }

  lemma {:induction false} NormPositive(a: Complex)
    ensures Norm(a) >= 0.0 && (a != ZERO ==> Norm(a) > 0.0)
  {
    hide Norm;
    var p := Square(a.re);
    var q := Square(a.im);
    NormIs(a, p, q);
    if p == 0.0 && q == 0.0 { assert a == ZERO; }
  }

  lemma {:induction false} NormIs(a: Complex, p: real, q: real)
    requires p == a.re * a.re && q == a.im * a.im
    ensures Norm(a) == p + q
  {
  }

  /** The entries before a have been transformed, the others not. */
  ghost predicate DoneUpTo(typ: seq<int>, before: seq<Coord>, now: seq<Coord>, n: nat, a: nat)
    requires WellTyped(typ, before, n) && AvoidsTwo(typ, before, n)
  {
    && a <= n && |now| == |before| && (a < n ==> typ[a] != SECOND)
    && (forall k :: a <= k < |now| ==> now[k] == before[k])
    && (forall k :: 0 <= k < a ==> now[k].Fin?)
    && (forall k :: 0 <= k < a && typ[k] == REAL ==> now[k] == Bilinear(before[k]))
    && (forall k :: 0 <= k < a && typ[k] == PAIR ==> k + 1 < a && IsBilinear(At2(before, k), At2(now, k)))
  }

  lemma {:induction false} StepReal(typ: seq<int>, before: seq<Coord>, now: seq<Coord>, n: nat, a: nat)
    requires WellTyped(typ, before, n) && AvoidsTwo(typ, before, n)
    requires DoneUpTo(typ, before, now, n, a) && a < n && typ[a] == REAL
    ensures DoneUpTo(typ, before, now[a := Bilinear(before[a])], n, a + 1)
  {
    hide IsBilinear;
    var after := now[a := Bilinear(before[a])];
    if a + 1 < n { assert EntryTyped(typ, before, n, a + 1); }
    forall k | 0 <= k < a + 1 && typ[k] == PAIR ensures k + 1 < a && At2(after, k) == At2(now, k) {
      assert EntryTyped(typ, before, n, k);
    }
  }

  lemma {:induction false} StepPair(typ: seq<int>, before: seq<Coord>, now: seq<Coord>, n: nat, a: nat, t: Complex)
    requires WellTyped(typ, before, n) && AvoidsTwo(typ, before, n)
    requires DoneUpTo(typ, before, now, n, a) && a < n && typ[a] == PAIR
    requires a + 1 < n && IsBilinear(At2(before, a), t)
    ensures DoneUpTo(typ, before, now[a := Fin(t.re)][a + 1 := Fin(t.im)], n, a + 2)
  {
    hide IsBilinear;
    var after := now[a := Fin(t.re)][a + 1 := Fin(t.im)];
    assert EntryTyped(typ, before, n, a) && At2(after, a) == t;
    if a + 2 < n { assert EntryTyped(typ, before, n, a + 2); }
    forall k | 0 <= k < a && typ[k] == PAIR ensures k + 1 < a && At2(after, k) == At2(now, k) {
      assert EntryTyped(typ, before, n, k);
    }
  }

  lemma {:induction false} AllDone(typ: seq<int>, before: seq<Coord>, now: seq<Coord>, n: nat)
    requires WellTyped(typ, before, n) && AvoidsTwo(typ, before, n) && DoneUpTo(typ, before, now, n, n)
    ensures Transformed(typ, before, now, n)
  {
    forall k | 0 <= k < n ensures EntryTyped(typ, now, n, k) {
      assert EntryTyped(typ, before, n, k);
    }
  }

  method BilinearList(typ: array<int>, val: array<Coord>, n: nat)
    requires WellTyped(typ[..], val[..], n) && AvoidsTwo(typ[..], val[..], n)
    modifies val
    ensures Transformed(typ[..], old(val[..]), val[..], n)
  {
    hide IsBilinear;
    ghost var before, t := val[..], typ[..];
    var a := 0;
    if n > 0 { assert EntryTyped(t, before, n, 0); }
    while a < n
      invariant typ[..] == t && DoneUpTo(t, before, val[..], n, a)
    {
      assert EntryTyped(t, before, n, a) && val[a] == before[a];
      ghost var now := val[..];
      if typ[a] == REAL {
        StepReal(t, before, now, n, a);
        if val[a] == MinusInf {
          val[a] := Fin(-1.0);
        } else {
          val[a] := Fin((2.0 + val[a].v) / (2.0 - val[a].v));
        }
        assert val[..] == now[a := Bilinear(before[a])];
        a := a + 1;
      } else {
        assert val[a + 1] == before[a + 1];
        var s := BilinearPair(Complex(val[a].v, val[a + 1].v));
        StepPair(t, before, now, n, a, s);
        val[a], val[a + 1] := Fin(s.re), Fin(s.im);
        assert val[..] == now[a := Fin(s.re)][a + 1 := Fin(s.im)];
        a := a + 2;
      }
    }
    AllDone(t, before, val[..], n);
  }

  /** Poles and zeros through the transform. */
  method S2zBilinear(poltyp: array<int>, pol: array<Coord>, nPol: nat, zertyp: array<int>, zer: array<Coord>, nZer: nat)
    requires pol != zer
    requires WellTyped(poltyp[..], pol[..], nPol) && AvoidsTwo(poltyp[..], pol[..], nPol)
    requires WellTyped(zertyp[..], zer[..], nZer) && AvoidsTwo(zertyp[..], zer[..], nZer)
    modifies pol, zer
    ensures Transformed(poltyp[..], old(pol[..]), pol[..], nPol)
    ensures Transformed(zertyp[..], old(zer[..]), zer[..], nZer)
  {
    BilinearList(poltyp, pol, nPol);
    BilinearList(zertyp, zer, nZer);
  }

  lemma {:induction false} RealInsideIff(v: real)
    requires v != 2.0
    ensures -1.0 < (2.0 + v) / (2.0 - v) < 1.0 <==> v < 0.0
  {
    var d := 2.0 - v;
    var t := (2.0 + v) / d;
    assert t * d == 2.0 + v;
    assert (1.0 - t) * d == -2.0 * v && (1.0 + t) * d == 4.0;
    if v < 0.0 {
      PositiveFactor(1.0 - t, d);
      PositiveFactor(1.0 + t, d);
    } else if -1.0 < t < 1.0 {
      if d > 0.0 { PositiveProduct(1.0 - t, d); } else { PositiveProduct(1.0 + t, -d); }
    }
  }

  lemma {:induction false} PositiveFactor(x: real, d: real)
    requires d > 0.0 && x * d > 0.0
    ensures x > 0.0
  {
  }

  lemma {:induction false} PositiveProduct(x: real, d: real)
    requires d > 0.0 && x > 0.0
    ensures x * d > 0.0
  {
  }

  lemma {:induction false} NormOfProduct(a: Complex, b: Complex)
    ensures Norm(Mul(a, b)) == Norm(a) * Norm(b)
  {
    var p, q, r, s := a.re * b.re, a.im * b.im, a.re * b.im, a.im * b.re;
    assert p * q == r * s;
    calc {
      Norm(Mul(a, b));
      (p - q) * (p - q) + (r + s) * (r + s);
      p * p + q * q + r * r + s * s;
      Norm(a) * Norm(b);
    }
  }

  lemma {:induction false} PairInsideIff(s: Complex, t: Complex)
    requires s != Complex(2.0, 0.0) && IsBilinear(s, t)
    ensures Norm(t) < 1.0 <==> s.re < 0.0
  {
    var d, m := Complex(2.0 - s.re, -s.im), Complex(2.0 + s.re, s.im);
    NormOfProduct(t, d);
    NormPositive(d);
    var n := Norm(d);
    assert Norm(m) == n + 8.0 * s.re;
    assert (1.0 - Norm(t)) * n == -8.0 * s.re;
    if s.re < 0.0 {
      PositiveFactor(1.0 - Norm(t), n);
    } else if Norm(t) < 1.0 {
      PositiveProduct(1.0 - Norm(t), n);
    }
  }

  /** The transform takes the open left half plane, and nothing else, into the unit circle. */
  lemma {:induction false} BilinearStableIff(typ: seq<int>, before: seq<Coord>, after: seq<Coord>, n: nat)
    requires WellTyped(typ, before, n) && AvoidsTwo(typ, before, n) && Transformed(typ, before, after, n)
    ensures Inside(typ, after, n) <==> LeftHalf(typ, before, n)
  {
    forall a | 0 <= a < n && typ[a] == REAL
      ensures (-1.0 < Value(after[a]) < 1.0) <==> before[a].Fin? && Value(before[a]) < 0.0
    {
      if before[a].Fin? { RealInsideIff(before[a].v); }
    }
    forall a | 0 <= a < n && typ[a] == PAIR
      ensures before[a].Fin? && (Norm(At2(after, a)) < 1.0 <==> Value(before[a]) < 0.0)
    {
      assert EntryTyped(typ, before, n, a);
      PairInsideIff(At2(before, a), At2(after, a));
    }
  }

  // ----------------------------------------------------- prototypes to low and high pass

  /** Low pass: poles scaled by the cut-off frequency, all zeros at minus infinity. */
  method Lowpass(poltyp: array<int>, pol: array<Coord>, nPol: nat, zertyp: array<int>, zer: array<Coord>, freq: real)
    returns (nZer: nat)
    requires pol != zer && poltyp != zertyp && WellTyped(poltyp[..], pol[..], nPol) && AllFin(pol[..], nPol)
    requires nPol <= zertyp.Length && nPol <= zer.Length
    modifies pol, zertyp, zer
    ensures nZer == nPol && WellTyped(poltyp[..], pol[..], nPol)
    ensures freq > 0.0 && old(LeftHalf(poltyp[..], pol[..], nPol)) ==> LeftHalf(poltyp[..], pol[..], nPol)
    ensures forall a :: 0 <= a < nPol ==> pol[a] == Fin(freq * old(Value(pol[a])))
    ensures WellTyped(zertyp[..], zer[..], nZer)
    ensures forall a :: 0 <= a < nZer ==> zertyp[a] == REAL && zer[a] == MinusInf
  {
    ghost var before, t := pol[..], poltyp[..];
    var a := 0;
    while a < nPol
      invariant 0 <= a <= nPol && poltyp[..] == t
      invariant forall k :: 0 <= k < a ==> pol[k] == Fin(freq * Value(before[k]))
      invariant forall k :: a <= k < pol.Length ==> pol[k] == before[k]
    {
      pol[a] := Fin(pol[a].v * freq);
      a := a + 1;
    }
    ScaledLeft(t, before, pol[..], nPol, freq);
    nZer := SetZeros(zertyp, zer, nPol, MinusInf);
  }

  method SetZeros(zertyp: array<int>, zer: array<Coord>, n: nat, z: Coord) returns (nZer: nat)
    requires n <= zertyp.Length && n <= zer.Length
    modifies zertyp, zer
    ensures nZer == n && WellTyped(zertyp[..], zer[..], n)
    ensures forall a :: 0 <= a < n ==> zertyp[a] == REAL && zer[a] == z
  {
    nZer := n;
    var a := 0;
    while a < n
      invariant 0 <= a <= n && forall k :: 0 <= k < a ==> zertyp[k] == REAL && zer[k] == z
    {
      zer[a] := z;
      zertyp[a] := REAL;
      a := a + 1;
    }
  }

  /** Numbers only. */
  predicate AllFin(val: seq<Coord>, n: nat) {
    n <= |val| && forall a :: 0 <= a < n ==> val[a].Fin?
  }

  /** No value is zero. */
  ghost predicate NonZero(typ: seq<int>, val: seq<Coord>, n: nat)
    requires WellTyped(typ, val, n)
  {
    && AllFin(val, n)
    && (forall a :: 0 <= a < n && typ[a] == REAL ==> Value(val[a]) != 0.0)
    && (forall a :: 0 <= a < n && typ[a] == PAIR ==> Norm(At2(val, a)) != 0.0)
  }

  lemma {:induction false} LeftIsNonZero(typ: seq<int>, val: seq<Coord>, n: nat)
    requires WellTyped(typ, val, n) && LeftHalf(typ, val, n)
    ensures NonZero(typ, val, n)
  {
    hide Norm;
    AllFinite(typ, val, n);
    forall a | 0 <= a < n && typ[a] == PAIR ensures Norm(At2(val, a)) != 0.0 {
      assert EntryTyped(typ, val, n, a);
      NormPositive(At2(val, a));
    }
  }

  lemma {:induction false} AllFinite(typ: seq<int>, val: seq<Coord>, n: nat)
    requires WellTyped(typ, val, n) && LeftHalf(typ, val, n)
    ensures AllFin(val, n)
  {
    forall a | 0 <= a < n ensures val[a].Fin? {
      assert EntryTyped(typ, val, n, a);
      if typ[a] == SECOND { assert EntryTyped(typ, val, n, a - 1); }
    }
  }

  lemma {:induction false} ScaledLeft(typ: seq<int>, before: seq<Coord>, after: seq<Coord>, n: nat, freq: real)
    requires WellTyped(typ, before, n) && n <= |after|
    requires forall a :: 0 <= a < n ==> after[a] == Fin(freq * Value(before[a]))
    ensures WellTyped(typ, after, n)
    ensures freq > 0.0 && LeftHalf(typ, before, n) ==> LeftHalf(typ, after, n)
  {
    forall a | 0 <= a < n ensures EntryTyped(typ, after, n, a) {
      assert EntryTyped(typ, before, n, a);
    }
    if freq > 0.0 && LeftHalf(typ, before, n) {
      forall a | 0 <= a < n && (typ[a] == REAL || typ[a] == PAIR) ensures after[a].v < 0.0 {
        PositiveProduct(-Value(before[a]), freq);
      }
    }
  }

  /** High pass: each pole p becomes freq / p, all zeros go to the origin. */
  method Highpass(poltyp: array<int>, pol: array<Coord>, nPol: nat, zertyp: array<int>, zer: array<Coord>, freq: real)
    returns (nZer: nat)
    requires pol != zer && poltyp != zertyp && WellTyped(poltyp[..], pol[..], nPol) && NonZero(poltyp[..], pol[..], nPol)
    requires nPol <= zertyp.Length && nPol <= zer.Length
    modifies pol, zertyp, zer
    ensures nZer == nPol && WellTyped(poltyp[..], pol[..], nPol)
    ensures freq > 0.0 && old(LeftHalf(poltyp[..], pol[..], nPol)) ==> LeftHalf(poltyp[..], pol[..], nPol)
    ensures Inverted(poltyp[..], old(pol[..]), pol[..], nPol, freq)
    ensures WellTyped(zertyp[..], zer[..], nZer)
    ensures forall a :: 0 <= a < nZer ==> zertyp[a] == REAL && zer[a] == Fin(0.0)
  {
    hide Mul, Norm, InvertedUpTo;
    ghost var before, t := pol[..], poltyp[..];
    var a := 0;
    if nPol > 0 { assert EntryTyped(t, before, nPol, 0); }
    InvertedNone(t, before, freq);
    while a < nPol
      invariant 0 <= a <= nPol && poltyp[..] == t && (a < nPol ==> t[a] != SECOND)
      invariant forall k :: a <= k < pol.Length ==> pol[k] == before[k]
      invariant InvertedUpTo(t, before, pol[..], a, freq)
    {
      assert EntryTyped(t, before, nPol, a);
      if a + 1 < nPol { assert EntryTyped(t, before, nPol, a + 1); }
      if a + 2 < nPol { assert EntryTyped(t, before, nPol, a + 2); }
      ghost var now := pol[..];
      if poltyp[a] == REAL {
        RealInverse(pol[a].v, freq);
        pol[a] := Fin(freq / pol[a].v);
        InvertedReal(t, before, now, pol[..], a, freq);
        a := a + 1;
      } else {
        assert At2(before, a) == Complex(pol[a].v, pol[a + 1].v);
        var c := InvertPair(Complex(pol[a].v, pol[a + 1].v), freq);
        pol[a], pol[a + 1] := Fin(c.re), Fin(c.im);
        InvertedPair(t, before, now, pol[..], a, freq);
        a := a + 2;
      }
    }
    InvertedIsLeft(t, before, pol[..], nPol, freq);
    nZer := SetZeros(zertyp, zer, nPol, Fin(0.0));
  }

  /** The product with the old value is the frequency; with a positive frequency the left half
      plane is kept. */
  ghost predicate InvertedUpTo(typ: seq<int>, before: seq<Coord>, now: seq<Coord>, a: nat, freq: real)
    requires a <= |typ| && a <= |before| && |now| == |before|
  {
    && (forall k :: 0 <= k < a ==> now[k].Fin?)
    && (forall k :: 0 <= k < a && typ[k] == REAL ==> IsInverse(before[k], now[k], freq) && StaysLeft(before[k], now[k], freq))
    && (forall k :: 0 <= k < a && typ[k] == PAIR ==>
          k + 1 < a && Mul(At2(now, k), At2(before, k)) == Real(freq) && StaysLeft(before[k], now[k], freq))
  }

  predicate IsInverse(before: Coord, now: Coord, freq: real) {
    Value(now) * Value(before) == freq
  }

  predicate StaysLeft(before: Coord, now: Coord, freq: real) {
    freq > 0.0 && Value(before) < 0.0 ==> Value(now) < 0.0
  }

  ghost predicate Inverted(typ: seq<int>, before: seq<Coord>, after: seq<Coord>, n: nat, freq: real) {
    n <= |typ| && n <= |before| && |after| == |before| && InvertedUpTo(typ, before, after, n, freq)
  }

  /** What that says of one entry, in numbers. */
  lemma {:induction false} EntryInverted(typ: seq<int>, before: seq<Coord>, after: seq<Coord>, n: nat, freq: real, a: nat)
    requires Inverted(typ, before, after, n, freq) && a < n
    ensures after[a].Fin? && (typ[a] == REAL ==> after[a].v * Value(before[a]) == freq)
    ensures typ[a] == PAIR ==>
      && a + 1 < n && after[a + 1].Fin?
      && after[a].v * Value(before[a]) - after[a + 1].v * Value(before[a + 1]) == freq
      && after[a].v * Value(before[a + 1]) + after[a + 1].v * Value(before[a]) == 0.0
  {
    if typ[a] == PAIR {
      assert Mul(At2(after, a), At2(before, a)) == Real(freq);
    }
  }

  lemma {:induction false} InvertedNone(typ: seq<int>, before: seq<Coord>, freq: real)
    ensures InvertedUpTo(typ, before, before, 0, freq)
  {
  }

  lemma {:induction false} InvertedIsLeft(typ: seq<int>, before: seq<Coord>, after: seq<Coord>, n: nat, freq: real)
    requires WellTyped(typ, before, n) && |after| == |before| && InvertedUpTo(typ, before, after, n, freq)
    ensures WellTyped(typ, after, n)
    ensures freq > 0.0 && LeftHalf(typ, before, n) ==> LeftHalf(typ, after, n)
  {
    hide Mul, IsInverse;
    forall k | 0 <= k < n ensures EntryTyped(typ, after, n, k) { assert EntryTyped(typ, before, n, k); }
  }

  lemma {:induction false} RealInverse(v: real, freq: real)
    requires v != 0.0
    ensures freq / v * v == freq && (freq > 0.0 && v < 0.0 ==> freq / v < 0.0)
  {
    var r := freq / v;
    assert r * v == freq;
    if freq > 0.0 && v < 0.0 {
      assert -r * -v == freq;
      PositiveFactor(-r, -v);
    }
  }

  lemma {:induction false} InvertedReal(typ: seq<int>, before: seq<Coord>, now: seq<Coord>, after: seq<Coord>, a: nat, freq: real)
    requires a < |typ| && a < |before| && |now| == |before| && InvertedUpTo(typ, before, now, a, freq) && typ[a] == REAL
    requires before[a].Fin? && Value(before[a]) != 0.0 && after == now[a := Fin(freq / Value(before[a]))]
    ensures InvertedUpTo(typ, before, after, a + 1, freq)
  {
    RealInverse(Value(before[a]), freq);
    assert IsInverse(before[a], after[a], freq) && StaysLeft(before[a], after[a], freq);
    hide Mul, IsInverse, StaysLeft;
    assert forall k :: 0 <= k < a && typ[k] == PAIR ==> At2(after, k) == At2(now, k);
  }

  lemma {:induction false} InvertedPair(typ: seq<int>, before: seq<Coord>, now: seq<Coord>, after: seq<Coord>, a: nat, freq: real)
    requires a + 1 < |typ| && a + 1 < |before| && |now| == |before| && InvertedUpTo(typ, before, now, a, freq)
    requires typ[a] == PAIR && typ[a + 1] == SECOND && |after| == |now|
    requires forall k :: 0 <= k < a ==> after[k] == now[k]
    requires after[a].Fin? && after[a + 1].Fin? && StaysLeft(before[a], after[a], freq) && Mul(At2(after, a), At2(before, a)) == Real(freq)
    ensures InvertedUpTo(typ, before, after, a + 2, freq)
  {
    hide Mul, IsInverse;
    assert forall k :: 0 <= k < a && typ[k] == PAIR ==> At2(after, k) == At2(now, k);
  }

  method InvertPair(c: Complex, freq: real) returns (r: Complex)
    requires Norm(c) != 0.0
    ensures Mul(r, c) == Real(freq) && (freq > 0.0 && c.re < 0.0 ==> r.re < 0.0)
  {
    var aa := new real[2];
    aa[0], aa[1] := c.re, c.im;
    CRecip(aa);
    ghost var inv := Val(aa);
    if c.re < 0.0 { ReciprocalLeft(inv, c); }
    ScaledInverse(inv, c, freq);
    aa[0] := aa[0] * freq;
    aa[1] := aa[1] * freq;
    r := Complex(aa[0], aa[1]);
  }

  /** The reciprocal of a value in the left half plane lies there too. */
  lemma {:induction false} ReciprocalLeft(r: Complex, c: Complex)
    requires Mul(r, c) == ONE && c.re < 0.0
    ensures r.re < 0.0
  {
    var n := Norm(c);
    NormPositive(c);
    calc {
      r.re * n;
      (r.re * c.re - r.im * c.im) * c.re + (r.re * c.im + r.im * c.re) * c.im;
      c.re;
    }
    assert -r.re * n == -c.re;
    PositiveFactor(-r.re, n);
  }

  lemma {:induction false} ScaledInverse(r: Complex, c: Complex, freq: real)
    requires Mul(r, c) == ONE
    ensures Mul(Complex(r.re * freq, r.im * freq), c) == Real(freq)
    ensures freq > 0.0 && r.re < 0.0 ==> r.re * freq < 0.0
  {
    if freq > 0.0 && r.re < 0.0 { PositiveProduct(-r.re, freq); }
    calc {
      r.re * freq * c.re - r.im * freq * c.im;
      freq * (r.re * c.re - r.im * c.im);
      freq;
    }
    calc {
      r.re * freq * c.im + r.im * freq * c.re;
      freq * (r.re * c.im + r.im * c.re);
      0.0;
    }
  }
}
