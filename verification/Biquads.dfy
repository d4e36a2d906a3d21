/** From poles and zeros in the z plane to a list of two-pole and two-zero filters. */
module Biquads {
  import opened Filters
  import opened Response
  import opened PoleZero

  ghost predicate Finite(val: seq<Coord>, n: nat) {
    n <= |val| && forall a :: 0 <= a < n ==> val[a].Fin?
  }

  /** Two reals, or one conjugate pair, at a. */
  predicate PairAt(typ: seq<int>, a: nat)
    requires a + 1 < |typ|
  {
    (typ[a] == REAL && typ[a + 1] == REAL) || typ[a] == PAIR
  }

  /** A pair at every even place; a last lone value is real. */
  ghost predicate Pairable(typ: seq<int>, n: nat)
    requires n <= |typ|
  {
    (forall a :: 0 <= a && a + 1 < n && a % 2 == 0 ==> PairAt(typ, a)) && (n % 2 == 1 ==> typ[n - 1] == REAL)
  }

  function RealQuad(p: real, q: real): seq<real> {
    var c1, c2 := -(p + q), p * q;
    [1.0, c1, c2]
  }

  function ConjQuad(p: real, q: real): seq<real> {
    var c1, c2 := -2.0 * p, p * p + q * q;
    [1.0, c1, c2]
  }

  /** The coefficients that have the two values at a and a + 1 as roots. */
  function Quad(typ: seq<int>, val: seq<Coord>, a: nat): (q: seq<real>)
    requires a + 1 < |val| && a < |typ|
    ensures |q| == 3 && q[0] == 1.0
  {
    var p, q := Value(val[a]), Value(val[a + 1]);
    if typ[a] == REAL then RealQuad(p, q) else ConjQuad(p, q)
  }

  /** Whether the zeros at a are written out: constant zeros at the origin are not. */
  predicate Kept(cbm: bv16, val: seq<Coord>, a: nat)
    requires a + 1 < |val|
  {
    cbm == 0 || Value(val[a]) != 0.0 || Value(val[a + 1]) != 0.0
  }

  predicate KeptLone(cbm: bv16, val: seq<Coord>, a: nat)
    requires a < |val|
  {
    cbm == 0 || Value(val[a]) != 0.0
  }

  /** The filters for the first a values, a even: gain, then pole pairs and zero pairs. */
  function PairFilters(gain: real, cbm: bv16, poltyp: seq<int>, pol: seq<Coord>, zertyp: seq<int>, zer: seq<Coord>, a: nat): seq<SubFilter>
    requires a <= |poltyp| && a <= |pol| && a <= |zertyp| && a <= |zer|
  {
    if a < 2 then [SubFilter(FIR, 0, [gain])]
    else
      PairFilters(gain, cbm, poltyp, pol, zertyp, zer, a - 2)
      + [SubFilter(IIR, 0, Quad(poltyp, pol, a - 2))]
      + (if Kept(cbm, zer, a - 2) then [SubFilter(FIR, cbm, Quad(zertyp, zer, a - 2))] else [])
  }

  /** All the filters for n poles and n zeros. */
  function AllFilters(gain: real, cbm: bv16, poltyp: seq<int>, pol: seq<Coord>, zertyp: seq<int>, zer: seq<Coord>, n: nat): seq<SubFilter>
    requires n <= |poltyp| && n <= |pol| && n <= |zertyp| && n <= |zer|
  {
    if n % 2 == 0 then PairFilters(gain, cbm, poltyp, pol, zertyp, zer, n)
    else
      PairFilters(gain, cbm, poltyp, pol, zertyp, zer, n - 1)
      + [SubFilter(IIR, 0, [1.0, -Value(pol[n - 1])])]
      + (if KeptLone(cbm, zer, n - 1) then [SubFilter(FIR, cbm, [1.0, -Value(zer[n - 1])])] else [])
  }

  lemma {:induction false} SameQuad(q: seq<real>, r: seq<real>)
    requires |q| == 3 == |r| && q[0] == r[0] && q[1] == r[1] && q[2] == r[2]
    ensures q == r
  {
    assert q[..] == r[..];
  }

  /** The coefficients for the two values at a, if they make a pair. */
  method QuadOf(typ: array<int>, val: array<Coord>, a: nat) returns (ok: bool, q: seq<real>)
    requires a + 1 < typ.Length && a + 1 < val.Length && val[a].Fin? && val[a + 1].Fin?
    ensures ok <==> PairAt(typ[..], a)
    ensures ok ==> q == Quad(typ[..], val[..], a)
  {
    ok, q := true, [];
    if typ[a] == REAL && typ[a + 1] == REAL {
      var s, t := val[a].v, val[a + 1].v;
      var c1, c2 := -(s + t), s * t;
      q := [1.0, c1, c2];
      SameQuad(q, RealQuad(s, t));
    } else if typ[a] == PAIR {
      var s, t := val[a].v, val[a + 1].v;
      var c1, c2 := -2.0 * s, s * s + t * t;
      q := [1.0, c1, c2];
      SameQuad(q, ConjQuad(s, t));
    } else {
      ok := false;
    }
  }

  /** The list itself: the gain first; then for every two poles and zeros the filter of the
      poles and that of the zeros, without marks the first and with the given marks the other,
      which is left out if marks are given and both zeros are at the origin; and the same for a
      last lone pole and zero. */
  lemma {:induction false} FiltersListed(gain: real, cbm: bv16, poltyp: seq<int>, pol: seq<Coord>, zertyp: seq<int>, zer: seq<Coord>, n: nat)
    requires n <= |poltyp| && n <= |pol| && n <= |zertyp| && n <= |zer|
    ensures n == 0 ==> AllFilters(gain, cbm, poltyp, pol, zertyp, zer, n) == [SubFilter(FIR, 0, [gain])]
    ensures n >= 2 && n % 2 == 0 ==>
      AllFilters(gain, cbm, poltyp, pol, zertyp, zer, n)
        == AllFilters(gain, cbm, poltyp, pol, zertyp, zer, n - 2)
           + [SubFilter(IIR, 0, Quad(poltyp, pol, n - 2))]
           + (if cbm == 0 || Value(zer[n - 2]) != 0.0 || Value(zer[n - 1]) != 0.0 then [SubFilter(FIR, cbm, Quad(zertyp, zer, n - 2))] else [])
    ensures n % 2 == 1 ==>
      AllFilters(gain, cbm, poltyp, pol, zertyp, zer, n)
        == AllFilters(gain, cbm, poltyp, pol, zertyp, zer, n - 1)
           + [SubFilter(IIR, 0, [1.0, -Value(pol[n - 1])])]
           + (if cbm == 0 || Value(zer[n - 1]) != 0.0 then [SubFilter(FIR, cbm, [1.0, -Value(zer[n - 1])])] else [])
  {
    hide Quad;
  }

  lemma {:induction false} PairFiltersStep(gain: real, cbm: bv16, poltyp: seq<int>, pol: seq<Coord>, zertyp: seq<int>, zer: seq<Coord>, a: nat)
    requires a + 2 <= |poltyp| && a + 2 <= |pol| && a + 2 <= |zertyp| && a + 2 <= |zer|
    ensures PairFilters(gain, cbm, poltyp, pol, zertyp, zer, a + 2)
         == PairFilters(gain, cbm, poltyp, pol, zertyp, zer, a)
            + [SubFilter(IIR, 0, Quad(poltyp, pol, a))]
            + (if Kept(cbm, zer, a) then [SubFilter(FIR, cbm, Quad(zertyp, zer, a))] else [])
  {
  }

  /** The filters for the pair of poles and the pair of zeros at a. */
  function PairAdds(cbm: bv16, poltyp: seq<int>, pol: seq<Coord>, zertyp: seq<int>, zer: seq<Coord>, a: nat): seq<SubFilter>
    requires a + 2 <= |poltyp| && a + 2 <= |pol| && a + 2 <= |zertyp| && a + 2 <= |zer|
  {
    [SubFilter(IIR, 0, Quad(poltyp, pol, a))] + if Kept(cbm, zer, a) then [SubFilter(FIR, cbm, Quad(zertyp, zer, a))] else []
  }

  lemma {:induction false} PairsAppend(gain: real, cbm: bv16, poltyp: seq<int>, pol: seq<Coord>, zertyp: seq<int>, zer: seq<Coord>, a: nat)
    requires a + 2 <= |poltyp| && a + 2 <= |pol| && a + 2 <= |zertyp| && a + 2 <= |zer|
    ensures PairFilters(gain, cbm, poltyp, pol, zertyp, zer, a + 2)
         == PairFilters(gain, cbm, poltyp, pol, zertyp, zer, a) + PairAdds(cbm, poltyp, pol, zertyp, zer, a)
  {
    hide Quad, Kept, PairFilters;
    PairFiltersStep(gain, cbm, poltyp, pol, zertyp, zer, a);
    var f, i := PairFilters(gain, cbm, poltyp, pol, zertyp, zer, a), [SubFilter(IIR, 0, Quad(poltyp, pol, a))];
    var z := if Kept(cbm, zer, a) then [SubFilter(FIR, cbm, Quad(zertyp, zer, a))] else [];
    assert f + i + z == f + (i + z);
  }

  method PairOut(cbm: bv16, poltyp: array<int>, pol: array<Coord>, zertyp: array<int>, zer: array<Coord>, a: nat)
    returns (r: Result<seq<SubFilter>>)
    requires a + 2 <= poltyp.Length && a + 2 <= pol.Length && pol[a].Fin? && pol[a + 1].Fin?
    requires a + 2 <= zertyp.Length && a + 2 <= zer.Length && zer[a].Fin? && zer[a + 1].Fin?
    ensures r.Ok? <==> PairAt(poltyp[..], a) && PairAt(zertyp[..], a)
    ensures r.Ok? ==> r.value == PairAdds(cbm, poltyp[..], pol[..], zertyp[..], zer[..], a)
  {
    hide Quad, PairAt;
    var ok, q := QuadOf(poltyp, pol, a);
    if !ok {
      return Err("Internal error -- bad poltyp[] values for z2fidfilter()");
    }
    var rv := [SubFilter(IIR, 0, q)];
    ok, q := QuadOf(zertyp, zer, a);
    if !ok {
      return Err("Internal error -- bad zertyp[] values");
    }
    if cbm == 0 || zer[a].v != 0.0 || zer[a + 1].v != 0.0 {
      rv := rv + [SubFilter(FIR, cbm, q)];
    } else {
      assert rv + [] == rv;
    }
    r := Ok(rv);
  }

  /** A pair at every even place below a. */
  ghost predicate PairsTo(typ: seq<int>, a: nat)
    requires a <= |typ|
  {
    forall k :: 0 <= k && k + 1 < a && k % 2 == 0 ==> PairAt(typ, k)
  }

  lemma {:induction false} NoPairsTo(typ: seq<int>)
    ensures PairsTo(typ, 0)
  {
  }

  lemma {:induction false} PairsToNext(typ: seq<int>, a: nat)
    requires a + 2 <= |typ| && a % 2 == 0 && PairsTo(typ, a) && PairAt(typ, a)
    ensures PairsTo(typ, a + 2)
  {
    hide PairAt;
  }

  lemma {:induction false} PairableEnd(typ: seq<int>, a: nat, n: nat)
    requires a <= n <= |typ| && a % 2 == 0
    ensures n == a ==> (Pairable(typ, n) <==> PairsTo(typ, a))
    ensures n == a + 1 ==> (Pairable(typ, n) <==> PairsTo(typ, a) && typ[a] == REAL)
    ensures a + 2 <= n && Pairable(typ, n) ==> PairAt(typ, a)
  {
    hide PairAt;
  }

  /** The filters for all pairs, up to the first place where there is none. */
  method PairsOut(gain: real, cbm: bv16, poltyp: array<int>, pol: array<Coord>, nPol: nat, zertyp: array<int>, zer: array<Coord>, nZer: nat)
    returns (r: Result<seq<SubFilter>>, a: nat)
    requires nPol <= poltyp.Length && Finite(pol[..], nPol) && nZer <= zertyp.Length && Finite(zer[..], nZer)
    ensures a <= nPol && a <= nZer && a % 2 == 0
    ensures r.Ok? ==> (nPol < a + 2 || nZer < a + 2) && PairsTo(poltyp[..], a) && PairsTo(zertyp[..], a)
    ensures r.Ok? ==> r.value == PairFilters(gain, cbm, poltyp[..], pol[..], zertyp[..], zer[..], a)
    ensures r.Err? ==> a + 2 <= nPol && a + 2 <= nZer && !(PairAt(poltyp[..], a) && PairAt(zertyp[..], a))
  {
    hide Quad, PairFilters, PairAt, PairAdds, PairsTo;
    ghost var pt, pv, zt, zv := poltyp[..], pol[..], zertyp[..], zer[..];
    var rv := [SubFilter(FIR, 0, [gain])];
    NoPairs(gain, cbm, pt, pv, zt, zv);
    NoPairsTo(pt);
    NoPairsTo(zt);
    a := 0;
    while a + 2 <= nPol && a + 2 <= nZer
      invariant a <= nPol && a <= nZer && a % 2 == 0
      invariant rv == PairFilters(gain, cbm, pt, pv, zt, zv, a)
      invariant PairsTo(pt, a) && PairsTo(zt, a)
    {
      assert pv[a].Fin? && pv[a + 1].Fin? && zv[a].Fin? && zv[a + 1].Fin?;
      PairsAppend(gain, cbm, pt, pv, zt, zv, a);
      r := PairOut(cbm, poltyp, pol, zertyp, zer, a);
      if r.Err? {
        return;
      }
      PairsToNext(pt, a);
      PairsToNext(zt, a);
      rv := rv + r.value;
      a := a + 2;
    }
    r := Ok(rv);
  }

  /** Makes the filters.  Lists of different lengths, or that cannot be paired, are errors. */
  method Z2FidFilter(gain: real, cbm: bv16, poltyp: array<int>, pol: array<Coord>, nPol: nat, zertyp: array<int>, zer: array<Coord>, nZer: nat)
    returns (r: Result<seq<SubFilter>>)
    requires WellTyped(poltyp[..], pol[..], nPol) && Finite(pol[..], nPol)
    requires WellTyped(zertyp[..], zer[..], nZer) && Finite(zer[..], nZer)
    ensures r.Ok? <==> nPol == nZer && Pairable(poltyp[..], nPol) && Pairable(zertyp[..], nZer)
    ensures r.Ok? ==> r.value == AllFilters(gain, cbm, poltyp[..], pol[..], zertyp[..], zer[..], nPol)
  {
    hide PairFilters, PairAt, PairsTo, Pairable, EntryTyped;
    ghost var pv, zv := pol[..], zer[..];
    var a;
    r, a := PairsOut(gain, cbm, poltyp, pol, nPol, zertyp, zer, nZer);
    PairableEnd(poltyp[..], a, nPol);
    PairableEnd(zertyp[..], a, nZer);
    if r.Err? {
      return;
    }
    var rv := r.value;
    if nPol == a + 1 && nZer == a + 1 {
      if poltyp[a] != REAL || zertyp[a] != REAL {
        return Err("Internal error; bad poltyp or zertyp for final pole/zero");
      }
      assert pv[a].Fin? && zv[a].Fin?;
      rv := rv + [SubFilter(IIR, 0, [1.0, -pol[a].v])];
      if cbm == 0 || zer[a].v != 0.0 {
        rv := rv + [SubFilter(FIR, cbm, [1.0, -zer[a].v])];
      } else {
        assert rv + [] == rv;
      }
    } else if nPol != a || nZer != a {
      return Err("Internal error: unexpected poles/zeros at end of list");
    }
    r := Ok(rv);
  }

  lemma {:induction false} NoPairs(gain: real, cbm: bv16, poltyp: seq<int>, pol: seq<Coord>, zertyp: seq<int>, zer: seq<Coord>)
    ensures PairFilters(gain, cbm, poltyp, pol, zertyp, zer, 0) == [SubFilter(FIR, 0, [gain])]
  {
  }

  // ------------------------------------------------------------------ the right roots

  function Negated(a: Complex): Complex {
    Complex(-a.re, -a.im)
  }

  /** 1 - s z */
  function Root(s: Complex, z: Complex): Complex {
    Add(ONE, Negated(Mul(s, z)))
  }

  function Conj(s: Complex): Complex {
    Complex(s.re, -s.im)
  }

  /** The factor of the entry at a: one root, two conjugate roots, or none. */
  function Factor(typ: seq<int>, val: seq<Coord>, a: nat, z: Complex): Complex
    requires a < |typ| && a < |val|
  {
    if typ[a] == REAL then Root(Real(Value(val[a])), z)
    else if typ[a] == PAIR then Mul(Root(At2(val, a), z), Root(Conj(At2(val, a)), z))
    else ONE
  }

  /** The product over the first n entries of 1 - s z, s being the values listed. */
  function RootProduct(typ: seq<int>, val: seq<Coord>, n: nat, z: Complex): Complex
    requires n <= |typ| && n <= |val|
  {
    if n == 0 then ONE else Mul(RootProduct(typ, val, n - 1, z), Factor(typ, val, n - 1, z))
  }

  lemma {:induction false} EvalTwo(c: real, z: Complex)
    ensures Eval([1.0, -c], z) == Root(Real(c), z)
  {
    hide Mul, Add;
    assert [1.0, -c][1..] == [-c] && [-c][1..] == [];
    EvalConstant([1.0, -c], z);
    EvalConstant([-c], z);
    NegatedProduct(c, z);
  }

  lemma {:induction false} NegatedProduct(c: real, z: Complex)
    ensures Mul(z, Real(-c)) == Negated(Mul(Real(c), z))
  {
  }

  lemma {:induction false} EvalThree(c1: real, c2: real, z: Complex)
    ensures Eval([1.0, c1, c2], z) == Add(ONE, Add(Mul(Real(c1), z), Mul(Real(c2), Mul(z, z))))
  {
    hide Mul, Add;
    var s := [1.0, c1, c2];
    assert s[1..] == [c1, c2] && [c1, c2][1..] == [c2] && [c2][1..] == [];
    EvalConstant(s, z);
    EvalConstant([c1, c2], z);
    EvalConstant([c2], z);
    MulDistributes(z, Real(c1), Mul(z, Real(c2)));
    MulCommutes(z, Real(c1));
    MulCommutes(z, Real(c2));
    MulCommutes(z, Mul(Real(c2), z));
    MulAssociates(Real(c2), z, z);
  }

  lemma {:induction false} TwoRoots(s: Complex, t: Complex, z: Complex, c1: real, c2: real)
    requires Add(s, t) == Real(-c1) && Mul(s, t) == Real(c2)
    ensures Mul(Root(s, z), Root(t, z)) == Add(ONE, Add(Mul(Real(c1), z), Mul(Real(c2), Mul(z, z))))
  {
    var u, w := Mul(s, z), Mul(t, z);
    OneMinus(u, w);
    SumTimes(s, t, z, c1);
    hide Mul, Add;
    calc {
      Mul(u, w);
      Mul(Mul(s, z), Mul(t, z));
      { MulAssociates(s, z, Mul(t, z)); }
      Mul(s, Mul(z, Mul(t, z)));
      { MulAssociates(z, t, z); MulCommutes(z, t); MulAssociates(t, z, z); }
      Mul(s, Mul(t, Mul(z, z)));
      { MulAssociates(s, t, Mul(z, z)); }
      Mul(Mul(s, t), Mul(z, z));
    }
  }

  lemma {:induction false} OneMinus(u: Complex, w: Complex)
    ensures Mul(Add(ONE, Negated(u)), Add(ONE, Negated(w))) == Add(ONE, Add(Negated(Add(u, w)), Mul(u, w)))
  {
  }

  lemma {:induction false} SumTimes(s: Complex, t: Complex, z: Complex, c1: real)
    requires Add(s, t) == Real(-c1)
    ensures Negated(Add(Mul(s, z), Mul(t, z))) == Mul(Real(c1), z)
  {
    hide Mul, Add, Negated;
    MulDistributes(z, s, t);
    MulCommutes(z, s);
    MulCommutes(z, t);
    MulCommutes(z, Real(-c1));
    NegatedReal(c1, z);
  }

  lemma {:induction false} NegatedReal(c: real, z: Complex)
    ensures Negated(Mul(Real(-c), z)) == Mul(Real(c), z)
  {
  }

  /** The coefficients written for a pair have exactly its roots. */
  lemma {:induction false} QuadHasRoots(typ: seq<int>, val: seq<Coord>, n: nat, a: nat, z: Complex)
    requires WellTyped(typ, val, n) && a + 1 < n && PairAt(typ, a)
    ensures Eval(Quad(typ, val, a), z) == Mul(Factor(typ, val, a, z), Factor(typ, val, a + 1, z))
  {
    hide Mul, Add, Root;
    var p, q := Value(val[a]), Value(val[a + 1]);
    assert EntryTyped(typ, val, n, a);
    SumAndProduct(p, q);
    if typ[a] == REAL {
      var c1, c2 := -(p + q), p * q;
      EvalThree(c1, c2, z);
      TwoRoots(Real(p), Real(q), z, c1, c2);
      SameQuad(Quad(typ, val, a), [1.0, c1, c2]);
    } else {
      var c1, c2 := -2.0 * p, p * p + q * q;
      EvalThree(c1, c2, z);
      TwoRoots(Complex(p, q), Complex(p, -q), z, c1, c2);
      SameQuad(Quad(typ, val, a), [1.0, c1, c2]);
      MulOne(Factor(typ, val, a, z));
      MulCommutes(ONE, Factor(typ, val, a, z));
    }
  }

  lemma {:induction false} SumAndProduct(p: real, q: real)
    ensures Add(Real(p), Real(q)) == Real(-(-(p + q))) && Mul(Real(p), Real(q)) == Real(p * q)
    ensures Add(Complex(p, q), Complex(p, -q)) == Real(-(-2.0 * p)) && Mul(Complex(p, q), Complex(p, -q)) == Real(p * p + q * q)
  {
  }

  lemma {:induction false} ResponseAppends(t: char, acc: Complex, fs: seq<SubFilter>, gs: seq<SubFilter>, z: Complex)
    ensures ResponseOf(t, acc, fs + gs, z) == ResponseOf(t, ResponseOf(t, acc, fs, z), gs, z)
    decreases |fs|
  {
    hide Mul;
    if |fs| == 0 {
      assert fs + gs == gs;
    } else {
      assert (fs + gs)[1..] == fs[1..] + gs;
      ResponseAppends(t, if fs[0].typ == t then Mul(acc, Eval(fs[0].val, z)) else acc, fs[1..], gs, z);
    }
  }

  lemma {:induction false} ResponseOne(t: char, acc: Complex, f: SubFilter, z: Complex)
    ensures ResponseOf(t, acc, [f], z) == if f.typ == t then Mul(acc, Eval(f.val, z)) else acc
    ensures ResponseOf(t, acc, [], z) == acc
  {
    assert [f][1..] == [];
  }

  lemma {:induction false} LoneHasRoot(typ: seq<int>, val: seq<Coord>, a: nat, z: Complex)
    requires a < |typ| && a < |val| && typ[a] == REAL
    ensures Eval([1.0, -Value(val[a])], z) == Factor(typ, val, a, z)
  {
    EvalTwo(Value(val[a]), z);
  }

  /** Two more factors, or values of one at once. */
  lemma {:induction false} RootProductTwo(typ: seq<int>, val: seq<Coord>, n: nat, a: nat, z: Complex)
    requires WellTyped(typ, val, n) && a + 1 < n && PairAt(typ, a)
    ensures RootProduct(typ, val, a + 2, z) == Mul(RootProduct(typ, val, a, z), Eval(Quad(typ, val, a), z))
  {
    hide Mul, Factor, Quad;
    QuadHasRoots(typ, val, n, a, z);
    MulAssociates(RootProduct(typ, val, a, z), Factor(typ, val, a, z), Factor(typ, val, a + 1, z));
  }

  /** Zeros at the origin contribute nothing. */
  lemma {:induction false} OriginZeros(typ: seq<int>, val: seq<Coord>, n: nat, a: nat, z: Complex)
    requires WellTyped(typ, val, n) && a + 1 < n && PairAt(typ, a) && Value(val[a]) == 0.0 && Value(val[a + 1]) == 0.0
    ensures Eval(Quad(typ, val, a), z) == ONE
  {
    EvalThree(0.0, 0.0, z);
    assert RealQuad(0.0, 0.0) == [1.0, 0.0, 0.0] == ConjQuad(0.0, 0.0);
  }

  /** The pole factors of the pair filters are those of the listed poles, and the zero
      factors, after the gain, those of the listed zeros. */
  lemma {:induction false} PairFiltersHaveRoots(gain: real, cbm: bv16, poltyp: seq<int>, pol: seq<Coord>, zertyp: seq<int>, zer: seq<Coord>, n: nat, a: nat, z: Complex)
    requires WellTyped(poltyp, pol, n) && WellTyped(zertyp, zer, n) && Pairable(poltyp, n) && Pairable(zertyp, n)
    requires a <= n && a % 2 == 0
    ensures var fs := PairFilters(gain, cbm, poltyp, pol, zertyp, zer, a);
      && ResponseOf(IIR, ONE, fs, z) == RootProduct(poltyp, pol, a, z)
      && ResponseOf(FIR, ONE, fs, z) == Mul(Real(gain), RootProduct(zertyp, zer, a, z))
    decreases a
  {
    hide Mul, Quad, Factor, PairAt;
    var fs := PairFilters(gain, cbm, poltyp, pol, zertyp, zer, a);
    if a == 0 {
      ResponseOne(IIR, ONE, fs[0], z);
      ResponseOne(FIR, ONE, fs[0], z);
      EvalConstant([gain], z);
      MulOne(Real(gain));
      MulCommutes(ONE, Real(gain));
    } else {
      var b := a - 2;
      var before := PairFilters(gain, cbm, poltyp, pol, zertyp, zer, b);
      var i, f := SubFilter(IIR, 0, Quad(poltyp, pol, b)), SubFilter(FIR, cbm, Quad(zertyp, zer, b));
      var tail := if Kept(cbm, zer, b) then [f] else [];
      PairFiltersHaveRoots(gain, cbm, poltyp, pol, zertyp, zer, n, b, z);
      RootProductTwo(poltyp, pol, n, b, z);
      RootProductTwo(zertyp, zer, n, b, z);
      MulAssociates(Real(gain), RootProduct(zertyp, zer, b, z), Eval(f.val, z));
      if !Kept(cbm, zer, b) {
        OriginZeros(zertyp, zer, n, b, z);
        MulOne(RootProduct(zertyp, zer, b, z));
        MulCommutes(ONE, RootProduct(zertyp, zer, b, z));
      }
      AppendTwo(IIR, before, i, tail, z);
      AppendTwo(FIR, before, i, tail, z);
      TailResponse(FIR, ResponseOf(FIR, ONE, before, z), tail, f, z);
      TailResponse(IIR, Mul(ResponseOf(IIR, ONE, before, z), Eval(i.val, z)), tail, f, z);
    }
  }

  lemma {:induction false} AppendTwo(t: char, before: seq<SubFilter>, i: SubFilter, tail: seq<SubFilter>, z: Complex)
    ensures var acc := ResponseOf(t, ONE, before, z);
      ResponseOf(t, ONE, before + [i] + tail, z) == ResponseOf(t, if i.typ == t then Mul(acc, Eval(i.val, z)) else acc, tail, z)
  {
    hide Mul;
    ResponseAppends(t, ONE, before + [i], tail, z);
    ResponseAppends(t, ONE, before, [i], z);
    ResponseOne(t, ResponseOf(t, ONE, before, z), i, z);
  }

  lemma {:induction false} TailResponse(t: char, acc: Complex, tail: seq<SubFilter>, f: SubFilter, z: Complex)
    requires tail == [f] || tail == []
    ensures ResponseOf(t, acc, tail, z) == if tail == [f] && f.typ == t then Mul(acc, Eval(f.val, z)) else acc
  {
    hide Mul;
    ResponseOne(t, acc, f, z);
  }

  /** At every complex point z the denominators of the emitted filters multiply to the
      product of 1 - p z over the poles, and the numerators to the gain times the product of
      1 - q z over the zeros. */
  lemma {:induction false} FiltersHaveRoots(gain: real, cbm: bv16, poltyp: seq<int>, pol: seq<Coord>, zertyp: seq<int>, zer: seq<Coord>, n: nat, z: Complex)
    requires WellTyped(poltyp, pol, n) && WellTyped(zertyp, zer, n) && Pairable(poltyp, n) && Pairable(zertyp, n)
    ensures var fs := AllFilters(gain, cbm, poltyp, pol, zertyp, zer, n);
      && ResponseOf(IIR, ONE, fs, z) == RootProduct(poltyp, pol, n, z)
      && ResponseOf(FIR, ONE, fs, z) == Mul(Real(gain), RootProduct(zertyp, zer, n, z))
  {
    hide Mul, Quad, PairFilters;
    var b := n - n % 2;
    PairFiltersHaveRoots(gain, cbm, poltyp, pol, zertyp, zer, n, b, z);
    if n % 2 == 1 {
      var before := PairFilters(gain, cbm, poltyp, pol, zertyp, zer, b);
      var i, f := SubFilter(IIR, 0, [1.0, -Value(pol[b])]), SubFilter(FIR, cbm, [1.0, -Value(zer[b])]);
      var tail := if KeptLone(cbm, zer, b) then [f] else [];
      LoneHasRoot(poltyp, pol, b, z);
      LoneHasRoot(zertyp, zer, b, z);
      MulAssociates(Real(gain), RootProduct(zertyp, zer, b, z), Eval(f.val, z));
      if !KeptLone(cbm, zer, b) {
        LoneOrigin(z);
        MulOne(RootProduct(zertyp, zer, b, z));
        MulCommutes(ONE, RootProduct(zertyp, zer, b, z));
        assert f.val == [1.0, 0.0];
      }
      AppendTwo(IIR, before, i, tail, z);
      AppendTwo(FIR, before, i, tail, z);
      TailResponse(FIR, ResponseOf(FIR, ONE, before, z), tail, f, z);
      TailResponse(IIR, Mul(ResponseOf(IIR, ONE, before, z), Eval(i.val, z)), tail, f, z);
    }
  }

  lemma {:induction false} LoneOrigin(z: Complex)
    ensures Eval([1.0, 0.0], z) == ONE
  {
    EvalTwo(0.0, z);
    assert [1.0, -0.0] == [1.0, 0.0];
  }

  // -------------------------------------------------------------------------- stability

  /** The two-pole filter 1 / (1 + a1 z + a2 z^2) is stable: the triangle condition.  For one
      pole the coefficient is small enough. */
  predicate Stable(q: seq<real>)
    requires |q| == 2 || |q| == 3
  {
    if |q| == 2 then -1.0 < q[1] < 1.0
    else -1.0 < q[2] < 1.0 && q[1] < 1.0 + q[2] && -q[1] < 1.0 + q[2]
  }

  /** The factors of a positive product have the same sign. */
  lemma {:induction false} SameSign(x: real, y: real, u: real)
    requires u == x * y && u > 0.0
    ensures (x > 0.0 && y > 0.0) || (x < 0.0 && y < 0.0)
  {
    assert u == -x * -y;
  }

  lemma {:induction false} RealTriangle(p: real, q: real)
    ensures Stable(RealQuad(p, q)) <==> -1.0 < p < 1.0 && -1.0 < q < 1.0
  {
    hide Stable, RealQuad;
    var pq := p * q;
    RealParts(p, q);
    Triangle(RealQuad(p, q));
    if -1.0 < p < 1.0 && -1.0 < q < 1.0 {
      InsideTriangle(p, q, pq);
    }
    if pq < 1.0 && p + q < 1.0 + pq && -(p + q) < 1.0 + pq {
      TriangleInside(p, q, pq);
    }
  }

  lemma {:induction false} RealParts(p: real, q: real)
    ensures |RealQuad(p, q)| == 3 && RealQuad(p, q)[1] == -(p + q) && RealQuad(p, q)[2] == p * q
  {
  }

  lemma {:induction false} Expanded(p: real, q: real, pq: real)
    requires pq == p * q
    ensures (1.0 - p) * (1.0 - q) == 1.0 - (p + q) + pq && (1.0 + p) * (1.0 + q) == 1.0 + (p + q) + pq
    ensures (1.0 - p) * (1.0 + q) == 1.0 - p + q - pq && (1.0 + p) * (1.0 - q) == 1.0 + p - q - pq
  {
  }

  lemma {:induction false} InsideTriangle(p: real, q: real, pq: real)
    requires pq == p * q && -1.0 < p < 1.0 && -1.0 < q < 1.0
    ensures -1.0 < pq < 1.0 && p + q < 1.0 + pq && -(p + q) < 1.0 + pq
  {
    Expanded(p, q, pq);
    var u := Positive(1.0 - p, 1.0 - q);
    var w := Positive(1.0 + p, 1.0 + q);
    var r := Positive(1.0 - p, 1.0 + q);
    var s := Positive(1.0 + p, 1.0 - q);
  }

  lemma {:induction false} TriangleInside(p: real, q: real, pq: real)
    requires pq == p * q && pq < 1.0 && p + q < 1.0 + pq && -(p + q) < 1.0 + pq
    ensures -1.0 < p < 1.0 && -1.0 < q < 1.0
  {
    Expanded(p, q, pq);
    SameSign(1.0 - p, 1.0 - q, 1.0 - (p + q) + pq);
    SameSign(1.0 + p, 1.0 + q, 1.0 + (p + q) + pq);
    BigProduct(p, q);
    BigProduct(-p, -q);
  }

  lemma {:induction false} BigProduct(p: real, q: real)
    ensures p > 1.0 && q > 1.0 ==> p * q > 1.0
  {
    if p > 1.0 && q > 1.0 {
      var v := Positive(p - 1.0, q - 1.0);
      assert v == p * q - p - q + 1.0;
    }
  }

  lemma {:induction false} ConjTriangle(p: real, q: real)
    ensures Stable(ConjQuad(p, q)) <==> Norm(Complex(p, q)) < 1.0
  {
    hide Norm, Stable, ConjQuad;
    var n := Norm(Complex(p, q));
    var c := ConjQuad(p, q);
    ConjParts(p, q);
    NormPositive(Complex(p, q));
    if n < 1.0 {
      Discriminant(p, q);
      Discriminant(-p, q);
    }
    Triangle(c);
  }

  lemma {:induction false} Triangle(c: seq<real>)
    requires |c| == 3
    ensures Stable(c) <==> -1.0 < c[2] < 1.0 && c[1] < 1.0 + c[2] && -c[1] < 1.0 + c[2]
  {
  }

  lemma {:induction false} ConjParts(p: real, q: real)
    ensures |ConjQuad(p, q)| == 3 && ConjQuad(p, q)[1] == -2.0 * p && ConjQuad(p, q)[2] == Norm(Complex(p, q))
    ensures Norm(Complex(-p, q)) == Norm(Complex(p, q))
  {
  }

  lemma {:induction false} Discriminant(p: real, q: real)
    requires Norm(Complex(p, q)) < 1.0
    ensures 2.0 * p < 1.0 + Norm(Complex(p, q))
  {
    var pp := Square(p);
    var qq := Square(q);
    var d := Square(1.0 - p);
    assert Norm(Complex(p, q)) == pp + qq;
    assert d == 1.0 - 2.0 * p + pp;
  }

  /** Every pole filter of a list is stable. */
  ghost predicate AllStable(fs: seq<SubFilter>) {
    forall i :: 0 <= i < |fs| && fs[i].typ == IIR ==> |fs[i].val| in {2, 3} && Stable(fs[i].val)
  }

  ghost predicate InsideUpTo(typ: seq<int>, val: seq<Coord>, n: nat)
    requires n <= |typ| && n <= |val|
  {
    && (forall a :: 0 <= a < n && typ[a] == REAL ==> -1.0 < Value(val[a]) < 1.0)
    && (forall a :: 0 <= a < n && typ[a] == PAIR ==> Norm(At2(val, a)) < 1.0)
  }

  lemma {:induction false} PairStable(typ: seq<int>, val: seq<Coord>, n: nat, a: nat)
    requires WellTyped(typ, val, n) && a + 1 < n && PairAt(typ, a)
    ensures Stable(Quad(typ, val, a)) && InsideUpTo(typ, val, a) <==> InsideUpTo(typ, val, a + 2)
  {
    assert EntryTyped(typ, val, n, a);
    hide Stable, RealQuad, ConjQuad, Norm;
    RealTriangle(Value(val[a]), Value(val[a + 1]));
    ConjTriangle(Value(val[a]), Value(val[a + 1]));
  }

  lemma {:induction false} StableSnoc(fs: seq<SubFilter>, i: SubFilter, tail: seq<SubFilter>)
    requires i.typ == IIR && |i.val| in {2, 3} && forall k :: 0 <= k < |tail| ==> tail[k].typ != IIR
    ensures AllStable(fs + [i] + tail) <==> AllStable(fs) && Stable(i.val)
  {
    hide Stable;
    var all := fs + [i] + tail;
    assert all[|fs|] == i;
    assert forall k :: 0 <= k < |fs| ==> all[k] == fs[k];
    assert forall k :: |fs| < k < |all| ==> all[k] == tail[k - |fs| - 1];
  }

  lemma {:induction false} GainStable(gain: real)
    ensures AllStable([SubFilter(FIR, 0, [gain])])
  {
  }

  lemma {:induction false} PairsStableIff(gain: real, cbm: bv16, poltyp: seq<int>, pol: seq<Coord>, zertyp: seq<int>, zer: seq<Coord>, n: nat, a: nat)
    requires WellTyped(poltyp, pol, n) && Pairable(poltyp, n) && n <= |zertyp| && n <= |zer|
    requires a <= n && a % 2 == 0
    ensures AllStable(PairFilters(gain, cbm, poltyp, pol, zertyp, zer, a)) <==> InsideUpTo(poltyp, pol, a)
    decreases a
  {
    hide Stable, Quad, PairAt, AllStable;
    if a == 0 {
      GainStable(gain);
    } else {
      var b := a - 2;
      PairsStableIff(gain, cbm, poltyp, pol, zertyp, zer, n, b);
      PairStable(poltyp, pol, n, b);
      var f := SubFilter(FIR, cbm, Quad(zertyp, zer, b));
      StableSnoc(PairFilters(gain, cbm, poltyp, pol, zertyp, zer, b), SubFilter(IIR, 0, Quad(poltyp, pol, b)),
                 if Kept(cbm, zer, b) then [f] else []);
    }
  }

  /** The emitted pole filters are all stable exactly when all poles are strictly inside the
      unit circle. */
  lemma {:induction false} StableIffInside(gain: real, cbm: bv16, poltyp: seq<int>, pol: seq<Coord>, zertyp: seq<int>, zer: seq<Coord>, n: nat)
    requires WellTyped(poltyp, pol, n) && Finite(pol, n) && Pairable(poltyp, n) && n <= |zertyp| && n <= |zer|
    ensures AllStable(AllFilters(gain, cbm, poltyp, pol, zertyp, zer, n)) <==> Inside(poltyp, pol, n)
  {
    hide Stable, PairFilters, AllStable, Norm;
    var b := n - n % 2;
    PairsStableIff(gain, cbm, poltyp, pol, zertyp, zer, n, b);
    if n % 2 == 1 {
      var i, f := SubFilter(IIR, 0, [1.0, -Value(pol[b])]), SubFilter(FIR, cbm, [1.0, -Value(zer[b])]);
      LoneStable(Value(pol[b]), i.val);
      StableSnoc(PairFilters(gain, cbm, poltyp, pol, zertyp, zer, b), i, if KeptLone(cbm, zer, b) then [f] else []);
    }
  }

  lemma {:induction false} LoneStable(v: real, q: seq<real>)
    requires q == [1.0, -v]
    ensures Stable(q) <==> -1.0 < v < 1.0
  {
  }
}
