/** The back-ends that turn an analogue prototype into a digital low-pass or high-pass filter
    of unit gain. */
module Design {
  import opened Filters
  import opened Response
  import opened PoleZero
  import opened Biquads

  lemma {:induction false} AllReal(typ: seq<int>, n: nat)
    requires n <= |typ| && forall a :: 0 <= a < n ==> typ[a] == REAL
    ensures Pairable(typ, n)
  {
  }

  lemma {:induction false} AfterBilinear(typ: seq<int>, before: seq<Coord>, after: seq<Coord>, n: nat)
    requires WellTyped(typ, before, n) && AvoidsTwo(typ, before, n) && Transformed(typ, before, after, n)
    ensures Finite(after, n)
  {
    hide IsBilinear;
    forall a | 0 <= a < n ensures after[a].Fin? {
      assert EntryTyped(typ, after, n, a) && EntryTyped(typ, before, n, a);
      if typ[a] == SECOND { assert EntryTyped(typ, after, n, a - 1); }
    }
  }

  lemma {:induction false} LeftAvoidsTwo(typ: seq<int>, val: seq<Coord>, n: nat)
    requires WellTyped(typ, val, n) && LeftHalf(typ, val, n)
    ensures AvoidsTwo(typ, val, n)
  {
    forall a | 0 <= a < n && typ[a] == PAIR ensures At2(val, a) != Complex(2.0, 0.0) {
      assert EntryTyped(typ, val, n, a);
    }
  }

  // ------------------------------------------------------- the response at 1 and at -1

  /** At z = e a factor is a positive real number. */
  lemma {:induction false} FactorReal(typ: seq<int>, val: seq<Coord>, n: nat, a: nat, e: real) returns (x: real)
    requires WellTyped(typ, val, n) && a < n && (e == 1.0 || e == -1.0)
    requires typ[a] == REAL ==> e * Value(val[a]) < 1.0
    requires typ[a] == PAIR ==> Norm(At2(val, a)) < 1.0
    ensures Factor(typ, val, a, Real(e)) == Real(x) && x > 0.0
  {
    hide Norm;
    assert EntryTyped(typ, val, n, a);
    if typ[a] == REAL {
      x := 1.0 - e * Value(val[a]);
    } else if typ[a] == PAIR {
      var u := Root(At2(val, a), Real(e));
      ConjugateRoots(At2(val, a), e);
      RootNotZero(At2(val, a), e);
      NormPositive(u);
      x := Norm(u);
    } else {
      x := 1.0;
    }
  }

  lemma {:induction false} ConjugateRoots(s: Complex, e: real)
    ensures Mul(Root(s, Real(e)), Root(Conj(s), Real(e))) == Real(Norm(Root(s, Real(e))))
  {
  }

  /** No value inside the unit circle is a root at 1 or -1. */
  lemma {:induction false} RootNotZero(s: Complex, e: real)
    requires Norm(s) < 1.0 && (e == 1.0 || e == -1.0)
    ensures Root(s, Real(e)) != ZERO
  {
    hide Norm, Root;
    RootOnCircle(s, e);
  }

  lemma {:induction false} RootOnCircle(s: Complex, e: real)
    requires e == 1.0 || e == -1.0
    ensures Root(s, Real(e)) == ZERO ==> Norm(s) == 1.0
  {
    if e == 1.0 {
      assert Root(s, Real(1.0)) == Complex(1.0 - s.re, -s.im);
    } else {
      assert Root(s, Real(-1.0)) == Complex(1.0 + s.re, s.im);
    }
  }

  /** So is the product of all of them. */
  lemma {:induction false} ProductReal(typ: seq<int>, val: seq<Coord>, n: nat, k: nat, e: real) returns (x: real)
    requires WellTyped(typ, val, n) && k <= n && (e == 1.0 || e == -1.0)
    requires forall a :: 0 <= a < n && typ[a] == REAL ==> e * Value(val[a]) < 1.0
    requires forall a :: 0 <= a < n && typ[a] == PAIR ==> Norm(At2(val, a)) < 1.0
    ensures RootProduct(typ, val, k, Real(e)) == Real(x) && x > 0.0
    decreases k
  {
    hide Norm, Factor, Mul;
    if k == 0 {
      x := 1.0;
    } else {
      var y := ProductReal(typ, val, n, k - 1, e);
      var f := FactorReal(typ, val, n, k - 1, e);
      x := RealTimes(y, f);
    }
  }

  lemma {:induction false} RealTimes(y: real, f: real) returns (x: real)
    requires y > 0.0 && f > 0.0
    ensures Mul(Real(y), Real(f)) == Real(x) && x == y * f && x > 0.0
  {
    x := Positive(y, f);
  }

  /** The magnitude of the response at z = e, where both parts are real. */
  method ResponseAt(filt: seq<SubFilter>, e: real, ghost top: real, ghost bot: real) returns (m: real)
    requires Entries(filt) && forall i :: 0 <= i < |filt| ==> KnownType(filt[i])
    requires ResponseOf(FIR, ONE, filt, Real(e)) == Real(top) && ResponseOf(IIR, ONE, filt, Real(e)) == Real(bot)
    requires top > 0.0 && bot > 0.0
    ensures m > 0.0 && m * bot == top
  {
    hide Mul, Norm, ResponseOf;
    var zz, aa, bb := new real[2], new real[2], new real[2];
    zz[0], zz[1] := e, 0.0;
    var r := ResponseParts(filt, zz);
    aa[0], aa[1] := r.value.0.re, r.value.0.im;
    bb[0], bb[1] := r.value.1.re, r.value.1.im;
    NormPositive(Val(bb));
    CDiv(aa, bb);
    RealQuotient(Val(aa), bot, top);
    m := Magnitude(aa[0]);
  }

  /** The magnitude of a complex number on the real line. */
  function Magnitude(x: real): real {
    if x < 0.0 then -x else x
  }

  lemma {:induction false} RealQuotient(q: Complex, bot: real, top: real)
    requires Mul(q, Real(bot)) == Real(top) && bot > 0.0 && top > 0.0
    ensures q.im == 0.0 && q.re > 0.0 && q.re * bot == top
  {
    assert q.im * bot == 0.0;
    var t := q.re * bot;
    PositiveFactor(q.re, bot);
  }

  // --------------------------------------------------------------------- the back-ends

  /** The bilinear transform of a list that it is defined for. */
  ghost predicate Became(typ: seq<int>, before: seq<Coord>, after: seq<Coord>, n: nat) {
    WellTyped(typ, before, n) && AvoidsTwo(typ, before, n) && Transformed(typ, before, after, n)
  }

  /** The filters of the poles and zeros with some gain: all pole filters stable, and the
      response at z = e exactly one. */
  ghost predicate Designed(fs: seq<SubFilter>, gain: real, poltyp: seq<int>, pol: seq<Coord>, zertyp: seq<int>, zer: seq<Coord>, n: nat, e: real)
    requires n <= |poltyp| && n <= |pol| && n <= |zertyp| && n <= |zer|
  {
    && fs == AllFilters(gain, 0xFFFF, poltyp, pol, zertyp, zer, n)
    && AllStable(fs)
    && ResponseOf(FIR, ONE, fs, Real(e)) == ResponseOf(IIR, ONE, fs, Real(e)) != ZERO
  }

  /** What that says of the filters alone. */
  lemma {:induction false} StableWithUnitGain(fs: seq<SubFilter>, gain: real, poltyp: seq<int>, pol: seq<Coord>, zertyp: seq<int>, zer: seq<Coord>, n: nat, e: real)
    requires n <= |poltyp| && n <= |pol| && n <= |zertyp| && n <= |zer| && Designed(fs, gain, poltyp, pol, zertyp, zer, n, e)
    ensures forall i :: 0 <= i < |fs| && fs[i].typ == IIR ==>
      && |fs[i].val| in {2, 3}
      && if |fs[i].val| == 2 then -1.0 < fs[i].val[1] < 1.0
         else -1.0 < fs[i].val[2] < 1.0 && -(1.0 + fs[i].val[2]) < fs[i].val[1] < 1.0 + fs[i].val[2]
    ensures ResponseOf(FIR, ONE, fs, Real(e)) == ResponseOf(IIR, ONE, fs, Real(e)) != ZERO
  {
    hide ResponseOf, AllFilters;
  }

  /** Low pass: the filter of the scaled and transformed poles, with all zeros at -1, and unit
      gain at frequency zero.  It fails only when the poles cannot be paired. */
  method DoLowpass(poltyp: array<int>, pol: array<Coord>, nPol: nat, zertyp: array<int>, zer: array<Coord>, freq: real)
    returns (r: Result<seq<SubFilter>>, ghost scaled: seq<Coord>, ghost gain: real)
    requires pol != zer && poltyp != zertyp && WellTyped(poltyp[..], pol[..], nPol) && LeftHalf(poltyp[..], pol[..], nPol)
    requires nPol <= zertyp.Length && nPol <= zer.Length && freq > 0.0
    modifies pol, zertyp, zer
    ensures nPol <= |scaled| && forall a :: 0 <= a < nPol ==> scaled[a] == Fin(freq * old(Value(pol[a])))
    ensures Became(poltyp[..], scaled, pol[..], nPol) && forall a :: 0 <= a < nPol ==> zertyp[a] == REAL && zer[a] == Fin(-1.0)
    ensures r.Ok? <==> Pairable(poltyp[..], nPol)
    ensures r.Ok? ==> Designed(r.value, gain, poltyp[..], pol[..], zertyp[..], zer[..], nPol, 1.0)
    ensures r.Ok? ==> ResponseOf(FIR, ONE, r.value, Real(1.0)) == ResponseOf(IIR, ONE, r.value, Real(1.0)) != ZERO
  {
    hide AllStable, AllFilters, Pairable, IsBilinear, Transformed, Designed, ResponseOf;
    AllFinite(poltyp[..], pol[..], nPol);
    var nZer := Lowpass(poltyp, pol, nPol, zertyp, zer, freq);
    scaled := pol[..];
    r, gain := ToFilter(poltyp, pol, nPol, zertyp, zer, MinusInf, 1.0);
    if r.Ok? { StableWithUnitGain(r.value, gain, poltyp[..], pol[..], zertyp[..], zer[..], nPol, 1.0); }
  }

  /** High pass: each pole is replaced by the frequency divided by it, all zeros end at 1, and
      the gain is one at half the sampling rate. */
  method DoHighpass(poltyp: array<int>, pol: array<Coord>, nPol: nat, zertyp: array<int>, zer: array<Coord>, freq: real)
    returns (r: Result<seq<SubFilter>>, ghost inverted: seq<Coord>, ghost gain: real)
    requires pol != zer && poltyp != zertyp && WellTyped(poltyp[..], pol[..], nPol) && LeftHalf(poltyp[..], pol[..], nPol)
    requires nPol <= zertyp.Length && nPol <= zer.Length && freq > 0.0
    modifies pol, zertyp, zer
    ensures Inverted(poltyp[..], old(pol[..]), inverted, nPol, freq)
    ensures Became(poltyp[..], inverted, pol[..], nPol) && forall a :: 0 <= a < nPol ==> zertyp[a] == REAL && zer[a] == Fin(1.0)
    ensures r.Ok? <==> Pairable(poltyp[..], nPol)
    ensures r.Ok? ==> Designed(r.value, gain, poltyp[..], pol[..], zertyp[..], zer[..], nPol, -1.0)
    ensures r.Ok? ==> ResponseOf(FIR, ONE, r.value, Real(-1.0)) == ResponseOf(IIR, ONE, r.value, Real(-1.0)) != ZERO
  {
    hide AllStable, AllFilters, Pairable, IsBilinear, Transformed, Inverted, Designed, ResponseOf;
    LeftIsNonZero(poltyp[..], pol[..], nPol);
    var nZer := Highpass(poltyp, pol, nPol, zertyp, zer, freq);
    inverted := pol[..];
    r, gain := ToFilter(poltyp, pol, nPol, zertyp, zer, Fin(0.0), -1.0);
    if r.Ok? { StableWithUnitGain(r.value, gain, poltyp[..], pol[..], zertyp[..], zer[..], nPol, -1.0); }
  }

  /** What both share: the bilinear transform, the filters, and the gain that makes the
      response at z = e one. */
  method ToFilter(poltyp: array<int>, pol: array<Coord>, n: nat, zertyp: array<int>, zer: array<Coord>, zero: Coord, e: real)
    returns (r: Result<seq<SubFilter>>, ghost gain: real)
    requires pol != zer && WellTyped(poltyp[..], pol[..], n) && LeftHalf(poltyp[..], pol[..], n)
    requires WellTyped(zertyp[..], zer[..], n) && zero != Fin(2.0) && forall a :: 0 <= a < n ==> zertyp[a] == REAL && zer[a] == zero
    requires (e == 1.0 || e == -1.0) && Bilinear(zero) == Fin(-e)
    modifies pol, zer
    ensures Became(poltyp[..], old(pol[..]), pol[..], n) && forall a :: 0 <= a < n ==> zer[a] == Bilinear(zero)
    ensures r.Ok? <==> Pairable(poltyp[..], n)
    ensures r.Ok? ==> Designed(r.value, gain, poltyp[..], pol[..], zertyp[..], zer[..], n, e)
  {
    hide AllStable, AllFilters, Pairable, IsBilinear, Designed, Inside, LeftHalf;
    ghost var pt, zt := poltyp[..], zertyp[..];
    ghost var p0, z0 := pol[..], zer[..];
    AllReal(zt, n);
    LeftAvoidsTwo(pt, p0, n);
    S2zBilinear(poltyp, pol, n, zertyp, zer, n);
    AfterBilinear(pt, p0, pol[..], n);
    AfterBilinear(zt, z0, zer[..], n);
    BilinearStableIff(pt, p0, pol[..], n);
    r := Z2FidFilter(1.0, 0xFFFF, poltyp, pol, n, zertyp, zer, n);
    gain := 1.0;
    if r.Ok? {
      var fs;
      fs, gain := UnitGain(r.value, e, pt, pol[..], zt, zer[..], n);
      r := Ok(fs);
    }
  }

  /** Divides by the response at z = e, in the leading one-tap filter. */
  method UnitGain(fs: seq<SubFilter>, e: real, ghost poltyp: seq<int>, ghost pol: seq<Coord>, ghost zertyp: seq<int>, ghost zer: seq<Coord>, ghost n: nat)
    returns (gs: seq<SubFilter>, ghost gain: real)
    requires WellTyped(poltyp, pol, n) && Finite(pol, n) && Pairable(poltyp, n) && Inside(poltyp, pol, n)
    requires WellTyped(zertyp, zer, n) && Pairable(zertyp, n) && forall a :: 0 <= a < n ==> zertyp[a] == REAL && zer[a] == Fin(-e)
    requires fs == AllFilters(1.0, 0xFFFF, poltyp, pol, zertyp, zer, n) && (e == 1.0 || e == -1.0)
    ensures Designed(gs, gain, poltyp, pol, zertyp, zer, n, e)
  {
    hide AllStable, AllFilters, Pairable, RootProduct, ResponseOf, Mul, Norm;
    ghost var bot := ProductReal(poltyp, pol, n, n, e);
    ghost var top := ProductReal(zertyp, zer, n, n, e);
    FiltersHaveRoots(1.0, 0xFFFF, poltyp, pol, zertyp, zer, n, Real(e));
    ghost var one := RealTimes(1.0, top);
    FiltersShape(1.0, 0xFFFF, poltyp, pol, zertyp, zer, n);
    var m := ResponseAt(fs, e, top, bot);
    var g := 1.0 / m;
    gain := g;
    gs := [fs[0].(val := [g])] + fs[1..];
    FiltersShape(g, 0xFFFF, poltyp, pol, zertyp, zer, n);
    SameTail(1.0, g, 0xFFFF, poltyp, pol, zertyp, zer, n);
    FiltersHaveRoots(g, 0xFFFF, poltyp, pol, zertyp, zer, n, Real(e));
    StableIffInside(g, 0xFFFF, poltyp, pol, zertyp, zer, n);
    MadeOne(g, m, bot, top);
  }

  lemma {:induction false} MadeOne(g: real, m: real, bot: real, top: real)
    requires m > 0.0 && g == 1.0 / m && m * bot == top && bot > 0.0
    ensures Mul(Real(g), Real(top)) == Real(bot) != ZERO
  {
    assert g * m == 1.0;
    calc {
      g * top;
      g * (m * bot);
      (g * m) * bot;
      bot;
    }
  }

  /** The list starts with the gain, and all its entries are filters of known type. */
  lemma {:induction false} FiltersShape(g: real, cbm: bv16, poltyp: seq<int>, pol: seq<Coord>, zertyp: seq<int>, zer: seq<Coord>, n: nat)
    requires n <= |poltyp| && n <= |pol| && n <= |zertyp| && n <= |zer|
    ensures var fs := AllFilters(g, cbm, poltyp, pol, zertyp, zer, n);
      |fs| > 0 && fs[0] == SubFilter(FIR, 0, [g]) && Entries(fs) && forall i :: 0 <= i < |fs| ==> KnownType(fs[i])
  {
    hide Quad;
    PairsShape(g, cbm, poltyp, pol, zertyp, zer, n - n % 2);
  }

  lemma {:induction false} PairsShape(g: real, cbm: bv16, poltyp: seq<int>, pol: seq<Coord>, zertyp: seq<int>, zer: seq<Coord>, a: nat)
    requires a <= |poltyp| && a <= |pol| && a <= |zertyp| && a <= |zer|
    ensures var fs := PairFilters(g, cbm, poltyp, pol, zertyp, zer, a);
      |fs| > 0 && fs[0] == SubFilter(FIR, 0, [g]) && Entries(fs) && forall i :: 0 <= i < |fs| ==> KnownType(fs[i])
    decreases a
  {
    hide Quad;
    if a >= 2 { PairsShape(g, cbm, poltyp, pol, zertyp, zer, a - 2); }
  }

  /** The gain is in the first entry only. */
  lemma {:induction false} SameTail(g: real, h: real, cbm: bv16, poltyp: seq<int>, pol: seq<Coord>, zertyp: seq<int>, zer: seq<Coord>, n: nat)
    requires n <= |poltyp| && n <= |pol| && n <= |zertyp| && n <= |zer|
    ensures |AllFilters(g, cbm, poltyp, pol, zertyp, zer, n)| > 0
    ensures AllFilters(h, cbm, poltyp, pol, zertyp, zer, n)
         == [SubFilter(FIR, 0, [h])] + AllFilters(g, cbm, poltyp, pol, zertyp, zer, n)[1..]
  {
    hide Quad, PairFilters;
    var b := n - n % 2;
    SamePairTail(g, h, cbm, poltyp, pol, zertyp, zer, b);
    if n % 2 == 1 {
      var i := [SubFilter(IIR, 0, [1.0, -Value(pol[b])])];
      var f := if KeptLone(cbm, zer, b) then [SubFilter(FIR, cbm, [1.0, -Value(zer[b])])] else [];
      var head, before := [SubFilter(FIR, 0, [h])], PairFilters(g, cbm, poltyp, pol, zertyp, zer, b);
      assert head + before[1..] + i + f == head + (before + i + f)[1..];
    }
  }

  lemma {:induction false} SamePairTail(g: real, h: real, cbm: bv16, poltyp: seq<int>, pol: seq<Coord>, zertyp: seq<int>, zer: seq<Coord>, a: nat)
    requires a <= |poltyp| && a <= |pol| && a <= |zertyp| && a <= |zer|
    ensures |PairFilters(g, cbm, poltyp, pol, zertyp, zer, a)| > 0
    ensures PairFilters(h, cbm, poltyp, pol, zertyp, zer, a)
         == [SubFilter(FIR, 0, [h])] + PairFilters(g, cbm, poltyp, pol, zertyp, zer, a)[1..]
    decreases a
  {
    hide Quad;
    if a >= 2 { SamePairTail(g, h, cbm, poltyp, pol, zertyp, zer, a - 2); }
  }
}
