/** When compiled code computes what its filter list means. */
module Correctness {
  import opened Signals
  import opened Filters
  import opened Stages
  import opened Pairing
  import opened Compiler
  import opened FilterRun

  // ------------------------------------------- stages as filters, and their products

  /** The two filters of each stage, in order. */
  function AsFilters(sts: seq<Stage>): (fs: seq<SubFilter>)
    requires AllValid(sts)
    ensures Runnable(fs)
  {
    if |sts| == 0 then []
    else
      assert Valid(sts[0]);
      [SubFilter(IIR, 0, sts[0].a), SubFilter(FIR, 0, sts[0].b)] + AsFilters(sts[1..])
  }

  lemma {:induction false} ChainIsCascade(sts: seq<Stage>, x: seq<real>)
    requires AllValid(sts)
    ensures Chain(sts, x) == Cascade(AsFilters(sts), x)
    decreases |sts|
  {
    if |sts| > 0 {
      assert Valid(sts[0]);
      var fs, rest := AsFilters(sts), AsFilters(sts[1..]);
      var y := Iir(sts[0].a, x);
      assert fs[1..] == [SubFilter(FIR, 0, sts[0].b)] + rest && fs[1..][1..] == rest;
      assert Cascade(fs, x) == Cascade(fs[1..], y);
      assert Cascade(fs[1..], y) == Cascade(rest, Fir(sts[0].b, y));
      ChainIsCascade(sts[1..], Output(sts[0], x));
    }
  }

  /** The denominator a list asks for, the one its code has, and their common numerator;
      gains are kept apart. */
  function TrueDen(fs: seq<SubFilter>): seq<real>
    requires Compilable(fs)
  {
    Denominator(AsFilters(Exacts(Pairs(fs))))
  }

  function CodeDen(fs: seq<SubFilter>): seq<real>
    requires Compilable(fs)
  {
    Denominator(AsFilters(Lowers(Pairs(fs))))
  }

  function Num(fs: seq<SubFilter>): seq<real>
    requires Compilable(fs)
  {
    Numerator(AsFilters(Exacts(Pairs(fs))))
  }

  /** Stage lists with the same finite parts have the same numerator, and denominators of
      the same length. */
  lemma {:induction false} SameNumerator(s: seq<Stage>, t: seq<Stage>, n: seq<real>, d: seq<real>, e: seq<real>)
    requires AllValid(s) && AllValid(t) && |s| == |t| && |n| > 0 && |d| > 0 && |e| == |d|
    requires forall i :: 0 <= i < |s| ==> s[i].b == t[i].b && |s[i].a| == |t[i].a|
    ensures ProductOf(FIR, n, AsFilters(s)) == ProductOf(FIR, n, AsFilters(t))
    ensures |ProductOf(IIR, d, AsFilters(s))| == |ProductOf(IIR, e, AsFilters(t))|
    decreases |s|
  {
    if |s| > 0 {
      var b := s[0].b;
      ProductStage(s, n, d);
      ProductStage(t, n, e);
      SameNumerator(s[1..], t[1..], Product(b, n), Product(s[0].a, d), Product(t[0].a, e));
    }
  }

  lemma {:induction false} ProductStage(s: seq<Stage>, n: seq<real>, d: seq<real>)
    requires AllValid(s) && |s| > 0 && |n| > 0 && |d| > 0
    ensures |s[0].a| > 0 && |s[0].b| > 0
    ensures ProductOf(FIR, n, AsFilters(s)) == ProductOf(FIR, Product(s[0].b, n), AsFilters(s[1..]))
    ensures ProductOf(IIR, d, AsFilters(s)) == ProductOf(IIR, Product(s[0].a, d), AsFilters(s[1..]))
  {
    assert Valid(s[0]);
    var fs, rest := AsFilters(s), AsFilters(s[1..]);
    assert fs[1..] == [SubFilter(FIR, 0, s[0].b)] + rest && fs[1..][1..] == rest;
    assert ProductOf(FIR, n, fs) == ProductOf(FIR, n, fs[1..]) == ProductOf(FIR, Product(s[0].b, n), rest);
    assert ProductOf(IIR, d, fs) == ProductOf(IIR, Product(s[0].a, d), fs[1..]) == ProductOf(IIR, Product(s[0].a, d), rest);
  }

  lemma {:induction false} CommonNumerator(fs: seq<SubFilter>)
    requires Compilable(fs)
    ensures Numerator(AsFilters(Lowers(Pairs(fs)))) == Num(fs) && |CodeDen(fs)| == |TrueDen(fs)|
  {
    SameNumerator(Lowers(Pairs(fs)), Exacts(Pairs(fs)), [1.0], [1.0], [1.0]);
  }

  /** Both streams are one division by their denominator away from the same signal. */
  lemma {:induction false} StreamsAsQuotients(fs: seq<SubFilter>, x: seq<real>)
    requires Compilable(fs)
    ensures TrueDen(fs)[0] != 0.0 && CodeDen(fs)[0] != 0.0
    ensures Cascade(fs, x) == Scale(Gain(fs), Iir(TrueDen(fs), Fir(Num(fs), x)))
    ensures StageOutput(fs, x) == Scale(Gain(fs), Iir(CodeDen(fs), Fir(Num(fs), x)))
  {
    var e, l := Exacts(Pairs(fs)), Lowers(Pairs(fs));
    CascadeIsChain(fs, x);
    ChainIsCascade(e, x);
    ChainIsCascade(l, x);
    CascadeIsQuotient(AsFilters(e), x);
    CascadeIsQuotient(AsFilters(l), x);
    CommonNumerator(fs);
  }

  // -------------------------------------------------------------- the exact condition

  /** What a caller can check before compiling: nothing comes out at all, or the code's
      denominator is the right one. */
  predicate Harmless(fs: seq<SubFilter>)
    requires Compilable(fs)
  {
    Gain(fs) == 0.0 || IsZero(Num(fs)) || CodeDen(fs) == TrueDen(fs)
  }

  lemma {:induction false} ZeroIn(a: seq<real>, b: seq<real>, x: seq<real>)
    requires |a| > 0 && a[0] != 0.0 && IsZero(b)
    ensures IsZero(Iir(a, Fir(b, x)))
  {
    var u := Fir(b, x);
    var z := seq(|x|, _ => 0.0);
    forall n | 0 <= n < |x| ensures u[n] == 0.0 == FirAt(a, z, n) {
      FirCommutes(b, x, n);
      FirZero(x, b, n);
      FirZero(a, z, n);
    }
    IirUnique(a, u, z);
  }

  lemma {:induction false} HarmlessIsEnough(fs: seq<SubFilter>, x: seq<real>)
    requires Compilable(fs) && Harmless(fs)
    ensures StageOutput(fs, x) == Cascade(fs, x)
  {
    StreamsAsQuotients(fs, x);
    var y, z := Iir(TrueDen(fs), Fir(Num(fs), x)), Iir(CodeDen(fs), Fir(Num(fs), x));
    var g := Gain(fs);
    if g == 0.0 {
      assert Scale(0.0, y) == Scale(0.0, z);
    } else if IsZero(Num(fs)) {
      ZeroIn(TrueDen(fs), Num(fs), x);
      ZeroIn(CodeDen(fs), Num(fs), x);
      assert y == z;
    }
  }

  lemma {:induction false} ImpulseThrough(b: seq<real>, m: nat, n: int)
    requires m > 0
    ensures FirAt(b, Impulse(m), n) == At(b, n)
  {
    var x := Impulse(m);
    FirPeel(b, x, n);
    FirZero(b, x[1..], n - 1);
  }

  /** If two denominators give the same response to an impulse, they are equal. */
  lemma {:induction false} DenominatorsFromImpulse(d: seq<real>, e: seq<real>, b: seq<real>, m: nat)
    requires |d| > 0 && |e| == |d| && d[0] != 0.0 && e[0] != 0.0 && !IsZero(b)
    requires m == |d| + |b|
    requires Iir(d, Fir(b, Impulse(m))) == Iir(e, Fir(b, Impulse(m)))
    ensures d == e
  {
    var u := Fir(b, Impulse(m));
    var y := Iir(d, u);
    var j :| 0 <= j < |b| && b[j] != 0.0;
    if forall k :: 0 <= k <= j ==> y[k] == 0.0 {
      FirZero(d, y, j);
      IirSolves(d, u, j);
      ImpulseThrough(b, m, j);
      assert false;
    }
    var k :| 0 <= k <= j && y[k] != 0.0;
    var diff := Difference(d, e);
    if d != e {
      var i :| 0 <= i < |d| && d[i] != e[i];
      var n := NoZeroDivisors(diff, y, i, k);
      DifferenceFilters(d, e, y, n);
      IirSolves(d, u, n);
      IirSolves(e, u, n);
      assert false;
    }
  }

  function Difference(d: seq<real>, e: seq<real>): (r: seq<real>)
    requires |d| == |e|
    ensures |r| == |d| && forall i :: 0 <= i < |r| ==> r[i] == d[i] - e[i]
  {
    seq(|d|, i requires 0 <= i < |d| => d[i] - e[i])
  }

  lemma {:induction false} DifferenceFilters(d: seq<real>, e: seq<real>, y: seq<real>, n: int)
    requires |d| == |e|
    ensures FirAt(Difference(d, e), y, n) == FirAt(d, y, n) - FirAt(e, y, n)
  {
    var r := Difference(d, e);
    forall m ensures At(d, m) == 1.0 * At(e, m) + At(r, m - 0) {
    }
    CoefficientsLinear(d, 1.0, e, r, 0, y, n);
  }

  lemma {:induction false} Unscale(g: real, y: seq<real>, z: seq<real>)
    requires g != 0.0 && |y| == |z| && Scale(g, y) == Scale(g, z)
    ensures y == z
  {
    forall n | 0 <= n < |y| ensures y[n] == z[n] {
      assert g * y[n] == Scale(g, y)[n] == Scale(g, z)[n] == g * z[n];
      Cancel(g, y[n], z[n]);
    }
  }

  lemma {:induction false} Cancel(g: real, y: real, z: real)
    requires g != 0.0 && g * y == g * z
    ensures y == z
  {
    assert g * (y - z) == 0.0;
    if y != z { NonZeroProduct(g, y - z); }
  }

  /** The stages' streams are the cascade's on every input exactly for harmless lists. */
  lemma {:induction false} StagesCorrectIff(fs: seq<SubFilter>)
    requires Compilable(fs)
    ensures Harmless(fs) <==> forall x :: StageOutput(fs, x) == Cascade(fs, x)
  {
    if Harmless(fs) {
      forall x ensures StageOutput(fs, x) == Cascade(fs, x) { HarmlessIsEnough(fs, x); }
    } else {
      var d, e, b := TrueDen(fs), CodeDen(fs), Num(fs);
      CommonNumerator(fs);
      var m := |d| + |b|;
      var x := Impulse(m);
      StreamsAsQuotients(fs, x);
      if StageOutput(fs, x) == Cascade(fs, x) {
        Unscale(Gain(fs), Iir(d, Fir(b, x)), Iir(e, Fir(b, x)));
        DenominatorsFromImpulse(d, e, b, m);
        assert false;
      }
    }
  }

  // ----------------------------------------------------------------- sample by sample

  lemma {:induction false} CascadeCausal(fs: seq<SubFilter>, x: seq<real>, k: nat)
    requires Runnable(fs) && k <= |x|
    ensures Cascade(fs, x[..k]) == Cascade(fs, x)[..k]
    decreases |fs|
  {
    if |fs| > 0 {
      var f := fs[0];
      if f.typ == IIR { Causal(f.val, [], x, k); } else { Causal([1.0], f.val, x, k); }
      CascadeCausal(fs[1..], Apply(f, x), k);
    }
  }

  lemma {:induction false} StageOutputCausal(fs: seq<SubFilter>, x: seq<real>, k: nat)
    requires Compilable(fs) && k <= |x|
    ensures StageOutput(fs, x[..k]) == StageOutput(fs, x)[..k]
  {
    var l := Lowers(Pairs(fs));
    ChainIsCascade(l, x);
    ChainIsCascade(l, x[..k]);
    CascadeCausal(AsFilters(l), x, k);
    ScalePrefix(Gain(fs), Chain(l, x), k);
  }

  lemma {:induction false} ScalePrefix(g: real, y: seq<real>, k: nat)
    requires k <= |y|
    ensures Scale(g, y[..k]) == Scale(g, y)[..k]
  {
    forall n | 0 <= n < k ensures Scale(g, y[..k])[n] == Scale(g, y)[n] {
      assert y[..k][n] == y[n];
    }
  }

  /** The code's output for the last input of xs is the cascade's. */
  ghost predicate RunsRight(fs: seq<SubFilter>, xs: seq<real>)
    requires Compilable(fs) && Safe(Compiled(fs)) && |xs| > 0
  {
    Response(Compiled(fs), xs) == Cascade(fs, xs)[|xs| - 1]
  }

  /** If every last sample is right, every stream is. */
  lemma {:induction false} SamplesMakeStreams(fs: seq<SubFilter>, x: seq<real>)
    requires Compilable(fs) && Fitting(fs) && Safe(Compiled(fs))
    requires forall xs: seq<real> :: |xs| > 0 ==> RunsRight(fs, xs)
    ensures StageOutput(fs, x) == Cascade(fs, x)
  {
    hide StageOutput, Cascade, Compiled, Safe, Fitting, Response;
    forall n | 0 <= n < |x| ensures StageOutput(fs, x)[n] == Cascade(fs, x)[n] {
      var past := x[..n + 1];
      assert RunsRight(fs, past);
      CodeComputes(fs, past);
      StageOutputCausal(fs, x, n + 1);
      CascadeCausal(fs, x, n + 1);
    }
  }

  /** Compiler correctness, exactly: with runs that fit their counts, the compiled code run
      sample by sample from a zeroed buffer gives the output of the plain cascade on every
      input stream if and only if the list is harmless. */
  lemma {:induction false} CompiledCorrectIff(fs: seq<SubFilter>)
    requires Compilable(fs) && Fitting(fs)
    ensures Safe(Compiled(fs))
    ensures Harmless(fs) <==> forall xs: seq<real> :: |xs| > 0 ==> RunsRight(fs, xs)
  {
    hide StageOutput, Cascade, Compiled, Safe, Fitting, Response, Harmless;
    CompiledStaysInStep(fs);
    StagesCorrectIff(fs);
    if Harmless(fs) {
      forall xs: seq<real> | |xs| > 0 ensures RunsRight(fs, xs) {
        CodeComputes(fs, xs);
        HarmlessIsEnough(fs, xs);
      }
    }
    if forall xs: seq<real> :: |xs| > 0 ==> RunsRight(fs, xs) {
      forall x ensures StageOutput(fs, x) == Cascade(fs, x) { SamplesMakeStreams(fs, x); }
    }
  }

  // --------------------------------------------------------------- simpler conditions

  /** The recursive coefficient that is stored unscaled would not change by scaling. */
  predicate Faithful(p: Pair)
    requires IsPair(p)
  {
    Generic(p) && |p.iir| > 1 ==> p.iir[0] == 1.0 || p.iir[1] == 0.0
  }

  lemma {:induction false} FaithfulIffExact(p: Pair)
    requires IsPair(p)
    ensures Faithful(p) <==> Lower(p) == Exact(p)
  {
    if Generic(p) && |p.iir| > 1 {
      var a, b := p.iir[0], p.iir[1];
      var e := Exact(p);
      assert e.a[1] == Over(1.0, a) * b;
      ScaledSame(a, b);
      if Faithful(p) {
        assert Lower(p).a == e.a;
      } else {
        assert Lower(p).a[1] == b;
      }
    }
  }

  lemma {:induction false} ScaledSame(a: real, b: real)
    requires a != 0.0
    ensures Over(1.0, a) * b == b <==> a == 1.0 || b == 0.0
  {
    var c := Over(1.0, a);
    HeadOne(a);
    if c * b == b && b != 0.0 {
      assert c * b == 1.0 * b;
      Cancel(b, c, 1.0);
    }
  }

  /** Lists whose pairs are all faithful are compiled correctly. */
  lemma {:induction false} FaithfulListsAreHarmless(fs: seq<SubFilter>)
    requires Compilable(fs)
    requires forall i :: 0 <= i < |Pairs(fs)| ==> Faithful(Pairs(fs)[i])
    ensures Harmless(fs)
  {
    var ps := Pairs(fs);
    forall i | 0 <= i < |ps| ensures Lowers(ps)[i] == Exacts(ps)[i] { FaithfulIffExact(ps[i]); }
    assert Lowers(ps) == Exacts(ps);
  }

  /** For a list with a single pair the condition is also needed. */
  lemma {:induction false} SinglePairIff(fs: seq<SubFilter>)
    requires Compilable(fs) && |Pairs(fs)| == 1
    ensures CodeDen(fs) == TrueDen(fs) <==> Faithful(Pairs(fs)[0])
  {
    var p := Pairs(fs)[0];
    FaithfulIffExact(p);
    SingleDen(Exacts(Pairs(fs)));
    SingleDen(Lowers(Pairs(fs)));
  }

  lemma {:induction false} SingleDen(sts: seq<Stage>)
    requires AllValid(sts) && |sts| == 1
    ensures Denominator(AsFilters(sts)) == sts[0].a
  {
    var a := sts[0].a;
    ProductStage(sts, [1.0], [1.0]);
    assert sts[1..] == [];
    forall n | 0 <= n < |a| ensures FirAt(a, [1.0], n) == a[n] {
      FirCommutes(a, [1.0], n);
      UnitFilter(a, n);
    }
    assert Product(a, [1.0]) == a;
  }
}
