/** From a filter list to compiled stages: one-tap FIRs and IIR heads become one gain, the
    rest is paired up, and the recursive part of each pair is scaled to head 1. */
module Pairing {
  import opened Signals
  import opened Filters
  import opened Stages

  /** An IIR and the FIR that shares its delay line; [1.0] stands for a missing half. */
  datatype Pair = Pair(iir: seq<real>, fir: seq<real>)

  predicate IsPair(p: Pair) {
    && |p.iir| > 0 && p.iir[0] != 0.0 && |p.fir| > 0
    && (|p.fir| == 1 ==> p.fir[0] == 1.0)
    && (|p.iir| > 1 || |p.fir| > 1)
  }

  predicate ArePairs(ps: seq<Pair>) {
    forall i :: 0 <= i < |ps| ==> IsPair(ps[i])
  }

  /** What the compiler needs of a list: it can be run, and every IIR has a second
      coefficient (which the code for the last tap reads). */
  predicate Compilable(fs: seq<SubFilter>) {
    Runnable(fs) && forall i :: 0 <= i < |fs| && fs[i].typ == IIR ==> |fs[i].val| >= 2
  }

  /** A plain gain. */
  predicate Single(f: SubFilter) {
    f.typ == FIR && |f.val| == 1
  }

  function Factor(f: SubFilter): real
    requires Runs(f)
  {
    if f.typ == IIR then Over(1.0, f.val[0]) else if Single(f) then f.val[0] else 1.0
  }

  /** The product of all gains of a list, IIR heads counting as divisors. */
  function Gain(fs: seq<SubFilter>): real
    requires Runnable(fs)
  {
    if |fs| == 0 then 1.0 else Times(Factor(fs[0]), Gain(fs[1..]))
  }

  function NoSingles(fs: seq<SubFilter>): (r: seq<SubFilter>)
    requires Compilable(fs)
    ensures Compilable(r) && |r| <= |fs|
    ensures forall i :: 0 <= i < |r| ==> !Single(r[i])
  {
    if |fs| == 0 then []
    else
      assert Runs(fs[0]);
      (if Single(fs[0]) then [] else [fs[0]]) + NoSingles(fs[1..])
  }

  function PairUp(fs: seq<SubFilter>): (ps: seq<Pair>)
    requires Compilable(fs) && forall i :: 0 <= i < |fs| ==> !Single(fs[i])
    ensures ArePairs(ps)
    decreases |fs|
  {
    if |fs| == 0 then []
    else
      assert Runs(fs[0]) && !Single(fs[0]);
      if fs[0].typ == FIR then [Pair([1.0], fs[0].val)] + PairUp(fs[1..])
      else if |fs| > 1 && fs[1].typ == FIR then
        assert Runs(fs[1]) && !Single(fs[1]);
        [Pair(fs[0].val, fs[1].val)] + PairUp(fs[2..])
      else [Pair(fs[0].val, [1.0])] + PairUp(fs[1..])
  }

  function Pairs(fs: seq<SubFilter>): (ps: seq<Pair>)
    requires Compilable(fs)
    ensures ArePairs(ps)
  {
    PairUp(NoSingles(fs))
  }

  /** The stage a pair stands for. */
  function Exact(p: Pair): (st: Stage)
    requires IsPair(p)
    ensures Valid(st)
  {
    HeadOne(p.iir[0]);
    Stage(Scale(Over(1.0, p.iir[0]), p.iir), p.fir)
  }

  lemma {:induction false} HeadOne(a: real)
    requires a != 0.0
    ensures Over(1.0, a) * a == 1.0 && Over(1.0, a) != 0.0
  {
  }

  /** Pairs that have no code of their own and get the general treatment. */
  predicate Generic(p: Pair) {
    !(|p.iir| == 3 && (|p.fir| == 3 || |p.fir| == 1)) && !(|p.iir| == 1 && |p.fir| == 3)
  }

  /** The stage the compiler makes of a pair: in the general case the coefficient of the
      last tap is stored without the scaling that all the others get. */
  function Lower(p: Pair): (st: Stage)
    requires IsPair(p)
    ensures Valid(st)
  {
    var e := Exact(p);
    if Generic(p) && |p.iir| > 1 then Stage(e.a[1 := p.iir[1]], e.b) else e
  }

  function Exacts(ps: seq<Pair>): (sts: seq<Stage>)
    requires ArePairs(ps)
    ensures AllValid(sts) && |sts| == |ps| && forall i :: 0 <= i < |ps| ==> sts[i] == Exact(ps[i])
  {
    seq(|ps|, i requires 0 <= i < |ps| => Exact(ps[i]))
  }

  function Lowers(ps: seq<Pair>): (sts: seq<Stage>)
    requires ArePairs(ps)
    ensures AllValid(sts) && |sts| == |ps| && forall i :: 0 <= i < |ps| ==> sts[i] == Lower(ps[i])
  {
    seq(|ps|, i requires 0 <= i < |ps| => Lower(ps[i]))
  }

  // ------------------------------------------------------------- hoisting the gains

  lemma {:induction false} ScaleTwice(c: real, d: real, x: seq<real>)
    ensures Scale(c, Scale(d, x)) == Scale(Times(c, d), x)
  {
    forall n | 0 <= n < |x| ensures Scale(c, Scale(d, x))[n] == Scale(Times(c, d), x)[n] {
      assert c * (d * x[n]) == Times(c, d) * x[n];
    }
  }

  lemma {:induction false} ScaleOne(x: seq<real>)
    ensures Scale(1.0, x) == x
  {
  }

  lemma {:induction false} TimesLaws(c: real, d: real, e: real)
    ensures Times(c, d) == Times(d, c)
    ensures Times(Times(c, d), e) == Times(c, Times(d, e))
    ensures Times(1.0, c) == c
  {
  }

  /** A gain may be moved from the input of a cascade to its output. */
  lemma {:induction false} GainMoves(fs: seq<SubFilter>, c: real, x: seq<real>)
    requires Runnable(fs)
    ensures Cascade(fs, Scale(c, x)) == Scale(c, Cascade(fs, x))
    decreases |fs|
  {
    if |fs| > 0 {
      var f := fs[0];
      if f.typ == IIR { GainPassesIir(f.val, c, x); } else { GainPassesFir(f.val, c, x); }
      GainMoves(fs[1..], c, Apply(f, x));
    }
  }

  lemma {:induction false} ChainGainMoves(sts: seq<Stage>, c: real, x: seq<real>)
    requires AllValid(sts)
    ensures Chain(sts, Scale(c, x)) == Scale(c, Chain(sts, x))
    decreases |sts|
  {
    if |sts| > 0 {
      var st := sts[0];
      GainPassesIir(st.a, c, x);
      GainPassesFir(st.b, c, Iir(st.a, x));
      ChainGainMoves(sts[1..], c, Output(st, x));
    }
  }

  /** The gain of the one-tap FIRs alone. */
  function SingleGain(fs: seq<SubFilter>): real
    requires Runnable(fs)
  {
    if |fs| == 0 then 1.0
    else if Single(fs[0]) then Times(fs[0].val[0], SingleGain(fs[1..]))
    else SingleGain(fs[1..])
  }

  lemma {:induction false} OneTap(b: seq<real>, x: seq<real>)
    requires |b| == 1
    ensures Fir(b, x) == Scale(b[0], x)
  {
    forall n | 0 <= n < |x| ensures FirAt(b, x, n) == b[0] * x[n] {
      FirHead(b, x, n);
    }
  }

  /** One-tap FIRs can be taken out of a cascade as one gain. */
  lemma {:induction false} SinglesOut(fs: seq<SubFilter>, x: seq<real>)
    requires Compilable(fs)
    ensures Cascade(fs, x) == Scale(SingleGain(fs), Cascade(NoSingles(fs), x))
    ensures Gain(fs) == Times(SingleGain(fs), Gain(NoSingles(fs)))
    decreases |fs|
  {
    hide Times, Over;
    if |fs| == 0 {
      ScaleOne(x);
      TimesLaws(1.0, 1.0, 1.0);
    } else {
      var f, rest := fs[0], fs[1..];
      assert Runs(f);
      var c, s, g := Factor(f), SingleGain(rest), Gain(NoSingles(rest));
      SinglesOut(rest, Apply(f, x));
      TimesLaws(c, s, g);
      if Single(f) {
        assert NoSingles(fs) == NoSingles(rest);
        OneTap(f.val, x);
        GainMoves(NoSingles(rest), c, x);
        ScaleTwice(s, c, Cascade(NoSingles(rest), x));
      } else {
        assert NoSingles(fs)[0] == f && NoSingles(fs)[1..] == NoSingles(rest);
        TimesLaws(s, c, g);
      }
    }
  }

  /** Without one-tap FIRs, a list is its pairs in series after the IIR heads are divided
      out. */
  lemma {:induction false} PairsOut(fs: seq<SubFilter>, x: seq<real>)
    requires Compilable(fs) && forall i :: 0 <= i < |fs| ==> !Single(fs[i])
    ensures Cascade(fs, x) == Scale(Gain(fs), Chain(Exacts(PairUp(fs)), x))
    decreases |fs|
  {
    hide Times, Over;
    if |fs| == 0 {
      ScaleOne(x);
    } else {
      var f := fs[0];
      assert Runs(f) && !Single(f);
      if f.typ == FIR {
        var p, rest := Pair([1.0], f.val), fs[1..];
        FirAlone(f.val, x);
        PairsOut(rest, Output(Exact(p), x));
        ChainHead(p, PairUp(rest), x);
        TimesLaws(Gain(rest), 1.0, 1.0);
      } else if |fs| > 1 && fs[1].typ == FIR {
        var g := fs[1];
        var p, rest := Pair(f.val, g.val), fs[2..];
        assert Runs(g) && !Single(g) && fs[1..][0] == g && fs[1..][1..] == rest;
        TimesLaws(Gain(rest), 1.0, 1.0);
        HeadOut(p, x);
        PairsOut(rest, Output(Exact(p), x));
        GainHead(p, rest, x);
      } else {
        var p, rest := Pair(f.val, [1.0]), fs[1..];
        HeadOut(p, x);
        UnitFir(Iir(f.val, x));
        PairsOut(rest, Output(Exact(p), x));
        GainHead(p, rest, x);
      }
    }
  }

  lemma {:induction false} UnitFir(x: seq<real>)
    ensures Fir([1.0], x) == x
  {
    OneTap([1.0], x);
    ScaleOne(x);
  }

  lemma {:induction false} FirAlone(b: seq<real>, x: seq<real>)
    requires |b| > 1
    ensures Output(Exact(Pair([1.0], b)), x) == Fir(b, x)
  {
    var one := Scale(1.0 / 1.0, [1.0]);
    assert one == [1.0];
    UnitFir(x);
    IirUnique([1.0], x, x);
  }

  /** The output of a pair is its exact stage's, divided by the head of its IIR. */
  lemma {:induction false} HeadOut(p: Pair, x: seq<real>)
    requires IsPair(p)
    ensures Fir(p.fir, Iir(p.iir, x)) == Scale(Over(1.0, p.iir[0]), Output(Exact(p), x))
  {
    var c := Over(1.0, p.iir[0]);
    HeadOne(p.iir[0]);
    IirRescaled(c, p.iir, x);
    GainPassesFir(p.fir, c, Iir(Scale(c, p.iir), x));
  }

  lemma {:induction false} ChainHead(p: Pair, ps: seq<Pair>, x: seq<real>)
    requires IsPair(p) && ArePairs(ps)
    ensures ArePairs([p] + ps) && Chain(Exacts([p] + ps), x) == Chain(Exacts(ps), Output(Exact(p), x))
  {
    assert Exacts([p] + ps)[1..] == Exacts(ps);
  }

  /** A list after a pair, by what is known of the list and of the pair. */
  lemma {:induction false} GainHead(p: Pair, rest: seq<SubFilter>, x: seq<real>)
    requires IsPair(p) && Compilable(rest) && forall i :: 0 <= i < |rest| ==> !Single(rest[i])
    requires Fir(p.fir, Iir(p.iir, x)) == Scale(Over(1.0, p.iir[0]), Output(Exact(p), x))
    requires Cascade(rest, Output(Exact(p), x)) == Scale(Gain(rest), Chain(Exacts(PairUp(rest)), Output(Exact(p), x)))
    ensures Cascade(rest, Fir(p.fir, Iir(p.iir, x)))
         == Scale(Times(Over(1.0, p.iir[0]), Gain(rest)), Chain(Exacts([p] + PairUp(rest)), x))
  {
    hide Times, Over;
    var c, y := Over(1.0, p.iir[0]), Output(Exact(p), x);
    GainMoves(rest, c, y);
    ScaleTwice(c, Gain(rest), Chain(Exacts(PairUp(rest)), y));
    ChainHead(p, PairUp(rest), x);
  }

  /** Hoisting every gain to the end preserves the meaning of a list. */
  lemma {:induction false} CascadeIsChain(fs: seq<SubFilter>, x: seq<real>)
    requires Compilable(fs)
    ensures Cascade(fs, x) == Scale(Gain(fs), Chain(Exacts(Pairs(fs)), x))
  {
    hide Times;
    var ns := NoSingles(fs);
    SinglesOut(fs, x);
    PairsOut(ns, x);
    ScaleTwice(SingleGain(fs), Gain(ns), Chain(Exacts(PairUp(ns)), x));
  }
}
