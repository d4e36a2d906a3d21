/** Inputs on which compiled code differs from its filter list: the stored coefficient that
    misses its scaling, and the run count that overflows its byte. */
module CompilerFaults {
  import opened Signals
  import opened Filters
  import opened Commands
  import opened Stages
  import opened Pairing
  import opened Emission
  import opened Compiler
  import opened FilterRun

  // ------------------------------------------------------- the coefficient left unscaled

  const HALF: seq<SubFilter> := [SubFilter(IIR, 0, [2.0, 1.0])]

  lemma {:induction false} HalfPairs()
    ensures Compilable(HALF) && Pairs(HALF) == [Pair([2.0, 1.0], [1.0])] && Fitting(HALF) && Gain(HALF) == 0.5
  {
    var f := HALF[0];
    assert HALF[1..] == [];
    assert NoSingles(HALF) == [f] + NoSingles([]) == [f];
    assert PairUp([f]) == [Pair(f.val, [1.0])] + PairUp([f][1..]);
    assert RunsFit(Pairs(HALF)[1..], 0, 0);
    assert Gain(HALF) == Times(Over(1.0, 2.0), Gain([]));
  }

  /** The first two outputs of a one-pole filter fed with an impulse. */
  lemma {:induction false} TwoSamples(a: seq<real>, y: seq<real>)
    requires |a| == 2 && a[0] != 0.0 && |y| == 2
    requires a[0] * y[0] == 1.0 && a[0] * y[1] + a[1] * y[0] == 0.0
    ensures Iir(a, [1.0, 0.0]) == y
  {
    FirBeforeStart(a[1..], y);
    FirHead(a, y, 0);
    FirHead(a, y, 1);
    FirHead(a[1..], y, 0);
    assert a[1..][1..] == [];
    IirUnique(a, [1.0, 0.0], y);
  }

  lemma {:induction false} OneFilter(f: SubFilter, x: seq<real>)
    requires Runs(f)
    ensures Cascade([f], x) == Apply(f, x)
  {
    assert [f][1..] == [];
  }

  lemma {:induction false} OneStage(st: Stage, x: seq<real>)
    requires Valid(st)
    ensures Chain([st], x) == Output(st, x)
  {
    assert [st][1..] == [];
  }

  /** The stage the compiler makes of that list. */
  lemma {:induction false} HalfStage()
    ensures Lower(Pair([2.0, 1.0], [1.0])) == Stage([1.0, 1.0], [1.0])
  {
    var e := Scale(Over(1.0, 2.0), [2.0, 1.0]);
    assert e[0] == 1.0;
    assert e[1 := 1.0] == [1.0, 1.0];
  }

  /** The recurrence 2*y[n] + y[n-1] == x[n]: its second output is -1/4, the code's is -1/2. */
  lemma {:induction false} UnscaledTapIsWrong()
    ensures Compilable(HALF) && Fitting(HALF) && Safe(Compiled(HALF))
    ensures Cascade(HALF, [1.0, 0.0])[1] == -0.25
    ensures Response(Compiled(HALF), [1.0, 0.0]) == -0.5
  {
    hide Compiled, Response, Safe, Fitting, Pairs, Gain, Cascade, Chain, Lower, FirAt, Iir;
    HalfPairs();
    CodeComputes(HALF, [1.0, 0.0]);
    TwoSamples([2.0, 1.0], [0.5, -0.25]);
    OneFilter(HALF[0], [1.0, 0.0]);
    HalfStage();
    var st := Stage([1.0, 1.0], [1.0]);
    TwoSamples([1.0, 1.0], [1.0, -1.0]);
    UnitFir([1.0, -1.0]);
    assert Lowers(Pairs(HALF)) == [st];
    OneStage(st, [1.0, 0.0]);
  }

  // ------------------------------------------------------------ the count that overflows

  const DELAY := SubFilter(FIR, 0, [0.0, 0.0, 1.0])

  /** n delays by two samples in series. */
  function Delays(n: nat): (fs: seq<SubFilter>)
    ensures |fs| == n && forall i :: 0 <= i < n ==> fs[i] == DELAY
  {
    seq(n, _ => DELAY)
  }

  lemma {:induction false} DelayPairs(n: nat)
    ensures Compilable(Delays(n)) && Pairs(Delays(n)) == seq(n, _ => Pair([1.0], DELAY.val)) && Gain(Delays(n)) == 1.0
    decreases n
  {
    if n > 0 {
      DelayPairs(n - 1);
      assert Delays(n)[1..] == Delays(n - 1);
      PairsFir(Delays(n));
      assert seq(n, _ => Pair([1.0], DELAY.val)) == [Pair([1.0], DELAY.val)] + seq(n - 1, _ => Pair([1.0], DELAY.val));
    }
  }

  /** Delaying by two samples. */
  lemma {:induction false} DelayShifts(x: seq<real>, n: int)
    ensures FirAt(DELAY.val, x, n) == At(x, n - 2)
  {
    FirHead([0.0, 0.0, 1.0], x, n);
    FirHead([0.0, 1.0], x, n - 1);
    FirHead([1.0], x, n - 2);
    assert DELAY.val[1..] == [0.0, 1.0] && [0.0, 1.0][1..] == [1.0] && [1.0][1..] == [];
  }

  /** After n delays nothing has come out before sample 2n. */
  lemma {:induction false} DelaysAreSilent(n: nat, x: seq<real>, q: nat, k: nat)
    requires k < |x| && k < 2 * n + q && forall i :: 0 <= i < q && i < |x| ==> x[i] == 0.0
    ensures Runnable(Delays(n)) && Cascade(Delays(n), x)[k] == 0.0
    decreases n
  {
    if n > 0 {
      var y := Fir(DELAY.val, x);
      forall i | 0 <= i < q + 2 && i < |y| ensures y[i] == 0.0 { DelayShifts(x, i); }
      assert Delays(n)[1..] == Delays(n - 1);
      DelaysAreSilent(n - 1, y, q + 2, k);
    }
  }

  /** What is executed for an open run of n delays that gets m more. */
  lemma {:induction false} DelayRun(n: nat, m: nat)
    requires n > 0
    ensures var ps := seq(m, _ => Pair([1.0], DELAY.val));
      && ArePairs(ps) && Executed(ps, 17, n) == Repeat(Unit(17), Performed(n + m))
    decreases m
  {
    if m > 0 {
      DelayRun(n + 1, m - 1);
      assert seq(m, _ => Pair([1.0], DELAY.val))[1..] == seq(m - 1, _ => Pair([1.0], DELAY.val));
    }
  }

  /** One delay on the shared buffer: the first slot comes out, the input goes into the
      second. */
  lemma {:induction false} OneDelayStep(coef: seq<real>, buf: seq<real>, x: real)
    requires |coef| >= 3 && coef[..3] == [1.0, 0.0, 0.0] && |buf| > 2
    ensures var ops := [TapF, EndF]; var m0 := Start(coef, buf, x);
      && Enough(ops, m0)
      && var m := RunOps(ops, m0);
        m.iir == buf[0] && |m.out + m.rest| == |buf| && (m.out + m.rest)[0] == buf[1] && (m.out + m.rest)[1] == x
  {
    var m0 := Start(coef, buf, x);
    UnitSizes();
    assert coef[0] == coef[..3][0] && coef[1] == coef[..3][1] && coef[2] == coef[..3][2];
    assert [TapF, EndF][1..] == [EndF] && [EndF][1..] == [];
    var m1 := Micro(TapF, m0);
    assert m1 == Machine(x, buf[0], buf[1], coef[1..], [buf[1]], m0.rest[1..]);
    var m2 := Micro(EndF, m1);
    assert m2.iir == buf[0] && m2.out == [buf[1], x];
    assert RunOps([EndF], m1) == m2 && RunOps([TapF, EndF], m0) == m2;
  }

  lemma {:induction false} LongRunCoefs(ps: seq<Pair>)
    requires ArePairs(ps) && |ps| > 0 && ps[0] == Pair([1.0], DELAY.val)
    ensures |AllCoefs(Lowers(ps))| >= 3 && AllCoefs(Lowers(ps))[..3] == [1.0, 0.0, 0.0]
    ensures AllSlots(Lowers(ps)) >= 2 && (|ps| > 1 ==> AllSlots(Lowers(ps)) > 2)
  {
    var p := ps[0];
    assert ps == [p] + ps[1..];
    LowersHead(p, ps[1..]);
    var st := Lower(p);
    assert |st.a| == 1 && st.b == [0.0, 0.0, 1.0];
    var c0 := CoefsFrom(0, st.a, st.b);
    assert CoefsFrom(1, st.a, st.b) == [] + [0.0] + c0;
    assert StageCoefs(st) == [] + [1.0] + CoefsFrom(1, st.a, st.b) == [1.0, 0.0, 0.0];
    NoSlotsNoStages(Lowers(ps[1..]));
  }

  /** Any multiple of 256 delays is executed as a single one. */
  lemma {:induction false} LongRunCode(n: nat)
    requires n > 0 && n % 256 == 0
    ensures Compilable(Delays(n)) && !Fitting(Delays(n)) && Safe(Compiled(Delays(n)))
    ensures Ops(Compiled(Delays(n)).cmd) == [TapF, EndF]
    ensures |Compiled(Delays(n)).coef| >= 3 && Compiled(Delays(n)).coef[..3] == [1.0, 0.0, 0.0]
    ensures BufferSize(Compiled(Delays(n))) > 2
  {
    hide Pairs, Safe, Gain, AllCoefs, AllSlots, EmitAll, Ops, Runnable, Executed, RunsFit, Lowers;
    DelayPairs(n);
    LongRunOps(n);
    assert [TapF, EndF] + [] == [TapF, EndF];
    CompiledStaysInStep(Delays(n));
    CompiledOps(Delays(n));
    LongRunCoefs(Pairs(Delays(n)));
  }

  lemma {:induction false} LongRunOps(n: nat)
    requires n > 0 && n % 256 == 0
    ensures var ps := seq(n, _ => Pair([1.0], DELAY.val));
      ArePairs(ps) && Executed(ps, 0, 0) == [TapF, EndF] && !RunsFit(ps, 0, 0)
  {
    hide Lower;
    var p := Pair([1.0], DELAY.val);
    var rest, ps := seq(n - 1, _ => p), seq(n, _ => p);
    assert ps == [p] + rest && ps[1..] == rest && ps[0] == p;
    DelayRun(1, n - 1);
    assert Executed(ps, 0, 0) == Repeat(Unit(0), 0) + Executed(rest, 17, 1) == Executed(rest, 17, 1);
    assert Repeat([TapF, EndF], 1) == [TapF, EndF] + Repeat([TapF, EndF], 0);
    LongRunOverflows(1, n - 1);
  }

  lemma {:induction false} LongRunOverflows(n: nat, m: nat)
    requires n > 0
    ensures RunsFit(seq(m, _ => Pair([1.0], DELAY.val)), 17, n) <==> n + m <= 255
    decreases m
  {
    if m > 0 {
      LongRunOverflows(n + 1, m - 1);
      assert seq(m, _ => Pair([1.0], DELAY.val))[1..] == seq(m - 1, _ => Pair([1.0], DELAY.val));
    }
  }

  /** A machine whose whole code is one delay hands out its first slot and stores the input
      in its second. */
  lemma {:induction false} DelayMachine(run: Run, xs: seq<real>, x: real)
    requires Safe(run) && Ops(run.cmd) == [TapF, EndF] && BufferSize(run) > 2
    requires |run.coef| >= 3 && run.coef[..3] == [1.0, 0.0, 0.0]
    ensures Response(run, xs + [x]) == Memory(run, xs)[0]
    ensures Memory(run, xs + [x])[0] == Memory(run, xs)[1] && Memory(run, xs + [x])[1] == x
  {
    assert (xs + [x])[..|xs|] == xs;
    OneDelayStep(run.coef, Memory(run, xs), x);
  }

  /** 256 delays by two samples, or any multiple: the list delays by at least 512 samples,
      its code by two.  An impulse is back after two samples and should not be. */
  lemma {:induction false} LongRunIsWrong(n: nat, xs: seq<real>)
    requires n > 0 && n % 256 == 0 && xs == [1.0, 0.0, 0.0]
    ensures Compilable(Delays(n)) && Safe(Compiled(Delays(n)))
    ensures Cascade(Delays(n), xs)[2] == 0.0
    ensures Response(Compiled(Delays(n)), xs) == 1.0
  {
    hide Compiled, Safe, Response, Ops, Cascade, Runnable, Memory;
    LongRunCode(n);
    DelaysAreSilent(n, xs, 0, 2);
    var run := Compiled(Delays(n));
    assert xs[..0] + [1.0] == xs[..1] && xs[..1] + [0.0] == xs[..2] && xs[..2] + [0.0] == xs;
    DelayMachine(run, xs[..0], 1.0);
    DelayMachine(run, xs[..1], 0.0);
    DelayMachine(run, xs[..2], 0.0);
  }
}
