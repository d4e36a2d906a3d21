/** What compiled code computes for every list, those with runs longer than a byte can count
    included: the interpreter then carries out fewer stages than were emitted, and cuts the
    coefficient list in other places than the compiler did. */
module LongRuns {
  import opened Signals
  import opened Filters
  import opened Commands
  import opened Stages
  import opened Pairing
  import opened Emission
  import opened Compiler
  import opened FilterRun
  import opened Correctness

  // ------------------------------------------------------ stages by their sizes

  /** The number of recursive and of finite coefficients of a stage. */
  datatype Size = Size(ni: nat, nf: nat)

  predicate Proper(z: Size) {
    z.ni > 0 && z.nf > 0 && (z.ni > 1 || z.nf > 1)
  }

  predicate AllProper(zs: seq<Size>) {
    forall i :: 0 <= i < |zs| ==> Proper(zs[i])
  }

  function SizeOps(z: Size): seq<Op>
    requires Proper(z)
  {
    TapsFrom(Max(z.ni, z.nf) - 1, z.ni, z.nf)
  }

  function AllSizeOps(zs: seq<Size>): seq<Op>
    requires AllProper(zs)
  {
    if |zs| == 0 then []
    else
      assert Proper(zs[0]);
      SizeOps(zs[0]) + AllSizeOps(zs[1..])
  }

  /** Coefficients read for tap k, and for taps k down to 0. */
  function Own(k: nat, z: Size): nat {
    (if k < z.ni then 1 else 0) + (if k < z.nf then 1 else 0)
  }

  function NeedFrom(k: nat, z: Size): nat {
    if k == 0 then (if z.nf > 1 then 1 else 0) else Own(k, z) + NeedFrom(k - 1, z)
  }

  function Need(z: Size): nat
    requires Proper(z)
  {
    NeedFrom(Max(z.ni, z.nf) - 1, z)
  }

  function AllNeed(zs: seq<Size>): nat
    requires AllProper(zs)
  {
    if |zs| == 0 then 0
    else
      assert Proper(zs[0]);
      Need(zs[0]) + AllNeed(zs[1..])
  }

  /** The recursive and the finite coefficients up to tap k that the code reads from c. */
  function ReadI(k: nat, z: Size, c: seq<real>): (a: seq<real>)
    requires z.ni > 0 && |c| == NeedFrom(k, z)
    ensures |a| == (if k < z.ni then k + 1 else z.ni) && a[0] == 1.0
  {
    if k == 0 then [1.0] else ReadI(k - 1, z, c[Own(k, z)..]) + if k < z.ni then [c[0]] else []
  }

  function ReadF(k: nat, z: Size, c: seq<real>): (b: seq<real>)
    requires z.nf > 0 && |c| == NeedFrom(k, z)
    ensures |b| == (if k < z.nf then k + 1 else z.nf) && (z.nf == 1 ==> b[0] == 1.0)
  {
    if k == 0 then [if z.nf > 1 then c[0] else 1.0]
    else ReadF(k - 1, z, c[Own(k, z)..]) + if k < z.nf then [c[Own(k, z) - 1]] else []
  }

  /** What is read for tap k is what tap k has. */
  lemma {:induction false} ReadTap(k: nat, z: Size, c: seq<real>, a: seq<real>, b: seq<real>)
    requires Proper(z) && k > 0 && |c| == NeedFrom(k, z) && |a| == z.ni && |b| == z.nf
    requires ReadI(k, z, c) <= a && ReadF(k, z, c) <= b
    ensures var rest := c[Own(k, z)..]; ReadI(k - 1, z, rest) <= a && ReadF(k - 1, z, rest) <= b
    ensures c[..Own(k, z)] == (if k < z.ni then [a[k]] else []) + (if k < z.nf then [b[k]] else [])
  {
    var rest := c[Own(k, z)..];
    assert ReadI(k - 1, z, rest) <= ReadI(k, z, c) && ReadF(k - 1, z, rest) <= ReadF(k, z, c);
    assert k < z.ni ==> a[k] == ReadI(k, z, c)[k];
    assert k < z.nf ==> b[k] == ReadF(k, z, c)[k];
  }

  lemma {:induction false} ReadBack(k: nat, z: Size, c: seq<real>, a: seq<real>, b: seq<real>)
    requires Proper(z) && |c| == NeedFrom(k, z) && |a| == z.ni && |b| == z.nf
    requires ReadI(k, z, c) <= a && ReadF(k, z, c) <= b
    ensures CoefsFrom(k, a, b) == c
    decreases k
  {
    if k > 0 {
      hide ReadI, ReadF;
      ReadTap(k, z, c, a, b);
      ReadBack(k - 1, z, c[Own(k, z)..], a, b);
      assert c == c[..Own(k, z)] + c[Own(k, z)..];
    }
  }

  /** The stage that code of size z carries out with the coefficients c. */
  function StageOf(z: Size, c: seq<real>): (st: Stage)
    requires Proper(z) && |c| == Need(z)
    ensures Valid(st) && |st.a| == z.ni && |st.b| == z.nf
  {
    var k := Max(z.ni, z.nf) - 1;
    Stage(ReadI(k, z, c), ReadF(k, z, c))
  }

  lemma {:induction false} StageOfReads(z: Size, c: seq<real>)
    requires Proper(z) && |c| == Need(z)
    ensures StageOps(StageOf(z, c)) == SizeOps(z) && StageCoefs(StageOf(z, c)) == c
  {
    var st := StageOf(z, c);
    ReadBack(Max(z.ni, z.nf) - 1, z, c, st.a, st.b);
  }

  /** A coefficient list cut up among stages. */
  function Cut(zs: seq<Size>, coef: seq<real>): (sts: seq<Stage>)
    requires AllProper(zs) && AllNeed(zs) <= |coef|
    ensures AllValid(sts) && |sts| == |zs|
    decreases |zs|
  {
    if |zs| == 0 then []
    else
      assert Proper(zs[0]);
      var n := Need(zs[0]);
      [StageOf(zs[0], coef[..n])] + Cut(zs[1..], coef[n..])
  }

  lemma {:induction false} CutReads(zs: seq<Size>, coef: seq<real>)
    requires AllProper(zs) && AllNeed(zs) <= |coef|
    ensures AllOps(Cut(zs, coef)) == AllSizeOps(zs)
    ensures AllCoefs(Cut(zs, coef)) == coef[..AllNeed(zs)]
    decreases |zs|
  {
    hide Need, SizeOps, StageOf;
    if |zs| > 0 {
      assert Proper(zs[0]);
      var n := Need(zs[0]);
      var sts := Cut(zs, coef);
      StageOfReads(zs[0], coef[..n]);
      CutReads(zs[1..], coef[n..]);
      assert sts[0] == StageOf(zs[0], coef[..n]) && sts[1..] == Cut(zs[1..], coef[n..]);
      assert coef[..n] + coef[n..][..AllNeed(zs[1..])] == coef[..AllNeed(zs)];
    }
  }

  lemma {:induction false} NeedIsUse(k: nat, z: Size)
    requires Proper(z) && 0 < k < Max(z.ni, z.nf)
    ensures CoefUse(TapsFrom(k, z.ni, z.nf)) == NeedFrom(k, z)
    decreases k
  {
    assert TapsFrom(k, z.ni, z.nf)[1..] == TapsFrom(k - 1, z.ni, z.nf);
    if k > 1 {
      NeedIsUse(k - 1, z);
    } else {
      assert TapsFrom(0, z.ni, z.nf) == [] && CoefUse([]) == 0;
    }
  }

  lemma {:induction false} AllNeedIsUse(zs: seq<Size>)
    requires AllProper(zs)
    ensures CoefUse(AllSizeOps(zs)) == AllNeed(zs)
    decreases |zs|
  {
    if |zs| > 0 {
      assert Proper(zs[0]);
      NeedIsUse(Max(zs[0].ni, zs[0].nf) - 1, zs[0]);
      AllNeedIsUse(zs[1..]);
      UseConcat(SizeOps(zs[0]), AllSizeOps(zs[1..]));
    }
  }

  // ------------------------------------------------------ what is carried out

  function SizeOf(p: Pair): Size {
    Size(|p.iir|, |p.fir|)
  }

  function ShapeSize(s: Byte): Size {
    Size(if s == 17 then 1 else 3, if s == 16 then 1 else 3)
  }

  function Copies(z: Size, n: nat): (zs: seq<Size>)
    ensures |zs| == n && forall i :: 0 <= i < n ==> zs[i] == z
  {
    seq(n, _ => z)
  }

  /** The stages that are carried out for the pairs ps, with n pairs of the shape s still
      open before them. */
  function Carried(ps: seq<Pair>, s: Byte, n: nat): (zs: seq<Size>)
    requires ArePairs(ps)
    ensures AllProper(zs)
    decreases |ps|
  {
    if |ps| == 0 then Copies(ShapeSize(s), Performed(n))
    else if Shape(ps[0]) == 0 then Copies(ShapeSize(s), Performed(n)) + ([SizeOf(ps[0])] + Carried(ps[1..], 0, 0))
    else if Shape(ps[0]) == s then Carried(ps[1..], s, n + 1)
    else Copies(ShapeSize(s), Performed(n)) + Carried(ps[1..], Shape(ps[0]), 1)
  }

  lemma {:induction false} OpsOfConcat(a: seq<Size>, b: seq<Size>)
    requires AllProper(a) && AllProper(b)
    ensures AllSizeOps(a + b) == AllSizeOps(a) + AllSizeOps(b)
    decreases |a|
  {
    hide SizeOps;
    if |a| == 0 {
      assert a + b == b;
    } else {
      assert Proper(a[0]) && (a + b)[1..] == a[1..] + b;
      OpsOfConcat(a[1..], b);
      Regroup(SizeOps(a[0]), AllSizeOps(a[1..]), AllSizeOps(b));
    }
  }

  lemma {:induction false} OpsOfOne(z: Size)
    requires Proper(z)
    ensures AllSizeOps([z]) == SizeOps(z)
  {
    hide SizeOps;
    assert [z][1..] == [];
  }

  lemma {:induction false} UnitOfShape(s: Byte)
    requires IsShape(s)
    ensures SizeOps(ShapeSize(s)) == Unit(s)
  {
    var z := ShapeSize(s);
    assert TapsFrom(2, z.ni, z.nf) == [OpAt(2, z.ni, z.nf)] + ([OpAt(1, z.ni, z.nf)] + TapsFrom(0, z.ni, z.nf));
  }

  lemma {:induction false} OpsOfCopies(s: Byte, n: nat)
    requires n > 0 ==> IsShape(s)
    ensures AllSizeOps(Copies(ShapeSize(s), n)) == Repeat(Unit(s), n)
    decreases n
  {
    hide SizeOps, Unit, ShapeSize;
    if n > 0 {
      var z := ShapeSize(s);
      UnitOfShape(s);
      OpsOfCopies(s, n - 1);
      assert Copies(z, n)[0] == z && Copies(z, n)[1..] == Copies(z, n - 1);
    }
  }

  lemma {:induction false} CarriedExecutes(ps: seq<Pair>, s: Byte, n: nat)
    requires ArePairs(ps) && (n > 0 ==> IsShape(s))
    ensures AllSizeOps(Carried(ps, s, n)) == Executed(ps, s, n)
    decreases |ps|
  {
    hide SizeOps, Unit, AllSizeOps, Repeat, PairOps, Performed;
    NotPerformed(n);
    OpsOfCopies(s, Performed(n));
    if |ps| > 0 {
      var p, rest := ps[0], ps[1..];
      var open := Copies(ShapeSize(s), Performed(n));
      if Shape(p) == 0 {
        CarriedExecutes(rest, 0, 0);
        OpsOfPair(p);
        OpsOfConcat([SizeOf(p)], Carried(rest, 0, 0));
        OpsOfConcat(open, [SizeOf(p)] + Carried(rest, 0, 0));
      } else if Shape(p) == s {
        CarriedExecutes(rest, s, n + 1);
      } else {
        CarriedExecutes(rest, Shape(p), 1);
        OpsOfConcat(open, Carried(rest, Shape(p), 1));
      }
    }
  }

  lemma {:induction false} NotPerformed(n: nat)
    ensures Performed(n) > 0 ==> n > 0
  {
  }

  lemma {:induction false} OpsOfPair(p: Pair)
    requires IsPair(p)
    ensures Proper(SizeOf(p)) && AllSizeOps([SizeOf(p)]) == PairOps(p)
  {
    OpsOfOne(SizeOf(p));
  }

  // ------------------------------------------------------ the code of any list

  function Sizes(fs: seq<SubFilter>): (zs: seq<Size>)
    requires Compilable(fs)
    ensures AllProper(zs)
  {
    Carried(Pairs(fs), 0, 0)
  }

  lemma {:induction false} SlotsAreUse(sts: seq<Stage>)
    requires AllValid(sts)
    ensures SlotUse(AllOps(sts)) == AllSlots(sts)
    decreases |sts|
  {
    if |sts| > 0 {
      var st := sts[0];
      assert Valid(st);
      StageUse(Slots(st), st.a, st.b);
      SlotsAreUse(sts[1..]);
      UseConcat(StageOps(st), AllOps(sts[1..]));
    }
  }

  /** There are coefficients for all stages carried out, and one more for the gain. */
  lemma {:induction false} CodeFits(fs: seq<SubFilter>)
    requires Compilable(fs)
    ensures AllNeed(Sizes(fs)) + |GainOps(fs)| <= |Compiled(fs).coef|
    ensures SlotUse(AllSizeOps(Sizes(fs))) <= Compiled(fs).bufSize
    ensures Safe(Compiled(fs)) && Ops(Compiled(fs).cmd) == AllSizeOps(Sizes(fs)) + GainOps(fs)
    ensures AllNeed(Sizes(fs)) == |AllCoefs(Lowers(Pairs(fs)))| <==> Fitting(fs)
  {
    hide Executed, AllSizeOps, AllNeed, Ops, EmitAll, Pairs, Carried;
    var ps := Pairs(fs);
    CompiledOps(fs);
    CompiledStaysInStep(fs);
    CarriedExecutes(ps, 0, 0);
    AllNeedIsUse(Sizes(fs));
    InStepIffRunsFit(ps, 0, 0);
    PairOpsAreStageOps(ps);
  }

  /** The stages that the code of a list carries out, and its final gain. */
  function CodeStages(fs: seq<SubFilter>): (sts: seq<Stage>)
    requires Compilable(fs)
    ensures AllValid(sts)
  {
    CodeFits(fs);
    Cut(Sizes(fs), Compiled(fs).coef)
  }

  function CodeGain(fs: seq<SubFilter>): real
    requires Compilable(fs)
  {
    CodeFits(fs);
    if Gain(fs) == 1.0 then 1.0 else Compiled(fs).coef[AllNeed(Sizes(fs))]
  }

  /** The output stream of the code. */
  function CodeOutput(fs: seq<SubFilter>, xs: seq<real>): (ys: seq<real>)
    requires Compilable(fs)
    ensures |ys| == |xs|
  {
    Scale(CodeGain(fs), Chain(CodeStages(fs), xs))
  }

  // ------------------------------------------------------ simulation

  /** The segments of the stages that are carried out, then slots that stay zero. */
  ghost predicate Holds(buf: seq<real>, sts: seq<Stage>, xs: seq<real>)
    requires AllValid(sts)
  {
    AllSlots(sts) <= |buf| && buf == Segments(sts, xs) + seq(|buf| - AllSlots(sts), _ => 0.0)
  }

  /** What is ahead of the segments at the start of a step: the unused slots, and the last
      slot once more. */
  lemma {:induction false} Ahead(buf: seq<real>, sts: seq<Stage>, xs: seq<real>) returns (more: seq<real>)
    requires AllValid(sts) && Holds(buf, sts, xs) && |buf| > 0
    ensures |more| == |buf| - AllSlots(sts) + 1 && buf + [buf[|buf| - 1]] == Segments(sts, xs) + more
    ensures more[1..] == seq(|buf| - AllSlots(sts), _ => 0.0)
  {
    var n := |buf| - AllSlots(sts);
    var zeros := seq(n, _ => 0.0);
    var last := buf[|buf| - 1];
    more := zeros + [last];
    Regroup(Segments(sts, xs), zeros, [last]);
    if n > 0 { assert last == zeros[n - 1]; }
    assert more[1..] == zeros;
  }

  lemma {:induction false} GainLast(amplify: bool, extra: seq<real>, m: Machine)
    requires m.coef == extra && (amplify ==> |extra| > 0)
    ensures var ops := if amplify then [Amplify] else [];
      Enough(ops, m) && RunOps(ops, m).iir == Times(m.iir, if amplify then extra[0] else 1.0)
      && RunOps(ops, m).out == m.out && RunOps(ops, m).rest == m.rest
  {
    if amplify {
      assert [Amplify][1..] == [] && CoefUse([]) == 0 && SlotUse([]) == 0;
    }
  }

  lemma {:induction false} StepOf(sts: seq<Stage>, amplify: bool, extra: seq<real>, buf: seq<real>, xs: seq<real>, m0: Machine)
    requires AllValid(sts) && Holds(buf, sts, xs) && |buf| > 0 && (amplify ==> |extra| > 0)
    requires m0.fir == 0.0 && m0.out == [] && m0.coef == AllCoefs(sts) + extra
    requires [m0.tmp] + m0.rest == buf + [buf[|buf| - 1]]
    ensures var ops := AllOps(sts) + (if amplify then [Amplify] else []); var ys := Chain(sts, xs + [m0.iir]);
      && Enough(ops, m0)
      && var m := RunOps(ops, m0);
        && Holds(m.out + m.rest, sts, xs + [m0.iir])
        && m.iir == Times(ys[|xs|], if amplify then extra[0] else 1.0)
  {
    hide Segments, RunOps, Chain, AllOps, AllCoefs, Times;
    var more := Ahead(buf, sts, xs);
    ChainRun(m0, sts, xs, extra, more);
    GainLast(amplify, extra, RunOps(AllOps(sts), m0));
    Joined(AllOps(sts), if amplify then [Amplify] else [], m0);
    var next := Segments(sts, xs + [m0.iir]);
    assert [] + next == next;
    assert |next + more[1..]| == |buf|;
  }

  lemma {:induction false} CodeParts(fs: seq<SubFilter>)
    requires Compilable(fs)
    ensures var run, sts, n := Compiled(fs), CodeStages(fs), AllNeed(Sizes(fs));
      && Safe(run) && Ops(run.cmd) == AllOps(sts) + GainOps(fs)
      && n + |GainOps(fs)| <= |run.coef| && run.coef == AllCoefs(sts) + run.coef[n..]
      && AllSlots(sts) <= BufferSize(run)
  {
    hide Sizes, AllNeed, Compiled, Safe, Ops, AllSizeOps, Cut, AllOps, AllCoefs, AllSlots, SlotUse, GainOps, Gain, Pairs, Lowers, Fitting;
    CodeFits(fs);
    CutReads(Sizes(fs), Compiled(fs).coef);
    SlotsAreUse(CodeStages(fs));
  }

  /** One step of the code of any list. */
  lemma {:induction false} AnyStep(fs: seq<SubFilter>, buf: seq<real>, xs: seq<real>, x: real)
    requires Compilable(fs) && Safe(Compiled(fs)) && |buf| == BufferSize(Compiled(fs)) && Holds(buf, CodeStages(fs), xs)
    ensures var m := After(Compiled(fs), buf, x);
      && Holds(m.out + m.rest, CodeStages(fs), xs + [x])
      && m.iir == Times(Chain(CodeStages(fs), xs + [x])[|xs|], CodeGain(fs))
  {
    hide Compiled, Segments, RunOps, Chain, AllOps, AllCoefs, Ops, Sizes, AllNeed, AllSlots, Start, Safe, Times, CodeStages, Holds, Gain;
    CodeParts(fs);
    var run, n := Compiled(fs), AllNeed(Sizes(fs));
    StartFacts(run.coef, buf, x);
    StepOf(CodeStages(fs), Gain(fs) != 1.0, run.coef[n..], buf, xs, Start(run.coef, buf, x));
  }

  /** The code of any list computes the stages it carries out. */
  lemma {:induction false} AnyCodeSimulates(fs: seq<SubFilter>, xs: seq<real>)
    requires Compilable(fs)
    ensures Safe(Compiled(fs)) && Holds(Memory(Compiled(fs), xs), CodeStages(fs), xs)
    ensures |xs| > 0 ==> Response(Compiled(fs), xs) == Times(Chain(CodeStages(fs), xs)[|xs| - 1], CodeGain(fs))
    decreases |xs|
  {
    hide *;
    CodeParts(fs);
    if |xs| > 0 {
      var past, x := xs[..|xs| - 1], xs[|xs| - 1];
      AnyCodeSimulates(fs, past);
      MemoryStep(Compiled(fs), past, x);
      AnyStep(fs, Memory(Compiled(fs), past), past, x);
      assert past + [x] == xs;
    } else {
      assert xs == [];
      AnyStart(fs);
    }
  }

  lemma {:induction false} AnyStart(fs: seq<SubFilter>)
    requires Compilable(fs) && Safe(Compiled(fs)) && AllSlots(CodeStages(fs)) <= BufferSize(Compiled(fs))
    ensures Holds(Memory(Compiled(fs), []), CodeStages(fs), [])
  {
    hide Compiled, CodeStages, Segments, After, Safe, AllSlots;
    ZeroSegments(CodeStages(fs));
  }

  /** For every list and every input stream: the code's outputs are those of the stages it
      carries out. */
  lemma {:induction false} AnyCodeComputes(fs: seq<SubFilter>, xs: seq<real>)
    requires Compilable(fs)
    ensures Safe(Compiled(fs)) && Holds(Memory(Compiled(fs), xs), CodeStages(fs), xs)
    ensures |xs| > 0 ==> Response(Compiled(fs), xs) == CodeOutput(fs, xs)[|xs| - 1]
  {
    hide Compiled, CodeStages, CodeGain, Segments, Chain, Safe, Memory, Response, Holds;
    AnyCodeSimulates(fs, xs);
  }

  // ------------------------------------------------------ when that is right

  /** Equal up to zeros at the end. */
  ghost predicate SamePolynomial(p: seq<real>, q: seq<real>) {
    forall n :: At(p, n) == At(q, n)
  }

  lemma {:induction false} ProductHead(a: seq<real>, b: seq<real>)
    requires |a| > 0 && |b| > 0 && a[0] != 0.0 && b[0] != 0.0
    ensures Product(a, b)[0] != 0.0
  {
    FirHead(a, b, 0);
    FirBeforeStart(a[1..], b);
    NonZeroProduct(a[0], b[0]);
  }

  /** What both denominators make of a quotient. */
  lemma {:induction false} Cleared(b: seq<real>, d: seq<real>, e: seq<real>, x: seq<real>, n: nat)
    requires |b| > 0 && |d| > 0 && |e| > 0 && d[0] != 0.0 && n < |x|
    ensures FirAt(e, Fir(d, Iir(d, Fir(b, x))), n) == FirAt(Product(b, e), x, n)
  {
    var u := Fir(b, x);
    var y := Iir(d, u);
    forall m | 0 <= m < |x| ensures Fir(d, y)[m] == u[m] { IirSolves(d, u, m); }
    assert Fir(d, y) == u;
    FirExchange(e, b, x, n);
    FirProduct(b, e, x, n);
  }

  lemma {:induction false} SameFilter(p: seq<real>, q: seq<real>, x: seq<real>, n: int)
    requires SamePolynomial(p, q)
    ensures FirAt(p, x, n) == FirAt(q, x, n)
  {
    CoefficientsLinear(p, 1.0, q, [], 0, x, n);
  }

  lemma {:induction false} QuotientsAgree(b: seq<real>, d: seq<real>, c: seq<real>, e: seq<real>, x: seq<real>)
    requires |b| > 0 && |d| > 0 && |c| > 0 && |e| > 0 && d[0] != 0.0 && e[0] != 0.0
    requires SamePolynomial(Product(b, e), Product(c, d))
    ensures Iir(d, Fir(b, x)) == Iir(e, Fir(c, x))
  {
    hide SamePolynomial;
    var y, z := Iir(d, Fir(b, x)), Iir(e, Fir(c, x));
    var de := Product(d, e);
    var u := Fir(Product(b, e), x);
    ProductHead(d, e);
    forall n | 0 <= n < |x| ensures FirAt(de, y, n) == u[n] && FirAt(de, z, n) == u[n] {
      FirProduct(d, e, y, n);
      FirProduct(d, e, z, n);
      FirExchange(d, e, y, n);
      Cleared(b, d, e, x, n);
      Cleared(c, e, d, x, n);
      SameFilter(Product(b, e), Product(c, d), x, n);
    }
    IirUnique(de, u, y);
    IirUnique(de, u, z);
  }

  lemma {:induction false} QuotientsShow(b: seq<real>, d: seq<real>, c: seq<real>, e: seq<real>, m: nat)
    requires |b| > 0 && |d| > 0 && |c| > 0 && |e| > 0 && d[0] != 0.0 && e[0] != 0.0
    requires m >= |b| + |e| && m >= |c| + |d|
    requires Iir(d, Fir(b, Impulse(m))) == Iir(e, Fir(c, Impulse(m)))
    ensures SamePolynomial(Product(b, e), Product(c, d))
  {
    var x := Impulse(m);
    var y := Iir(d, Fir(b, x));
    var p, q := Product(b, e), Product(c, d);
    forall n ensures At(p, n) == At(q, n) {
      if 0 <= n < m {
        FirExchange(d, e, y, n);
        Cleared(b, d, e, x, n);
        Cleared(c, e, d, x, n);
        ImpulseThrough(p, m, n);
        ImpulseThrough(q, m, n);
      }
    }
  }

  lemma {:induction false} ScaledQuotient(g: real, b: seq<real>, d: seq<real>, x: seq<real>)
    requires |d| > 0 && d[0] != 0.0
    ensures Scale(g, Iir(d, Fir(b, x))) == Iir(d, Fir(Scale(g, b), x))
  {
    var u := Fir(b, x);
    forall n | 0 <= n < |x| ensures Fir(Scale(g, b), x)[n] == Scale(g, u)[n] { CoefficientsScaled(g, b, x, n); }
    assert Fir(Scale(g, b), x) == Scale(g, u);
    GainPassesIir(d, g, u);
  }

  /** Numerator and denominator that a list asks for, and those of its code. */
  function Top(fs: seq<SubFilter>): seq<real>
    requires Compilable(fs)
  {
    Scale(Gain(fs), Num(fs))
  }

  function CodeTop(fs: seq<SubFilter>): seq<real>
    requires Compilable(fs)
  {
    Scale(CodeGain(fs), Numerator(AsFilters(CodeStages(fs))))
  }

  function CodeBottom(fs: seq<SubFilter>): seq<real>
    requires Compilable(fs)
  {
    Denominator(AsFilters(CodeStages(fs)))
  }

  lemma {:induction false} BothQuotients(fs: seq<SubFilter>, x: seq<real>)
    requires Compilable(fs)
    ensures |Top(fs)| > 0 && |CodeTop(fs)| > 0 && |TrueDen(fs)| > 0 && |CodeBottom(fs)| > 0
    ensures TrueDen(fs)[0] != 0.0 && CodeBottom(fs)[0] != 0.0
    ensures Cascade(fs, x) == Iir(TrueDen(fs), Fir(Top(fs), x))
    ensures CodeOutput(fs, x) == Iir(CodeBottom(fs), Fir(CodeTop(fs), x))
  {
    hide CodeStages, CodeGain, Gain, Chain, Pairs;
    var cs := CodeStages(fs);
    StreamsAsQuotients(fs, x);
    ScaledQuotient(Gain(fs), Num(fs), TrueDen(fs), x);
    ChainIsCascade(cs, x);
    CascadeIsQuotient(AsFilters(cs), x);
    ScaledQuotient(CodeGain(fs), Numerator(AsFilters(cs)), CodeBottom(fs), x);
  }

  /** The transfer functions are equal, cross-multiplied.  This can be computed from the list. */
  ghost predicate SameTransfer(fs: seq<SubFilter>)
    requires Compilable(fs)
  {
    BothQuotients(fs, []);
    SamePolynomial(Product(CodeTop(fs), TrueDen(fs)), Product(Top(fs), CodeBottom(fs)))
  }

  lemma {:induction false} StreamsRightIff(fs: seq<SubFilter>)
    requires Compilable(fs)
    ensures SameTransfer(fs) <==> forall x :: CodeOutput(fs, x) == Cascade(fs, x)
  {
    hide CodeOutput, Cascade, CodeTop, Top, CodeBottom, TrueDen, SamePolynomial, Product, Iir, Fir;
    BothQuotients(fs, []);
    var b, d, c, e := CodeTop(fs), CodeBottom(fs), Top(fs), TrueDen(fs);
    if SameTransfer(fs) {
      forall x ensures CodeOutput(fs, x) == Cascade(fs, x) {
        BothQuotients(fs, x);
        QuotientsAgree(b, d, c, e, x);
      }
    }
    if forall x :: CodeOutput(fs, x) == Cascade(fs, x) {
      var m := |b| + |d| + |c| + |e|;
      BothQuotients(fs, Impulse(m));
      assert CodeOutput(fs, Impulse(m)) == Cascade(fs, Impulse(m));
      QuotientsShow(b, d, c, e, m);
    }
  }

  lemma {:induction false} CodeOutputCausal(fs: seq<SubFilter>, x: seq<real>, k: nat)
    requires Compilable(fs) && k <= |x|
    ensures CodeOutput(fs, x[..k]) == CodeOutput(fs, x)[..k]
  {
    hide CodeStages, CodeGain;
    var l := CodeStages(fs);
    ChainIsCascade(l, x);
    ChainIsCascade(l, x[..k]);
    CascadeCausal(AsFilters(l), x, k);
    ScalePrefix(CodeGain(fs), Chain(l, x), k);
  }

  lemma {:induction false} AnySamplesMakeStreams(fs: seq<SubFilter>, x: seq<real>)
    requires Compilable(fs) && Safe(Compiled(fs))
    requires forall xs: seq<real> :: |xs| > 0 ==> RunsRight(fs, xs)
    ensures CodeOutput(fs, x) == Cascade(fs, x)
  {
    hide CodeOutput, Cascade, Compiled, Safe, Response;
    forall n | 0 <= n < |x| ensures CodeOutput(fs, x)[n] == Cascade(fs, x)[n] {
      var past := x[..n + 1];
      assert RunsRight(fs, past);
      AnyCodeComputes(fs, past);
      CodeOutputCausal(fs, x, n + 1);
      CascadeCausal(fs, x, n + 1);
    }
  }

  /** Compiler correctness for every list: the code gives the output of the plain cascade on
      every input stream if and only if its transfer function is the one asked for. */
  lemma {:induction false} AnyCompiledCorrectIff(fs: seq<SubFilter>)
    requires Compilable(fs)
    ensures Safe(Compiled(fs))
    ensures SameTransfer(fs) <==> forall xs: seq<real> :: |xs| > 0 ==> RunsRight(fs, xs)
  {
    hide CodeOutput, Cascade, Compiled, Safe, Response, SameTransfer;
    CompiledStaysInStep(fs);
    StreamsRightIff(fs);
    if SameTransfer(fs) {
      forall xs: seq<real> | |xs| > 0 ensures RunsRight(fs, xs) { AnyCodeComputes(fs, xs); }
    }
    if forall xs: seq<real> :: |xs| > 0 ==> RunsRight(fs, xs) {
      forall x ensures CodeOutput(fs, x) == Cascade(fs, x) { AnySamplesMakeStreams(fs, x); }
    }
  }

  /** For runs that fit their counts the condition is the simpler one. */
  lemma {:induction false} FittingSameTransferIff(fs: seq<SubFilter>)
    requires Compilable(fs) && Fitting(fs)
    ensures SameTransfer(fs) <==> Harmless(fs)
  {
    hide SameTransfer, Harmless, RunsRight, Compiled, Fitting;
    AnyCompiledCorrectIff(fs);
    CompiledCorrectIff(fs);
  }
}
