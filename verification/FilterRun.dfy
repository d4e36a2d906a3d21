/** Running compiled filters: what the code computes for every input stream, and when that
    is what the filter list means. */
module FilterRun {
  import opened Signals
  import opened Filters
  import opened Commands
  import opened Stages
  import opened Pairing
  import opened Emission
  import opened Compiler
  import opened Interpreter

  /** The buffer of a run has at least one slot. */
  function BufferSize(run: Run): nat {
    if run.bufSize == 0 then 1 else run.bufSize
  }

  /** Code that stays inside its coefficients and its buffer. */
  predicate Safe(run: Run) {
    Terminated(run.cmd) && CoefUse(Ops(run.cmd)) <= |run.coef| && SlotUse(Ops(run.cmd)) <= BufferSize(run)
  }

  /** The machine after one sample. */
  function After(run: Run, buf: seq<real>, x: real): (m: Machine)
    requires Safe(run) && |buf| == BufferSize(run)
    ensures |m.out + m.rest| == BufferSize(run)
  {
    RunOps(Ops(run.cmd), Start(run.coef, buf, x))
  }

  /** The buffer after the inputs xs, from a zeroed one. */
  function Memory(run: Run, xs: seq<real>): (buf: seq<real>)
    requires Safe(run)
    ensures |buf| == BufferSize(run)
  {
    if |xs| == 0 then seq(BufferSize(run), _ => 0.0)
    else
      var m := After(run, Memory(run, xs[..|xs| - 1]), xs[|xs| - 1]);
      m.out + m.rest
  }

  /** The output for the last of the inputs xs. */
  function Response(run: Run, xs: seq<real>): real
    requires Safe(run) && |xs| > 0
  {
    After(run, Memory(run, xs[..|xs| - 1]), xs[|xs| - 1]).iir
  }

  /** A buffer for one stream through a compiled filter. */
  class RunBuf {
    const run: Run
    const buf: array<real>
    ghost var inputs: seq<real>

    ghost predicate Valid()
      reads this, buf
    {
      Safe(run) && buf[..] == Memory(run, inputs)
    }

    /** A zeroed buffer. */
    constructor (run: Run)
      requires Safe(run)
      ensures Valid() && this.run == run && inputs == [] && fresh(buf)
    {
      this.run := run;
      buf := new real[if run.bufSize == 0 then 1 else run.bufSize](_ => 0.0);
      inputs := [];
      new;
      assert buf[..] == seq(BufferSize(run), _ => 0.0);
    }

    /** Runs one sample. */
    method Step(x: real) returns (y: real)
      requires Valid()
      modifies this, buf
      ensures Valid() && inputs == old(inputs) + [x]
      ensures y == Response(run, inputs)
    {
      ghost var before := inputs;
      y := FilterStep(run.coef, run.cmd, buf, x);
      inputs := inputs + [x];
      assert inputs[..|inputs| - 1] == before;
    }

    /** Starts afresh. */
    method Zap()
      requires Valid()
      modifies this, buf
      ensures Valid() && inputs == []
    {
      forall i | 0 <= i < buf.Length {
        buf[i] := 0.0;
      }
      inputs := [];
      assert buf[..] == seq(BufferSize(run), _ => 0.0);
    }
  }

  // ------------------------------------------------------ the code of a compiled list

  predicate Fitting(fs: seq<SubFilter>)
    requires Compilable(fs)
  {
    RunsFit(Pairs(fs), 0, 0)
  }

  function GainOps(fs: seq<SubFilter>): seq<Op>
    requires Runnable(fs)
  {
    if Gain(fs) != 1.0 then [Amplify] else []
  }

  lemma {:induction false} CompiledOps(fs: seq<SubFilter>)
    requires Compilable(fs)
    ensures Terminated(Compiled(fs).cmd)
    ensures Ops(Compiled(fs).cmd) == Executed(Pairs(fs), 0, 0) + GainOps(fs)
  {
    hide Executed, EmitAll, Ops, Closed, Pairs, Unit;
    var ps := Pairs(fs);
    var code := EmitAll(Code([], 0), ps).cmd;
    var tail: seq<Byte> := if Gain(fs) != 1.0 then [22] else [];
    NoCode();
    NothingOpen(Code([], 0));
    EmitMeaning(Code([], 0), [], 0, 0, ps);
    OneCommand(22);
    OpsConcat(code, tail);
    OpsConcat(code + tail, [0]);
    assert Compiled(fs).cmd == code + tail + [0];
    assert Compiled(fs).cmd[..|code + tail|] == code + tail;
    GainCode();
    assert [] + Executed(ps, 0, 0) == Executed(ps, 0, 0);
    assert Executed(ps, 0, 0) + GainOps(fs) + [] == Executed(ps, 0, 0) + GainOps(fs);
  }

  lemma {:induction false} GainCode()
    ensures Ops([0]) == [] && Unit(22) == [Amplify]
  {
  }

  lemma {:induction false} PairOpsAreStageOps(ps: seq<Pair>)
    requires ArePairs(ps)
    ensures AllPairOps(ps) == AllOps(Lowers(ps))
    ensures CoefUse(AllPairOps(ps)) == |AllCoefs(Lowers(ps))| && SlotUse(AllPairOps(ps)) == AllSlots(Lowers(ps))
    decreases |ps|
  {
    if |ps| > 0 {
      var st := Lower(ps[0]);
      PairOpsAreStageOps(ps[1..]);
      assert ps == [ps[0]] + ps[1..];
      LowersHead(ps[0], ps[1..]);
      assert Lowers(ps)[1..] == Lowers(ps[1..]);
      UseConcat(PairOps(ps[0]), AllPairOps(ps[1..]));
      StageUse(Slots(st), st.a, st.b);
    }
  }

  /** Compiled code never leaves its arrays, and reads exactly the coefficients emitted for
      it if and only if no run of equal three-tap pairs is longer than 255. */
  lemma {:induction false} CompiledStaysInStep(fs: seq<SubFilter>)
    requires Compilable(fs)
    ensures Safe(Compiled(fs))
    ensures CoefUse(Ops(Compiled(fs).cmd)) == |Compiled(fs).coef| <==> Fitting(fs)
  {
    var ps := Pairs(fs);
    CompiledOps(fs);
    PairOpsAreStageOps(ps);
    InStepIffRunsFit(ps, 0, 0);
    UseConcat(Executed(ps, 0, 0), GainOps(fs));
    assert CoefUse(GainOps(fs)) == |GainOps(fs)| && SlotUse(GainOps(fs)) == 0;
  }

  // ------------------------------------------------------ what the code computes

  /** The output stream of the compiled stages. */
  function StageOutput(fs: seq<SubFilter>, xs: seq<real>): (ys: seq<real>)
    requires Compilable(fs)
    ensures |ys| == |xs|
  {
    Scale(Gain(fs), Chain(Lowers(Pairs(fs)), xs))
  }

  /** The shared buffer always holds, stage after stage, the last intermediate values of
      that stage; an empty buffer keeps one zero. */
  ghost predicate HoldsSegments(buf: seq<real>, sts: seq<Stage>, xs: seq<real>)
    requires AllValid(sts)
  {
    buf == if AllSlots(sts) == 0 then [0.0] else Segments(sts, xs)
  }

  lemma {:induction false} ZeroSegments(sts: seq<Stage>)
    requires AllValid(sts)
    ensures Segments(sts, []) == seq(AllSlots(sts), _ => 0.0)
    decreases |sts|
  {
    if |sts| > 0 {
      assert Output(sts[0], []) == [];
      ZeroSegments(sts[1..]);
    }
  }

  lemma {:induction false} NoSlotsNoStages(sts: seq<Stage>)
    requires AllValid(sts)
    ensures AllSlots(sts) == 0 <==> |sts| == 0
  {
    if |sts| > 0 { assert Slots(sts[0]) > 0; }
  }

  /** One step of compiled code: the next output, and every segment brought up to date. */
  lemma {:induction false} StepComputes(fs: seq<SubFilter>, buf: seq<real>, xs: seq<real>, x: real)
    requires Compilable(fs) && Fitting(fs)
    requires HoldsSegments(buf, Lowers(Pairs(fs)), xs)
    ensures Safe(Compiled(fs)) && |buf| == BufferSize(Compiled(fs))
    ensures var m := After(Compiled(fs), buf, x);
      && HoldsSegments(m.out + m.rest, Lowers(Pairs(fs)), xs + [x])
      && m.iir == Times(Gain(fs), Chain(Lowers(Pairs(fs)), xs + [x])[|xs|])
  {
    var run, g := Compiled(fs), Gain(fs);
    var sts := Lowers(Pairs(fs));
    hide Compiled, Segments, RunOps, Chain, AllOps, AllCoefs, Ops, Fitting, RunsFit, Pairs, Lowers, Gain, AllSlots, Start, Safe, Times;
    CompiledStaysInStep(fs);
    CompiledShape(fs);
    NoSlotsNoStages(sts);
    var m0 := Start(run.coef, buf, x);
    StartFacts(run.coef, buf, x);
    StepOfStages(sts, g, buf, xs, m0);
  }

  lemma {:induction false} StartFacts(coef: seq<real>, buf: seq<real>, x: real)
    requires |buf| > 0
    ensures var m := Start(coef, buf, x);
      && m.iir == x && m.fir == 0.0 && m.coef == coef && m.out == []
      && [m.tmp] + m.rest == buf + [buf[|buf| - 1]]
  {
  }

  /** The same for any chain of stages followed by a gain. */
  lemma {:induction false} StepOfStages(sts: seq<Stage>, g: real, buf: seq<real>, xs: seq<real>, m0: Machine)
    requires AllValid(sts) && HoldsSegments(buf, sts, xs) && |buf| > 0
    requires m0.fir == 0.0 && m0.out == [] && m0.coef == AllCoefs(sts) + (if g != 1.0 then [g] else [])
    requires [m0.tmp] + m0.rest == buf + [buf[|buf| - 1]]
    ensures var ops := AllOps(sts) + (if g != 1.0 then [Amplify] else []); var ys := Chain(sts, xs + [m0.iir]);
      && Enough(ops, m0)
      && var m := RunOps(ops, m0);
        && HoldsSegments(m.out + m.rest, sts, xs + [m0.iir])
        && ys == Chain(sts, xs) + [ys[|xs|]] && m.iir == Times(g, ys[|xs|])
  {
    hide Segments, RunOps, Chain, AllOps, AllCoefs, Times;
    NoSlotsNoStages(sts);
    var gcoef := if g != 1.0 then [g] else [];
    var more := if |sts| == 0 then [0.0, 0.0] else [buf[|buf| - 1]];
    StartShape(sts, xs, m0, buf, more);
    ChainRun(m0, sts, xs, gcoef, more);
    GainStep(g, RunOps(AllOps(sts), m0));
    Joined(AllOps(sts), if g != 1.0 then [Amplify] else [], m0);
    EndShape(sts, xs + [m0.iir], m0, more);
  }

  lemma {:induction false} CompiledShape(fs: seq<SubFilter>)
    requires Compilable(fs) && Fitting(fs)
    ensures var sts := Lowers(Pairs(fs));
      && Compiled(fs).coef == AllCoefs(sts) + (if Gain(fs) != 1.0 then [Gain(fs)] else [])
      && Compiled(fs).bufSize == AllSlots(sts)
      && Ops(Compiled(fs).cmd) == AllOps(sts) + GainOps(fs)
  {
    CompiledOps(fs);
    FittingRunsExecute(Pairs(fs), 0, 0);
    PairOpsAreStageOps(Pairs(fs));
    assert Repeat(Unit(0), 0) + AllPairOps(Pairs(fs)) == AllPairOps(Pairs(fs));
  }

  lemma {:induction false} StartShape(sts: seq<Stage>, xs: seq<real>, m: Machine, buf: seq<real>, more: seq<real>)
    requires AllValid(sts) && HoldsSegments(buf, sts, xs) && |buf| > 0
    requires [m.tmp] + m.rest == buf + [buf[|buf| - 1]]
    requires more == if |sts| == 0 then [0.0, 0.0] else [buf[|buf| - 1]]
    ensures [m.tmp] + m.rest == Segments(sts, xs) + more
  {
    NoSlotsNoStages(sts);
  }

  lemma {:induction false} EndShape(sts: seq<Stage>, xs: seq<real>, m: Machine, more: seq<real>)
    requires AllValid(sts) && m.out == []
    requires if |sts| == 0 then more == [0.0, 0.0] else |more| == 1
    ensures HoldsSegments(m.out + Segments(sts, xs) + more[1..], sts, xs)
  {
    NoSlotsNoStages(sts);
    assert m.out + Segments(sts, xs) == Segments(sts, xs);
    if |sts| == 0 {
      assert Segments(sts, xs) + more[1..] == [0.0];
    } else {
      assert more[1..] == [] && Segments(sts, xs) + [] == Segments(sts, xs);
    }
  }

  lemma {:induction false} GainStep(g: real, m: Machine)
    requires m.coef == if g != 1.0 then [g] else []
    ensures var ops := if g != 1.0 then [Amplify] else [];
      Enough(ops, m) && RunOps(ops, m) == m.(iir := Times(g, m.iir), coef := [])
  {
    if g != 1.0 {
      assert [Amplify][1..] == [] && CoefUse([]) == 0 && SlotUse([]) == 0;
    }
  }

  /** The code simulates the stages: buffer and output after every input stream. */
  lemma {:induction false} CodeSimulates(fs: seq<SubFilter>, xs: seq<real>)
    requires Compilable(fs) && Fitting(fs)
    ensures Safe(Compiled(fs))
    ensures HoldsSegments(Memory(Compiled(fs), xs), Lowers(Pairs(fs)), xs)
    ensures |xs| > 0 ==> Response(Compiled(fs), xs) == Times(Gain(fs), Chain(Lowers(Pairs(fs)), xs)[|xs| - 1])
    decreases |xs|
  {
    hide *;
    SimulationStarts(fs);
    if |xs| > 0 {
      var past, x := xs[..|xs| - 1], xs[|xs| - 1];
      CodeSimulates(fs, past);
      MemoryStep(Compiled(fs), past, x);
      StepComputes(fs, Memory(Compiled(fs), past), past, x);
      assert past + [x] == xs;
    } else {
      assert xs == [];
    }
  }

  lemma {:induction false} MemoryStep(run: Run, past: seq<real>, x: real)
    requires Safe(run)
    ensures |Memory(run, past)| == BufferSize(run)
    ensures var m := After(run, Memory(run, past), x); Memory(run, past + [x]) == m.out + m.rest && Response(run, past + [x]) == m.iir
  {
    hide After, Safe;
    assert (past + [x])[..|past|] == past;
  }

  lemma {:induction false} SimulationStarts(fs: seq<SubFilter>)
    requires Compilable(fs) && Fitting(fs)
    ensures Safe(Compiled(fs)) && AllValid(Lowers(Pairs(fs)))
    ensures HoldsSegments(Memory(Compiled(fs), []), Lowers(Pairs(fs)), [])
  {
    hide Compiled, Lowers, Pairs, Segments, After, Chain, Safe, Fitting, Times, Gain;
    CompiledStaysInStep(fs);
    CompiledShape(fs);
    ZeroSegments(Lowers(Pairs(fs)));
    assert seq(1, _ => 0.0) == [0.0];
  }

  /** For every input stream the code's outputs are those of the compiled stages, and the
      shared buffer holds every stage's own last intermediate values. */
  lemma {:induction false} CodeComputes(fs: seq<SubFilter>, xs: seq<real>)
    requires Compilable(fs) && Fitting(fs)
    ensures Safe(Compiled(fs))
    ensures HoldsSegments(Memory(Compiled(fs), xs), Lowers(Pairs(fs)), xs)
    ensures |xs| > 0 ==> Response(Compiled(fs), xs) == StageOutput(fs, xs)[|xs| - 1]
  {
    hide Compiled, Lowers, Pairs, Segments, Chain, Safe, Fitting, Gain, Memory, Response;
    CodeSimulates(fs, xs);
  }
}
