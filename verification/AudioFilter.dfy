/** The audio filter: one compiled filter run over the samples of an audio pipe. */
module FilterPipe {
  import opened Signals
  import opened Filters
  import opened Pairing
  import opened Compiler
  import opened FilterRun
  import opened Correctness
  import opened LongRuns

  /** What a compiled filter and an output gain make of a stream. */
  function Filtered(run: Run, gain: real, xs: seq<real>): (ys: seq<real>)
    requires Safe(run)
    ensures |ys| == |xs|
  {
    seq(|xs|, i requires 0 <= i < |xs| => Times(gain, Response(run, xs[..i + 1])))
  }

  lemma {:induction false} FilteredGrows(run: Run, gain: real, xs: seq<real>, x: real)
    requires Safe(run)
    ensures Filtered(run, gain, xs + [x]) == Filtered(run, gain, xs) + [Times(gain, Response(run, xs + [x]))]
  {
    hide Safe, Response, Times;
    var y, z := Filtered(run, gain, xs), Filtered(run, gain, xs + [x]);
    forall i | 0 <= i < |xs| ensures z[i] == y[i] {
      assert (xs + [x])[..i + 1] == xs[..i + 1];
    }
    assert (xs + [x])[..|xs| + 1] == xs + [x];
  }

  class AudioFilter {
    const run: RunBuf
    const gain: real

    ghost predicate Valid()
      reads run, run.buf
    {
      run.Valid()
    }

    constructor (run: Run, gain: real)
      requires Safe(run)
      ensures Valid() && this.run.run == run && this.gain == gain && this.run.inputs == []
      ensures fresh(this.run) && fresh(this.run.buf)
    {
      this.run := new RunBuf(run);
      this.gain := gain;
    }

    method ProcessSamples(dest: array<real>, at: nat, src: seq<real>)
      requires Valid() && at + |src| <= dest.Length && dest != run.buf
      modifies run, run.buf, dest
      ensures Valid() && run.inputs == old(run.inputs) + src
      ensures forall k :: 0 <= k < at || at + |src| <= k < dest.Length ==> dest[k] == old(dest[k])
      ensures Filtered(run.run, gain, run.inputs) == Filtered(run.run, gain, old(run.inputs)) + dest[at..at + |src|]
    {
      hide Safe, Response, Memory, Filtered;
      ghost var was := run.inputs;
      assert was + [] == was && src[..0] == [];
      var i := 0;
      while i < |src|
        invariant 0 <= i <= |src| && Valid() && run.inputs == was + src[..i]
        invariant forall k :: 0 <= k < at || at + i <= k < dest.Length ==> dest[k] == old(dest[k])
        invariant Filtered(run.run, gain, run.inputs) == Filtered(run.run, gain, was) + dest[at..at + i]
      {
        ghost var done, prior := run.inputs, dest[at..at + i];
        var y := run.Step(src[i]);
        FilteredGrows(run.run, gain, done, src[i]);
        var v := gain * y;
        assert v == Times(gain, y);
        dest[at + i] := v;
        assert dest[at..at + (i + 1)] == prior + [v];
        assert src[..i + 1] == src[..i] + [src[i]];
        i := i + 1;
      }
      assert src[..i] == src;
    }
  }

  lemma {:induction false} CompiledIsSafe(fs: seq<SubFilter>)
    requires Compilable(fs)
    ensures Safe(Compiled(fs)) && Runnable(fs)
  {
    hide Fitting, Compiled, Safe;
    CompiledStaysInStep(fs);
  }

  /** For a list whose transfer function the compiler keeps, the pipe computes the plain cascade of the listed
      filters, times the output gain. */
  lemma {:induction false} FilteredIsCascade(fs: seq<SubFilter>, gain: real, xs: seq<real>)
    requires Compilable(fs) && SameTransfer(fs)
    ensures Safe(Compiled(fs))
    ensures Filtered(Compiled(fs), gain, xs) == Scale(gain, Cascade(fs, xs))
  {
    hide *;
    CompiledIsSafe(fs);
    var ys, zs := Filtered(Compiled(fs), gain, xs), Scale(gain, Cascade(fs, xs));
    forall i | 0 <= i < |xs| ensures ys[i] == zs[i] {
      OneOutput(fs, xs, i);
      FilteredAt(Compiled(fs), gain, xs, i);
    }
  }

  lemma {:induction false} FilteredAt(run: Run, gain: real, xs: seq<real>, i: nat)
    requires Safe(run) && i < |xs|
    ensures Filtered(run, gain, xs)[i] == gain * Response(run, xs[..i + 1])
  {
    hide Safe, Response;
  }

  lemma {:induction false} OneOutput(fs: seq<SubFilter>, xs: seq<real>, i: nat)
    requires Compilable(fs) && SameTransfer(fs) && i < |xs|
    ensures Safe(Compiled(fs)) && Response(Compiled(fs), xs[..i + 1]) == Cascade(fs, xs)[i]
  {
    hide SameTransfer, Compiled, Safe, Response, Cascade;
    AnyCompiledCorrectIff(fs);
    assert RunsRight(fs, xs[..i + 1]);
    CascadeCausal(fs, xs, i + 1);
  }
}
