/** One compiled stage: a recursive part with head 1 and a finite part that share a delay
    line, its code, and the proof that the code computes it. */
module Stages {
  import opened Signals
  import opened Commands

  /** Coefficients of a stage, the ones for the current sample first.  A part that is
      missing is the list [1.0]. */
  datatype Stage = Stage(a: seq<real>, b: seq<real>)

  predicate Valid(st: Stage) {
    |st.a| > 0 && st.a[0] == 1.0 && |st.b| > 0 && (|st.b| == 1 ==> st.b[0] == 1.0) && (|st.a| > 1 || |st.b| > 1)
  }

  predicate AllValid(sts: seq<Stage>) {
    forall i :: 0 <= i < |sts| ==> Valid(sts[i])
  }

  /** Buffer slots of a stage. */
  function Slots(st: Stage): nat
    requires Valid(st)
  {
    (if |st.a| > |st.b| then |st.a| else |st.b|) - 1
  }

  function Output(st: Stage, x: seq<real>): (y: seq<real>)
    requires Valid(st)
    ensures |y| == |x|
  {
    Fir(st.b, Iir(st.a, x))
  }

  /** Stages in series, from zero state. */
  function Chain(sts: seq<Stage>, x: seq<real>): (y: seq<real>)
    requires AllValid(sts)
    ensures |y| == |x|
    decreases |sts|
  {
    if |sts| == 0 then x else Chain(sts[1..], Output(sts[0], x))
  }

  // ------------------------------------------------------------------ code of a stage

  /** The macro that handles tap k of a stage with ni recursive and nf finite coefficients. */
  function OpAt(k: nat, ni: nat, nf: nat): Op {
    if k == 1 then (if nf < 2 then EndI else if ni < 2 then EndF else EndB)
    else (if k >= nf then TapI else if k >= ni then TapF else TapB)
  }

  /** Taps k down to 1: the oldest sample is handled first. */
  function TapsFrom(k: nat, ni: nat, nf: nat): seq<Op> {
    if k == 0 then [] else [OpAt(k, ni, nf)] + TapsFrom(k - 1, ni, nf)
  }

  /** The coefficients for taps k down to 0 in the order the code reads them. */
  function CoefsFrom(k: nat, a: seq<real>, b: seq<real>): seq<real> {
    if k == 0 then (if |b| > 1 then [b[0]] else [])
    else (if k < |a| then [a[k]] else []) + (if k < |b| then [b[k]] else []) + CoefsFrom(k - 1, a, b)
  }

  function StageOps(st: Stage): seq<Op>
    requires Valid(st)
  {
    TapsFrom(Slots(st), |st.a|, |st.b|)
  }

  function StageCoefs(st: Stage): seq<real>
    requires Valid(st)
  {
    CoefsFrom(Slots(st), st.a, st.b)
  }

  /** A stage's code uses as many coefficients as its list has, and one slot per tap. */
  lemma {:induction false} StageUse(k: nat, a: seq<real>, b: seq<real>)
    requires |a| > 0 && |b| > 0 && (k < |a| || k < |b|) && (|a| > 1 || |b| > 1)
    ensures SlotUse(TapsFrom(k, |a|, |b|)) == k
    ensures k > 0 ==> CoefUse(TapsFrom(k, |a|, |b|)) == |CoefsFrom(k, a, b)|
    decreases k
  {
    if k > 0 {
      assert TapsFrom(k, |a|, |b|)[1..] == TapsFrom(k - 1, |a|, |b|);
      StageUse(k - 1, a, b);
    }
  }

  // ------------------------------------------------------- simulation of one stage

  function Take(c: seq<real>, k: nat): seq<real> {
    if k <= |c| then c[..k] else c
  }

  /** The part of a tap sum that taps k and above contribute. */
  function Above(c: seq<real>, w: seq<real>, k: nat): real {
    FirAt(c, w, |w|) - FirAt(Take(c, k), w, |w|)
  }

  lemma {:induction false} AboveStep(c: seq<real>, w: seq<real>, k: nat, x: real)
    ensures Above(c, w, k) == if k < |c| then Acc(Above(c, w, k + 1), c[k], At(w, |w| - k)) else Above(c, w, k + 1)
    ensures k < |c| ==> Dec(x - Above(c, w, k + 1), c[k], At(w, |w| - k)) == x - Above(c, w, k)
  {
    if k < |c| {
      FirSnoc(c, k, w, |w|);
    } else {
      assert c[..|c|] == c;
    }
  }

  /** All of the sum comes from tap 1 and above, as sample |w| is not there yet. */
  lemma {:induction false} AboveOne(c: seq<real>, w: seq<real>)
    requires |c| > 0
    ensures Above(c, w, 1) == FirAt(c, w, |w|)
  {
    FirHead(c[..1], w, |w|);
  }

  lemma {:induction false} NothingAbove(c: seq<real>, w: seq<real>, k: nat)
    requires |c| <= k
    ensures Above(c, w, k) == 0.0
  {
    assert Take(c, k) == c;
  }

  /** The machine about to run taps k..1 of a stage whose delay line holds w: sums so far,
      oldest needed sample in tmp, the rest of the segment ahead, then more. */
  ghost predicate AtTap(m: Machine, k: nat, st: Stage, w: seq<real>, x: real, coefs: seq<real>, more: seq<real>)
    requires Valid(st)
  {
    && m.iir == x - Above(st.a, w, k + 1)
    && m.fir == Above(st.b, w, k + 1)
    && m.coef == CoefsFrom(k, st.a, st.b) + coefs
    && [m.tmp] + m.rest == LastOf(k, w) + more
  }

  /** The last k samples of w, oldest first, zero before its start. */
  function LastOf(k: nat, w: seq<real>): (s: seq<real>)
    ensures |s| == k
    ensures forall i :: 0 <= i < k ==> s[i] == At(w, |w| - k + i)
  {
    seq(k, i requires 0 <= i < k => At(w, |w| - k + i))
  }

  /** The oldest sample is in tmp; dropping it leaves the next tap's segment. */
  lemma {:induction false} SegmentStep(k: nat, w: seq<real>, tmp: real, rest: seq<real>, more: seq<real>)
    requires k > 1 && |more| > 0 && [tmp] + rest == LastOf(k, w) + more
    ensures |rest| > 0 && rest[0] == LastOf(k, w)[1] && tmp == At(w, |w| - k)
    ensures [rest[0]] + rest[1..] == LastOf(k - 1, w) + more
  {
    var seg := LastOf(k, w) + more;
    assert tmp == seg[0] && rest == seg[1..];
    assert LastOf(k, w)[1..] == LastOf(k - 1, w);
  }

  lemma {:induction false} TapStep(m: Machine, k: nat, st: Stage, w: seq<real>, x: real, coefs: seq<real>, more: seq<real>)
    requires Valid(st) && 1 < k <= Slots(st) && |more| > 0 && AtTap(m, k, st, w, x, coefs, more)
    ensures var op := OpAt(k, |st.a|, |st.b|);
      && Coefs(op) <= |m.coef| && |m.rest| > 0
      && AtTap(Micro(op, m), k - 1, st, w, x, coefs, more)
      && Micro(op, m).out == m.out + [LastOf(k, w)[1]]
  {
    hide FirAt, Above, Acc, Dec, LastOf, CoefsFrom;
    AboveStep(st.a, w, k, x);
    AboveStep(st.b, w, k, x);
    SegmentStep(k, w, m.tmp, m.rest, more);
    CoefsStep(k, st, coefs);
    var c := m.coef;
    if k >= |st.b| {
      assert Micro(TapI, m) == Machine(Dec(m.iir, c[0], m.tmp), m.fir, m.rest[0], c[1..], m.out + [m.rest[0]], m.rest[1..]);
    } else if k >= |st.a| {
      assert Micro(TapF, m) == Machine(m.iir, Acc(m.fir, c[0], m.tmp), m.rest[0], c[1..], m.out + [m.rest[0]], m.rest[1..]);
    } else {
      assert c[1..][1..] == c[2..];
      assert Micro(TapB, m)
          == Machine(Dec(m.iir, c[0], m.tmp), Acc(m.fir, c[1], m.tmp), m.rest[0], c[2..], m.out + [m.rest[0]], m.rest[1..]);
    }
  }

  /** What is left of the coefficient list after reading those of tap k. */
  lemma {:induction false} CoefsStep(k: nat, st: Stage, coefs: seq<real>)
    requires Valid(st) && 0 < k <= Slots(st)
    ensures var c := CoefsFrom(k, st.a, st.b) + coefs; var n := (if k < |st.a| then 1 else 0) + (if k < |st.b| then 1 else 0);
      && n <= |c| && c[n..] == CoefsFrom(k - 1, st.a, st.b) + coefs
      && (k < |st.a| ==> c[0] == st.a[k])
      && (k < |st.b| ==> c[n - 1] == st.b[k])
  {
  }

  lemma {:induction false} EndStep(m: Machine, st: Stage, w: seq<real>, x: real, coefs: seq<real>, more: seq<real>)
    requires Valid(st) && |more| > 0 && AtTap(m, 1, st, w, x, coefs, more)
    ensures var op := OpAt(1, |st.a|, |st.b|); var wn := x - FirAt(st.a, w, |w|);
      && Coefs(op) <= |m.coef| && |m.rest| > 0
      && Micro(op, m) == Machine(FirAt(st.b, w + [wn], |w|), 0.0, more[0], coefs, m.out + [wn], more[1..])
  {
    var wn := x - FirAt(st.a, w, |w|);
    AboveStep(st.a, w, 1, x);
    AboveStep(st.b, w, 1, x);
    AboveOne(st.a, w);
    AboveOne(st.b, w);
    assert m.tmp == (LastOf(1, w) + more)[0] == At(w, |w| - 1);
    assert m.rest == ([m.tmp] + m.rest)[1..] == more;
    CoefsStep(1, st, coefs);
    LastTap(st.b, w, wn);
    NoTaps(st.b, w);
    var c1 := if |st.a| > 1 then m.coef[1..] else m.coef;
    if |st.b| > 1 {
      assert c1[0] == st.b[1] && c1[1..] == [st.b[0]] + coefs;
    } else {
      assert c1 == coefs;
      assert Acc(0.0, 1.0, wn) == wn by { AccOne(wn); }
    }
  }

  lemma {:induction false} AccOne(x: real)
    ensures Acc(0.0, 1.0, x) == x
  {
  }

  lemma {:induction false} NoTaps(b: seq<real>, w: seq<real>)
    requires |b| > 0
    ensures |b| == 1 ==> FirAt(b, w, |w|) == 0.0
  {
    FirHead(b, w, |w|);
  }

  /** The current sample enters a sum through the first coefficient only. */
  lemma {:induction false} LastTap(b: seq<real>, w: seq<real>, wn: real)
    requires |b| > 0
    ensures FirAt(b, w + [wn], |w|) == Acc(FirAt(b, w, |w|), b[0], wn)
  {
    calc {
      FirAt(b, w + [wn], |w|);
      { FirHead(b, w + [wn], |w|); }
      b[0] * wn + FirAt(b[1..], w + [wn], |w| - 1);
      { FirPrefix(b[1..], w + [wn], w, |w| - 1); }
      b[0] * wn + FirAt(b[1..], w, |w| - 1);
      { FirHead(b, w, |w|); assert At(w, |w|) == 0.0; }
      FirAt(b, w, |w|) + b[0] * wn;
    }
  }

  /** Delay lines only grow at the new end. */
  lemma {:induction false} LastGrows(k: nat, w: seq<real>, wn: real)
    requires k > 0
    ensures LastOf(1, w + [wn]) == [wn]
    ensures k > 1 ==> LastOf(k, w + [wn]) == [LastOf(k, w)[1]] + LastOf(k - 1, w + [wn])
  {
  }

  /** Taps k..1 of a stage, in one go. */
  lemma {:induction false} TapsRun(m: Machine, k: nat, st: Stage, w: seq<real>, x: real, coefs: seq<real>, more: seq<real>)
    requires Valid(st) && 0 < k <= Slots(st) && |more| > 0 && AtTap(m, k, st, w, x, coefs, more)
    ensures var ops := TapsFrom(k, |st.a|, |st.b|); var wn := x - FirAt(st.a, w, |w|);
      Enough(ops, m) && RunOps(ops, m)
      == Machine(FirAt(st.b, w + [wn], |w|), 0.0, more[0], coefs, m.out + LastOf(k, w + [wn]), more[1..])
    decreases k
  {
    hide FirAt, Above, Micro;
    var wn := x - FirAt(st.a, w, |w|);
    var op, ops := OpAt(k, |st.a|, |st.b|), TapsFrom(k, |st.a|, |st.b|);
    assert ops[0] == op && ops[1..] == TapsFrom(k - 1, |st.a|, |st.b|);
    LastGrows(k, w, wn);
    if k == 1 {
      EndStep(m, st, w, x, coefs, more);
      assert ops[1..] == [] && CoefUse(ops[1..]) == 0 && SlotUse(ops[1..]) == 0;
    } else {
      TapStep(m, k, st, w, x, coefs, more);
      TapsRun(Micro(op, m), k - 1, st, w, x, coefs, more);
      Regroup(m.out, [LastOf(k, w)[1]], LastOf(k - 1, w + [wn]));
    }
  }

  lemma {:induction false} Regroup<T>(a: seq<T>, b: seq<T>, c: seq<T>)
    ensures (a + b) + c == a + (b + c)
  {
  }

  // ------------------------------------------------- simulation of a whole step

  /** The next intermediate value of a stage, and its next output. */
  function NextMid(st: Stage, xs: seq<real>, x: real): real
    requires Valid(st)
  {
    x - FirAt(st.a, Iir(st.a, xs), |xs|)
  }

  function NextOut(st: Stage, xs: seq<real>, x: real): real
    requires Valid(st)
  {
    FirAt(st.b, Iir(st.a, xs) + [NextMid(st, xs, x)], |xs|)
  }

  /** A stage extends its output by one sample when its input is. */
  lemma {:induction false} OutputStep(st: Stage, xs: seq<real>, x: real)
    requires Valid(st)
    ensures Iir(st.a, xs + [x]) == Iir(st.a, xs) + [NextMid(st, xs, x)]
    ensures Output(st, xs + [x]) == Output(st, xs) + [NextOut(st, xs, x)]
  {
    var z, w, n := xs + [x], Iir(st.a, xs), |xs|;
    var wn := NextMid(st, xs, x);
    assert z[..n] == xs && z[n] == x;
    IirGrows(st.a, z, n);
    assert Iir(st.a, z) == w + [wn];
    assert (w + [wn])[..n] == w;
    FirGrows(st.b, w + [wn], n);
  }

  lemma {:induction false} StageRun(m: Machine, st: Stage, xs: seq<real>, coefs: seq<real>, more: seq<real>)
    requires Valid(st) && |more| > 0 && m.fir == 0.0
    requires m.coef == StageCoefs(st) + coefs
    requires [m.tmp] + m.rest == LastOf(Slots(st), Iir(st.a, xs)) + more
    ensures Enough(StageOps(st), m)
    ensures RunOps(StageOps(st), m) == Machine(NextOut(st, xs, m.iir), 0.0, more[0], coefs,
                                               m.out + LastOf(Slots(st), Iir(st.a, xs + [m.iir])), more[1..])
  {
    hide FirAt, Iir, RunOps, Above, CoefsFrom, TapsFrom, LastOf, CoefUse, SlotUse, Output;
    var w, k := Iir(st.a, xs), Slots(st);
    NothingAbove(st.a, w, k + 1);
    NothingAbove(st.b, w, k + 1);
    TapsRun(m, k, st, w, m.iir, coefs, more);
    OutputStep(st, xs, m.iir);
  }

  function AllOps(sts: seq<Stage>): seq<Op>
    requires AllValid(sts)
  {
    if |sts| == 0 then [] else StageOps(sts[0]) + AllOps(sts[1..])
  }

  function AllCoefs(sts: seq<Stage>): seq<real>
    requires AllValid(sts)
  {
    if |sts| == 0 then [] else StageCoefs(sts[0]) + AllCoefs(sts[1..])
  }

  function AllSlots(sts: seq<Stage>): nat
    requires AllValid(sts)
  {
    if |sts| == 0 then 0 else Slots(sts[0]) + AllSlots(sts[1..])
  }

  /** What the shared buffer holds after the inputs xs: for each stage its own last
      intermediate values, oldest first. */
  function Segments(sts: seq<Stage>, xs: seq<real>): (s: seq<real>)
    requires AllValid(sts)
    ensures |s| == AllSlots(sts)
    decreases |sts|
  {
    if |sts| == 0 then []
    else LastOf(Slots(sts[0]), Iir(sts[0].a, xs)) + Segments(sts[1..], Output(sts[0], xs))
  }

  /** The code of a chain computes the next sample of its output and leaves every segment
      up to date. */
  lemma {:induction false} ChainRun(m: Machine, sts: seq<Stage>, xs: seq<real>, coefs: seq<real>, more: seq<real>)
    requires AllValid(sts) && |more| > 0 && m.fir == 0.0
    requires m.coef == AllCoefs(sts) + coefs
    requires [m.tmp] + m.rest == Segments(sts, xs) + more
    ensures var ys := Chain(sts, xs + [m.iir]);
      && Enough(AllOps(sts), m)
      && ys == Chain(sts, xs) + [ys[|xs|]]
      && RunOps(AllOps(sts), m) == Machine(ys[|xs|], 0.0, more[0], coefs, m.out + Segments(sts, xs + [m.iir]), more[1..])
    decreases |sts|
  {
    if |sts| == 0 {
      assert m.out + [] == m.out && more == [m.tmp] + m.rest && more[1..] == m.rest && coefs == m.coef;
    } else {
      var st, rest := sts[0], sts[1..];
      var seg, segs := LastOf(Slots(st), Iir(st.a, xs)), Segments(rest, Output(st, xs));
      assert Valid(st);
      Regroup(StageCoefs(st), AllCoefs(rest), coefs);
      Regroup(seg, segs, more);
      StageRun(m, st, xs, AllCoefs(rest) + coefs, segs + more);
      OutputStep(st, xs, m.iir);
      var r := RunOps(StageOps(st), m);
      assert [r.tmp] + r.rest == segs + more;
      ChainRun(r, rest, Output(st, xs), coefs, more);
      Joined(StageOps(st), AllOps(rest), m);
      Regroup(m.out, LastOf(Slots(st), Iir(st.a, xs + [m.iir])), Segments(rest, Output(st, xs + [m.iir])));
    }
  }

  /** Running one stretch of code after another. */
  lemma {:induction false} Joined(a: seq<Op>, b: seq<Op>, m: Machine)
    requires Enough(a, m) && Enough(b, RunOps(a, m))
    ensures Enough(a + b, m) && RunOps(a + b, m) == RunOps(b, RunOps(a, m))
  {
    UseConcat(a, b);
    RunConcat(a, b, m);
  }
}
