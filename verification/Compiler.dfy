/** The filter compiler: one pass over a filter list that fills two arrays of worst-case
    size through moving indices. */
module Compiler {
  import opened Signals
  import opened Filters
  import opened Commands
  import opened Stages
  import opened Pairing
  import opened Emission

  /** A compiled filter: buffer slots, coefficients and commands. */
  datatype Run = Run(bufSize: nat, coef: seq<real>, cmd: seq<Byte>)

  /** What the compiler makes of a list. */
  function Compiled(fs: seq<SubFilter>): Run
    requires Compilable(fs)
  {
    var ps, g := Pairs(fs), Gain(fs);
    Run(AllSlots(Lowers(ps)),
        AllCoefs(Lowers(ps)) + (if g != 1.0 then [g] else []),
        EmitAll(Code([], 0), ps).cmd + (if g != 1.0 then [22] else []) + [0])
  }

  function TotalLength(fs: seq<SubFilter>): nat {
    if |fs| == 0 then 0 else |fs[0].val| + TotalLength(fs[1..])
  }

  /** The pair made of two halves, an empty list standing for a missing one. */
  function PairOf(iir: seq<real>, fir: seq<real>): Pair {
    Pair(if |iir| == 0 then [1.0] else iir, if |fir| == 0 then [1.0] else fir)
  }

  predicate Halves(iir: seq<real>, fir: seq<real>) {
    |iir| != 1 && |fir| != 1 && (|iir| > 0 || |fir| > 0) && (|iir| > 0 ==> iir[0] != 0.0)
  }

  function Head(iir: seq<real>): real {
    if |iir| == 0 then 1.0 else iir[0]
  }

  // -------------------------------------------------- one pass over the list, in steps

  lemma {:induction false} PairsSkip(fs: seq<SubFilter>)
    requires Compilable(fs) && |fs| > 0 && Single(fs[0])
    ensures Pairs(fs) == Pairs(fs[1..]) && Gain(fs) == Times(fs[0].val[0], Gain(fs[1..]))
  {
    hide Times, PairUp;
    assert Runs(fs[0]);
    assert NoSingles(fs) == NoSingles(fs[1..]);
  }

  lemma {:induction false} NoSinglesHead(fs: seq<SubFilter>)
    requires Compilable(fs) && |fs| > 0 && !Single(fs[0])
    ensures |NoSingles(fs)| > 0 && NoSingles(fs)[0] == fs[0] && NoSingles(fs)[1..] == NoSingles(fs[1..])
  {
    assert NoSingles(fs) == [fs[0]] + NoSingles(fs[1..]);
  }

  lemma {:induction false} PairsFir(fs: seq<SubFilter>)
    requires Compilable(fs) && |fs| > 0 && !Single(fs[0]) && fs[0].typ == FIR
    ensures Pairs(fs) == [PairOf([], fs[0].val)] + Pairs(fs[1..]) && Gain(fs) == Gain(fs[1..])
  {
    assert Runs(fs[0]);
    NoSinglesHead(fs);
  }

  /** An IIR pairs with the next FIR that is not a plain gain, when nothing else is between
      them; rest is the list after the gains that follow it. */
  lemma {:induction false} PairsIir(fs: seq<SubFilter>, rest: seq<SubFilter>)
    requires Compilable(fs) && |fs| > 0 && fs[0].typ == IIR && Compilable(rest)
    requires NoSingles(fs[1..]) == NoSingles(rest)
    ensures |rest| > 0 && !Single(rest[0]) && rest[0].typ == FIR ==>
              Pairs(fs) == [PairOf(fs[0].val, rest[0].val)] + Pairs(rest[1..])
    ensures (|rest| > 0 ==> rest[0].typ != FIR) ==> Pairs(fs) == [PairOf(fs[0].val, [])] + Pairs(rest)
  {
    assert Runs(fs[0]);
    NoSinglesHead(fs);
    var ns := NoSingles(fs);
    if |rest| > 0 && !Single(rest[0]) {
      assert Runs(rest[0]);
      NoSinglesHead(rest);
      assert ns[1] == rest[0] && ns[2..] == NoSingles(rest[1..]);
    } else if |rest| == 0 {
      assert NoSingles(rest) == [] && |ns| == 1;
    }
  }

  // ------------------------------------------------------------ emission into the arrays

  lemma {:induction false} ChunksStep(base: Byte, n: nat)
    requires base <= 8
    ensures n >= 4 ==> var g := if n / 4 > 255 then 255 else n / 4; Chunks(base, n) == [base + 4, g] + Chunks(base, n - 4 * g)
    ensures n < 4 ==> Chunks(base, n) == if n > 0 then [base + n] else []
  {
  }

  /** Command bytes for a taps of one kind. */
  method EmitChunks(cmd: array<Byte>, cp: nat, base: Byte, n: nat) returns (end: nat)
    requires base <= 8 && cp + n <= cmd.Length
    modifies cmd
    ensures cp <= end <= cp + n
    ensures cmd[..end] == old(cmd[..cp]) + Chunks(base, n)
  {
    hide Chunks;
    end := cp;
    var a := n;
    ghost var before := cmd[..cp];
    while a >= 4
      invariant 0 <= a <= n && cp <= end && end + a <= cp + n
      invariant cmd[..end] + Chunks(base, a) == before + Chunks(base, n)
    {
      var nn := a / 4;
      if nn > 255 {
        nn := 255;
      }
      ChunksStep(base, a);
      ghost var now := cmd[..end];
      cmd[end] := base + 4;
      cmd[end + 1] := nn;
      assert cmd[..end + 2] == now + [base + 4, nn];
      Regroup(now, [base + 4, nn], Chunks(base, a - nn * 4));
      end := end + 2;
      a := a - nn * 4;
    }
    ChunksStep(base, a);
    if a > 0 {
      ghost var now := cmd[..end];
      cmd[end] := base + a;
      end := end + 1;
      assert cmd[..end] == now + [base + a];
    } else {
      assert cmd[..end] + [] == cmd[..end];
    }
  }

  /** Stores one coefficient. */
  method Push(coef: array<real>, dp: nat, c: real) returns (end: nat)
    requires dp < coef.Length
    modifies coef
    ensures end == dp + 1 && coef[..end] == old(coef[..dp]) + [c]
  {
    coef[dp] := c;
    end := dp + 1;
  }

  lemma {:induction false} NextCoefs(s: seq<real>, k: nat, a: seq<real>, b: seq<real>)
    requires k > 0
    ensures k < |a| && k >= |b| ==> s + CoefsFrom(k, a, b) == s + [a[k]] + CoefsFrom(k - 1, a, b)
    ensures k >= |a| && k < |b| ==> s + CoefsFrom(k, a, b) == s + [b[k]] + CoefsFrom(k - 1, a, b)
    ensures k < |a| && k < |b| ==> s + CoefsFrom(k, a, b) == s + [a[k]] + [b[k]] + CoefsFrom(k - 1, a, b)
  {
  }

  /** The two halves of a general pair as the loops below read them. */
  ghost predicate Reads(iir: seq<real>, fir: seq<real>, adj: real, st: Stage) {
    && Halves(iir, fir) && Valid(st)
    && |st.a| == (if |iir| == 0 then 1 else |iir|) && |st.b| == (if |fir| == 0 then 1 else |fir|)
    && (forall k :: 2 <= k < |iir| ==> st.a[k] == iir[k] * adj)
    && (forall k :: 0 <= k < |fir| ==> st.b[k] == fir[k])
  }

  /** The coefficients of the leading taps that only the longer half has. */
  method EmitLeading(coef: array<real>, dp: nat, iir: seq<real>, fir: seq<real>, adj: real, ghost st: Stage)
    returns (end: nat, cnt: nat, onlyI: nat, onlyF: nat)
    requires Reads(iir, fir, adj, st)
    requires dp + |iir| + |fir| <= coef.Length
    modifies coef
    ensures onlyI == OnlyI(|st.a|, |st.b|) && onlyF == OnlyF(|st.a|, |st.b|) && end == dp + onlyI + onlyF
    ensures 2 <= cnt && cnt + onlyI + onlyF == Max(|iir|, |fir|) && (cnt > 2 ==> cnt <= |iir| && cnt <= |fir|)
    ensures coef[..end] + CoefsFrom(cnt - 1, st.a, st.b) == old(coef[..dp]) + StageCoefs(st)
  {
    hide CoefsFrom;
    var nIir, nFir := |iir|, |fir|;
    ghost var target := coef[..dp] + StageCoefs(st);
    end := dp;
    cnt := if nIir > nFir then nIir else nFir;
    ghost var top := cnt;
    onlyI, onlyF := 0, 0;
    while cnt > nFir && cnt > 2
      invariant 2 <= cnt <= top && onlyI == top - cnt && end == dp + onlyI
      invariant onlyI > 0 ==> cnt >= nFir && top == nIir
      invariant coef[..end] + CoefsFrom(cnt - 1, st.a, st.b) == target
    {
      cnt := cnt - 1;
      NextCoefs(coef[..end], cnt, st.a, st.b);
      end := Push(coef, end, iir[cnt] * adj);
      onlyI := onlyI + 1;
    }
    while cnt > nIir && cnt > 2
      invariant 2 <= cnt <= top - onlyI && onlyF == top - onlyI - cnt && end == dp + onlyI + onlyF
      invariant onlyF > 0 ==> cnt >= nIir && top == nFir && onlyI == 0
      invariant coef[..end] + CoefsFrom(cnt - 1, st.a, st.b) == target
    {
      cnt := cnt - 1;
      NextCoefs(coef[..end], cnt, st.a, st.b);
      end := Push(coef, end, fir[cnt]);
      onlyF := onlyF + 1;
    }
  }

  /** The coefficients of all taps but the last; the results count the taps of each kind. */
  method EmitTaps(coef: array<real>, dp: nat, iir: seq<real>, fir: seq<real>, adj: real, ghost st: Stage)
    returns (end: nat, onlyI: nat, onlyF: nat, common: nat)
    requires Reads(iir, fir, adj, st)
    requires dp + |iir| + |fir| <= coef.Length
    modifies coef
    ensures dp <= end && end + |CoefsFrom(1, st.a, st.b)| <= dp + |iir| + |fir|
    ensures onlyI == OnlyI(|st.a|, |st.b|) && onlyF == OnlyF(|st.a|, |st.b|) && common == Common(|st.a|, |st.b|)
    ensures onlyI + onlyF + common < |iir| + |fir|
    ensures coef[..end] + CoefsFrom(1, st.a, st.b) == old(coef[..dp]) + StageCoefs(st)
  {
    hide CoefsFrom;
    LastCoefs(iir, fir, adj, st);
    ghost var target := coef[..dp] + StageCoefs(st);
    var cnt;
    end, cnt, onlyI, onlyF := EmitLeading(coef, dp, iir, fir, adj, st);
    common := 0;
    ghost var from, top := end, cnt;
    while cnt > 2
      invariant 2 <= cnt <= top && common == top - cnt
      invariant end == from + 2 * common
      invariant coef[..end] + CoefsFrom(cnt - 1, st.a, st.b) == target
    {
      cnt := cnt - 1;
      common := common + 1;
      end := PushBoth(coef, end, cnt, iir, fir, adj, st);
    }
  }

  /** The two coefficients of a tap that both halves have. */
  method PushBoth(coef: array<real>, dp: nat, k: nat, iir: seq<real>, fir: seq<real>, adj: real, ghost st: Stage) returns (end: nat)
    requires Reads(iir, fir, adj, st) && 2 <= k < |iir| && k < |fir| && dp + 2 <= coef.Length
    modifies coef
    ensures end == dp + 2
    ensures coef[..end] + CoefsFrom(k - 1, st.a, st.b) == old(coef[..dp]) + CoefsFrom(k, st.a, st.b)
  {
    hide CoefsFrom;
    NextCoefs(coef[..dp], k, st.a, st.b);
    end := Push(coef, dp, iir[k] * adj);
    end := Push(coef, end, fir[k]);
  }

  lemma {:induction false} ReadsLower(iir: seq<real>, fir: seq<real>, adj: real)
    requires Halves(iir, fir) && Generic(PairOf(iir, fir)) && adj == Over(1.0, Head(iir))
    ensures IsPair(PairOf(iir, fir)) && Reads(iir, fir, adj, Lower(PairOf(iir, fir)))
    ensures |iir| > 1 ==> Lower(PairOf(iir, fir)).a[1] == iir[1]
  {
    var st := Lower(PairOf(iir, fir));
    forall k | 2 <= k < |iir| ensures st.a[k] == iir[k] * adj {
      assert st.a[k] == adj * iir[k];
    }
  }

  /** The tap that closes a general stage.  The recursive coefficient is stored as it is. */
  method EmitLast(coef: array<real>, dp: nat, cmd: array<Byte>, cp: nat, iir: seq<real>, fir: seq<real>, adj: real, ghost st: Stage)
    returns (dpEnd: nat, cpEnd: nat)
    requires Reads(iir, fir, adj, st) && (|iir| > 1 ==> st.a[1] == iir[1])
    requires dp + |CoefsFrom(1, st.a, st.b)| <= coef.Length && cp < cmd.Length
    modifies coef, cmd
    ensures dpEnd == dp + |CoefsFrom(1, st.a, st.b)| && cpEnd == cp + 1
    ensures coef[..dpEnd] == old(coef[..dp]) + CoefsFrom(1, st.a, st.b)
    ensures cmd[..cpEnd] == old(cmd[..cp]) + [if |fir| == 0 then 13 else if |iir| == 0 then 14 else 15]
  {
    hide CoefsFrom;
    LastCoefs(iir, fir, adj, st);
    if |fir| == 0 {
      cmd[cp] := 13;
      dpEnd := Push(coef, dp, iir[1]);
    } else if |iir| == 0 {
      cmd[cp] := 14;
      dpEnd := Push(coef, dp, fir[1]);
      dpEnd := Push(coef, dpEnd, fir[0]);
    } else {
      cmd[cp] := 15;
      dpEnd := Push(coef, dp, iir[1]);
      dpEnd := Push(coef, dpEnd, fir[1]);
      dpEnd := Push(coef, dpEnd, fir[0]);
    }
    cpEnd := cp + 1;
  }

  /** A pair without a code of its own. */
  method EmitGeneral(coef: array<real>, dp: nat, cmd: array<Byte>, cp: nat, iir: seq<real>, fir: seq<real>, adj: real)
    returns (dpEnd: nat, cpEnd: nat)
    requires Halves(iir, fir) && Generic(PairOf(iir, fir)) && adj == Over(1.0, Head(iir))
    requires dp + |iir| + |fir| <= coef.Length && cp + |iir| + |fir| <= cmd.Length
    modifies coef, cmd
    ensures dp <= dpEnd <= dp + |iir| + |fir| && cp <= cpEnd <= cp + |iir| + |fir|
    ensures IsPair(PairOf(iir, fir)) && coef[..dpEnd] == old(coef[..dp]) + StageCoefs(Lower(PairOf(iir, fir)))
    ensures cmd[..cpEnd] == old(cmd[..cp]) + GeneralCode(|PairOf(iir, fir).iir|, |PairOf(iir, fir).fir|)
  {
    hide CoefsFrom, Chunks, Lower, StageCoefs, Generic, OnlyI, OnlyF, Common;
    ReadsLower(iir, fir, adj);
    ghost var st := Lower(PairOf(iir, fir));
    var onlyI, onlyF, common;
    dpEnd, onlyI, onlyF, common := EmitTaps(coef, dp, iir, fir, adj, st);
    cpEnd := EmitChunks(cmd, cp, 0, onlyI);
    cpEnd := EmitChunks(cmd, cpEnd, 4, onlyF);
    cpEnd := EmitChunks(cmd, cpEnd, 8, common);
    dpEnd, cpEnd := EmitLast(coef, dpEnd, cmd, cpEnd, iir, fir, adj, st);
    FourParts(old(cmd[..cp]), Chunks(0, onlyI), Chunks(4, onlyF), Chunks(8, common), [if |fir| == 0 then 13 else if |iir| == 0 then 14 else 15]);
  }

  lemma {:induction false} FourParts(s: seq<Byte>, a: seq<Byte>, b: seq<Byte>, c: seq<Byte>, d: seq<Byte>)
    ensures s + a + b + c + d == s + (a + b + c + d)
  {
  }

  lemma {:induction false} LastCoefs(iir: seq<real>, fir: seq<real>, adj: real, st: Stage)
    requires Reads(iir, fir, adj, st)
    ensures CoefsFrom(1, st.a, st.b)
         == (if |iir| > 1 then [st.a[1]] else []) + (if |fir| > 1 then [fir[1], fir[0]] else [])
  {
    assert CoefsFrom(1, st.a, st.b)
        == (if 1 < |st.a| then [st.a[1]] else []) + (if 1 < |st.b| then [st.b[1]] else []) + CoefsFrom(0, st.a, st.b);
  }

  /** A three-tap pair: a new command, a counted one, or one more on its count. */
  method EmitShape(cmd: array<Byte>, cp: nat, prev: Byte, shape: Byte) returns (cpEnd: nat, prevEnd: Byte)
    requires IsShape(shape) && cp < cmd.Length && (prev != 0 ==> cp > 0)
    modifies cmd
    ensures cp <= cpEnd <= cp + 1
    ensures Code(cmd[..cpEnd], prevEnd) == EmitRun(Code(old(cmd[..cp]), prev), shape)
  {
    if prev == shape {
      prevEnd := shape + 3;
      cmd[cp - 1] := prevEnd;
      cmd[cp] := 2;
      cpEnd := cp + 1;
    } else if prev == shape + 3 {
      cmd[cp - 1] := Increment(cmd[cp - 1]);
      cpEnd, prevEnd := cp, prev;
    } else {
      prevEnd := shape;
      cmd[cp] := prevEnd;
      cpEnd := cp + 1;
    }
  }

  lemma {:induction false} ThreeTapCoefs(iir: seq<real>, fir: seq<real>, adj: real)
    requires Halves(iir, fir) && !Generic(PairOf(iir, fir)) && adj == Over(1.0, Head(iir))
    ensures IsPair(PairOf(iir, fir)) && StageCoefs(Lower(PairOf(iir, fir)))
         == (if |fir| == 0 then [iir[2] * adj, iir[1] * adj]
             else if |iir| == 0 then [fir[2], fir[1], fir[0]]
             else [iir[2] * adj, fir[2], iir[1] * adj, fir[1], fir[0]])
  {
    var st := Lower(PairOf(iir, fir));
    assert |iir| == 3 ==> st.a[1] == adj * iir[1] && st.a[2] == adj * iir[2];
    var c0 := CoefsFrom(0, st.a, st.b);
    assert CoefsFrom(1, st.a, st.b) == (if 1 < |st.a| then [st.a[1]] else []) + (if 1 < |st.b| then [st.b[1]] else []) + c0;
    assert CoefsFrom(2, st.a, st.b)
        == (if 2 < |st.a| then [st.a[2]] else []) + (if 2 < |st.b| then [st.b[2]] else []) + CoefsFrom(1, st.a, st.b);
  }

  /** The coefficients of a pair of three taps. */
  method PushTaps(coef: array<real>, dp: nat, iir: seq<real>, fir: seq<real>, adj: real) returns (dpEnd: nat)
    requires Halves(iir, fir) && !Generic(PairOf(iir, fir)) && adj == Over(1.0, Head(iir))
    requires dp + |iir| + |fir| <= coef.Length
    modifies coef
    ensures dp <= dpEnd <= dp + |iir| + |fir|
    ensures IsPair(PairOf(iir, fir)) && coef[..dpEnd] == old(coef[..dp]) + StageCoefs(Lower(PairOf(iir, fir)))
  {
    hide StageCoefs, Lower;
    ThreeTapCoefs(iir, fir, adj);
    dpEnd := dp;
    ghost var before := coef[..dp];
    if |iir| == 3 { dpEnd := Push(coef, dpEnd, iir[2] * adj); }
    if |fir| == 3 { dpEnd := Push(coef, dpEnd, fir[2]); }
    assert coef[..dpEnd] == before + (if |iir| == 3 then [iir[2] * adj] else []) + (if |fir| == 3 then [fir[2]] else []);
    if |iir| == 3 { dpEnd := Push(coef, dpEnd, iir[1] * adj); }
    if |fir| == 3 { dpEnd := Push(coef, dpEnd, fir[1]); }
    if |fir| == 3 { dpEnd := Push(coef, dpEnd, fir[0]); }
  }

  /** The code and coefficients of one pair. */
  method EmitPair(coef: array<real>, dp: nat, cmd: array<Byte>, cp: nat, prev: Byte, iir: seq<real>, fir: seq<real>, adj: real)
    returns (dpEnd: nat, cpEnd: nat, prevEnd: Byte)
    requires Halves(iir, fir) && adj == Over(1.0, Head(iir)) && (prev != 0 ==> cp > 0)
    requires dp + |iir| + |fir| <= coef.Length && cp + |iir| + |fir| <= cmd.Length
    modifies coef, cmd
    ensures dp <= dpEnd <= dp + |iir| + |fir| && cp <= cpEnd <= cp + |iir| + |fir|
    ensures IsPair(PairOf(iir, fir)) && coef[..dpEnd] == old(coef[..dp]) + StageCoefs(Lower(PairOf(iir, fir)))
    ensures Code(cmd[..cpEnd], prevEnd) == Emit(Code(old(cmd[..cp]), prev), PairOf(iir, fir))
  {
    hide StageCoefs, Lower, CoefsFrom, GeneralCode;
    var nIir, nFir := |iir|, |fir|;
    if nFir == 3 && nIir == 3 {
      cpEnd, prevEnd := EmitShape(cmd, cp, prev, 18);
      dpEnd := PushTaps(coef, dp, iir, fir, adj);
    } else if nFir == 3 && nIir == 0 {
      cpEnd, prevEnd := EmitShape(cmd, cp, prev, 17);
      dpEnd := PushTaps(coef, dp, iir, fir, adj);
    } else if nFir == 0 && nIir == 3 {
      cpEnd, prevEnd := EmitShape(cmd, cp, prev, 16);
      dpEnd := PushTaps(coef, dp, iir, fir, adj);
    } else {
      prevEnd := 0;
      dpEnd, cpEnd := EmitGeneral(coef, dp, cmd, cp, iir, fir, adj);
    }
  }

  // --------------------------------------------------------------------- the compiler

  /** What has been emitted for the entries before i, plus what the rest will add, is what
      the whole list needs. */
  ghost predicate Progress(fs: seq<SubFilter>, i: nat, bufSize: nat, coef: seq<real>, code: Code, gain: real)
    requires i <= |fs| && (code.prev != 0 ==> |code.cmd| > 0)
  {
    Compilable(fs) ==>
      var ps, rest := Pairs(fs), Pairs(fs[i..]);
      && bufSize + AllSlots(Lowers(rest)) == AllSlots(Lowers(ps))
      && coef + AllCoefs(Lowers(rest)) == AllCoefs(Lowers(ps))
      && EmitAll(code, rest) == EmitAll(Code([], 0), ps)
      && Times(gain, Gain(fs[i..])) == Gain(fs)
  }

  lemma {:induction false} LowersHead(p: Pair, ps: seq<Pair>)
    requires IsPair(p) && ArePairs(ps)
    ensures ArePairs([p] + ps)
    ensures AllSlots(Lowers([p] + ps)) == Slots(Lower(p)) + AllSlots(Lowers(ps))
    ensures AllCoefs(Lowers([p] + ps)) == StageCoefs(Lower(p)) + AllCoefs(Lowers(ps))
  {
    assert Lowers([p] + ps)[1..] == Lowers(ps);
  }

  lemma {:induction false} EmitAllHead(code: Code, p: Pair, ps: seq<Pair>)
    requires code.prev != 0 ==> |code.cmd| > 0
    ensures EmitAll(code, [p] + ps) == EmitAll(Emit(code, p), ps)
  {
    hide Emit;
    assert ([p] + ps)[1..] == ps;
  }

  /** One pair further. */
  lemma {:induction false} ProgressPair(fs: seq<SubFilter>, i: nat, j: nat, p: Pair, bufSize: nat, coef: seq<real>, code: Code, gain: real, g: real)
    requires i <= |fs| && j <= |fs| && IsPair(p) && (code.prev != 0 ==> |code.cmd| > 0)
    requires Progress(fs, i, bufSize, coef, code, gain)
    requires Compilable(fs) && Times(gain, Gain(fs[i..])) == Gain(fs) ==>
               Pairs(fs[i..]) == [p] + Pairs(fs[j..]) && Times(g, Gain(fs[j..])) == Gain(fs)
    ensures Progress(fs, j, bufSize + Slots(Lower(p)), coef + StageCoefs(Lower(p)), Emit(code, p), g)
  {
    hide Slots, StageCoefs, Lower, Emit, Times, Pairs, Gain, EmitAll, AllSlots, AllCoefs, Lowers;
    if Compilable(fs) {
      var rest := Pairs(fs[j..]);
      LowersHead(p, rest);
      EmitAllHead(code, p, rest);
      Regroup(coef, StageCoefs(Lower(p)), AllCoefs(Lowers(rest)));
    }
  }

  lemma {:induction false} ProgressSkip(fs: seq<SubFilter>, i: nat, bufSize: nat, coef: seq<real>, code: Code, gain: real)
    requires i < |fs| && |fs[i].val| == 1 && Single(fs[i]) && (code.prev != 0 ==> |code.cmd| > 0)
    requires Progress(fs, i, bufSize, coef, code, gain)
    ensures Progress(fs, i + 1, bufSize, coef, code, gain * fs[i].val[0])
  {
    if Compilable(fs) { SkipOne(fs, i, gain); }
  }

  /** Steps over plain gains. */
  method SkipGains(filt: seq<SubFilter>, i: nat, gain: real) returns (j: nat, g: real)
    requires Entries(filt) && i <= |filt|
    ensures i <= j <= |filt| && (j < |filt| ==> !Single(filt[j]))
    ensures forall k :: i <= k < j ==> KnownType(filt[k])
    ensures TotalLength(filt[j..]) + (j - i) == TotalLength(filt[i..])
    ensures Compilable(filt) ==> NoSingles(filt[j..]) == NoSingles(filt[i..])
    ensures Compilable(filt) ==> Times(g, Gain(filt[j..])) == Times(gain, Gain(filt[i..]))
  {
    hide Times, NoSingles, Gain, TotalLength, Pairs;
    j, g := i, gain;
    while j < |filt| && filt[j].typ == FIR && |filt[j].val| == 1
      invariant i <= j <= |filt|
      invariant forall k :: i <= k < j ==> KnownType(filt[k])
      invariant TotalLength(filt[j..]) + (j - i) == TotalLength(filt[i..])
      invariant Compilable(filt) ==> NoSingles(filt[j..]) == NoSingles(filt[i..])
      invariant Compilable(filt) ==> Times(g, Gain(filt[j..])) == Times(gain, Gain(filt[i..]))
    {
      if Compilable(filt) { SkipOne(filt, j, g); }
      LengthStep(filt, j);
      g := g * filt[j].val[0];
      j := j + 1;
    }
  }

  lemma {:induction false} SkipOne(fs: seq<SubFilter>, j: nat, g: real)
    requires Compilable(fs) && j < |fs| && Single(fs[j])
    ensures NoSingles(fs[j..]) == NoSingles(fs[j + 1..]) && Pairs(fs[j..]) == Pairs(fs[j + 1..])
    ensures Times(g, Gain(fs[j..])) == Times(g * fs[j].val[0], Gain(fs[j + 1..]))
  {
    assert fs[j..][1..] == fs[j + 1..];
    assert NoSingles(fs[j..]) == NoSingles(fs[j + 1..]);
    PairsSkip(fs[j..]);
    TimesLaws(g, fs[j].val[0], Gain(fs[j + 1..]));
    assert Times(g, fs[j].val[0]) == g * fs[j].val[0];
  }

  lemma {:induction false} FirStep(fs: seq<SubFilter>, i: nat)
    requires Compilable(fs) && i < |fs| && !Single(fs[i]) && fs[i].typ == FIR
    ensures Pairs(fs[i..]) == [PairOf([], fs[i].val)] + Pairs(fs[i + 1..]) && Gain(fs[i..]) == Gain(fs[i + 1..])
  {
    assert fs[i..][1..] == fs[i + 1..];
    PairsFir(fs[i..]);
  }

  /** Gain bookkeeping of an IIR at i whose following gains end at j. */
  lemma {:induction false} IirGain(fs: seq<SubFilter>, i: nat, j: nat, gain: real, g: real, adj: real)
    requires Compilable(fs) && i < j <= |fs| && fs[i].typ == IIR && adj == Over(1.0, fs[i].val[0])
    requires Times(gain, Gain(fs[i..])) == Gain(fs)
    requires Times(g, Gain(fs[j..])) == Times(gain, Gain(fs[i + 1..]))
    ensures Times(g * adj, Gain(fs[j..])) == Gain(fs)
    ensures j < |fs| && !Single(fs[j]) && fs[j].typ == FIR ==> Gain(fs[j..]) == Gain(fs[j + 1..])
  {
    hide Over, Times;
    assert fs[i..][0] == fs[i] && fs[i..][1..] == fs[i + 1..];
    Reorder(gain, adj, Gain(fs[i + 1..]), g, Gain(fs[j..]));
    if j < |fs| && !Single(fs[j]) && fs[j].typ == FIR { FirStep(fs, j); }
  }

  lemma {:induction false} Reorder(gain: real, adj: real, x: real, g: real, y: real)
    requires Times(g, y) == Times(gain, x)
    ensures Times(g * adj, y) == Times(gain, Times(adj, x))
  {
    calc {
      g * adj * y;
      adj * (g * y);
      adj * (gain * x);
      gain * (adj * x);
    }
  }

  lemma {:induction false} IirStep(fs: seq<SubFilter>, i: nat, j: nat)
    requires Compilable(fs) && i < j <= |fs| && fs[i].typ == IIR && (j < |fs| ==> !Single(fs[j]))
    requires NoSingles(fs[j..]) == NoSingles(fs[i + 1..])
    ensures j < |fs| && fs[j].typ == FIR ==> Pairs(fs[i..]) == [PairOf(fs[i].val, fs[j].val)] + Pairs(fs[j + 1..])
    ensures (j < |fs| ==> fs[j].typ != FIR) ==> Pairs(fs[i..]) == [PairOf(fs[i].val, [])] + Pairs(fs[j..])
  {
    assert fs[i..][0] == fs[i] && fs[i..][1..] == fs[i + 1..];
    if j < |fs| { assert fs[j..][0] == fs[j] && fs[j..][1..] == fs[j + 1..]; }
    PairsIir(fs[i..], fs[j..]);
  }

  lemma {:induction false} LengthStep(fs: seq<SubFilter>, i: nat)
    requires i < |fs|
    ensures TotalLength(fs[i..]) == |fs[i].val| + TotalLength(fs[i + 1..])
  {
    assert fs[i..][1..] == fs[i + 1..];
  }

  /** One IIR/FIR pair of the list, possibly with one half missing: the halves, the position
      after them, and the gain so far. */
  method NextPair(filt: seq<SubFilter>, i: nat, gain: real)
    returns (r: Result<(seq<real>, seq<real>)>, j: nat, g: real, adj: real)
    requires Entries(filt) && i < |filt| && !Single(filt[i])
    requires filt[i].typ == IIR ==> |filt[i].val| >= 2 && filt[i].val[0] != 0.0
    ensures i < j <= |filt| && (r.Ok? <==> KnownType(filt[i]))
    ensures r.Ok? ==> forall k :: i <= k < j ==> KnownType(filt[k])
    ensures r.Ok? ==> var (iir, fir) := r.value;
      && Halves(iir, fir) && adj == Over(1.0, Head(iir))
      && |iir| + |fir| + TotalLength(filt[j..]) <= TotalLength(filt[i..])
      && (Compilable(filt) && Times(gain, Gain(filt[i..])) == Gain(filt) ==>
            Pairs(filt[i..]) == [PairOf(iir, fir)] + Pairs(filt[j..]) && Times(g, Gain(filt[j..])) == Gain(filt))
  {
    hide Pairs, Gain, TotalLength, NoSingles, PairUp;
    var iir: seq<real>, fir: seq<real> := [], [];
    adj, g := 1.0, gain;
    LengthStep(filt, i);
    assert Entry(filt[i]);
    if filt[i].typ == FIR {
      fir := filt[i].val;
      j := i + 1;
      if Compilable(filt) { FirStep(filt, i); }
    } else if filt[i].typ == IIR {
      iir := filt[i].val;
      j, g := SkipGains(filt, i + 1, gain);
      adj := 1.0 / iir[0];
      ghost var k := j;
      if Compilable(filt) && Times(gain, Gain(filt[i..])) == Gain(filt) {
        IirStep(filt, i, j);
        IirGain(filt, i, j, gain, g, adj);
      }
      if j < |filt| && filt[j].typ == FIR {
        assert Entry(filt[j]);
        LengthStep(filt, j);
        fir := filt[j].val;
        j := j + 1;
      }
      g := g * adj;
    } else {
      return Err("Internal error: fid_run_new can only handle IIR + FIR types"), i + 1, g, adj;
    }
    r := Ok((iir, fir));
  }

  lemma {:induction false} LowerSlots(iir: seq<real>, fir: seq<real>)
    requires Halves(iir, fir)
    ensures IsPair(PairOf(iir, fir))
    ensures Slots(Lower(PairOf(iir, fir))) == (if |iir| > |fir| then |iir| else |fir|) - 1
  {
  }

  /** The number of coefficients in a list. */
  method CountAll(filt: seq<SubFilter>) returns (filtCnt: nat)
    ensures filtCnt == TotalLength(filt)
  {
    filtCnt := 0;
    var i := 0;
    while i < |filt|
      invariant 0 <= i <= |filt| && filtCnt + TotalLength(filt[i..]) == TotalLength(filt)
    {
      LengthStep(filt, i);
      filtCnt := filtCnt + |filt[i].val|;
      i := i + 1;
    }
  }

  /** One pair further in both arrays. */
  method AddPair(ghost filt: seq<SubFilter>, ghost i: nat, ghost j: nat, coef: array<real>, dp: nat, cmd: array<Byte>, cp: nat, prev: Byte,
                 bufSize: nat, iir: seq<real>, fir: seq<real>, adj: real, ghost gain: real, ghost g: real)
    returns (dpEnd: nat, cpEnd: nat, prevEnd: Byte, slots: nat)
    requires i <= |filt| && j <= |filt| && Halves(iir, fir) && adj == Over(1.0, Head(iir)) && (prev != 0 ==> cp > 0)
    requires dp + |iir| + |fir| <= coef.Length && cp + |iir| + |fir| <= cmd.Length
    requires Progress(filt, i, bufSize, coef[..dp], Code(cmd[..cp], prev), gain)
    requires Compilable(filt) && Times(gain, Gain(filt[i..])) == Gain(filt) ==>
               Pairs(filt[i..]) == [PairOf(iir, fir)] + Pairs(filt[j..]) && Times(g, Gain(filt[j..])) == Gain(filt)
    modifies coef, cmd
    ensures dp <= dpEnd <= dp + |iir| + |fir| && cp <= cpEnd <= cp + |iir| + |fir| && (prevEnd != 0 ==> cpEnd > 0)
    ensures Progress(filt, j, slots, coef[..dpEnd], Code(cmd[..cpEnd], prevEnd), g)
  {
    hide Emit, EmitAll, Lower, StageCoefs, NoSingles, Progress, Pairs, Gain, Halves, PairOf, Head, Over, Times, Slots;
    ghost var done, code := coef[..dp], Code(cmd[..cp], prev);
    var cnt := if |iir| > |fir| then |iir| else |fir|;
    LowerSlots(iir, fir);
    slots := bufSize + (cnt - 1);
    dpEnd, cpEnd, prevEnd := EmitPair(coef, dp, cmd, cp, prev, iir, fir, adj);
    ProgressPair(filt, i, j, PairOf(iir, fir), bufSize, done, code, gain, g);
  }

  /** Compiles a list.  The only error is an unknown type: the arrays of worst-case size
      are never overrun. */
  method FidRunNew(filt: seq<SubFilter>) returns (r: Result<Run>)
    requires Entries(filt)
    requires forall i :: 0 <= i < |filt| && filt[i].typ == IIR ==> |filt[i].val| >= 2 && filt[i].val[0] != 0.0
    ensures r.Ok? <==> forall i :: 0 <= i < |filt| ==> KnownType(filt[i])
    ensures r.Ok? ==> Compilable(filt) && r.value == Compiled(filt)
    ensures r.Ok? ==> |r.value.coef| <= TotalLength(filt) + 1 && |r.value.cmd| <= TotalLength(filt) + 4
  {
    hide Emit, EmitAll, Lower, StageCoefs, NoSingles, Progress, Pairs, Gain, Halves, PairOf, Head, Over, Times, Slots;
    var filtCnt := CountAll(filt);
    var i := 0;
    var coef, cmd := new real[filtCnt + 1], new Byte[filtCnt + 4];
    var dp, cp, prev := 0, 0, 0 as Byte;
    var gain := 1.0;
    var bufSize: nat := 0;
    assert coef[..0] == [] && cmd[..0] == [] && filt[0..] == filt;
    ProgressStart(filt);
    while i < |filt|
      invariant 0 <= i <= |filt| && (prev != 0 ==> cp > 0)
      invariant forall k :: 0 <= k < i ==> KnownType(filt[k])
      invariant dp + TotalLength(filt[i..]) <= filtCnt && cp + TotalLength(filt[i..]) <= filtCnt
      invariant Progress(filt, i, bufSize, coef[..dp], Code(cmd[..cp], prev), gain)
    {
      if filt[i].typ == FIR && |filt[i].val| == 1 {
        ProgressSkip(filt, i, bufSize, coef[..dp], Code(cmd[..cp], prev), gain);
        LengthStep(filt, i);
        gain := gain * filt[i].val[0];
        i := i + 1;
        continue;
      }
      var halves, j, g, adj := NextPair(filt, i, gain);
      if halves.Err? {
        return Err(halves.error);
      }
      var (iir, fir) := halves.value;
      dp, cp, prev, bufSize := AddPair(filt, i, j, coef, dp, cmd, cp, prev, bufSize, iir, fir, adj, gain, g);
      gain := g;
      i := j;
    }
    assert Compilable(filt) && filt[i..] == [];
    ProgressEnd(filt, bufSize, coef[..dp], Code(cmd[..cp], prev), gain);
    var run := Finish(coef, dp, cmd, cp, gain, bufSize);
    r := Ok(run);
  }

  /** Appends the gain, if there is one, and the terminator, and copies the arrays out. */
  method Finish(coef: array<real>, dp: nat, cmd: array<Byte>, cp: nat, gain: real, bufSize: nat) returns (run: Run)
    requires dp < coef.Length && cp + 1 < cmd.Length
    modifies coef, cmd
    ensures run.bufSize == bufSize && |run.coef| <= dp + 1 && |run.cmd| <= cp + 2
    ensures run.coef == old(coef[..dp]) + (if gain != 1.0 then [gain] else [])
    ensures run.cmd == old(cmd[..cp]) + (if gain != 1.0 then [22] else []) + [0]
  {
    var dpEnd, cpEnd := dp, cp;
    if gain != 1.0 {
      cmd[cp] := 22;
      cpEnd := cp + 1;
      dpEnd := Push(coef, dp, gain);
    }
    ghost var code := cmd[..cpEnd];
    cmd[cpEnd] := 0;
    assert cmd[..cpEnd + 1] == code + [0];
    run := Run(bufSize, coef[..dpEnd], cmd[..cpEnd + 1]);
  }

  lemma {:induction false} ProgressStart(fs: seq<SubFilter>)
    ensures Progress(fs, 0, 0, [], Code([], 0), 1.0)
  {
    assert fs[0..] == fs;
    if Compilable(fs) { TimesLaws(Gain(fs), 1.0, 1.0); }
  }

  lemma {:induction false} ProgressEnd(fs: seq<SubFilter>, bufSize: nat, coef: seq<real>, code: Code, gain: real)
    requires Compilable(fs) && (code.prev != 0 ==> |code.cmd| > 0)
    requires Progress(fs, |fs|, bufSize, coef, code, gain)
    ensures bufSize == AllSlots(Lowers(Pairs(fs))) && coef == AllCoefs(Lowers(Pairs(fs)))
    ensures code == EmitAll(Code([], 0), Pairs(fs)) && gain == Gain(fs)
  {
    assert fs[|fs|..] == [] && NoSingles([]) == [] && Pairs([]) == [] && Lowers([]) == [];
    TimesLaws(gain, 1.0, 1.0);
    TimesLaws(1.0, gain, 1.0);
  }
}
