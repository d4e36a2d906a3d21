/** Dumping the coefficients of a designed filter that are not constant, for hard-coded
    processing routines, and when the dump agrees with the compiler's list. */
module DesignCoef {
  import opened Signals
  import opened Filters
  import opened Stages
  import opened Pairing
  import opened Compiler
  import opened Correctness

  const ALL_CONST: bv16 := 0xFFFF

  /** Whether coefficient a is marked constant; the last bit stands for all later ones. */
  predicate ConstBit(cbm: bv16, a: nat) {
    cbm & (1 << (if a < 15 then a else 15)) != 0
  }

  /** The contribution of each half at position k: IIR heads and constants are left out. */
  function DumpI(k: nat, iir: SubFilter, adj: real): seq<real> {
    if 0 < k < |iir.val| && !ConstBit(iir.cbm, k) then [Times(adj, iir.val[k])] else []
  }

  function DumpF(k: nat, fir: SubFilter): seq<real> {
    if k < |fir.val| && !ConstBit(fir.cbm, k) then [fir.val[k]] else []
  }

  /** Coefficients k down to 0 of a pair. */
  function Dump(k: nat, iir: SubFilter, fir: SubFilter, adj: real): seq<real> {
    DumpI(k, iir, adj) + DumpF(k, fir)
    + (if k > 0 then Dump(k - 1, iir, fir, adj) else [])
  }

  const NO_IIR := SubFilter(IIR, ALL_CONST, [1.0])
  const NO_FIR := SubFilter(FIR, ALL_CONST, [1.0])

  /** How many entries of the list the dump takes as its next pair. */
  function Taken(fs: seq<SubFilter>): nat
    requires |fs| > 0
  {
    if fs[0].typ == IIR && |fs| > 1 && fs[1].typ == FIR then 2 else 1
  }

  function HalfI(fs: seq<SubFilter>): SubFilter
    requires |fs| > 0
  {
    if fs[0].typ == IIR then fs[0] else NO_IIR
  }

  function HalfF(fs: seq<SubFilter>): SubFilter
    requires |fs| > 0
  {
    if fs[0].typ == FIR then fs[0] else if Taken(fs) == 2 then fs[1] else NO_FIR
  }

  function Top(i: SubFilter, f: SubFilter): nat
    requires Entry(i)
  {
    (if |f.val| > |i.val| then |f.val| else |i.val|) - 1
  }

  /** The whole dump. */
  function DumpAll(fs: seq<SubFilter>): seq<real>
    requires Runnable(fs)
    decreases |fs|
  {
    if |fs| == 0 then []
    else
      assert Runs(fs[0]);
      if Single(fs[0]) then DumpAll(fs[1..])
      else
        Dump(Top(HalfI(fs), HalfF(fs)), HalfI(fs), HalfF(fs), Over(1.0, HalfI(fs).val[0])) + DumpAll(fs[Taken(fs)..])
  }

  /** The gain returned beside the dump. */
  function DumpGain(fs: seq<SubFilter>): real
    requires Runnable(fs)
    decreases |fs|
  {
    if |fs| == 0 then 1.0
    else
      assert Runs(fs[0]);
      if Single(fs[0]) then Times(fs[0].val[0], DumpGain(fs[1..]))
      else Times(Over(1.0, HalfI(fs).val[0]), DumpGain(fs[Taken(fs)..]))
  }

  /** What has been dumped and multiplied so far, plus what the rest adds, is the whole. */
  ghost predicate Dumped(fs: seq<SubFilter>, i: nat, out: seq<real>, gain: real)
    requires i <= |fs|
  {
    Runnable(fs) ==> out + DumpAll(fs[i..]) == DumpAll(fs) && Times(gain, DumpGain(fs[i..])) == DumpGain(fs)
  }

  lemma {:induction false} DumpedStart(fs: seq<SubFilter>)
    ensures Dumped(fs, 0, [], 1.0)
  {
    assert fs[0..] == fs;
    if Runnable(fs) { TimesLaws(DumpGain(fs), 1.0, 1.0); }
  }

  lemma {:induction false} DumpedEnd(fs: seq<SubFilter>, out: seq<real>, gain: real)
    requires Runnable(fs) && Dumped(fs, |fs|, out, gain)
    ensures out == DumpAll(fs) && gain == DumpGain(fs)
  {
    assert fs[|fs|..] == [] && out + [] == out;
    TimesLaws(gain, 1.0, 1.0);
    TimesLaws(1.0, gain, 1.0);
  }

  lemma {:induction false} DumpedSingle(fs: seq<SubFilter>, i: nat, out: seq<real>, gain: real)
    requires i < |fs| && Entry(fs[i]) && Single(fs[i]) && Dumped(fs, i, out, gain)
    ensures Dumped(fs, i + 1, out, gain * fs[i].val[0])
  {
    if Runnable(fs) {
      assert fs[i..][0] == fs[i] && fs[i..][1..] == fs[i + 1..];
      var c, g := fs[i].val[0], DumpGain(fs[i + 1..]);
      TimesLaws(gain, c, g);
      assert Times(gain, c) == gain * c;
    }
  }

  lemma {:induction false} DumpedPair(fs: seq<SubFilter>, i: nat, out: seq<real>, gain: real, iir: SubFilter, fir: SubFilter, adj: real)
    requires i < |fs| && !Single(fs[i]) && Dumped(fs, i, out, gain)
    requires iir == HalfI(fs[i..]) && Entry(iir) && fir == HalfF(fs[i..]) && iir.val[0] != 0.0 && adj == Over(1.0, iir.val[0])
    ensures Dumped(fs, i + Taken(fs[i..]), out + Dump(Top(iir, fir), iir, fir, adj), gain * adj)
  {
    hide Dump, Over;
    if Runnable(fs) {
      var next := i + Taken(fs[i..]);
      assert fs[i..][0] == fs[i] && fs[i..][Taken(fs[i..])..] == fs[next..];
      TimesLaws(gain, adj, DumpGain(fs[next..]));
      assert Times(gain, adj) == gain * adj;
      Regroup(out, Dump(Top(iir, fir), iir, fir, adj), DumpAll(fs[next..]));
    }
  }

  /** The next pair: an IIR if there is one, then a FIR if there is one, the head as a
      divisor, and the position after them. */
  method TakePair(filt: seq<SubFilter>, i: nat) returns (iir: SubFilter, fir: SubFilter, adj: real, next: nat)
    requires i < |filt| && KnownType(filt[i]) && Entries(filt)
    requires filt[i].typ == IIR ==> filt[i].val[0] != 0.0
    ensures i < next && iir == HalfI(filt[i..]) && fir == HalfF(filt[i..]) && next == i + Taken(filt[i..]) && next <= |filt|
    ensures Entry(iir) && Entry(fir) && iir.val[0] != 0.0 && adj == Over(1.0, iir.val[0])
    ensures forall k :: i <= k < next ==> KnownType(filt[k])
  {
    iir, fir, adj, next := NO_IIR, NO_FIR, 1.0, i;
    assert Entry(filt[i]) && filt[i..][0] == filt[i];
    if filt[next].typ == IIR {
      iir := filt[next];
      adj := 1.0 / iir.val[0];
      next := next + 1;
    }
    if next < |filt| && filt[next].typ == FIR {
      assert Entry(filt[next]);
      fir := filt[next];
      next := next + 1;
    }
  }

  /** Dumps the coefficients into coef.  A number of coefficients other than the expected
      one, or an unknown type, is an error. */
  method FidDesignCoef(coef: array<real>, filt: seq<SubFilter>) returns (r: Result<real>)
    requires Entries(filt) && forall i :: 0 <= i < |filt| && filt[i].typ == IIR ==> filt[i].val[0] != 0.0
    modifies coef
    ensures r.Ok? <==> (forall i :: 0 <= i < |filt| ==> KnownType(filt[i])) && Runnable(filt) && |DumpAll(filt)| == coef.Length
    ensures r.Ok? ==> coef[..] == DumpAll(filt) && r.value == DumpGain(filt)
  {
    hide Dump, DumpAll, DumpGain, Taken, HalfI, HalfF, Dumped;
    var cnt, gain, i := 0, 1.0, 0;
    ghost var out: seq<real> := [];
    assert coef[..0] == [];
    DumpedStart(filt);
    while i < |filt|
      invariant 0 <= i <= |filt| && forall k :: 0 <= k < i ==> KnownType(filt[k])
      invariant |out| == cnt && (cnt <= coef.Length ==> coef[..cnt] == out)
      invariant Dumped(filt, i, out, gain)
    {
      assert Entry(filt[i]);
      if filt[i].typ == FIR && |filt[i].val| == 1 {
        DumpedSingle(filt, i, out, gain);
        gain := gain * filt[i].val[0];
        i := i + 1;
        continue;
      }
      if filt[i].typ != IIR && filt[i].typ != FIR {
        return Err("fid_design_coef can't handle FidFilter type");
      }
      var iir, fir, adj, next := TakePair(filt, i);
      DumpedPair(filt, i, out, gain, iir, fir, adj);
      gain := gain * adj;
      cnt := DumpPair(coef, cnt, iir, fir, adj, out);
      out := out + Dump(Top(iir, fir), iir, fir, adj);
      i := next;
    }
    assert Runnable(filt);
    DumpedEnd(filt, out, gain);
    if cnt != coef.Length {
      return Err("fid_design_coef called with the wrong number of coefficients.");
    }
    assert coef[..cnt] == coef[..];
    r := Ok(gain);
  }

  lemma {:induction false} DumpStep(done: seq<real>, k: nat, iir: SubFilter, fir: SubFilter, adj: real)
    ensures done + Dump(k, iir, fir, adj)
         == done + DumpI(k, iir, adj) + DumpF(k, fir) + (if k > 0 then Dump(k - 1, iir, fir, adj) else [])
  {
  }

  /** Dumps one pair, counting also what does not fit. */
  method DumpPair(coef: array<real>, from: nat, iir: SubFilter, fir: SubFilter, adj: real, ghost out: seq<real>)
    returns (cnt: nat)
    requires Entry(iir) && Entry(fir) && |out| == from && (from <= coef.Length ==> coef[..from] == out)
    modifies coef
    ensures var all := out + Dump(Top(iir, fir), iir, fir, adj);
      cnt == |all| && (cnt <= coef.Length ==> coef[..cnt] == all)
  {
    hide Dump, ConstBit;
    cnt := from;
    var nIir, nFir := |iir.val|, |fir.val|;
    var len := if nFir > nIir then nFir else nIir;
    var a := len - 1;
    ghost var all := out + Dump(len - 1, iir, fir, adj);
    ghost var done := out;
    while a >= 0
      invariant -1 <= a < len
      invariant |done| == cnt && (cnt <= coef.Length ==> coef[..cnt] == done)
      invariant done + (if a >= 0 then Dump(a, iir, fir, adj) else []) == all
    {
      ghost var mid := done + DumpI(a, iir, adj);
      DumpStep(done, a, iir, fir, adj);
      if a < nIir && a > 0 && !ConstBit(iir.cbm, a) {
        var c := adj * iir.val[a];
        assert mid == done + [c] by { assert Times(adj, iir.val[a]) == c; }
        cnt := PushBounded(coef, cnt, c, done);
      } else {
        assert mid == done;
      }
      if a < nFir && !ConstBit(fir.cbm, a) {
        cnt := PushBounded(coef, cnt, fir.val[a], mid);
      } else {
        assert mid + DumpF(a, fir) == mid;
      }
      done := mid + DumpF(a, fir);
      a := a - 1;
    }
  }

  method PushBounded(coef: array<real>, cnt: nat, c: real, ghost done: seq<real>) returns (end: nat)
    requires |done| == cnt && (cnt <= coef.Length ==> coef[..cnt] == done)
    modifies coef
    ensures end == cnt + 1 && (end <= coef.Length ==> coef[..end] == done + [c])
  {
    if cnt < coef.Length {
      coef[cnt] := c;
    }
    end := cnt + 1;
  }

  // ---------------------------------------------------------------- what the marks do

  /** Bit a is the mark of coefficient a, and bit 15 that of all from the fifteenth on. */
  lemma {:induction false} MarkBits(cbm: bv16, a: nat)
    ensures a == 0 ==> (ConstBit(cbm, a) <==> cbm & 1 != 0)
    ensures 0 < a < 15 ==> (ConstBit(cbm, a) <==> ConstBit(cbm >> 1, a - 1))
    ensures a >= 15 ==> (ConstBit(cbm, a) <==> cbm & 0x8000 != 0)
  {
  }

  /** The list without any marks. */
  function Cleared(fs: seq<SubFilter>): (gs: seq<SubFilter>)
    ensures |gs| == |fs| && forall i :: 0 <= i < |gs| ==> gs[i] == fs[i].(cbm := 0)
  {
    seq(|fs|, i requires 0 <= i < |fs| => fs[i].(cbm := 0))
  }

  /** The elements of xs at the places kept. */
  function Kept(xs: seq<real>, keep: seq<bool>): seq<real>
    requires |keep| == |xs|
  {
    if |xs| == 0 then [] else (if keep[0] then [xs[0]] else []) + Kept(xs[1..], keep[1..])
  }

  lemma {:induction false} KeptSplit(xs: seq<real>, ys: seq<real>, keep: seq<bool>, more: seq<bool>)
    requires |keep| == |xs| && |more| == |ys|
    ensures Kept(xs + ys, keep + more) == Kept(xs, keep) + Kept(ys, more)
    decreases |xs|
  {
    if |xs| == 0 {
      assert xs + ys == ys && keep + more == more;
    } else {
      KeptSplit(xs[1..], ys, keep[1..], more);
      assert (xs + ys)[1..] == xs[1..] + ys && (keep + more)[1..] == keep[1..] + more;
      Regroup(if keep[0] then [xs[0]] else [], Kept(xs[1..], keep[1..]), Kept(ys, more));
    }
  }

  /** For every coefficient of a half, but for the head of an IIR, whether it is free of a mark. */
  function FreeOf(k: nat, from: nat, half: SubFilter, bare: SubFilter): seq<bool> {
    if from <= k < |half.val| && !ConstBit(bare.cbm, k) then [!ConstBit(half.cbm, k)] else []
  }

  function Free(k: nat, iir: SubFilter, fir: SubFilter, bareI: SubFilter, bareF: SubFilter): seq<bool> {
    FreeOf(k, 1, iir, bareI) + FreeOf(k, 0, fir, bareF) + (if k > 0 then Free(k - 1, iir, fir, bareI, bareF) else [])
  }

  function FreeAll(fs: seq<SubFilter>): seq<bool>
    requires Runnable(fs)
    decreases |fs|
  {
    if |fs| == 0 then []
    else
      assert Runs(fs[0]);
      if Single(fs[0]) then FreeAll(fs[1..])
      else
        Free(Top(HalfI(fs), HalfF(fs)), HalfI(fs), HalfF(fs), HalfI(Cleared(fs)), HalfF(Cleared(fs))) + FreeAll(fs[Taken(fs)..])
  }

  /** The same half without its marks; the default half keeps them. */
  predicate Bare(half: SubFilter, bare: SubFilter) {
    bare.val == half.val && (bare.cbm == 0 || bare == half)
  }

  lemma {:induction false} PairMarked(k: nat, iir: SubFilter, fir: SubFilter, bareI: SubFilter, bareF: SubFilter, adj: real)
    requires Bare(iir, bareI) && Bare(fir, bareF)
    ensures var all, free := Dump(k, bareI, bareF, adj), Free(k, iir, fir, bareI, bareF);
      |free| == |all| && Dump(k, iir, fir, adj) == Kept(all, free)
    decreases k
  {
    hide ConstBit, Kept, Times, DumpI, DumpF, FreeOf;
    HalvesMarked(k, iir, fir, bareI, bareF, adj);
    var i, f, a, b := DumpI(k, bareI, adj), DumpF(k, bareF), FreeOf(k, 1, iir, bareI), FreeOf(k, 0, fir, bareF);
    KeptSplit(i, f, a, b);
    if k > 0 {
      PairMarked(k - 1, iir, fir, bareI, bareF, adj);
      KeptSplit(i + f, Dump(k - 1, bareI, bareF, adj), a + b, Free(k - 1, iir, fir, bareI, bareF));
    } else {
      assert i + f + [] == i + f && a + b + [] == a + b;
      assert DumpI(k, iir, adj) + DumpF(k, fir) + [] == DumpI(k, iir, adj) + DumpF(k, fir);
    }
  }

  lemma {:induction false} HalvesMarked(k: nat, iir: SubFilter, fir: SubFilter, bareI: SubFilter, bareF: SubFilter, adj: real)
    requires Bare(iir, bareI) && Bare(fir, bareF)
    ensures |FreeOf(k, 1, iir, bareI)| == |DumpI(k, bareI, adj)| && DumpI(k, iir, adj) == Kept(DumpI(k, bareI, adj), FreeOf(k, 1, iir, bareI))
    ensures |FreeOf(k, 0, fir, bareF)| == |DumpF(k, bareF)| && DumpF(k, fir) == Kept(DumpF(k, bareF), FreeOf(k, 0, fir, bareF))
  {
    hide ConstBit, Times;
    ConstBits(k);
  }

  lemma {:induction false} ClearedHalves(fs: seq<SubFilter>)
    requires |fs| > 0
    ensures Single(Cleared(fs)[0]) == Single(fs[0]) && Taken(Cleared(fs)) == Taken(fs)
    ensures Bare(HalfI(fs), HalfI(Cleared(fs))) && Bare(HalfF(fs), HalfF(Cleared(fs)))
    ensures Cleared(fs)[1..] == Cleared(fs[1..]) && Cleared(fs)[Taken(fs)..] == Cleared(fs[Taken(fs)..])
  {
  }

  /** The dump of a list with marks is that of the list without, the marked coefficients left
      out. */
  lemma {:induction false} MarkedLeftOut(fs: seq<SubFilter>)
    requires Runnable(fs)
    ensures Runnable(Cleared(fs)) && |FreeAll(fs)| == |DumpAll(Cleared(fs))|
    ensures DumpAll(fs) == Kept(DumpAll(Cleared(fs)), FreeAll(fs))
    decreases |fs|
  {
    hide *;
    ClearedRuns(fs);
    if |fs| == 0 {
      NothingMarked(fs);
    } else {
      FirstRuns(fs);
      ClearedHalves(fs);
      var n := if Single(fs[0]) then 1 else Taken(fs);
      RestRuns(fs, n);
      MarkedLeftOut(fs[n..]);
      if Single(fs[0]) {
        SingleMarked(fs);
      } else {
        PairLeftOut(fs);
      }
    }
  }

  lemma {:induction false} ClearedRuns(fs: seq<SubFilter>)
    requires Runnable(fs)
    ensures Runnable(Cleared(fs))
  {
    forall i | 0 <= i < |fs| ensures Runs(Cleared(fs)[i]) { assert Runs(fs[i]); }
  }

  lemma {:induction false} FirstRuns(fs: seq<SubFilter>)
    requires Runnable(fs) && |fs| > 0
    ensures Runs(fs[0]) && Entry(fs[0]) && 0 < Taken(fs) <= |fs|
  {
    assert Runs(fs[0]);
  }

  lemma {:induction false} RestRuns(fs: seq<SubFilter>, n: nat)
    requires Runnable(fs) && n <= |fs|
    ensures Runnable(fs[n..])
  {
  }

  lemma {:induction false} NothingMarked(fs: seq<SubFilter>)
    requires |fs| == 0 && Runnable(Cleared(fs))
    ensures |FreeAll(fs)| == |DumpAll(Cleared(fs))| && DumpAll(fs) == Kept(DumpAll(Cleared(fs)), FreeAll(fs))
  {
  }

  lemma {:induction false} SingleMarked(fs: seq<SubFilter>)
    requires Runnable(fs) && |fs| > 0 && Single(fs[0]) && Runnable(Cleared(fs)) && Runnable(Cleared(fs[1..]))
    requires Single(Cleared(fs)[0]) && Cleared(fs)[1..] == Cleared(fs[1..])
    requires |FreeAll(fs[1..])| == |DumpAll(Cleared(fs[1..]))| && DumpAll(fs[1..]) == Kept(DumpAll(Cleared(fs[1..])), FreeAll(fs[1..]))
    ensures |FreeAll(fs)| == |DumpAll(Cleared(fs))| && DumpAll(fs) == Kept(DumpAll(Cleared(fs)), FreeAll(fs))
  {
    hide Dump, Free, Kept, Over, Cleared;
  }

  lemma {:induction false} PairLeftOut(fs: seq<SubFilter>)
    requires Runnable(fs) && |fs| > 0 && Entry(fs[0]) && !Single(fs[0]) && Runnable(Cleared(fs))
    requires var n := Taken(fs);
      && n <= |fs| && Runnable(fs[n..]) && Runnable(Cleared(fs[n..]))
      && |FreeAll(fs[n..])| == |DumpAll(Cleared(fs[n..]))| && DumpAll(fs[n..]) == Kept(DumpAll(Cleared(fs[n..])), FreeAll(fs[n..]))
    ensures |FreeAll(fs)| == |DumpAll(Cleared(fs))| && DumpAll(fs) == Kept(DumpAll(Cleared(fs)), FreeAll(fs))
  {
    hide Dump, Free, Kept, Over, ConstBit, HalfI, HalfF, Taken, FreeAll, DumpAll, Cleared;
    ClearedHalves(fs);
    FirstRuns(fs);
    var i, f, bareI, bareF, n := HalfI(fs), HalfF(fs), HalfI(Cleared(fs)), HalfF(Cleared(fs)), Taken(fs);
    HalvesRun(fs);
    var adj := Over(1.0, i.val[0]);
    PairMarked(Top(i, f), i, f, bareI, bareF, adj);
    KeptSplit(Dump(Top(i, f), bareI, bareF, adj), DumpAll(Cleared(fs[n..])), Free(Top(i, f), i, f, bareI, bareF), FreeAll(fs[n..]));
    DumpOfPair(fs);
    DumpOfPair(Cleared(fs));
    FreeOfPair(fs);
  }

  lemma {:induction false} HalvesRun(fs: seq<SubFilter>)
    requires Runnable(fs) && |fs| > 0
    ensures Entry(HalfI(fs)) && HalfI(fs).val[0] != 0.0
  {
    assert Runs(fs[0]);
  }

  lemma {:induction false} DumpOfPair(fs: seq<SubFilter>)
    requires Runnable(fs) && |fs| > 0 && Entry(fs[0]) && !Single(fs[0]) && Entry(HalfI(fs)) && HalfI(fs).val[0] != 0.0 && Taken(fs) <= |fs| && Runnable(fs[Taken(fs)..])
    ensures DumpAll(fs) == Dump(Top(HalfI(fs), HalfF(fs)), HalfI(fs), HalfF(fs), Over(1.0, HalfI(fs).val[0])) + DumpAll(fs[Taken(fs)..])
  {
    hide Dump, Over, HalfI, HalfF, Taken;
  }

  lemma {:induction false} FreeOfPair(fs: seq<SubFilter>)
    requires Runnable(fs) && |fs| > 0 && Entry(fs[0]) && !Single(fs[0]) && Entry(HalfI(fs)) && Taken(fs) <= |fs| && Runnable(fs[Taken(fs)..])
    ensures FreeAll(fs) == Free(Top(HalfI(fs), HalfF(fs)), HalfI(fs), HalfF(fs), HalfI(Cleared(fs)), HalfF(Cleared(fs))) + FreeAll(fs[Taken(fs)..])
  {
    hide Free, HalfI, HalfF, Taken, Cleared;
  }

  /** A pair with a mark on the middle coefficient of its IIR and on the last of its FIR. */
  lemma {:induction false} MarkedPair(a: real, b: real, c: real, d: real, e: real, g: real)
    requires a != 0.0
    ensures Dump(2, SubFilter(IIR, 2, [a, b, c]), SubFilter(FIR, 4, [d, e, g]), 1.0 / a) == [Times(1.0 / a, c), e, d]
  {
    hide Times;
    var i, f, adj := SubFilter(IIR, 2, [a, b, c]), SubFilter(FIR, 4, [d, e, g]), 1.0 / a;
    assert DumpI(2, i, adj) == [Times(adj, c)] && DumpF(2, f) == [];
    assert DumpI(1, i, adj) == [] && DumpF(1, f) == [e];
    assert DumpI(0, i, adj) == [] && DumpF(0, f) == [d];
    assert Dump(0, i, f, adj) == [d];
    assert Dump(1, i, f, adj) == [e, d];
  }

  // ------------------------------------------------------ agreement with the compiler

  /** No coefficient is marked constant. */
  predicate NoConstants(fs: seq<SubFilter>) {
    forall i :: 0 <= i < |fs| ==> fs[i].cbm == 0
  }

  /** The IIRs that are directly followed by a one-tap FIR. */
  function Followed(fs: seq<SubFilter>): nat {
    if |fs| == 0 then 0 else (if fs[0].typ == IIR && |fs| > 1 && Single(fs[1]) then 1 else 0) + Followed(fs[1..])
  }

  lemma {:induction false} ConstBits(a: nat)
    ensures !ConstBit(0, a)
    ensures a == 0 ==> ConstBit(ALL_CONST, a)
  {
  }

  /** Without constants, a pair's dump is its exact stage's coefficient list, and one more
      if its finite half is a plain gain. */
  lemma {:induction false} DumpIsCoefs(k: nat, i: SubFilter, f: SubFilter, adj: real, a: seq<real>, b: seq<real>)
    requires (i.cbm == 0 || i == NO_IIR) && (f.cbm == 0 || f == NO_FIR) && Entry(i) && Entry(f)
    requires |a| == |i.val| && |b| == |f.val| && (|b| > 1 ==> b == f.val)
    requires forall m :: 0 < m < |a| ==> a[m] == Times(adj, i.val[m])
    ensures Dump(k, i, f, adj) == CoefsFrom(k, a, b) + (if |f.val| == 1 && f.cbm == 0 then [f.val[0]] else [])
    decreases k
  {
    hide DumpI, DumpF;
    DumpHalves(k, i, f, adj, a, b);
    if k > 0 {
      DumpIsCoefs(k - 1, i, f, adj, a, b);
      Regroup(DumpI(k, i, adj) + DumpF(k, f), CoefsFrom(k - 1, a, b), if |f.val| == 1 && f.cbm == 0 then [f.val[0]] else []);
    }
  }

  lemma {:induction false} DumpHalves(k: nat, i: SubFilter, f: SubFilter, adj: real, a: seq<real>, b: seq<real>)
    requires (i.cbm == 0 || i == NO_IIR) && (f.cbm == 0 || f == NO_FIR) && Entry(i) && Entry(f)
    requires |a| == |i.val| && |b| == |f.val| && (|b| > 1 ==> b == f.val)
    requires forall m :: 0 < m < |a| ==> a[m] == Times(adj, i.val[m])
    ensures k > 0 ==> DumpI(k, i, adj) == (if k < |a| then [a[k]] else []) && DumpF(k, f) == (if k < |b| then [b[k]] else [])
    ensures DumpI(0, i, adj) == [] && DumpF(0, f) == (if f == NO_FIR then [] else [f.val[0]])
  {
    hide Times, ConstBit;
    ConstBits(k);
    ConstBits(0);
  }

  /** The coefficients a list asks for, by its lengths alone. */
  function CoefCount(fs: seq<SubFilter>): nat
    requires Entries(fs)
  {
    if |fs| == 0 then 0
    else
      assert Entry(fs[0]);
      (if fs[0].typ == IIR then |fs[0].val| - 1 else if Single(fs[0]) then 0 else |fs[0].val|) + CoefCount(fs[1..])
  }

  lemma {:induction false} CoefsLength(k: nat, a: seq<real>, b: seq<real>)
    requires |a| > 0 && |b| > 0
    ensures k + 1 >= |a| && k + 1 >= |b| ==> |CoefsFrom(k, a, b)| == |a| - 1 + (if |b| > 1 then |b| else 0)
    ensures |CoefsFrom(k, a, b)|
         == (if k < |a| then k else |a| - 1) + (if k < |b| then k else |b| - 1) + (if |b| > 1 then 1 else 0)
    decreases k
  {
    if k > 0 { CoefsLength(k - 1, a, b); }
  }

  lemma {:induction false} CodeCount(fs: seq<SubFilter>)
    requires Compilable(fs) && forall i :: 0 <= i < |fs| ==> !Single(fs[i])
    ensures |AllCoefs(Lowers(PairUp(fs)))| == CoefCount(fs)
    decreases |fs|
  {
    hide StageCoefs, Lower, CoefsFrom;
    if |fs| > 0 {
      var ps := PairUp(fs);
      assert Runs(fs[0]) && !Single(fs[0]);
      var used := if fs[0].typ == IIR && |fs| > 1 && fs[1].typ == FIR then 2 else 1;
      assert ps == [ps[0]] + PairUp(fs[used..]);
      if used == 2 { assert Runs(fs[1]) && !Single(fs[1]) && fs[1..][0] == fs[1] && fs[1..][1..] == fs[2..]; }
      CodeCount(fs[used..]);
      LowersHead(ps[0], PairUp(fs[used..]));
      LowerCount(ps[0]);
    }
  }

  lemma {:induction false} LowerCount(p: Pair)
    requires IsPair(p)
    ensures |StageCoefs(Lower(p))| == |p.iir| - 1 + (if |p.fir| > 1 then |p.fir| else 0)
  {
    var st := Lower(p);
    CoefsLength(Slots(st), st.a, st.b);
  }

  lemma {:induction false} CountWithoutSingles(fs: seq<SubFilter>)
    requires Compilable(fs)
    ensures CoefCount(NoSingles(fs)) == CoefCount(fs)
    decreases |fs|
  {
    if |fs| > 0 {
      assert Runs(fs[0]);
      CountWithoutSingles(fs[1..]);
      if !Single(fs[0]) { NoSinglesHead(fs); } else { assert NoSingles(fs) == NoSingles(fs[1..]); }
    }
  }

  /** The dump of the next pair, without constants. */
  lemma {:induction false} HeadDump(fs: seq<SubFilter>)
    requires Compilable(fs) && NoConstants(fs) && |fs| > 0 && !Single(fs[0])
    ensures Entry(HalfI(fs)) && HalfI(fs).val[0] != 0.0 && Entry(HalfF(fs)) && Taken(fs) <= |fs|
    ensures var i, f := HalfI(fs), HalfF(fs); var adj := Over(1.0, i.val[0]);
      Dump(Top(i, f), i, f, adj) == CoefsFrom(Top(i, f), Scale(adj, i.val), f.val) + (if |f.val| == 1 && f.cbm == 0 then [f.val[0]] else [])
  {
    assert Runs(fs[0]) && (|fs| > 1 ==> Runs(fs[1]));
    var i, f := HalfI(fs), HalfF(fs);
    var adj := Over(1.0, i.val[0]);
    DumpIsCoefs(Top(i, f), i, f, adj, Scale(adj, i.val), f.val);
  }

  /** A dump has one coefficient more than the code for every IIR that a plain gain follows
      directly. */
  lemma {:induction false} DumpCount(fs: seq<SubFilter>)
    requires Compilable(fs) && NoConstants(fs)
    ensures |DumpAll(fs)| == CoefCount(fs) + Followed(fs)
    decreases |fs|
  {
    hide Dump, CoefsFrom, Over;
    if |fs| > 0 {
      assert Runs(fs[0]);
      if Single(fs[0]) {
        DumpCount(fs[1..]);
      } else {
        HeadDump(fs);
        var i, f := HalfI(fs), HalfF(fs);
        CoefsLength(Top(i, f), Scale(Over(1.0, i.val[0]), i.val), f.val);
        DumpCount(fs[Taken(fs)..]);
        if Taken(fs) == 2 { assert Runs(fs[1]) && fs[1..][0] == fs[1] && fs[1..][1..] == fs[2..]; }
      }
    }
  }

  lemma {:induction false} ExactsHead(p: Pair, ps: seq<Pair>)
    requires IsPair(p) && ArePairs(ps)
    ensures ArePairs([p] + ps) && AllCoefs(Exacts([p] + ps)) == StageCoefs(Exact(p)) + AllCoefs(Exacts(ps))
  {
    assert Exacts([p] + ps)[1..] == Exacts(ps);
  }

  /** The pair the compiler takes next is the one the dump takes, if no plain gain stands
      between its halves. */
  lemma {:induction false} SamePairs(fs: seq<SubFilter>)
    requires Compilable(fs) && |fs| > 0 && !Single(fs[0]) && Followed(fs) == 0
    ensures Taken(fs) <= |fs| && Followed(fs[Taken(fs)..]) == 0
    ensures Pairs(fs) == [Pair(HalfI(fs).val, HalfF(fs).val)] + Pairs(fs[Taken(fs)..])
    ensures HalfF(fs) == NO_FIR || |HalfF(fs).val| > 1
  {
    assert Runs(fs[0]);
    if fs[0].typ == FIR {
      PairsFir(fs);
    } else {
      PairsIir(fs, fs[1..]);
      if Taken(fs) == 2 {
        assert Runs(fs[1]) && !Single(fs[1]) && fs[1..][0] == fs[1] && fs[1..][1..] == fs[2..];
      }
    }
  }

  lemma {:induction false} DumpIsExact(fs: seq<SubFilter>)
    requires Compilable(fs) && NoConstants(fs) && Followed(fs) == 0
    ensures DumpAll(fs) == AllCoefs(Exacts(Pairs(fs))) && DumpGain(fs) == Gain(fs)
    decreases |fs|
  {
    hide Dump, CoefsFrom, Over, Times, Pairs, Exacts, Exact, StageCoefs, AllCoefs, HalfI, HalfF, Taken;
    if |fs| == 0 {
      NothingDumped(fs);
    } else {
      assert Runs(fs[0]);
      if Single(fs[0]) {
        PairsSkip(fs);
        DumpIsExact(fs[1..]);
      } else {
        PairDumped(fs);
        SamePairs(fs);
        var rest := fs[Taken(fs)..];
        DumpIsExact(rest);
        ExactsHead(Pair(HalfI(fs).val, HalfF(fs).val), Pairs(rest));
        GainOfPair(fs);
      }
    }
  }

  lemma {:induction false} NothingDumped(fs: seq<SubFilter>)
    requires |fs| == 0
    ensures Compilable(fs) && DumpAll(fs) == AllCoefs(Exacts(Pairs(fs))) && DumpGain(fs) == Gain(fs)
  {
  }

  lemma {:induction false} PairDumped(fs: seq<SubFilter>)
    requires Compilable(fs) && NoConstants(fs) && |fs| > 0 && !Single(fs[0]) && Followed(fs) == 0
    ensures Taken(fs) <= |fs| && Compilable(fs[Taken(fs)..]) && NoConstants(fs[Taken(fs)..])
    ensures var p := Pair(HalfI(fs).val, HalfF(fs).val);
      IsPair(p) && DumpAll(fs) == StageCoefs(Exact(p)) + DumpAll(fs[Taken(fs)..])
    ensures HalfI(fs).val != [] && HalfI(fs).val[0] != 0.0
    ensures DumpGain(fs) == Times(Over(1.0, HalfI(fs).val[0]), DumpGain(fs[Taken(fs)..]))
  {
    hide Dump, CoefsFrom, Over, Times;
    assert Runs(fs[0]);
    HeadDump(fs);
    SamePairs(fs);
    var i, f := HalfI(fs), HalfF(fs);
    assert Dump(Top(i, f), i, f, Over(1.0, i.val[0])) == StageCoefs(Exact(Pair(i.val, f.val)));
  }

  lemma {:induction false} GainOfPair(fs: seq<SubFilter>)
    requires Compilable(fs) && |fs| > 0 && !Single(fs[0]) && Followed(fs) == 0
    ensures HalfI(fs).val != [] && HalfI(fs).val[0] != 0.0 && Taken(fs) <= |fs|
    ensures Gain(fs) == Times(Over(1.0, HalfI(fs).val[0]), Gain(fs[Taken(fs)..]))
  {
    assert Runs(fs[0]);
    var rest := fs[Taken(fs)..];
    TimesLaws(Gain(rest), 1.0, 1.0);
    assert Over(1.0, 1.0) == 1.0;
    if Taken(fs) == 2 {
      assert Runs(fs[1]) && !Single(fs[1]) && fs[1..][0] == fs[1] && fs[1..][1..] == rest;
    }
  }

  /** Coefficient lists determine the taps. */
  lemma {:induction false} CoefsInjective(k: nat, a: seq<real>, c: seq<real>, b: seq<real>, m: nat)
    requires |a| == |c| && CoefsFrom(k, a, b) == CoefsFrom(k, c, b) && 0 < m <= k && m < |a|
    ensures a[m] == c[m]
    decreases k
  {
    var n := (if k < |a| then 1 else 0) + (if k < |b| then 1 else 0);
    assert CoefsFrom(k, a, b)[n..] == CoefsFrom(k - 1, a, b) && CoefsFrom(k, c, b)[n..] == CoefsFrom(k - 1, c, b);
    if m == k {
      assert a[k] == CoefsFrom(k, a, b)[0] == CoefsFrom(k, c, b)[0] == c[k];
    } else {
      CoefsInjective(k - 1, a, c, b, m);
    }
  }

  lemma {:induction false} CoefsShowFaithfulness(ps: seq<Pair>)
    requires ArePairs(ps)
    ensures AllCoefs(Exacts(ps)) == AllCoefs(Lowers(ps)) <==> forall i :: 0 <= i < |ps| ==> Faithful(ps[i])
    decreases |ps|
  {
    hide Faithful, StageCoefs, Exact, Lower;
    if |ps| > 0 {
      var p, rest := ps[0], ps[1..];
      assert ps == [p] + rest;
      ExactsHead(p, rest);
      LowersHead(p, rest);
      CoefsShowFaithfulness(rest);
      PairShowsFaithfulness(p);
      var e, l := StageCoefs(Exact(p)), StageCoefs(Lower(p));
      assert (e + AllCoefs(Exacts(rest)))[..|e|] == e && (e + AllCoefs(Exacts(rest)))[|e|..] == AllCoefs(Exacts(rest));
      assert (l + AllCoefs(Lowers(rest)))[..|l|] == l && (l + AllCoefs(Lowers(rest)))[|l|..] == AllCoefs(Lowers(rest));
      assert forall i :: 0 < i < |ps| ==> ps[i] == rest[i - 1];
    }
  }

  lemma {:induction false} PairShowsFaithfulness(p: Pair)
    requires IsPair(p)
    ensures |StageCoefs(Exact(p))| == |StageCoefs(Lower(p))|
    ensures StageCoefs(Exact(p)) == StageCoefs(Lower(p)) <==> Faithful(p)
  {
    hide CoefsFrom, Faithful;
    var e, l := Exact(p), Lower(p);
    FaithfulIffExact(p);
    CoefsLength(Slots(e), e.a, e.b);
    CoefsLength(Slots(l), l.a, l.b);
    if StageCoefs(e) == StageCoefs(l) && |p.iir| > 1 {
      CoefsInjective(Slots(e), e.a, l.a, e.b, 1);
      assert l.a == e.a[1 := l.a[1]] == e.a;
    }
  }

  /** For lists without constants, the dump equals the compiler's coefficient list (without
      its gain) if and only if no IIR is directly followed by a plain gain and every pair's
      unscaled coefficient would not change by scaling; the gains then agree too. */
  lemma {:induction false} DumpAgreesIff(fs: seq<SubFilter>)
    requires Compilable(fs) && NoConstants(fs)
    ensures DumpAll(fs) == AllCoefs(Lowers(Pairs(fs)))
            <==> Followed(fs) == 0 && forall i :: 0 <= i < |Pairs(fs)| ==> Faithful(Pairs(fs)[i])
    ensures Followed(fs) == 0 ==> DumpGain(fs) == Gain(fs)
  {
    hide Faithful, DumpAll, DumpGain, Gain;
    DumpCount(fs);
    CodeCount(NoSingles(fs));
    CountWithoutSingles(fs);
    if Followed(fs) == 0 {
      DumpIsExact(fs);
      CoefsShowFaithfulness(Pairs(fs));
    }
  }

  /** An IIR followed by a gain, and an IIR whose second coefficient the code does not scale:
      the dump is not what the code reads. */
  lemma {:induction false} DumpDiffers()
    ensures var fs := [SubFilter(IIR, 0, [1.0, 1.0]), SubFilter(FIR, 0, [2.0])];
      Compilable(fs) && NoConstants(fs) && DumpAll(fs) != AllCoefs(Lowers(Pairs(fs)))
    ensures var fs := [SubFilter(IIR, 0, [2.0, 1.0])];
      Compilable(fs) && NoConstants(fs) && DumpAll(fs) != AllCoefs(Lowers(Pairs(fs)))
  {
    hide DumpAll, Lowers, AllCoefs, Lower;
    var fs := [SubFilter(IIR, 0, [1.0, 1.0]), SubFilter(FIR, 0, [2.0])];
    assert Followed(fs) == 1 + Followed(fs[1..]);
    DumpAgreesIff(fs);
    var gs := [SubFilter(IIR, 0, [2.0, 1.0])];
    assert gs[1..] == [] && NoSingles(gs) == [gs[0]] + NoSingles([]) == gs;
    assert Pairs(gs)[0] == Pair([2.0, 1.0], [1.0]);
    DumpAgreesIff(gs);
  }
}
