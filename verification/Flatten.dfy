/** Merging a filter list into one IIR/FIR pair by convolving coefficient lists in place. */
module Flatten {
  import opened Signals
  import opened Filters

  /** One coefficient of the product, from entries of dst that have not been overwritten. */
  method Coefficient(dst: array<real>, nDst: nat, src: seq<real>, a: nat, ghost before: seq<real>) returns (val: real)
    requires nDst == |before| <= dst.Length && forall k :: 0 <= k < nDst && k <= a ==> dst[k] == before[k]
    ensures val == FirAt(src, before, a)
  {
    hide FirAt;
    val := 0.0;
    var b := 0;
    FirNone(src[..0], before);
    while b < |src|
      invariant 0 <= b <= |src|
      invariant val == FirAt(src[..b], before, a)
    {
      FirSnoc(src, b, before, a);
      assert 0 <= a - b < nDst ==> dst[a - b] == before[a - b];
      if a - b >= 0 && a - b < nDst {
        val := val + src[b] * dst[a - b];
      }
      b := b + 1;
    }
    assert src[..b] == src;
  }

  /** Multiplies the first nDst entries of dst by src, overwriting its own input from the
      top down. */
  method Convolve(dst: array<real>, nDst: nat, src: seq<real>) returns (len: nat)
    requires nDst > 0 && |src| > 0 && nDst + |src| - 1 <= dst.Length
    modifies dst
    ensures len == nDst + |src| - 1
    ensures dst[..len] == Product(src, old(dst[..nDst]))
    ensures dst[len..] == old(dst[len..])
  {
    hide FirAt;
    len := nDst + |src| - 1;
    ghost var before := dst[..nDst];
    ghost var above := dst[len..];
    var a := len - 1;
    while a >= 0
      invariant -1 <= a < len
      invariant forall k :: 0 <= k < nDst && k <= a ==> dst[k] == before[k]
      invariant forall k :: a < k < len ==> dst[k] == FirAt(src, before, k)
      invariant dst[len..] == above
    {
      var val := Coefficient(dst, nDst, src, a, before);
      dst[a] := val;
      a := a - 1;
    }
  }

  /** The merged pair: one IIR with head 1 and one FIR. */
  function Flattened(fs: seq<SubFilter>): (pair: seq<SubFilter>)
    requires Runnable(fs)
    ensures Runnable(pair)
  {
    HeadOfProduct(IIR, [1.0], fs);
    var adj := 1.0 / Denominator(fs)[0];
    [SubFilter(IIR, 0, Scale(adj, Denominator(fs))), SubFilter(FIR, 0, Scale(adj, Numerator(fs)))]
  }

  /** The pair is an IIR and a FIR with no constant marks; the IIR has head 1, and times the head
      of the denominator the coefficients are those of the two products. */
  lemma {:induction false} FlattenedHead(fs: seq<SubFilter>)
    requires Runnable(fs)
    ensures var den, num, pair := Denominator(fs), Numerator(fs), Flattened(fs);
      && |pair| == 2 && pair[0].typ == IIR && pair[1].typ == FIR && pair[0].cbm == 0 && pair[1].cbm == 0
      && |pair[0].val| == |den| == 1 + Growth(IIR, fs) && |pair[1].val| == |num| == 1 + Growth(FIR, fs)
      && pair[0].val[0] == 1.0
      && (forall k :: 0 <= k < |den| ==> den[0] * pair[0].val[k] == den[k])
      && (forall k :: 0 <= k < |num| ==> den[0] * pair[1].val[k] == num[k])
  {
    hide Growth, ProductOf;
    HeadOfProduct(IIR, [1.0], fs);
    Divided(Denominator(fs)[0], Denominator(fs));
    Divided(Denominator(fs)[0], Numerator(fs));
  }

  lemma {:induction false} Divided(d: real, xs: seq<real>)
    requires d != 0.0
    ensures forall k :: 0 <= k < |xs| ==> d * Scale(1.0 / d, xs)[k] == xs[k]
    ensures |xs| > 0 && xs[0] == d ==> Scale(1.0 / d, xs)[0] == 1.0
  {
    forall k | 0 <= k < |xs| ensures d * Scale(1.0 / d, xs)[k] == xs[k] {
      DividedBy(d, xs[k]);
    }
  }

  lemma {:induction false} DividedBy(d: real, x: real)
    requires d != 0.0
    ensures d * (1.0 / d * x) == x
  {
    var r := 1.0 / d;
    assert d * r == 1.0;
    assert d * (r * x) == d * r * x;
  }

  /** A pair runs as the one difference equation a*y == b*x. */
  lemma {:induction false} PairLaw(a: seq<real>, b: seq<real>, x: seq<real>, z: seq<real>)
    requires |a| > 0 && a[0] != 0.0 && |z| == |x|
    requires forall n :: 0 <= n < |x| ==> FirAt(a, z, n) == FirAt(b, x, n)
    ensures z == Fir(b, Iir(a, x))
  {
    var y := Iir(a, x);
    forall n | 0 <= n < |x| ensures FirAt(a, Fir(b, y), n) == Fir(b, x)[n] {
      forall m | 0 <= m < |x| ensures Fir(a, y)[m] == x[m] { IirSolves(a, x, m); }
      assert Fir(a, y) == x;
      FirExchange(a, b, y, n);
    }
    IirUnique(a, Fir(b, x), Fir(b, y));
    IirUnique(a, Fir(b, x), z);
  }

  /** Flattening preserves behaviour: on every input the pair gives the output of the
      cascade it was made from. */
  lemma {:induction false} FlattenedRunsAlike(fs: seq<SubFilter>, x: seq<real>)
    requires Runnable(fs)
    ensures Cascade(Flattened(fs), x) == Cascade(fs, x)
  {
    var den, num, z := Denominator(fs), Numerator(fs), Cascade(fs, x);
    HeadOfProduct(IIR, [1.0], fs);
    var adj := 1.0 / den[0];
    forall n | 0 <= n < |x| ensures FirAt(Scale(adj, den), z, n) == FirAt(Scale(adj, num), x, n) {
      calc {
        FirAt(Scale(adj, den), z, n);
        { CoefficientsScaled(adj, den, z, n); }
        adj * FirAt(den, z, n);
        { CascadeLaw(fs, x, n); }
        adj * FirAt(num, x, n);
        { CoefficientsScaled(adj, num, x, n); }
        FirAt(Scale(adj, num), x, n);
      }
    }
    PairLaw(Scale(adj, den), Scale(adj, num), x, z);
    PairCascade(Flattened(fs)[0], Flattened(fs)[1], x);
  }

  lemma {:induction false} PairCascade(f: SubFilter, g: SubFilter, x: seq<real>)
    requires Runs(f) && Runs(g)
    ensures Cascade([f, g], x) == Apply(g, Apply(f, x))
  {
    assert [f, g][1..] == [g];
    assert Cascade([g], Apply(f, x)) == Cascade([], Apply(g, Apply(f, x)));
  }

  /** The sizes of the two merged lists, or the error for an unknown type. */
  method FlatSizes(filt: seq<SubFilter>) returns (r: Result<(nat, nat)>)
    requires Entries(filt)
    ensures r.Ok? <==> forall i :: 0 <= i < |filt| ==> KnownType(filt[i])
    ensures r.Ok? ==> r.value == (1 + Growth(IIR, filt), 1 + Growth(FIR, filt))
  {
    var mFir, mIir := 1, 1;
    var i := 0;
    while i < |filt|
      invariant 0 <= i <= |filt|
      invariant forall k :: 0 <= k < i ==> KnownType(filt[k])
      invariant mIir >= 1 && mIir + Growth(IIR, filt[i..]) == 1 + Growth(IIR, filt)
      invariant mFir >= 1 && mFir + Growth(FIR, filt[i..]) == 1 + Growth(FIR, filt)
    {
      assert Entry(filt[i]);
      if filt[i].typ == IIR {
        mIir := mIir + |filt[i].val| - 1;
      } else if filt[i].typ == FIR {
        mFir := mFir + |filt[i].val| - 1;
      } else {
        return Err("fid_flatten doesn't know about type");
      }
      i := i + 1;
    }
    r := Ok((mIir, mFir));
  }

  /** Convolves every filter of the list into one of the two products. */
  method Merge(filt: seq<SubFilter>, iir: array<real>, fir: array<real>)
    requires Runnable(filt) && iir != fir && iir.Length == 1 + Growth(IIR, filt) && fir.Length == 1 + Growth(FIR, filt)
    modifies iir, fir
    ensures iir[..] == Denominator(filt) && fir[..] == Numerator(filt)
  {
    hide ProductOf, Growth, FirAt, Product;
    iir[0], fir[0] := 1.0, 1.0;
    var nIir, nFir := 1, 1;
    assert iir[..1] == [1.0] && fir[..1] == [1.0];
    var i := 0;
    assert filt[0..] == filt;
    while i < |filt|
      invariant 0 <= i <= |filt|
      invariant nIir >= 1 && nIir + Growth(IIR, filt[i..]) == iir.Length
      invariant nFir >= 1 && nFir + Growth(FIR, filt[i..]) == fir.Length
      invariant ProductOf(IIR, iir[..nIir], filt[i..]) == Denominator(filt)
      invariant ProductOf(FIR, fir[..nFir], filt[i..]) == Numerator(filt)
    {
      var ff := filt[i];
      FoldStep(IIR, iir[..nIir], filt, i);
      FoldStep(FIR, fir[..nFir], filt, i);
      if ff.typ == IIR {
        nIir := Convolve(iir, nIir, ff.val);
      } else {
        nFir := Convolve(fir, nFir, ff.val);
      }
      i := i + 1;
    }
    FoldEnd(IIR, iir[..nIir], filt[i..]);
    FoldEnd(FIR, fir[..nFir], filt[i..]);
    assert iir[..] == iir[..nIir] && fir[..] == fir[..nFir];
  }

  /** Merges a list into one pair.  The only error is an unknown type; the size check
      after the convolutions cannot fail. */
  method FidFlatten(filt: seq<SubFilter>) returns (r: Result<seq<SubFilter>>)
    requires Entries(filt)
    requires forall i :: 0 <= i < |filt| && filt[i].typ == IIR ==> filt[i].val[0] != 0.0
    ensures r.Ok? <==> forall i :: 0 <= i < |filt| ==> KnownType(filt[i])
    ensures r.Ok? ==> Runnable(filt) && r.value == Flattened(filt)
    ensures r.Ok? ==>
      var den, num := Denominator(filt), Numerator(filt);
      && |r.value| == 2 && r.value[0].typ == IIR && r.value[1].typ == FIR
      && |r.value[0].val| == 1 + Growth(IIR, filt) == |den| && |r.value[1].val| == 1 + Growth(FIR, filt) == |num|
      && r.value[0].val[0] == 1.0
      && (forall k :: 0 <= k < |den| ==> den[0] * r.value[0].val[k] == den[k])
      && (forall k :: 0 <= k < |num| ==> den[0] * r.value[1].val[k] == num[k])
  {
    hide ProductOf, Growth, FirAt, Flattened;
    var sizes := FlatSizes(filt);
    if sizes.Err? {
      return Err(sizes.error);
    }
    var (mIir, mFir) := sizes.value;
    assert Runnable(filt);
    var iir, fir := new real[mIir], new real[mFir];
    Merge(filt, iir, fir);
    var pair := Normalise(filt, iir, fir);
    FlattenedHead(filt);
    r := Ok(pair);
  }

  /** Divides both products by the head of the first. */
  method Normalise(filt: seq<SubFilter>, iir: array<real>, fir: array<real>) returns (pair: seq<SubFilter>)
    requires Runnable(filt) && iir != fir && iir[..] == Denominator(filt) && fir[..] == Numerator(filt)
    modifies iir, fir
    ensures pair == Flattened(filt)
  {
    hide ProductOf;
    HeadOfProduct(IIR, [1.0], filt);
    var adj := 1.0 / iir[0];
    ScaleInPlace(adj, iir);
    ScaleInPlace(adj, fir);
    pair := [SubFilter(IIR, 0, iir[..]), SubFilter(FIR, 0, fir[..])];
  }

  /** One filter further, on either side. */
  lemma {:induction false} FoldStep(t: char, acc: seq<real>, filt: seq<SubFilter>, i: nat)
    requires Runnable(filt) && i < |filt| && |acc| > 0
    ensures |filt[i].val| > 0 && (filt[i].typ == IIR || filt[i].typ == FIR)
    ensures ProductOf(t, acc, filt[i..]) == ProductOf(t, if filt[i].typ == t then Product(filt[i].val, acc) else acc, filt[i + 1..])
    ensures Growth(t, filt[i..]) == Growth(t, filt[i + 1..]) + (if filt[i].typ == t then |filt[i].val| - 1 else 0)
  {
    assert Runs(filt[i]) && filt[i..][0] == filt[i] && filt[i..][1..] == filt[i + 1..];
  }

  lemma {:induction false} FoldEnd(t: char, acc: seq<real>, filt: seq<SubFilter>)
    requires |filt| == 0 && |acc| > 0
    ensures ProductOf(t, acc, filt) == acc && Growth(t, filt) == 0
  {
  }

  method ScaleInPlace(adj: real, v: array<real>)
    modifies v
    ensures v[..] == Scale(adj, old(v[..]))
  {
    ghost var before := v[..];
    var a := 0;
    while a < v.Length
      invariant 0 <= a <= v.Length
      invariant forall k :: 0 <= k < a ==> v[k] == adj * before[k]
      invariant forall k :: a <= k < v.Length ==> v[k] == before[k]
    {
      v[a] := v[a] * adj;
      a := a + 1;
    }
    assert forall k :: 0 <= k < v.Length ==> v[..][k] == Scale(adj, before)[k];
  }
}
