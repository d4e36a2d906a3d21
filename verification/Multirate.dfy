/** Sample rate conversion: polyphase forms of "filter, then keep every M-th sample" and of
    "stuff with zeros, then filter". */
module Multirate {
  import opened Blocks
  import opened Signals

  /** Moves n elements from src up to dst, as memmove does. */
  method MoveUp(a: array<real>, dst: nat, src: nat, n: nat)
    requires src + n <= a.Length && dst + n <= a.Length
    modifies a
    ensures forall k :: 0 <= k < a.Length ==> a[k] == if dst <= k < dst + n then old(a[src + k - dst]) else old(a[k])
  {
    forall i | 0 <= i < n {
      a[dst + i] := a[src + i];
    }
  }

  // --------------------------------------------------------------------- decimation

  /** x filtered by h, every m-th sample kept. */
  function Decimated(h: seq<real>, m: nat, x: seq<real>): (y: seq<real>)
    requires m > 0
    ensures |y| == |x| / m
  {
    seq(|x| / m, j requires 0 <= j < |x| / m => FirAt(h, x, By(m, j + 1) - 1))
  }

  /** Whole blocks decided before more input arrives stay as they are. */
  lemma {:induction false} DecimatedGrows(h: seq<real>, m: nat, x: seq<real>, more: seq<real>)
    requires m > 0 && |x| % m == 0 && |more| == m
    ensures Decimated(h, m, x + more) == Decimated(h, m, x) + [FirAt(h, x + more, |x| + m - 1)]
  {
    hide By, FirAt;
    OneMore(|x|, m);
    var y, z := Decimated(h, m, x), Decimated(h, m, x + more);
    forall j | 0 <= j < |y| ensures z[j] == y[j] {
      ByMonotone(m, j + 1, |x| / m);
      FirPrefix(h, x + more, x, By(m, j + 1) - 1);
    }
  }

  class Decimator {
    const m: nat
    const h: seq<real>
    const z: array<real>
    ghost var fed: seq<real>

    /** The delay line holds the newest input first. */
    ghost predicate Valid()
      reads this, z
    {
      && 0 < m <= |h| == z.Length && |fed| % m == 0
      && forall k :: 0 <= k < z.Length ==> z[k] == At(fed, |fed| - 1 - k)
    }

    constructor (m: nat, h: seq<real>)
      requires 0 < m <= |h|
      ensures Valid() && this.m == m && this.h == h && fed == [] && fresh(z)
    {
      this.m, this.h := m, h;
      z := new real[|h|](_ => 0.0);
      fed := [];
    }

    /** Puts one block at the head of the delay line, newest sample first. */
    method Shift(block: seq<real>)
      requires Valid() && |block| == m
      modifies this, z
      ensures Valid() && fed == old(fed) + block
    {
      MoveUp(z, m, 0, |h| - m);
      ghost var moved := z[..];
      var tap := m;
      while tap > 0
        invariant 0 <= tap <= m && fed == old(fed)
        invariant forall k :: m <= k < z.Length ==> z[k] == moved[k]
        invariant forall k :: tap <= k < m ==> z[k] == block[m - 1 - k]
      {
        tap := tap - 1;
        z[tap] := block[m - 1 - tap];
      }
      OneMore(|fed|, m);
      assert forall k :: m <= k < z.Length ==> z[k] == At(fed, |fed| - 1 - (k - m));
      fed := fed + block;
    }

    /** The sum of products over the delay line. */
    method Sum() returns (sum: real)
      requires Valid()
      ensures sum == FirAt(h, fed, |fed| - 1)
    {
      sum := 0.0;
      var tap := 0;
      assert h[0..] == h;
      while tap < |h|
        invariant 0 <= tap <= |h|
        invariant sum + FirAt(h[tap..], fed, |fed| - 1 - tap) == FirAt(h, fed, |fed| - 1)
      {
        assert h[tap..][1..] == h[tap + 1..];
        sum := sum + h[tap] * z[tap];
        tap := tap + 1;
      }
    }

    method ProcessSamples(dest: array<real>, at: nat, src: seq<real>)
      requires Valid() && |src| % m == 0 && at + |src| / m <= dest.Length && dest != z
      modifies this, z, dest
      ensures Valid() && fed == old(fed) + src
      ensures forall k :: 0 <= k < at || at + |src| / m <= k < dest.Length ==> dest[k] == old(dest[k])
      ensures Decimated(h, m, fed) == Decimated(h, m, old(fed)) + dest[at..at + |src| / m]
    {
      hide By, FirAt, Decimated;
      var numOut, pos := 0, 0;
      ghost var was := fed;
      assert src[..0] == [] && dest[at..at] == [] && was + [] == was;
      Euclid(|src|, m);
      ByNext(m, 0);
      while |src| - pos >= m
        invariant 0 <= pos <= |src| && pos == By(m, numOut) && 0 <= numOut <= |src| / m
        invariant Valid() && fed == was + src[..pos]
        invariant forall k :: 0 <= k < at || at + numOut <= k < dest.Length ==> dest[k] == old(dest[k])
        invariant Decimated(h, m, fed) == Decimated(h, m, was) + dest[at..at + numOut]
      {
        ghost var done, prior := fed, dest[at..at + numOut];
        BlockFits(numOut, |src|, m);
        Shift(src[pos..pos + m]);
        assert src[..pos + m] == src[..pos] + src[pos..pos + m];
        DecimatedGrows(h, m, done, src[pos..pos + m]);
        var sum := Sum();
        dest[at + numOut] := sum;
        assert dest[at..at + numOut + 1] == prior + [sum];
        numOut, pos := numOut + 1, pos + m;
      }
      AllBlocks(numOut, |src|, m);
      assert src[..pos] == src;
    }
  }

  lemma {:induction false} BlockFits(q: nat, n: nat, m: nat)
    requires m > 0 && By(m, q) + m <= n
    ensures q < n / m && By(m, q + 1) == By(m, q) + m
  {
    hide By;
    ByNext(m, q);
    Below(n, m, q + 1);
  }

  lemma {:induction false} AllBlocks(q: nat, n: nat, m: nat)
    requires m > 0 && n % m == 0 && q <= n / m && n < By(m, q) + m
    ensures By(m, q) == n && q == n / m
  {
    hide By;
    ByNext(m, q);
    Below(n, m, q + 1);
    Euclid(n, m);
  }

  // -------------------------------------------------------------------- interpolation

  /** Each sample of u followed by l - 1 zeros. */
  function Stuffed(l: nat, u: seq<real>): (v: seq<real>)
    requires l > 0
    ensures |v| == By(l, |u|)
  {
    seq(By(l, |u|), n requires 0 <= n < By(l, |u|) => if n % l == 0 then At(u, n / l) else 0.0)
  }

  /** u stuffed with zeros and filtered by h, the gain made up for. */
  function Interpolated(h: seq<real>, l: nat, u: seq<real>): (y: seq<real>)
    requires l > 0
    ensures |y| == By(l, |u|)
  {
    Scale(l as real, Fir(h, Stuffed(l, u)))
  }

  /** Every l-th coefficient from p on, t of them. */
  function Phase(h: seq<real>, l: nat, p: nat, t: nat): (g: seq<real>)
    requires p < l && By(l, t) <= |h|
    ensures |g| == t
  {
    seq(t, k requires 0 <= k < t => InPhase(h, l, p, t, k))
  }

  function InPhase(h: seq<real>, l: nat, p: nat, t: nat, k: nat): real
    requires p < l && By(l, t) <= |h| && k < t
  {
    ByNext(l, k);
    ByMonotone(l, k + 1, t);
    h[By(l, k) + p]
  }

  lemma {:induction false} FirSplit(a: seq<real>, b: seq<real>, y: seq<real>, n: int)
    ensures FirAt(a + b, y, n) == FirAt(a, y, n) + FirAt(b, y, n - |a|)
    decreases |a|
  {
    if |a| == 0 {
      assert a + b == b;
    } else {
      assert (a + b)[1..] == a[1..] + b;
      FirSplit(a[1..], b, y, n - 1);
    }
  }

  /** Only the coefficient p meets a sample that is not zero. */
  lemma {:induction false} OneTap(a: seq<real>, y: seq<real>, n: int, p: int)
    requires forall m :: n - |a| < m <= n && m != n - p ==> At(y, m) == 0.0
    ensures FirAt(a, y, n) == if 0 <= p < |a| then a[p] * At(y, n - p) else 0.0
    decreases |a|
  {
    if |a| > 0 {
      OneTap(a[1..], y, n - 1, p - 1);
      if p != 0 { assert At(y, n) == 0.0; }
    }
  }

  lemma {:induction false} StuffedAt(l: nat, u: seq<real>, i: int, r: int)
    requires r < l && -r < l
    ensures At(Stuffed(l, u), By(l, i) + r) == if r == 0 then At(u, i) else 0.0
  {
    hide By;
    var n := By(l, i) + r;
    if 0 <= n < By(l, |u|) {
      var q := if r < 0 then i - 1 else i;
      ByNext(l, i);
      Divides(n, l, q, if r < 0 then l + r else r);
      Below(n, l, |u|);
      assert Stuffed(l, u)[n] == if n % l == 0 then At(u, n / l) else 0.0;
    } else if r == 0 && 0 <= i < |u| {
      ByNext(l, i);
      ByMonotone(l, 0, i);
      ByMonotone(l, i + 1, |u|);
    }
  }

  /** One phase of the filter over the plain input is the filter over the stuffed input. */
  lemma {:induction false} Polyphase(h: seq<real>, l: nat, p: nat, t: nat, u: seq<real>, i: int)
    requires p < l && By(l, t) == |h|
    ensures FirAt(h, Stuffed(l, u), By(l, i) + p) == FirAt(Phase(h, l, p, t), u, i)
    decreases t
  {
    hide By, Stuffed, FirAt;
    ByNext(l, 0);
    if t == 0 {
      FirNothing(h, Stuffed(l, u), By(l, i) + p);
      FirNothing(Phase(h, l, p, t), u, i);
    } else {
      var v := Stuffed(l, u);
      ByNext(l, t - 1);
      ByMonotone(l, 0, t - 1);
      ByNext(l, i - 1);
      var a, b := h[..l], h[l..];
      assert h == a + b;
      FirSplit(a, b, v, By(l, i) + p);
      var n := By(l, i);
      forall m | n + p - l < m <= n + p && m != n ensures At(v, m) == 0.0 {
        StuffedAt(l, u, i, m - n);
      }
      OneTap(a, v, n + p, p);
      StuffedAt(l, u, i, 0);
      assert At(v, n) == At(u, i) && a[p] == h[p];
      PhaseTail(h, l, p, t);
      var f := Phase(h, l, p, t);
      calc {
        FirAt(h, v, n + p);
        FirAt(a, v, n + p) + FirAt(b, v, n + p - l);
        h[p] * At(u, i) + FirAt(b, v, n + p - l);
        { assert n + p - l == By(l, i - 1) + p; Polyphase(b, l, p, t - 1, u, i - 1); }
        h[p] * At(u, i) + FirAt(Phase(b, l, p, t - 1), u, i - 1);
        f[0] * At(u, i) + FirAt(f[1..], u, i - 1);
        { FirStep(f, u, i); }
        FirAt(f, u, i);
      }
    }
  }

  lemma {:induction false} PhaseTail(h: seq<real>, l: nat, p: nat, t: nat)
    requires p < l && By(l, t) <= |h| && t > 0 && l <= |h| && By(l, t - 1) <= |h| - l
    ensures Phase(h, l, p, t)[0] == h[p] && Phase(h, l, p, t)[1..] == Phase(h[l..], l, p, t - 1)
  {
    hide By;
    ByNext(l, 0);
    var head, tail := Phase(h, l, p, t), Phase(h[l..], l, p, t - 1);
    forall k | 1 <= k < t ensures head[k] == tail[k - 1] {
      ByNext(l, k - 1);
      ByNext(l, k);
      ByMonotone(l, 0, k - 1);
      ByMonotone(l, k + 1, t);
      assert h[l..][By(l, k - 1) + p] == h[By(l, k) + p];
    }
  }

  /** The coefficients the interpolator reads: whole phases only. */
  function Used(h: seq<real>, l: nat): (g: seq<real>)
    requires l > 0
    ensures |g| == By(l, |h| / l) <= |h| < |g| + l
  {
    Euclid(|h|, l);
    h[..By(l, |h| / l)]
  }

  class Interpolator {
    const l: nat
    const h: seq<real>
    const z: array<real>
    ghost var fed: seq<real>

    ghost predicate Valid()
      reads this, z
    {
      && 0 < l <= |h| && z.Length == |h| / l > 0
      && forall k :: 0 <= k < z.Length ==> z[k] == At(fed, |fed| - 1 - k)
    }

    constructor (l: nat, h: seq<real>)
      requires 0 < l <= |h|
      ensures Valid() && this.l == l && this.h == h && fed == [] && fresh(z)
    {
      this.l, this.h := l, h;
      AtLeastOne(|h|, l);
      z := new real[|h| / l](_ => 0.0);
      fed := [];
    }

    method Shift(x: real)
      requires Valid()
      modifies this, z
      ensures Valid() && fed == old(fed) + [x]
    {
      MoveUp(z, 1, 0, z.Length - 1);
      z[0] := x;
      fed := fed + [x];
    }

    /** The sum of products over one phase of the coefficients. */
    method PhaseSum(phase: nat) returns (sum: real)
      requires Valid() && phase < l && |fed| > 0
      ensures sum == FirAt(Phase(Used(h, l), l, phase, |h| / l), fed, |fed| - 1)
    {
      hide By, FirAt;
      ghost var t, u := |h| / l, Used(h, l);
      ghost var g := Phase(u, l, phase, t);
      sum := 0.0;
      var tap, coeff := 0, phase;
      assert g[0..] == g;
      ByNext(l, 0);
      while tap < z.Length
        invariant 0 <= tap <= z.Length && coeff == By(l, tap) + phase
        invariant sum + FirAt(g[tap..], fed, |fed| - 1 - tap) == FirAt(g, fed, |fed| - 1)
      {
        ByNext(l, tap);
        ByMonotone(l, tap + 1, t);
        FirStep(g[tap..], fed, |fed| - 1 - tap);
        assert g[tap..][1..] == g[tap + 1..];
        assert coeff < |u| && g[tap] == h[coeff];
        sum := sum + h[coeff] * z[tap];
        coeff := coeff + l;
        tap := tap + 1;
      }
      FirNothing(g[tap..], fed, |fed| - 1 - tap);
    }

    /** All the outputs for the newest sample: l times what each phase of the coefficients makes
        of the input. */
    method Outputs(dest: array<real>, at: nat)
      requires Valid() && |fed| > 0 && at + l <= dest.Length && dest != z
      modifies dest
      ensures Valid()
      ensures forall k :: 0 <= k < at || at + l <= k < dest.Length ==> dest[k] == old(dest[k])
      ensures forall k :: 0 <= k < l ==> dest[at + k] == l as real * FirAt(Phase(Used(h, l), l, k, |h| / l), fed, |fed| - 1)
    {
      hide By, Used, FirAt, Phase;
      var phase := 0;
      while phase < l
        invariant 0 <= phase <= l && Valid()
        invariant forall k :: 0 <= k < at || at + phase <= k < dest.Length ==> dest[k] == old(dest[k])
        invariant forall k :: 0 <= k < phase ==> dest[at + k] == l as real * FirAt(Phase(Used(h, l), l, k, |h| / l), fed, |fed| - 1)
      {
        var sum := PhaseSum(phase);
        dest[at + phase] := sum * l as real;
        phase := phase + 1;
      }
    }

    method ProcessSamples(dest: array<real>, at: nat, src: seq<real>)
      requires Valid() && at + By(l, |src|) <= dest.Length && dest != z
      modifies this, z, dest
      ensures Valid() && fed == old(fed) + src
      ensures forall k :: 0 <= k < at || at + By(l, |src|) <= k < dest.Length ==> dest[k] == old(dest[k])
      ensures Interpolated(Used(h, l), l, fed) == Interpolated(Used(h, l), l, old(fed)) + dest[at..at + By(l, |src|)]
    {
      hide By, Interpolated, Used, FirAt, Stuffed;
      ghost var was, g := fed, Used(h, l);
      var pos, numOut := 0, 0;
      assert was + [] == was && src[..0] == [];
      ByNext(l, 0);
      ByMonotone(l, 0, |src|);
      while pos < |src|
        invariant 0 <= pos <= |src| && numOut == By(l, pos) && 0 <= numOut <= By(l, |src|)
        invariant Valid() && fed == was + src[..pos]
        invariant forall k :: 0 <= k < at || at + numOut <= k < dest.Length ==> dest[k] == old(dest[k])
        invariant Interpolated(g, l, fed) == Interpolated(g, l, was) + dest[at..at + numOut]
      {
        ghost var prior := dest[at..at + numOut];
        ByNext(l, pos);
        ByMonotone(l, pos + 1, |src|);
        OneSample(dest, at + numOut, src[pos]);
        ghost var block := dest[at + numOut..at + numOut + l];
        assert dest[at..at + numOut] == prior;
        Appends(dest[..], at, numOut, l);
        Associates(Interpolated(g, l, was), prior, block);
        Associates(was, src[..pos], [src[pos]]);
        assert src[..pos + 1] == src[..pos] + [src[pos]];
        numOut, pos := numOut + l, pos + 1;
      }
      assert src[..pos] == src;
    }

    /** One input sample, l outputs. */
    method OneSample(dest: array<real>, at: nat, x: real)
      requires Valid() && at + l <= dest.Length && dest != z
      modifies this, z, dest
      ensures Valid() && fed == old(fed) + [x]
      ensures forall k :: 0 <= k < at || at + l <= k < dest.Length ==> dest[k] == old(dest[k])
      ensures Interpolated(Used(h, l), l, fed) == Interpolated(Used(h, l), l, old(fed)) + dest[at..at + l]
    {
      hide By, Interpolated, Used, FirAt, Stuffed, Phase;
      Shift(x);
      Outputs(dest, at);
      InterpolatedGrows(h, l, old(fed), x, dest[at..at + l]);
    }
  }

  lemma {:induction false} Associates(a: seq<real>, b: seq<real>, c: seq<real>)
    ensures a + b + c == a + (b + c)
  {
  }

  lemma {:induction false} Appends(d: seq<real>, at: nat, n: nat, l: nat)
    requires at + n + l <= |d|
    ensures d[at..at + (n + l)] == d[at..at + n] + d[at + n..at + n + l]
  {
  }

  lemma {:induction false} AtLeastOne(n: nat, l: nat)
    requires 0 < l <= n
    ensures n / l > 0
  {
    ByNext(l, 1);
    Below(n, l, 1);
  }

  lemma {:induction false} FirStep(b: seq<real>, y: seq<real>, n: int)
    requires |b| > 0
    ensures FirAt(b, y, n) == b[0] * At(y, n) + FirAt(b[1..], y, n - 1)
  {
  }

  lemma {:induction false} FirNothing(b: seq<real>, y: seq<real>, n: int)
    requires |b| == 0
    ensures FirAt(b, y, n) == 0.0
  {
  }

  /** Output p of the l outputs for sample i: l times what phase p of the coefficients makes of
      the samples up to that one. */
  lemma {:induction false} InterpolatedAt(h: seq<real>, l: nat, u: seq<real>, i: nat, p: nat)
    requires 0 < l <= |h| && i < |u| && p < l
    ensures By(l, i) + p < By(l, |u|)
    ensures Interpolated(Used(h, l), l, u)[By(l, i) + p] == l as real * FirAt(Phase(Used(h, l), l, p, |h| / l), u, i)
  {
    hide By, FirAt, Stuffed, Used, Phase;
    ByNext(l, i);
    ByNext(l, 0);
    ByMonotone(l, i + 1, |u|);
    ByMonotone(l, 0, i);
    Polyphase(Used(h, l), l, p, |h| / l, u, i);
    ScaledFir(l as real, Used(h, l), Stuffed(l, u), By(l, i) + p);
  }

  lemma {:induction false} ScaledFir(c: real, g: seq<real>, v: seq<real>, n: nat)
    requires n < |v|
    ensures Scale(c, Fir(g, v))[n] == c * FirAt(g, v, n)
  {
  }

  /** One more sample changes no earlier output. */
  lemma {:induction false} EarlierOutputs(g: seq<real>, l: nat, u: seq<real>, x: real)
    requires l > 0
    ensures By(l, |u|) <= By(l, |u| + 1)
    ensures forall n :: 0 <= n < By(l, |u|) ==> Interpolated(g, l, u + [x])[n] == Interpolated(g, l, u)[n]
  {
    hide By, FirAt, Stuffed;
    ByNext(l, |u|);
    forall n | 0 <= n < By(l, |u|) ensures Interpolated(g, l, u + [x])[n] == Interpolated(g, l, u)[n] {
      StuffedGrows(l, u, x, n);
      FirPrefix(g, Stuffed(l, u + [x]), Stuffed(l, u), n);
    }
  }

  lemma {:induction false} InterpolatedGrows(h: seq<real>, l: nat, u: seq<real>, x: real, block: seq<real>)
    requires 0 < l <= |h| && |block| == l
    requires forall k :: 0 <= k < l ==> block[k] == l as real * FirAt(Phase(Used(h, l), l, k, |h| / l), u + [x], |u|)
    ensures Interpolated(Used(h, l), l, u + [x]) == Interpolated(Used(h, l), l, u) + block
  {
    hide By, FirAt, Stuffed, Used, Phase, Interpolated;
    var y, z := Interpolated(Used(h, l), l, u), Interpolated(Used(h, l), l, u + [x]);
    ByNext(l, |u|);
    EarlierOutputs(Used(h, l), l, u, x);
    forall k | 0 <= k < l ensures z[|y| + k] == block[k] {
      InterpolatedAt(h, l, u + [x], |u|, k);
    }
  }

  lemma {:induction false} StuffedGrows(l: nat, u: seq<real>, x: real, n: nat)
    requires l > 0 && n < By(l, |u|)
    ensures forall k :: k <= n ==> At(Stuffed(l, u + [x]), k) == At(Stuffed(l, u), k)
  {
    hide By;
    ByNext(l, |u|);
    forall k | k <= n ensures At(Stuffed(l, u + [x]), k) == At(Stuffed(l, u), k) {
      if k >= 0 { Below(k, l, |u|); }
    }
  }

  // ----------------------------------------------- taps that do not fill a whole phase

  /** The interpolator leaves out the last |h| % l coefficients.  It computes the full filter
      for every input exactly when those are all zero. */
  lemma {:induction false} DroppedTapsIff(h: seq<real>, l: nat)
    requires 0 < l <= |h|
    ensures (forall u :: Interpolated(Used(h, l), l, u) == Interpolated(h, l, u)) <==> IsZero(h[|Used(h, l)|..])
  {
    hide By, Interpolated;
    var g := Used(h, l);
    var rest := h[|g|..];
    assert g + rest == h;
    if IsZero(rest) {
      forall u ensures Interpolated(g, l, u) == Interpolated(h, l, u) {
        ZeroTail(g, rest, l, u);
      }
    } else {
      var j :| 0 <= j < |rest| && rest[j] != 0.0;
      DroppedTapShows(g, rest, l, j);
    }
  }

  lemma {:induction false} ZeroTail(g: seq<real>, rest: seq<real>, l: nat, u: seq<real>)
    requires l > 0 && IsZero(rest)
    ensures Interpolated(g, l, u) == Interpolated(g + rest, l, u)
  {
    hide By, FirAt, Stuffed;
    var v := Stuffed(l, u);
    forall n | 0 <= n < |v| ensures FirAt(g + rest, v, n) == FirAt(g, v, n) {
      FirSplit(g, rest, v, n);
      ZeroTaps(rest, v, n - |g|);
    }
    assert Fir(g, v) == Fir(g + rest, v);
  }

  lemma {:induction false} ZeroTaps(b: seq<real>, y: seq<real>, n: int)
    requires IsZero(b)
    ensures FirAt(b, y, n) == 0.0
    decreases |b|
  {
    if |b| > 0 {
      assert b[0] == 0.0;
      ZeroTaps(b[1..], y, n - 1);
    }
  }

  /** A single one followed by zeros reads off the coefficients. */
  lemma {:induction false} ImpulseReads(b: seq<real>, y: seq<real>, n: nat)
    requires forall k :: At(y, k) == if k == 0 then 1.0 else 0.0
    ensures FirAt(b, y, n) == if n < |b| then b[n] else 0.0
  {
    OneTap(b, y, n, n);
  }

  lemma {:induction false} StuffedImpulse(l: nat, m: nat)
    requires l > 0 && m > 0
    ensures |Stuffed(l, Impulse(m))| >= m
    ensures forall k :: At(Stuffed(l, Impulse(m)), k) == if k == 0 then 1.0 else 0.0
  {
    hide By;
    var u := Impulse(m);
    LongEnough(l, m);
    forall k ensures At(Stuffed(l, u), k) == if k == 0 then 1.0 else 0.0 {
      if k == 0 { Divides(0, l, 0, 0) by { ByNext(l, 0); } }
      if k > 0 && k / l == 0 { Euclid(k, l); ByNext(l, 0); }
    }
  }

  lemma {:induction false} LongEnough(l: nat, n: nat)
    requires l > 0
    ensures By(l, n) >= n
  {
    assert (l - 1) * n >= 0;
  }

  /** A dropped coefficient that is not zero is missed by the response to an impulse. */
  lemma {:induction false} DroppedTapShows(g: seq<real>, rest: seq<real>, l: nat, j: nat)
    requires l > 0 && j < |rest| && rest[j] != 0.0
    ensures Interpolated(g, l, Impulse(|g| + j + 1)) != Interpolated(g + rest, l, Impulse(|g| + j + 1))
  {
    hide By, FirAt, Stuffed, Impulse;
    var n := |g| + j;
    var v := Stuffed(l, Impulse(n + 1));
    StuffedImpulse(l, n + 1);
    ImpulseReads(g + rest, v, n);
    ImpulseReads(g, v, n);
    var y, w := Interpolated(g, l, Impulse(n + 1)), Interpolated(g + rest, l, Impulse(n + 1));
    var f := l as real;
    assert y[n] == f * 0.0 && w[n] == f * rest[j];
  }
}
