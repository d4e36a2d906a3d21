/** Complex arithmetic on pairs of reals, polynomial evaluation, and the frequency response
    of a filter list. */
module Response {
  import opened Signals
  import opened Filters
  import Flatten

  datatype Complex = Complex(re: real, im: real)

  const ZERO := Complex(0.0, 0.0)
  const ONE := Complex(1.0, 0.0)

  function Add(a: Complex, b: Complex): Complex {
    Complex(a.re + b.re, a.im + b.im)
  }

  function Mul(a: Complex, b: Complex): Complex {
    Complex(a.re * b.re - a.im * b.im, a.re * b.im + a.im * b.re)
  }

  function Real(c: real): Complex {
    Complex(c, 0.0)
  }

  function Norm(a: Complex): real {
    a.re * a.re + a.im * a.im
  }

  /** The pair of doubles a complex value is kept in. */
  function Val(aa: array<real>): Complex
    requires aa.Length == 2
    reads aa
  {
    Complex(aa[0], aa[1])
  }

  lemma {:induction false} MulAssociates(a: Complex, b: Complex, c: Complex)
    ensures Mul(Mul(a, b), c) == Mul(a, Mul(b, c))
  {
  }

  lemma {:induction false} MulCommutes(a: Complex, b: Complex)
    ensures Mul(a, b) == Mul(b, a)
  {
  }

  lemma {:induction false} MulDistributes(a: Complex, b: Complex, c: Complex)
    ensures Mul(a, Add(b, c)) == Add(Mul(a, b), Mul(a, c))
  {
  }

  // ------------------------------------------------------------ in-place helpers

  method CMul(aa: array<real>, bb: array<real>)
    requires aa.Length == 2 && bb.Length == 2
    modifies aa
    ensures Val(aa) == Mul(old(Val(aa)), old(Val(bb)))
    ensures aa[0] == old(aa[0] * bb[0] - aa[1] * bb[1]) && aa[1] == old(aa[0] * bb[1] + aa[1] * bb[0])
  {
    var rr := aa[0] * bb[0] - aa[1] * bb[1];
    var ii := aa[0] * bb[1] + aa[1] * bb[0];
    aa[0] := rr;
    aa[1] := ii;
  }

  method CSqu(aa: array<real>)
    requires aa.Length == 2
    modifies aa
    ensures Val(aa) == Mul(old(Val(aa)), old(Val(aa)))
  {
    var rr := aa[0] * aa[0] - aa[1] * aa[1];
    var ii := 2.0 * aa[0] * aa[1];
    aa[0] := rr;
    aa[1] := ii;
  }

  /** Division: the quotient times the divisor gives the dividend back. */
  method CDiv(aa: array<real>, bb: array<real>)
    requires aa.Length == 2 && bb.Length == 2 && aa != bb
    requires Norm(Val(bb)) != 0.0
    modifies aa
    ensures Mul(Val(aa), Val(bb)) == old(Val(aa))
  {
    hide Mul, Norm;
    ghost var a, b := Val(aa), Val(bb);
    NormParts(b);
    var rr := aa[0] * bb[0] + aa[1] * bb[1];
    var ii := -aa[0] * bb[1] + aa[1] * bb[0];
    var fact := 1.0 / (bb[0] * bb[0] + bb[1] * bb[1]);
    QuotientTimesDivisor(a, b, fact, rr, ii);
    aa[0] := rr * fact;
    aa[1] := ii * fact;
  }

  lemma {:induction false} NormParts(a: Complex)
    ensures Norm(a) == a.re * a.re + a.im * a.im
  {
  }

  lemma {:induction false} QuotientTimesDivisor(a: Complex, b: Complex, fact: real, rr: real, ii: real)
    requires Norm(b) != 0.0 && fact == 1.0 / Norm(b)
    requires rr == a.re * b.re + a.im * b.im && ii == -a.re * b.im + a.im * b.re
    ensures Mul(Complex(rr * fact, ii * fact), b) == a
  {
    var n := Norm(b);
    QuotientParts(a, b, rr, ii);
    ScaledBack(rr * b.re - ii * b.im, n, fact, a.re);
    ScaledBack(rr * b.im + ii * b.re, n, fact, a.im);
    assert rr * fact * b.re - ii * fact * b.im == (rr * b.re - ii * b.im) * fact;
    assert rr * fact * b.im + ii * fact * b.re == (rr * b.im + ii * b.re) * fact;
  }

  /** Multiplying by the conjugate and back gives the squared magnitude. */
  lemma {:induction false} QuotientParts(a: Complex, b: Complex, rr: real, ii: real)
    requires rr == a.re * b.re + a.im * b.im && ii == -a.re * b.im + a.im * b.re
    ensures rr * b.re - ii * b.im == a.re * Norm(b)
    ensures rr * b.im + ii * b.re == a.im * Norm(b)
  {
    ConjugateBack(a.re, a.im, b.re, b.im);
    ConjugateBack(a.im, -a.re, b.re, b.im);
  }

  lemma {:induction false} ConjugateBack(p: real, q: real, u: real, v: real)
    ensures (p * u + q * v) * u - (-p * v + q * u) * v == p * (u * u + v * v)
  {
  }

  lemma {:induction false} ScaledBack(x: real, n: real, fact: real, y: real)
    requires n != 0.0 && fact == 1.0 / n && x == y * n
    ensures x * fact == y
  {
    assert n * fact == 1.0;
    assert y * n * fact == y * (n * fact);
  }

  method CRecip(aa: array<real>)
    requires aa.Length == 2 && Norm(Val(aa)) != 0.0
    modifies aa
    ensures Mul(Val(aa), old(Val(aa))) == ONE
  {
    hide Mul, Norm;
    ghost var a := Val(aa);
    NormParts(a);
    var fact := 1.0 / (aa[0] * aa[0] + aa[1] * aa[1]);
    Reciprocal(a, fact);
    aa[0] := aa[0] * fact;
    aa[1] := aa[1] * -fact;
    assert Val(aa) == Complex(a.re * fact, a.im * -fact);
    assert Mul(Val(aa), a) == ONE;
  }

  lemma {:induction false} Reciprocal(a: Complex, fact: real)
    requires Norm(a) != 0.0 && fact == 1.0 / Norm(a)
    ensures Mul(Complex(a.re * fact, a.im * -fact), a) == ONE
  {
    ScaledBack(Norm(a), Norm(a), fact, 1.0);
    assert a.re * fact * a.re - a.im * -fact * a.im == Norm(a) * fact;
    assert a.re * fact * a.im + a.im * -fact * a.re == 0.0;
  }

  // ------------------------------------------------------- polynomial evaluation

  /** The polynomial with the given coefficients, at z. */
  function Eval(coef: seq<real>, z: Complex): Complex {
    if |coef| == 0 then ZERO else Add(Real(coef[0]), Mul(z, Eval(coef[1..], z)))
  }

  /** rv += c * pz */
  method AddScaled(rv: array<real>, c: real, pz: array<real>)
    requires rv.Length == 2 && pz.Length == 2 && rv != pz
    modifies rv
    ensures Val(rv) == Add(old(Val(rv)), Mul(Real(c), Val(pz)))
  {
    rv[0] := rv[0] + c * pz[0];
    rv[1] := rv[1] + c * pz[1];
  }

  /** Evaluation by running powers of the argument. */
  method Evaluate(rv: array<real>, coef: seq<real>, inp: array<real>)
    requires rv.Length == 2 && inp.Length == 2 && rv != inp && |coef| > 0
    modifies rv
    ensures Val(rv) == Eval(coef, Val(inp))
  {
    ghost var z := Val(inp);
    rv[0] := coef[0];
    rv[1] := 0.0;
    EvalConstant(coef, z);
    if |coef| > 1 {
      var pz := new real[2];
      pz[0] := inp[0];
      pz[1] := inp[1];
      EvalMove(Val(rv), z, coef, 1, z);
      AddScaled(rv, coef[1], pz);
      var k := 2;
      while k < |coef|
        invariant 2 <= k <= |coef|
        invariant fresh(pz) && Val(inp) == z
        invariant Add(Val(rv), Mul(Mul(Val(pz), z), Eval(coef[k..], z))) == Eval(coef, z)
      {
        CMul(pz, inp);
        EvalMove(Val(rv), Val(pz), coef, k, z);
        AddScaled(rv, coef[k], pz);
        k := k + 1;
      }
      EvalEnd(Val(rv), Mul(Val(pz), z), coef, z);
    }
  }

  lemma {:induction false} EvalConstant(coef: seq<real>, z: Complex)
    requires |coef| > 0
    ensures Add(Real(coef[0]), Mul(z, Eval(coef[1..], z))) == Eval(coef, z)
    ensures |coef| == 1 ==> Eval(coef, z) == Real(coef[0])
  {
  }

  lemma {:induction false} EvalEnd(sum: Complex, power: Complex, coef: seq<real>, z: Complex)
    ensures Add(sum, Mul(power, Eval(coef[|coef|..], z))) == sum
  {
  }

  /** Moving term k of the polynomial into the running sum. */
  lemma {:induction false} EvalMove(sum: Complex, power: Complex, coef: seq<real>, k: nat, z: Complex)
    requires k < |coef|
    ensures Add(sum, Mul(power, Eval(coef[k..], z)))
         == Add(Add(sum, Mul(Real(coef[k]), power)), Mul(Mul(power, z), Eval(coef[k + 1..], z)))
  {
    var c, rest := Real(coef[k]), Eval(coef[k + 1..], z);
    assert coef[k..][1..] == coef[k + 1..];
    EvalConstant(coef[k..], z);
    MulDistributes(power, c, Mul(z, rest));
    MulAssociates(power, z, rest);
    MulCommutes(power, c);
    AddAssociates(sum, Mul(c, power), Mul(Mul(power, z), rest));
  }

  lemma {:induction false} AddAssociates(a: Complex, b: Complex, c: Complex)
    ensures Add(Add(a, b), c) == Add(a, Add(b, c))
  {
  }

  function Tail(s: seq<real>): seq<real> {
    if |s| == 0 then [] else s[1..]
  }

  lemma {:induction false} EvalHead(s: seq<real>, z: Complex)
    ensures Eval(s, z) == Add(Real(At(s, 0)), Mul(z, Eval(Tail(s), z)))
  {
  }

  lemma {:induction false} EvalNothing(s: seq<real>, z: Complex)
    requires |s| == 0
    ensures Eval(s, z) == ZERO
  {
  }

  /** Evaluation is linear in the coefficients. */
  lemma {:induction false} EvalLinear(p: seq<real>, c: real, b: seq<real>, q: seq<real>, z: Complex)
    requires forall m :: At(p, m) == c * At(b, m) + At(q, m)
    ensures Eval(p, z) == Add(Mul(Real(c), Eval(b, z)), Eval(q, z))
    decreases |p| + |b| + |q|
  {
    hide Add, Mul, Eval;
    if |p| + |b| + |q| == 0 {
      EvalNothing(p, z);
      EvalNothing(b, z);
      EvalNothing(q, z);
      ZeroTerms(c);
    } else {
      TailsLinear(p, c, b, q);
      var b0, q0, eb, eq := At(b, 0), At(q, 0), Eval(Tail(b), z), Eval(Tail(q), z);
      calc {
        Eval(p, z);
        { EvalHead(p, z); assert At(p, 0) == c * b0 + q0; }
        Add(Real(c * b0 + q0), Mul(z, Eval(Tail(p), z)));
        { EvalLinear(Tail(p), c, Tail(b), Tail(q), z); }
        Add(Real(c * b0 + q0), Mul(z, Add(Mul(Real(c), eb), eq)));
        { LinearStep(c, b0, q0, eb, eq, z); }
        Add(Mul(Real(c), Add(Real(b0), Mul(z, eb))), Add(Real(q0), Mul(z, eq)));
        { EvalHead(b, z); EvalHead(q, z); }
        Add(Mul(Real(c), Eval(b, z)), Eval(q, z));
      }
    }
  }

  lemma {:induction false} TailsLinear(p: seq<real>, c: real, b: seq<real>, q: seq<real>)
    requires forall m :: At(p, m) == c * At(b, m) + At(q, m)
    ensures forall m :: At(Tail(p), m) == c * At(Tail(b), m) + At(Tail(q), m)
  {
    forall m ensures At(Tail(p), m) == c * At(Tail(b), m) + At(Tail(q), m) {
      if m >= 0 { assert At(p, m + 1) == c * At(b, m + 1) + At(q, m + 1); }
    }
  }

  lemma {:induction false} ZeroTerms(c: real)
    ensures Add(Mul(Real(c), ZERO), ZERO) == ZERO
  {
  }

  lemma {:induction false} LinearStep(c: real, b: real, q: real, eb: Complex, eq: Complex, z: Complex)
    ensures Add(Real(c * b + q), Mul(z, Add(Mul(Real(c), eb), eq)))
         == Add(Mul(Real(c), Add(Real(b), Mul(z, eb))), Add(Real(q), Mul(z, eq)))
  {
    hide Mul;
    var k := Real(c);
    MulDistributes(z, Mul(k, eb), eq);
    MulAssociates(z, k, eb);
    MulCommutes(z, k);
    MulAssociates(k, z, eb);
    MulDistributes(k, Real(b), Mul(z, eb));
    RealMul(c, b);
  }

  lemma {:induction false} RealMul(c: real, b: real)
    ensures Mul(Real(c), Real(b)) == Real(c * b)
  {
  }

  /** Evaluation is multiplicative over convolution. */
  lemma {:induction false} EvalProduct(a: seq<real>, b: seq<real>, z: Complex)
    requires |a| > 0 && |b| > 0
    ensures Eval(Product(a, b), z) == Mul(Eval(a, z), Eval(b, z))
    decreases |a|
  {
    hide Mul, Add, Eval, Product;
    var q := if |a| == 1 then [] else Product(a[1..], b);
    ProductShifted(a, b);
    calc {
      Eval(Product(a, b), z);
      { EvalLinear(Product(a, b), a[0], b, [0.0] + q, z); }
      Add(Mul(Real(a[0]), Eval(b, z)), Eval([0.0] + q, z));
      { assert ([0.0] + q)[1..] == q; EvalConstant([0.0] + q, z); }
      Add(Mul(Real(a[0]), Eval(b, z)), Add(Real(0.0), Mul(z, Eval(q, z))));
      { if |a| > 1 { EvalProduct(a[1..], b, z); } else { EvalNothing(q, z); EvalNothing(a[1..], z); MulZero(Eval(b, z)); } }
      Add(Mul(Real(a[0]), Eval(b, z)), Add(Real(0.0), Mul(z, Mul(Eval(a[1..], z), Eval(b, z)))));
      { ProductTail(a[0], Eval(a[1..], z), Eval(b, z), z); }
      Mul(Add(Real(a[0]), Mul(z, Eval(a[1..], z))), Eval(b, z));
      { EvalConstant(a, z); }
      Mul(Eval(a, z), Eval(b, z));
    }
  }

  /** The first coefficient of the left factor split off, and the rest delayed. */
  lemma {:induction false} ProductShifted(a: seq<real>, b: seq<real>)
    requires |a| > 0 && |b| > 0
    ensures var q := if |a| == 1 then [] else Product(a[1..], b);
      forall m :: At(Product(a, b), m) == a[0] * At(b, m) + At([0.0] + q, m)
  {
    hide Product;
    var q := if |a| == 1 then [] else Product(a[1..], b);
    ProductStep(a, b);
    forall m ensures At(Product(a, b), m) == a[0] * At(b, m) + At([0.0] + q, m) {
      assert At([0.0] + q, m) == At(q, m - 1);
    }
  }

  lemma {:induction false} MulZero(b: Complex)
    ensures Mul(ZERO, b) == ZERO
  {
  }

  lemma {:induction false} ProductTail(a0: real, ea: Complex, eb: Complex, z: Complex)
    ensures Add(Mul(Real(a0), eb), Add(Real(0.0), Mul(z, Mul(ea, eb)))) == Mul(Add(Real(a0), Mul(z, ea)), eb)
  {
    hide Mul;
    var c := Add(Real(a0), Mul(z, ea));
    MulAssociates(z, ea, eb);
    MulCommutes(c, eb);
    MulDistributes(eb, Real(a0), Mul(z, ea));
    MulCommutes(eb, Real(a0));
    MulCommutes(eb, Mul(z, ea));
  }

  // ------------------------------------------------------------------- response

  /** The product of the values at z of the lists of type t, in list order after acc. */
  function ResponseOf(t: char, acc: Complex, fs: seq<SubFilter>, z: Complex): Complex
    decreases |fs|
  {
    if |fs| == 0 then acc
    else ResponseOf(t, if fs[0].typ == t then Mul(acc, Eval(fs[0].val, z)) else acc, fs[1..], z)
  }

  /** The numerator and denominator of the response of a list at the point zz. */
  method ResponseParts(filt: seq<SubFilter>, zz: array<real>) returns (r: Result<(Complex, Complex)>)
    requires Entries(filt) && zz.Length == 2
    ensures r.Ok? <==> forall i :: 0 <= i < |filt| ==> KnownType(filt[i])
    ensures r.Ok? ==> r.value == (ResponseOf(FIR, ONE, filt, Val(zz)), ResponseOf(IIR, ONE, filt, Val(zz)))
  {
    hide Mul, Add;
    var top, bot, resp := new real[2], new real[2], new real[2];
    top[0], top[1] := 1.0, 0.0;
    bot[0], bot[1] := 1.0, 0.0;
    ghost var z := Val(zz);
    var i := 0;
    while i < |filt|
      invariant 0 <= i <= |filt|
      invariant fresh(top) && fresh(bot) && fresh(resp) && Val(zz) == z
      invariant forall k :: 0 <= k < i ==> KnownType(filt[k])
      invariant ResponseOf(FIR, Val(top), filt[i..], z) == ResponseOf(FIR, ONE, filt, z)
      invariant ResponseOf(IIR, Val(bot), filt[i..], z) == ResponseOf(IIR, ONE, filt, z)
    {
      var ff := filt[i];
      assert Entry(ff) && filt[i..][0] == ff && filt[i..][1..] == filt[i + 1..];
      Evaluate(resp, ff.val, zz);
      if ff.typ == IIR {
        CMul(bot, resp);
      } else if ff.typ == FIR {
        CMul(top, resp);
      } else {
        return Err("Unknown filter type in fid_response()");
      }
      i := i + 1;
    }
    r := Ok((Complex(top[0], top[1]), Complex(bot[0], bot[1])));
  }

  /** The response computed list by list is the value of the product polynomial. */
  lemma {:induction false} ResponseIsEval(t: char, acc: seq<real>, fs: seq<SubFilter>, z: Complex)
    requires |acc| > 0 && Entries(fs)
    ensures ResponseOf(t, Eval(acc, z), fs, z) == Eval(ProductOf(t, acc, fs), z)
    decreases |fs|
  {
    if |fs| > 0 {
      var f := fs[0];
      assert Entry(f);
      if f.typ == t {
        EvalProduct(f.val, acc, z);
        MulCommutes(Eval(f.val, z), Eval(acc, z));
        ResponseIsEval(t, Product(f.val, acc), fs[1..], z);
      } else {
        ResponseIsEval(t, acc, fs[1..], z);
      }
    }
  }

  /** Flattening keeps the response at every complex point, as a ratio: top' * bot equals
      top * bot'. */
  lemma {:induction false} FlattenedRespondsAlike(fs: seq<SubFilter>, z: Complex)
    requires Runnable(fs)
    ensures var flat := Flatten.Flattened(fs);
      Mul(ResponseOf(FIR, ONE, flat, z), ResponseOf(IIR, ONE, fs, z))
      == Mul(ResponseOf(FIR, ONE, fs, z), ResponseOf(IIR, ONE, flat, z))
  {
    hide *;
    var adj := FlatResponse(fs, z);
    CrossScaled(Real(adj), ResponseOf(FIR, ONE, fs, z), ResponseOf(IIR, ONE, fs, z));
  }

  lemma {:induction false} CrossScaled(a: Complex, n: Complex, d: Complex)
    ensures Mul(Mul(a, n), d) == Mul(n, Mul(a, d))
  {
    hide Mul;
    MulAssociates(a, n, d);
    MulCommutes(a, n);
    MulAssociates(n, a, d);
  }

  lemma {:induction false} EvalScaled(c: real, p: seq<real>, z: Complex)
    ensures Eval(Scale(c, p), z) == Mul(Real(c), Eval(p, z))
  {
    hide Mul, Add;
    assert Eval([], z) == ZERO;
    EvalLinear(Scale(c, p), c, p, [], z);
    AddZero(Mul(Real(c), Eval(p, z)));
  }

  lemma {:induction false} FlatShape(fs: seq<SubFilter>) returns (adj: real)
    requires Runnable(fs)
    ensures var flat := Flatten.Flattened(fs);
      |flat| == 2 && flat[0].typ == IIR && flat[1].typ == FIR
      && flat[0].val == Scale(adj, Denominator(fs)) && flat[1].val == Scale(adj, Numerator(fs))
  {
    HeadOfProduct(IIR, [1.0], fs);
    adj := 1.0 / Denominator(fs)[0];
  }

  lemma {:induction false} PartsAsPolynomials(fs: seq<SubFilter>, z: Complex)
    requires Runnable(fs)
    ensures ResponseOf(FIR, ONE, fs, z) == Eval(Numerator(fs), z)
    ensures ResponseOf(IIR, ONE, fs, z) == Eval(Denominator(fs), z)
  {
    hide ResponseOf, Mul;
    assert [1.0][1..] == [];
    EvalConstant([1.0], z);
    ResponseIsEval(FIR, [1.0], fs, z);
    ResponseIsEval(IIR, [1.0], fs, z);
  }

  /** Both parts of the response are scaled by the same number. */
  lemma {:induction false} FlatResponse(fs: seq<SubFilter>, z: Complex) returns (adj: real)
    requires Runnable(fs)
    ensures ResponseOf(FIR, ONE, Flatten.Flattened(fs), z) == Mul(Real(adj), ResponseOf(FIR, ONE, fs, z))
    ensures ResponseOf(IIR, ONE, Flatten.Flattened(fs), z) == Mul(Real(adj), ResponseOf(IIR, ONE, fs, z))
  {
    hide *;
    adj := FlatShape(fs);
    PartsAsPolynomials(fs, z);
    PairResponse(Flatten.Flattened(fs), z);
    EvalScaled(adj, Numerator(fs), z);
    EvalScaled(adj, Denominator(fs), z);
  }

  lemma {:induction false} PairResponse(flat: seq<SubFilter>, z: Complex)
    requires |flat| == 2 && flat[0].typ == IIR && flat[1].typ == FIR
    ensures ResponseOf(FIR, ONE, flat, z) == Eval(flat[1].val, z)
    ensures ResponseOf(IIR, ONE, flat, z) == Eval(flat[0].val, z)
  {
    MulOne(Eval(flat[1].val, z));
    MulOne(Eval(flat[0].val, z));
    assert flat[1..] == [flat[1]] && flat[1..][1..] == [];
    assert ResponseOf(FIR, ONE, flat[1..], z) == ResponseOf(FIR, Mul(ONE, Eval(flat[1].val, z)), [], z);
    assert ResponseOf(IIR, Mul(ONE, Eval(flat[0].val, z)), flat[1..], z) == ResponseOf(IIR, Mul(ONE, Eval(flat[0].val, z)), [], z);
  }

  lemma {:induction false} MulOne(a: Complex)
    ensures Mul(ONE, a) == a
  {
  }

  lemma {:induction false} AddZero(a: Complex)
    ensures Add(a, ZERO) == a
  {
  }
}
