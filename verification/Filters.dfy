/** Filter lists as the library stores them, their meaning as a cascade of recurrences,
    and the products of their coefficient lists. */
module Filters {
  import opened Signals

  /** One element of a filter list: typ is 'I' (recursive) or 'F' (finite response), bit k
      of cbm marks val[k] as independent of the design frequency, val holds the
      coefficients, the one for the current sample first. */
  datatype SubFilter = SubFilter(typ: char, cbm: bv16, val: seq<real>)

  datatype Result<+T> = Ok(value: T) | Err(error: string)

  const IIR := 'I'
  const FIR := 'F'

  /** An entry of a list: a zero length would end the list. */
  predicate Entry(f: SubFilter) {
    |f.val| > 0
  }

  predicate KnownType(f: SubFilter) {
    f.typ == IIR || f.typ == FIR
  }

  /** A sub-filter that can be run: a known type, and no IIR with a zero head. */
  predicate Runs(f: SubFilter) {
    Entry(f) && KnownType(f) && (f.typ == IIR ==> f.val[0] != 0.0)
  }

  predicate Runnable(fs: seq<SubFilter>) {
    forall i :: 0 <= i < |fs| ==> Runs(fs[i])
  }

  predicate Entries(fs: seq<SubFilter>) {
    forall i :: 0 <= i < |fs| ==> Entry(fs[i])
  }

  function Apply(f: SubFilter, x: seq<real>): (y: seq<real>)
    requires Runs(f)
    ensures |y| == |x|
  {
    if f.typ == IIR then Iir(f.val, x) else Fir(f.val, x)
  }

  /** The reference meaning of a filter list: each sub-filter in turn, from zero state. */
  function Cascade(fs: seq<SubFilter>, x: seq<real>): (y: seq<real>)
    requires Runnable(fs)
    ensures |y| == |x|
    decreases |fs|
  {
    if |fs| == 0 then x
    else
      Cascade(fs[1..], Apply(fs[0], x))
  }

  /** acc times all the coefficient lists of type t, later ones multiplied on the left. */
  function ProductOf(t: char, acc: seq<real>, fs: seq<SubFilter>): (p: seq<real>)
    requires |acc| > 0 && Entries(fs)
    ensures |p| == |acc| + Growth(t, fs)
    decreases |fs|
  {
    if |fs| == 0 then acc
    else
      assert Entry(fs[0]);
      ProductOf(t, if fs[0].typ == t then Product(fs[0].val, acc) else acc, fs[1..])
  }

  /** How much longer a product becomes by multiplying in the lists of type t. */
  function Growth(t: char, fs: seq<SubFilter>): nat
    requires Entries(fs)
  {
    if |fs| == 0 then 0
    else
      assert Entry(fs[0]);
      (if fs[0].typ == t then |fs[0].val| - 1 else 0) + Growth(t, fs[1..])
  }

  function Denominator(fs: seq<SubFilter>): seq<real>
    requires Runnable(fs)
  {
    ProductOf(IIR, [1.0], fs)
  }

  function Numerator(fs: seq<SubFilter>): seq<real>
    requires Runnable(fs)
  {
    ProductOf(FIR, [1.0], fs)
  }

  // --------------------------------------- the cascade as one difference equation

  lemma {:induction false} UnitFilter(x: seq<real>, n: int)
    ensures FirAt([1.0], x, n) == At(x, n)
  {
  }

  /** One more sub-filter turns den*y == num*x0 into the same law for its output. */
  lemma {:induction false} StageKeepsLaw(f: SubFilter, den: seq<real>, num: seq<real>, x0: seq<real>, y: seq<real>, n: nat)
    requires Runs(f) && |den| > 0 && |num| > 0 && |x0| == |y| && n < |y|
    requires forall m :: 0 <= m < |y| ==> FirAt(den, y, m) == FirAt(num, x0, m)
    ensures |f.val| > 0 && (if f.typ == IIR
            then FirAt(Product(f.val, den), Apply(f, y), n) == FirAt(num, x0, n)
            else FirAt(den, Apply(f, y), n) == FirAt(Product(f.val, num), x0, n))
  {
    var z := Apply(f, y);
    if f.typ == IIR {
      calc {
        FirAt(Product(f.val, den), z, n);
        { FirProduct(f.val, den, z, n); }
        FirAt(f.val, Fir(den, z), n);
        { FirExchange(f.val, den, z, n); }
        FirAt(den, Fir(f.val, z), n);
        { forall m | 0 <= m < |y| ensures Fir(f.val, z)[m] == y[m] { IirSolves(f.val, y, m); }
          assert Fir(f.val, z) == y; }
        FirAt(den, y, n);
      }
    } else {
      calc {
        FirAt(den, z, n);
        { FirExchange(den, f.val, y, n); }
        FirAt(f.val, Fir(den, y), n);
        { assert Fir(den, y) == Fir(num, x0); }
        FirAt(f.val, Fir(num, x0), n);
        { FirProduct(f.val, num, x0, n); }
        FirAt(Product(f.val, num), x0, n);
      }
    }
  }

  /** Every cascade obeys Denominator * output == Numerator * input. */
  lemma {:induction false} CascadeLawFrom(fs: seq<SubFilter>, den: seq<real>, num: seq<real>, x0: seq<real>, y: seq<real>, n: nat)
    requires Runnable(fs) && |den| > 0 && |num| > 0 && |x0| == |y| && n < |y|
    requires forall m :: 0 <= m < |y| ==> FirAt(den, y, m) == FirAt(num, x0, m)
    ensures FirAt(ProductOf(IIR, den, fs), Cascade(fs, y), n) == FirAt(ProductOf(FIR, num, fs), x0, n)
    decreases |fs|
  {
    if |fs| > 0 {
      var f := fs[0];
      var den' := if f.typ == IIR then Product(f.val, den) else den;
      var num' := if f.typ == FIR then Product(f.val, num) else num;
      forall m | 0 <= m < |y| ensures FirAt(den', Apply(f, y), m) == FirAt(num', x0, m) {
        StageKeepsLaw(f, den, num, x0, y, m);
      }
      CascadeLawFrom(fs[1..], den', num', x0, Apply(f, y), n);
    }
  }

  lemma {:induction false} CascadeLaw(fs: seq<SubFilter>, x: seq<real>, n: nat)
    requires Runnable(fs) && n < |x|
    ensures FirAt(Denominator(fs), Cascade(fs, x), n) == FirAt(Numerator(fs), x, n)
  {
    CascadeLawFrom(fs, [1.0], [1.0], x, x, n);
  }

  lemma {:induction false} HeadOfProduct(t: char, acc: seq<real>, fs: seq<SubFilter>)
    requires |acc| > 0 && acc[0] != 0.0
    requires Entries(fs) && forall i :: 0 <= i < |fs| ==> fs[i].typ == t ==> fs[i].val[0] != 0.0
    ensures ProductOf(t, acc, fs)[0] != 0.0
    decreases |fs|
  {
    if |fs| > 0 {
      var f := fs[0];
      if f.typ == t {
        FirBeforeStart(f.val[1..], acc);
        FirHead(f.val, acc, 0);
        NonZeroProduct(f.val[0], acc[0]);
        HeadOfProduct(t, Product(f.val, acc), fs[1..]);
      } else {
        HeadOfProduct(t, acc, fs[1..]);
      }
    }
  }

  /** The law determines the cascade: whatever list has the same law, has the same output. */
  lemma {:induction false} CascadeIsQuotient(fs: seq<SubFilter>, x: seq<real>)
    requires Runnable(fs)
    ensures Denominator(fs)[0] != 0.0
    ensures Cascade(fs, x) == Iir(Denominator(fs), Fir(Numerator(fs), x))
  {
    HeadOfProduct(IIR, [1.0], fs);
    forall n | 0 <= n < |x| ensures FirAt(Denominator(fs), Cascade(fs, x), n) == Fir(Numerator(fs), x)[n] {
      CascadeLaw(fs, x, n);
    }
    IirUnique(Denominator(fs), Fir(Numerator(fs), x), Cascade(fs, x));
  }
}
