/** Multiples of a block size. */
module Blocks {

  /** i blocks of m. */
  function By(m: nat, i: int): (n: int)
    ensures i >= 0 ==> n >= 0
  {
    m * i
  }

  lemma {:induction false} ByNext(m: nat, i: int)
    ensures By(m, i + 1) == By(m, i) + m && By(m, 0) == 0 && By(m, 1) == m && By(1, i) == i
    ensures By(m, i - 1) == By(m, i) - m
  {
  }

  lemma {:induction false} ByMonotone(m: nat, i: int, j: int)
    requires i <= j
    ensures By(m, i) <= By(m, j)
  {
    assert m * (j - i) >= 0;
  }

  lemma {:induction false} Euclid(n: nat, m: nat)
    requires m > 0
    ensures n == By(m, n / m) + n % m && 0 <= n % m < m && 0 <= n / m
  {
  }

  /** Quotient and remainder are the only ones. */
  lemma {:induction false} Divides(n: nat, m: nat, q: int, r: nat)
    requires m > 0 && n == By(m, q) + r && r < m
    ensures n / m == q && n % m == r
  {
    hide By;
    var a, b := n / m, n % m;
    Euclid(n, m);
    if a > q {
      ByNext(m, q);
      ByMonotone(m, q + 1, a);
      assert false;
    } else if a < q {
      ByNext(m, a);
      ByMonotone(m, a + 1, q);
      assert false;
    }
  }

  lemma {:induction false} BySum(m: nat, i: int, j: int)
    ensures By(m, i + j) == By(m, i) + By(m, j)
  {
  }

  /** One more block. */
  lemma {:induction false} OneMore(n: nat, m: nat)
    requires m > 0 && n % m == 0
    ensures (n + m) % m == 0 && (n + m) / m == n / m + 1
    ensures By(m, n / m) == n && By(m, n / m + 1) == n + m
  {
    hide By;
    Euclid(n, m);
    ByNext(m, n / m);
    Divides(n + m, m, n / m + 1, 0);
  }

  /** What lies below n blocks has a quotient below n, and the other way round. */
  lemma {:induction false} Below(k: nat, m: nat, n: int)
    requires m > 0
    ensures k < By(m, n) <==> k / m < n
  {
    hide By;
    Euclid(k, m);
    if k / m < n {
      ByNext(m, k / m);
      ByMonotone(m, k / m + 1, n);
    } else {
      ByMonotone(m, n, k / m);
    }
  }

  /** Adding a whole number of blocks keeps the remainder. */
  lemma {:induction false} MoreBlocks(n: nat, more: nat, m: nat)
    requires m > 0 && more % m == 0
    ensures (n + more) % m == n % m && (n + more) / m == n / m + more / m
  {
    hide By;
    Euclid(n, m);
    Euclid(more, m);
    BySum(m, n / m, more / m);
    Divides(n + more, m, n / m + more / m, n % m);
  }
}
