/** Facts about division by a positive variable, kept apart from the proofs that use them. */
module ModArithmetic {

  lemma MulGrows(n: nat, d: int)
    requires n > 0
    ensures d >= 1 ==> n * d >= n
    ensures d <= -1 ==> n * d + n <= 0
  {
    if d >= 1 { assert n * d == n + n * (d - 1) && n * (d - 1) >= 0; }
    if d <= -1 { assert n * d + n == n * (d + 1) && n * (d + 1) <= 0; }
  }

  /** Quotient and remainder are unique. */
  lemma DivModUnique(z: int, q: int, r: nat, n: nat)
    requires r < n && z == n * q + r
    ensures z / n == q && z % n == r
  {
    var d := q - z / n;
    assert z == n * (z / n) + z % n;
    assert n * d == n * q - n * (z / n);
    assert n * d == z % n - r;
    MulGrows(n, d);
  }

  lemma ModDistinct(a: nat, b: nat, n: nat)
    requires a < b < a + n
    ensures a % n != b % n
  {
    var q := b / n - a / n;
    assert a == n * (a / n) + a % n && b == n * (b / n) + b % n;
    assert n * q == n * (b / n) - n * (a / n);
    MulGrows(n, q);
  }

  lemma ModNext(a: nat, n: nat)
    requires n > 0
    ensures (a % n + 1) % n == (a + 1) % n
  {
    var q, r := a / n, a % n;
    assert a == n * q + r;
    if r + 1 == n {
      assert a + 1 == n * (q + 1) + 0;
      DivModUnique(a + 1, q + 1, 0, n);
      DivModUnique(r + 1, 1, 0, n);
    } else {
      assert a + 1 == n * q + (r + 1);
      DivModUnique(a + 1, q, r + 1, n);
      DivModUnique(r + 1, 0, r + 1, n);
    }
  }

  lemma ModPlus(a: nat, n: nat)
    requires n > 0
    ensures (a + n) % n == a % n
  {
    var q := a / n;
    assert a == n * q + a % n;
    assert a + n == n * (q + 1) + a % n;
    DivModUnique(a + n, q + 1, a % n, n);
  }
}
