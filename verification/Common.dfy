/** What several models share. */
module Common {

  datatype Option<T> = None | Some(value: T)

  lemma SubsetSize<T>(a: set<T>, b: set<T>)
    requires a <= b
    ensures |a| <= |b|
  {
    assert b == a + (b - a);
  }

  /** A quotient and a remainder below the divisor are the quotient and the remainder. */
  lemma DivModUnique(a: nat, q: nat, r: nat, n: nat)
    requires n > 0 && a == q * n + r && r < n
    ensures a / n == q && a % n == r
  {
    var k := a / n - q;
    assert a == n * (a / n) + a % n;
    assert k * n == r - a % n;
    assert k >= 1 ==> k * n >= n;
    assert k <= -1 ==> k * n + n <= 0;
  }

  /** One more: either the next place of the round, or a new round. */
  lemma NextDivMod(t: nat, n: nat)
    requires n > 0
    ensures if t % n == n - 1 then (t + 1) / n == t / n + 1 && (t + 1) % n == 0
            else (t + 1) / n == t / n && (t + 1) % n == t % n + 1
  {
    var q, r := t / n, t % n;
    assert t == n * q + r;
    if r == n - 1 {
      assert t + 1 == (q + 1) * n + 0;
      DivModUnique(t + 1, q + 1, 0, n);
    } else {
      DivModUnique(t + 1, q, r + 1, n);
    }
  }
}
