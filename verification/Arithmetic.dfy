/** Facts about multiples and quotients. */
module Arithmetic {
  lemma {:induction false} MultiplesOrder(m: int, n: int, b: int)
    requires m <= n && b > 0
    ensures m * b <= n * b
  {
    assert (n - m) * b >= 0;
  }

  lemma {:induction false} SmallMultiple(k: int, b: int)
    requires 0 <= k * b < b
    ensures k == 0
  {
    if k >= 1 {
      MultiplesOrder(1, k, b);
    } else if k <= -1 {
      MultiplesOrder(k, -1, b);
    }
  }

  lemma {:induction false} MultipleIs(q: int, b: int)
    requires b > 0
    ensures (q * b) % b == 0
  {
    var d, r := (q * b) / b, (q * b) % b;
    assert q * b == d * b + r;
    assert (q - d) * b == q * b - d * b;
    SmallMultiple(q - d, b);
  }

  lemma {:induction false} QuotientIs(n: int, q: int, d: int, r: int)
    requires 0 <= r < d && n == q * d + r
    ensures n / d == q
  {
    var x, s := n / d, n % d;
    assert n == x * d + s;
    assert (x - q) * d == r - s;
    if r >= s {
      SmallMultiple(x - q, d);
    } else {
      assert (q - x) * d == s - r;
      SmallMultiple(q - x, d);
    }
  }
}
