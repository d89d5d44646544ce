/** Division facts that positions in rounds, in mixed radix and in pages rest on. */
module Arithmetic {

  lemma DivModUnique(x: nat, q: nat, r: nat, n: nat)
    requires n > 0 && r < n && x == q * n + r
    ensures x % n == r && x / n == q
  {
    var d := x / n - q;
    assert x == (x / n) * n + x % n;
    assert d * n == (x / n) * n - q * n == r - x % n;
    assert d >= 1 ==> d * n >= n;
    assert d <= -1 ==> d * n <= -(n as int);
  }

  lemma Regroup(a: nat, w: nat, b: nat, m: nat)
    ensures (a * w + b) * m == a * (w * m) + b * m
  {
    assert (a * w + b) * m == (a * w) * m + b * m;
    assert (a * w) * m == a * (w * m);
  }

  lemma IndexInProduct(p: nat, q: nat, n: nat, m: nat)
    requires p < n && q < m
    ensures p * m + q < n * m
  {
    assert (p + 1) * m <= n * m;
    assert (p + 1) * m == p * m + m;
  }

  lemma TwoDigits(a: nat, w: nat, b: nat, m: nat, q: nat)
    requires b < w && q < m
    ensures w * m > 0 && ((a * w + b) * m + q) / (w * m) == a
  {
    Regroup(a, w, b, m);
    IndexInProduct(b, q, w, m);
    DivModUnique((a * w + b) * m + q, a, b * m + q, w * m);
  }

  lemma DivDiv(x: nat, m: nat, w: nat)
    requires m > 0 && w > 0
    ensures w * m > 0 && x / (w * m) == (x / m) / w
  {
    Euclid(x, m);
    Euclid(x / m, w);
    TwoDigits(x / m / w, w, x / m % w, m, x % m);
  }

  lemma Euclid(x: nat, m: nat)
    requires m > 0
    ensures x == (x / m) * m + x % m && x % m < m
  {
  }

  lemma QuotientInRange(i: nat, n: nat, m: nat)
    requires i < n * m
    ensures m > 0 && i / m < n && i % m < m
  {
    assert m > 0;
    var q := i / m;
    assert q >= n ==> q * m >= n * m;
    assert q * m <= i;
  }

  lemma MulMonotone(a: nat, b: nat, n: nat)
    requires a <= b
    ensures a * n <= b * n
  {
  }

  /** Rounding a quotient up. */
  lemma CeilBounds(total: nat, n: nat)
    requires total > 0 && n > 0
    ensures var c := (total + n - 1) / n;
            1 <= c <= total && (c - 1) * n < total <= c * n
  {
    var c := (total + n - 1) / n;
    Euclid(total + n - 1, n);
    var p := c * n;
    assert (c - 1) * n == p - n;
    assert c == 0 ==> p == 0;
    MulMonotone(1, n, c - 1);
  }

  /** The multiples below total are those of the numbers below the quotient rounded up. */
  lemma CeilIff(total: nat, n: nat, k: nat)
    requires total > 0 && n > 0
    ensures k < (total + n - 1) / n <==> k * n < total
  {
    var c := (total + n - 1) / n;
    CeilBounds(total, n);
    if k < c {
      MulMonotone(k, c - 1, n);
    } else {
      MulMonotone(c, k, n);
    }
  }

  // ---------- Go's int ----------

  const MODULUS := 0x1_0000_0000_0000_0000

  /** The 64-bit integer that n wraps to. */
  function Wrap64(n: int): (r: int)
    ensures -(MODULUS / 2) <= r < MODULUS / 2 && (n - r) % 0x1_0000_0000_0000_0000 == 0
    ensures -(MODULUS / 2) <= n < MODULUS / 2 ==> r == n
  {
    (n + MODULUS / 2) % MODULUS - MODULUS / 2
  }
}
