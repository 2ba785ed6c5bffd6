/** Powers of two, division, and the bitwise `and` of non-negative integers. */
module Bits {

  function Pow2(n: nat): (p: nat)
    ensures p >= 1
  {
    if n == 0 then 1 else 2 * Pow2(n - 1)
  }

  lemma {:induction false} Pow2Add(m: nat, n: nat)
    ensures Pow2(m + n) == Pow2(m) * Pow2(n)
  {
    if m > 0 {
      Pow2Add(m - 1, n);
      assert Pow2(m + n) == 2 * Pow2(m - 1 + n);
      assert 2 * (Pow2(m - 1) * Pow2(n)) == (2 * Pow2(m - 1)) * Pow2(n);
    }
  }

  lemma MulAtLeast(d: int, k: int)
    requires d >= 0 && k >= 1
    ensures d * k >= d
  {
    assert d * k == d * (k - 1) + d;
    MulNonNegative(d, k - 1);
  }

  lemma MulNonNegative(d: int, k: int)
    requires d >= 0 && k >= 0
    ensures d * k >= 0
  {}

  lemma QuotientUnique(d: int, q: int, r: int, q': int, r': int)
    requires 0 <= r < d && 0 <= r' < d && d * q + r == d * q' + r'
    ensures q == q' && r == r'
  {
    assert d * (q - q') == d * q - d * q';
    assert d * (q' - q) == d * q' - d * q;
    if q > q' {
      MulAtLeast(d, q - q');
    } else if q' > q {
      MulAtLeast(d, q' - q);
    }
  }

  /** Quotient and remainder are the only ones. */
  lemma DivUnique(n: int, d: int, q: int, r: int)
    requires 0 <= r < d && n == d * q + r
    ensures n / d == q && n % d == r
  {
    DivisionIdentity(n, d);
    QuotientUnique(d, q, r, n / d, n % d);
  }

  lemma DivisionIdentity(n: int, d: int)
    requires d >= 1
    ensures n == d * (n / d) + n % d && 0 <= n % d < d
  {}

  /** Dividing `h * (d * k) + t` by `d`, when `t < d * k`, keeps the two digits apart. */
  lemma DivDigits(h: nat, k: nat, d: nat, t: nat)
    requires d >= 1 && t < d * k
    ensures (h * (d * k) + t) / d == h * k + t / d
    ensures (h * (d * k) + t) % d == t % d
    ensures 0 <= t / d < k
  {
    var q, r := t / d, t % d;
    assert t == d * q + r;
    assert h * (d * k) == d * (h * k);
    assert d * (h * k) + d * q == d * (h * k + q);
    DivUnique(h * (d * k) + t, d, h * k + q, r);
    if q >= k { MulNonNegative(d, q - k); }
  }

  /** Two two-digit numbers are equal exactly when both digits are. */
  lemma DigitsEqual(h: int, x: int, h': int, x': int, k: int)
    requires 0 <= x < k && 0 <= x' < k
    ensures h * k + x == h' * k + x' <==> h == h' && x == x'
  {
    if h * k + x == h' * k + x' {
      DivUnique(h * k + x, k, h, x);
      DivUnique(h' * k + x', k, h', x');
    }
  }

  /** The bitwise `and`, one binary digit at a time. */
  function BitAnd(a: nat, b: nat): nat {
    if a == 0 || b == 0 then 0 else (a % 2) * (b % 2) + 2 * BitAnd(a / 2, b / 2)
  }

  lemma BitAndEven(x: nat, m: nat)
    ensures BitAnd(x, 2 * m) == 2 * BitAnd(x / 2, m)
  {}

  lemma HalfMod(x: nat, p: nat)
    requires p >= 1
    ensures x % (2 * p) == x % 2 + 2 * ((x / 2) % p)
  {
    var y := x / 2;
    var q, r := y / p, y % p;
    assert y == p * q + r;
    assert x == 2 * (p * q + r) + x % 2;
    assert 2 * (p * q) == (2 * p) * q;
    DivUnique(x, 2 * p, q, 2 * r + x % 2);
  }

  lemma BitAndOdd(x: nat, m: nat)
    ensures BitAnd(x, 2 * m + 1) == x % 2 + 2 * BitAnd(x / 2, m)
  {
    var b := 2 * m + 1;
    assert b % 2 == 1 && b / 2 == m;
  }

  /** Masking with k ones keeps the k low bits. */
  lemma {:induction false} BitAndLow(x: nat, k: nat)
    ensures BitAnd(x, Pow2(k) - 1) == x % Pow2(k)
  {
    if k > 0 {
      var p := Pow2(k - 1);
      assert Pow2(k) - 1 == 2 * (p - 1) + 1;
      BitAndOdd(x, p - 1);
      BitAndLow(x / 2, k - 1);
      HalfMod(x, p);
    }
  }

  /** Masking with j ones above k zeros keeps those bits in place. */
  lemma {:induction false} BitAndHigh(x: nat, k: nat, j: nat)
    ensures BitAnd(x, Pow2(k) * (Pow2(j) - 1)) == (x / Pow2(k) % Pow2(j)) * Pow2(k)
  {
    if k == 0 {
      BitAndLow(x, j);
      assert x / 1 == x && Pow2(0) * (Pow2(j) - 1) == Pow2(j) - 1;
    } else {
      var p, q := Pow2(k - 1), Pow2(j);
      MulNonNegative(p, q - 1);
      BitAndHigh(x / 2, k - 1, j);
      BitAndDoubles(x, p, q);
      assert Pow2(k) == 2 * p;
    }
  }

  lemma BitAndDoubles(x: nat, p: nat, q: nat)
    requires p >= 1 && q >= 1
    requires p * (q - 1) >= 0 && BitAnd(x / 2, p * (q - 1)) == (x / 2 / p % q) * p
    ensures 2 * p * (q - 1) >= 0 && BitAnd(x, 2 * p * (q - 1)) == (x / (2 * p) % q) * (2 * p)
  {
    MulAssoc(2, p, q - 1);
    BitAndEven(x, p * (q - 1));
    HalfDiv(x, p);
    DoubleSecond(x / (2 * p) % q, p);
  }

  lemma DoubleSecond(a: int, p: int)
    ensures a * (2 * p) == 2 * (a * p)
  {}

  lemma MulAssoc(a: int, b: int, c: int)
    ensures (a * b) * c == a * (b * c)
  {}

  lemma HalfDiv(x: nat, p: nat)
    requires p >= 1
    ensures x / 2 / p == x / (2 * p)
  {
    var y := x / 2;
    var q, r := y / p, y % p;
    assert y == p * q + r;
    assert x == 2 * (p * q + r) + x % 2;
    assert 2 * (p * q) == (2 * p) * q;
    DivUnique(x, 2 * p, q, 2 * r + x % 2);
  }

  /** Dividing `h * m + t` by `p * m`, when `t < m`, divides the digit `h` by `p`. */
  lemma DivWide(h: nat, p: nat, m: nat, t: nat)
    requires p >= 1 && t < m
    ensures (h * m + t) / (p * m) == h / p
    ensures (h * m + t) % (p * m) == (h % p) * m + t
  {
    DivisionIdentity(h, p);
    var q, r := h / p, h % p;
    Regroup(p, q, r, m);
    MulNonNegative(m, p - 1 - r);
    Distribute(m, p, r);
    MulNonNegative(r, m);
    DivUnique(h * m + t, p * m, q, r * m + t);
  }

  lemma Regroup(p: int, q: int, r: int, m: int)
    ensures (p * q + r) * m == (p * m) * q + r * m
  {}

  lemma Distribute(m: int, p: int, r: int)
    ensures m * (p - 1 - r) == p * m - m - r * m
  {}
}
