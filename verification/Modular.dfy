/** Arithmetic modulo a size that is not a literal, as counters and ring indices need it. */
module Modular {

  lemma Euclid(x: nat, n: nat, q: nat, r: nat)
    requires n > 0 && x == q * n + r && r < n
    ensures x % n == r
  {
    var a, b := x / n, x % n;
    assert x == a * n + b;
    assert (q - a) * n == b - r;
    SmallMultiple(q - a, n, b - r);
  }

  /** The only multiple of n within n of zero is zero. */
  lemma SmallMultiple(k: int, n: int, t: int)
    requires k * n == t && -n < t < n
    ensures t == 0
  {
    assert k > 0 ==> (k - 1) * n >= 0;
    assert k < 0 ==> (-k - 1) * n >= 0;
  }

  /** Adding before or after wrapping. */
  lemma ModAdd(x: nat, k: nat, n: nat)
    requires n > 0
    ensures (x + k) % n == (x % n + k) % n
  {
    var q, r := (x % n + k) / n, (x % n + k) % n;
    assert x == (x / n) * n + x % n;
    assert x + k == (x / n + q) * n + r;
    Euclid(x + k, n, x / n + q, r);
  }

  lemma QuotientRemainder(x: nat, n: nat) returns (q: nat, r: nat)
    requires n > 0
    ensures x == q * n + r && r == x % n && r < n
  {
    q, r := x / n, x % n;
  }

  lemma TwoMultiples(x: nat, a: nat, m: nat, n: nat, q: nat, r: nat)
    requires x == a * (m * n) + (q * n + r) && r < n
    ensures x % n == r
  {
    assert (a * m + q) * n == a * (m * n) + q * n;
    Euclid(x, n, a * m + q, r);
  }

  /** Wrapping at a multiple of n does not disturb the remainder by n. */
  lemma ModMod(x: nat, w: nat, n: nat)
    requires n > 0 && w > 0 && w % n == 0
    ensures (x % w) % n == x % n
  {
    var a, y := QuotientRemainder(x, w);
    var m, _ := QuotientRemainder(w, n);
    var q, r := QuotientRemainder(y, n);
    TwoMultiples(x, a, m, n, q, r);
  }

  /** Less than n apart, the same remainder means the same number. */
  lemma ModEqual(x: nat, y: nat, n: nat)
    requires n > 0 && x <= y < x + n && x % n == y % n
    ensures x == y
  {
    assert y - x == (y / n - x / n) * n;
    SmallMultiple(y / n - x / n, n, y - x);
  }
}
