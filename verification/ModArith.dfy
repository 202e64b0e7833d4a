/** Congruences modulo a positive number, by way of remainders. */
module ModArith {

  lemma {:induction false} MulGe(d: int, p: int)
    requires p > 0
    ensures d >= 1 ==> d * p >= p
    ensures d <= -1 ==> d * p <= -p
  {}

  lemma {:induction false} MulMono(a: int, b: int, c: int)
    requires a <= b && 0 <= c
    ensures a * c <= b * c && c * a <= c * b
  {}

  lemma {:induction false} MulCancelLe(a: int, b: int, c: int)
    requires c > 0 && a * c <= b * c
    ensures a <= b
  {}

  lemma {:induction false} MulAssoc(x: int, y: int, z: int)
    ensures x * (y * z) == (x * y) * z
  {}

  lemma {:induction false} MulComm(x: int, y: int)
    ensures x * y == y * x
  {}

  lemma {:induction false} Distrib(x: int, y: int, z: int)
    ensures (x + y) * z == x * z + y * z
  {}

  /** Division of naturals rounds down. */
  lemma {:induction false} Floor(n: nat, d: nat)
    requires d > 0
    ensures 0 <= n / d && n / d * d <= n < (n / d + 1) * d
  {}

  lemma {:induction false} DivModUnique(x: int, p: int, q: int, r: int)
    requires p > 0 && x == q * p + r && 0 <= r < p
    ensures x / p == q && x % p == r
  {
    var q0, r0 := x / p, x % p;
    assert x == p * q0 + r0;
    var d := q0 - q;
    assert d * p == r - r0 by { assert d * p == q0 * p - q * p; }
    MulGe(d, p);
  }

  lemma {:induction false} AddMultiple(x: int, k: int, p: int)
    requires p > 0
    ensures (x + k * p) % p == x % p
  {
    var q, r := x / p, x % p;
    assert x + k * p == (q + k) * p + r;
    DivModUnique(x + k * p, p, q + k, r);
  }

  /** Two integers with the same remainder differ by a multiple. */
  lemma {:induction false} Multiple(x: int, y: int, p: int) returns (k: int)
    requires p > 0 && x % p == y % p
    ensures x == y + k * p
  {
    k := x / p - y / p;
    assert x == p * (x / p) + x % p && y == p * (y / p) + y % p;
    assert k * p == p * (x / p) - p * (y / p);
  }

  lemma {:induction false} CongAdd(a: int, b: int, c: int, d: int, p: int)
    requires p > 0 && a % p == b % p && c % p == d % p
    ensures (a + c) % p == (b + d) % p
  {
    var k := Multiple(a, b, p);
    var l := Multiple(c, d, p);
    assert a + c == (b + d) + (k + l) * p;
    AddMultiple(b + d, k + l, p);
  }

  lemma {:induction false} CongSub(a: int, b: int, c: int, d: int, p: int)
    requires p > 0 && a % p == b % p && c % p == d % p
    ensures (a - c) % p == (b - d) % p
  {
    var k := Multiple(a, b, p);
    var l := Multiple(c, d, p);
    assert a - c == (b - d) + (k - l) * p;
    AddMultiple(b - d, k - l, p);
  }

  lemma {:induction false} CongMul(a: int, b: int, c: int, d: int, p: int)
    requires p > 0 && a % p == b % p && c % p == d % p
    ensures (a * c) % p == (b * d) % p
  {
    var k := Multiple(a, b, p);
    var l := Multiple(c, d, p);
    MulExpand(b, k, d, l, p);
    AddMultiple(b * d, b * l + k * d + k * l * p, p);
  }

  lemma {:induction false} MulExpand(b: int, k: int, d: int, l: int, p: int)
    ensures (b + k * p) * (d + l * p) == b * d + (b * l + k * d + k * l * p) * p
  {}

  lemma {:induction false} ModIdem(x: int, p: int)
    requires p > 0
    ensures (x % p) % p == x % p
  {}

  lemma {:induction false} ModSmall(x: int, p: int)
    requires 0 <= x < p
    ensures x % p == x
  {}

  /** Cancelling a factor that has an inverse. */
  lemma {:induction false} CongCancel(x: int, y: int, u: int, inv: int, p: int)
    requires p > 0 && (u * inv) % p == 1 % p && (x * u) % p == (y * u) % p
    ensures x % p == y % p
  {
    CongMul(x * u, y * u, inv, inv, p);
    CongMul(u * inv, 1, x, x, p);
    CongMul(u * inv, 1, y, y, p);
    assert (x * u) * inv == (u * inv) * x && (y * u) * inv == (u * inv) * y by { Assoc(x, u, inv); Assoc(y, u, inv); }
    assert 1 * x == x && 1 * y == y;
  }

  lemma {:induction false} Rotate(x: int, u: int, v: int)
    ensures (x * u) * v == (v * u) * x
  {}

  lemma {:induction false} Assoc(x: int, u: int, v: int)
    ensures (x * u) * v == (u * v) * x
  {}
}
