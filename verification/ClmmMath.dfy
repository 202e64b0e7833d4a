/** Segment amounts of the concentrated-liquidity pool, and their closed-form and searched
    inverses, on Q64.64 square-root prices. */
module ClmmMath {
  import opened ModArith

  const T64: nat := 0x1_0000_0000_0000_0000
  const C128: nat := 0x1_0000_0000_0000_0000_0000_0000_0000_0000
  const C127: nat := 0x8000_0000_0000_0000_0000_0000_0000_0000

  /** The Y moved between two prices. */
  function Dy(l: nat, s: nat, s2: nat): nat
    requires s <= s2
  {
    Floor(l * (s2 - s), T64);
    l * (s2 - s) / T64
  }

  /** The X moved between two prices. */
  function Dx(l: nat, s: nat, s2: nat): nat
    requires 0 < s <= s2
  {
    Positive(s, s2);
    Floor(l * (s2 - s) * T64, s * s2);
    l * (s2 - s) * T64 / (s * s2)
  }

  lemma {:induction false} Positive(a: nat, b: nat)
    requires a > 0 && b > 0
    ensures a * b > 0
  {
  }

  /** A quotient is at most b exactly when the dividend stays below the next multiple. */
  lemma {:induction false} QuotientAtMost(n: nat, d: nat, b: nat)
    requires d > 0
    ensures n / d <= b <==> n < (b + 1) * d
  {
    var q := n / d;
    Floor(n, d);
    assert q <= b ==> (q + 1) * d <= (b + 1) * d by { if q <= b { MulMono(q + 1, b + 1, d); } }
    assert q > b ==> (b + 1) * d <= q * d by { if q > b { MulMono(b + 1, q, d); } }
  }

  /** A quotient is at least b exactly when it fits b times. */
  lemma {:induction false} QuotientAtLeast(n: nat, d: nat, b: nat)
    requires d > 0
    ensures b <= n / d <==> b * d <= n
  {
    Floor(n, d);
    if b > 0 { QuotientAtMost(n, d, b - 1); }
  }

  // ---- closed forms ----

  /** The code's upward solver; its constant named after 2^127 is 2^128. */
  function Sfdx(l: nat, s: nat, dx: nat): nat
    requires s > 0
  {
    var tB := l * T64 - (dx + 1) * s;
    if l == 0 || tB <= 0 then C128
    else
      SfdxQuotient(l, s, dx);
      var q := (l * s * T64 - 1) / tB;
      var e := if q > C128 then C128 else q;
      if e < s then s else e
  }

  /** The code's downward solver. */
  function Sfdyi(l: nat, s: nat, dy: nat): nat
    requires s > 0
  {
    if l == 0 then 1
    else
      var r := s - (T64 * (dy + 1) - 1) / l;
      if r < 1 then 1 else r
  }

  lemma {:induction false} DxAtMost(l: nat, s: nat, s2: nat, b: nat)
    requires 0 < s <= s2
    ensures Dx(l, s, s2) <= b <==> (l * T64 - (b + 1) * s) * s2 <= l * s * T64 - 1
  {
    Positive(s, s2);
    QuotientAtMost(l * (s2 - s) * T64, s * s2, b);
    var k, c := l * T64, (b + 1) * s;
    assert l * (s2 - s) * T64 == k * (s2 - s) by { Reorder(l, s2 - s, T64); }
    assert l * s * T64 == k * s by { Reorder(l, s, T64); }
    assert (b + 1) * (s * s2) == c * s2 by { MulAssoc(b + 1, s, s2); }
    Spread(k, c, s, s2);
  }

  lemma {:induction false} Reorder(a: int, b: int, c: int)
    ensures a * b * c == a * c * b
  {
  }

  lemma {:induction false} Spread(k: int, c: int, s: int, s2: int)
    ensures k * (s2 - s) == k * s2 - k * s
    ensures (k - c) * s2 == k * s2 - c * s2
  {
  }

  /** With a positive denominator the quotient is the exact bound, and is at least s. */
  lemma {:induction false} SfdxQuotient(l: nat, s: nat, dx: nat)
    requires s > 0 && l > 0 && l * T64 - (dx + 1) * s > 0
    ensures l * s * T64 - 1 >= 0
    ensures var q := (l * s * T64 - 1) / (l * T64 - (dx + 1) * s);
            q >= s && forall s2: nat :: s <= s2 ==> (Dx(l, s, s2) <= dx <==> s2 <= q)
  {
    Positive(l, s);
    Positive(l * s, T64);
    var n, d := l * s * T64 - 1, l * T64 - (dx + 1) * s;
    forall s2: nat | s <= s2
      ensures Dx(l, s, s2) <= dx <==> s2 <= n / d
    {
      DxAtMost(l, s, s2, dx);
      QuotientAtLeast(n, d, s2);
      assert d * s2 == s2 * d;
    }
    DxEmpty(l, s);
  }

  lemma {:induction false} DxEmpty(l: nat, s: nat)
    requires s > 0
    ensures Dx(l, s, s) == 0
  {}

  /** Upward exactness: the largest price in [s, 2^128] whose X stays within budget. */
  lemma {:induction false} SfdxExact(l: nat, s: nat, dx: nat, s2: nat)
    requires 0 < s <= s2 <= C128
    ensures s <= Sfdx(l, s, dx) <= C128
    ensures Dx(l, s, s2) <= dx <==> s2 <= Sfdx(l, s, dx)
  {
    var tB := l * T64 - (dx + 1) * s;
    if l == 0 || tB <= 0 {
      DxAtMost(l, s, s2, dx);
      Positive(s, s2);
      assert l == 0 ==> l * (s2 - s) * T64 == 0;
      QuotientAtMost(l * (s2 - s) * T64, s * s2, dx);
      Positive((dx + 1), s * s2);
      if l > 0 {
        Positive(l, s);
        Positive(l * s, T64);
        assert tB * s2 <= 0 by { MulMono(tB, 0, s2); }
      }
    } else {
      SfdxQuotient(l, s, dx);
    }
  }

  /** Before a far edge the budget does not reach, the solver stops strictly short. */
  lemma {:induction false} SfdxStopsShort(l: nat, s: nat, dx: nat, edge: nat)
    requires 0 < s <= edge && Dx(l, s, edge) > dx
    ensures l > 0 && s <= Sfdx(l, s, dx) < edge
  {
    DxAtMost(l, s, edge, dx);
    NoLiquidity(l, s, edge);
    DxEmpty(l, s);
    var tB := l * T64 - (dx + 1) * s;
    Positive(l, s);
    Positive(l * s, T64);
    assert tB <= 0 ==> tB * edge <= 0 by { if tB <= 0 { MulMono(tB, 0, edge); } }
    SfdxQuotient(l, s, dx);
  }

  /** Without liquidity a segment moves nothing. */
  lemma {:induction false} NoLiquidity(l: nat, s: nat, s2: nat)
    requires 0 < s <= s2
    ensures l == 0 ==> Dx(l, s, s2) == 0 && Dy(l, s, s2) == 0
  {}

  /** A larger budget never stops earlier. */
  lemma {:induction false} SfdxMono(l: nat, s: nat, dx: nat, dx': nat, edge: nat)
    requires 0 < s <= edge && dx <= dx' < Dx(l, s, edge)
    ensures Sfdx(l, s, dx) <= Sfdx(l, s, dx')
  {
    SfdxStopsShort(l, s, dx, edge);
    SfdxStopsShort(l, s, dx', edge);
    DxAtMost(l, s, edge, dx);
    DxAtMost(l, s, edge, dx');
    Positive(l, s);
    Positive(l * s, T64);
    var tB, tB' := l * T64 - (dx + 1) * s, l * T64 - (dx' + 1) * s;
    assert tB <= 0 ==> tB * edge <= 0 by { if tB <= 0 { MulMono(tB, 0, edge); } }
    assert tB' <= 0 ==> tB' * edge <= 0 by { if tB' <= 0 { MulMono(tB', 0, edge); } }
    SfdxQuotient(l, s, dx);
    SfdxQuotient(l, s, dx');
    var q := (l * s * T64 - 1) / tB;
    assert Dx(l, s, q) <= dx;
  }

  /** Downward exactness: the smallest price in [1, s] whose Y stays within budget. */
  lemma {:induction false} SfdyiExact(l: nat, s: nat, dy: nat, s2: nat)
    requires 1 <= s2 <= s
    ensures 1 <= Sfdyi(l, s, dy) <= s
    ensures Dy(l, s2, s) <= dy <==> Sfdyi(l, s, dy) <= s2
  {
    var n, k := (dy + 1) * T64 - 1, s - s2;
    QuotientAtMost(l * k, T64, dy);
    if l == 0 {
      NoLiquidity(l, s2, s);
    } else {
      assert T64 * (dy + 1) - 1 == n;
      Floor(n, l);
      WithinBudget(l, k, n);
    }
  }

  lemma {:induction false} WithinBudget(l: nat, k: nat, n: nat)
    requires l > 0
    ensures l * k <= n <==> k <= n / l
  {
    QuotientAtLeast(n, l, k);
    MulComm(l, k);
  }

  lemma {:induction false} SfdyiMono(l: nat, s: nat, dy: nat, dy': nat)
    requires s > 0 && dy <= dy'
    ensures Sfdyi(l, s, dy') <= Sfdyi(l, s, dy)
  {
    var r := Sfdyi(l, s, dy);
    SfdyiExact(l, s, dy, s);
    SfdyiExact(l, s, dy, r);
    SfdyiExact(l, s, dy', r);
  }

  lemma {:induction false} SfdyiStopsShort(l: nat, s: nat, dy: nat, edge: nat)
    requires 0 < edge <= s && Dy(l, edge, s) > dy
    ensures l > 0 && edge < Sfdyi(l, s, dy) <= s
  {
    SfdyiExact(l, s, dy, edge);
    NoLiquidity(l, edge, s);
  }

  // ---- monotonicity of the amounts ----

  lemma {:induction false} DyMono(l: nat, a: nat, s: nat, s2: nat, b: nat)
    requires a <= s <= s2 <= b
    ensures Dy(l, s, s2) <= Dy(l, a, b)
  {
    MulMono(s2 - s, b - a, l);
    assert l * (s2 - s) == (s2 - s) * l && l * (b - a) == (b - a) * l;
    Floor(l * (b - a), T64);
    QuotientAtMost(l * (s2 - s), T64, Dy(l, a, b));
  }

  /** Widening a segment downwards moves no less X. */
  lemma {:induction false} DxMonoLow(l: nat, a: nat, s: nat, top: nat)
    requires 0 < a <= s <= top
    ensures Dx(l, s, top) <= Dx(l, a, top)
  {
    var b := Dx(l, a, top);
    DxAtMost(l, a, top, b);
    DxAtMost(l, s, top, b);
    var k := l * T64;
    assert l * a * T64 == k * a by { Reorder(l, a, T64); }
    assert l * s * T64 == k * s by { Reorder(l, s, T64); }
    DxLow(k, b, a, s, top);
  }

  lemma {:induction false} DxLow(k: nat, b: nat, a: nat, s: nat, top: nat)
    requires 0 < a <= s && (k - (b + 1) * a) * top <= k * a - 1
    ensures (k - (b + 1) * s) * top <= k * s - 1
  {}

  // ---- the reference searches ----

  /** The reference search for the smallest price in [1, s] within a Y budget: it finds
      exactly what the closed form computes. */
  method SForDyIn(l: nat, s: nat, dy: nat) returns (r: nat)
    requires s >= 1
    ensures r == Sfdyi(l, s, dy)
  {
    var lo, hi := 1, s;
    SfdyiExact(l, s, dy, s);
    while lo < hi
      invariant 1 <= lo <= Sfdyi(l, s, dy) <= hi <= s
    {
      var mid := (lo + hi) / 2;
      SfdyiExact(l, s, dy, mid);
      if Dy(l, mid, s) <= dy { hi := mid; } else { lo := mid + 1; }
    }
    return lo;
  }

  /** The reference search for the smallest price in [1, s] within an X budget. */
  method SForDxOut(l: nat, s: nat, dx: nat) returns (r: nat)
    requires s >= 1
    ensures 1 <= r <= s && Dx(l, r, s) <= dx
    ensures forall s2 :: 1 <= s2 < r ==> Dx(l, s2, s) > dx
  {
    var lo, hi := 1, s;
    DxEmpty(l, s);
    while lo < hi
      invariant 1 <= lo <= hi <= s && Dx(l, hi, s) <= dx
      invariant forall s2 :: 1 <= s2 < lo ==> Dx(l, s2, s) > dx
    {
      var mid := (lo + hi) / 2;
      if Dx(l, mid, s) <= dx {
        hi := mid;
      } else {
        forall s2 | 1 <= s2 <= mid ensures Dx(l, s2, s) > dx { DxMonoLow(l, s2, mid, s); }
        lo := mid + 1;
      }
    }
    return lo;
  }

  /** The reference search for the largest price up to 2^127 within a Y budget; a price
      already above that bound comes back as it is. */
  method SForDy(l: nat, s: nat, dy: nat) returns (r: nat)
    ensures s <= r && Dy(l, s, r) <= dy
    ensures forall s2 :: r < s2 <= C127 ==> Dy(l, s, s2) > dy
  {
    var lo, hi := s, C127;
    DyEmpty(l, s);
    while lo < hi
      invariant s <= lo && Dy(l, s, lo) <= dy && (lo <= hi || lo == s)
      invariant hi <= C127 && forall s2 :: hi < s2 <= C127 && s <= s2 ==> Dy(l, s, s2) > dy
    {
      var mid := (lo + hi + 1) / 2;
      if Dy(l, s, mid) <= dy {
        lo := mid;
      } else {
        forall s2 | mid <= s2 <= C127 ensures Dy(l, s, s2) > dy { DyMono(l, s, s, mid, s2); }
        hi := mid - 1;
      }
    }
    return lo;
  }

  lemma {:induction false} DyEmpty(l: nat, s: nat)
    ensures Dy(l, s, s) == 0
  {}

  // ---- integer square root ----

  /** The number of binary digits of n; one for zero. */
  function BitLen(n: nat): (b: nat)
    ensures b >= 1 && n < Pow2(b)
  {
    if n < 2 then 1 else 1 + BitLen(n / 2)
  }

  function Pow2(k: nat): (r: nat)
    ensures r >= 1
  {
    if k == 0 then 1 else 2 * Pow2(k - 1)
  }

  lemma {:induction false} Pow2Add(a: nat, b: nat)
    ensures Pow2(a + b) == Pow2(a) * Pow2(b)
  {
    if a > 0 {
      Pow2Add(a - 1, b);
      assert 2 * (Pow2(a - 1) * Pow2(b)) == (2 * Pow2(a - 1)) * Pow2(b);
    }
  }

  lemma {:induction false} Pow2Mono(a: nat, b: nat)
    requires a <= b
    ensures Pow2(a) <= Pow2(b)
  {
    Pow2Add(a, b - a);
    assert Pow2(a) * Pow2(b - a) >= Pow2(a) by { MulMono(1, Pow2(b - a), Pow2(a)); }
  }

  /** The seed is at least the root. */
  lemma {:induction false} SeedAbove(n: nat)
    ensures var x := Pow2((BitLen(n) + 1) / 2); n < x * x
  {
    var b := BitLen(n);
    var h := (b + 1) / 2;
    Pow2Add(h, h);
    Pow2Mono(b, h + h);
  }

  /** A Newton step from above does not undershoot the root. */
  lemma {:induction false} NewtonAbove(n: nat, x: nat)
    requires x > 0
    ensures var y := (x + n / x) / 2; n < (y + 1) * (y + 1)
  {
    var q := n / x;
    Floor(n, x);
    var y := (x + q) / 2;
    MeanSquare(x, q + 1, y + 1);
  }

  /** The product of two numbers is at most the square of their mean. */
  lemma {:induction false} MeanSquare(a: nat, b: nat, m: nat)
    requires a + b <= 2 * m
    ensures b * a <= m * m
  {}

  /** Newton's iteration from a power of two above the root. */
  method Isqrt(n: nat) returns (r: nat)
    ensures r * r <= n < (r + 1) * (r + 1)
  {
    if n < 2 { return n; }
    var x := Pow2((BitLen(n) + 1) / 2);
    SeedAbove(n);
    while true
      invariant x > 0 && n < (x + 1) * (x + 1)
      decreases x
    {
      Floor(n, x);
      var y := (x + n / x) / 2;
      NewtonAbove(n, x);
      if y >= x {
        MulMono(x, n / x, x);
        return x;
      }
      PositiveRoot(n, y);
      x := y;
    }
  }

  lemma {:induction false} PositiveRoot(n: nat, y: nat)
    requires n >= 2 && n < (y + 1) * (y + 1)
    ensures y > 0
  {
  }
}
