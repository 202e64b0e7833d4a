/** Montgomery multiplication on sixteen 16-bit limbs (coarsely integrated operand
    scanning), for any modulus table with a matching NP0 constant. */
module Cios {
  import opened Limbs
  import opened ModArith

  const B: nat := 65536

  /** A modulus table: limbs, -p^-1 mod 2^16, and an inverse of R = 2^256 mod p. */
  datatype Modulus = Modulus(limbs: seq<int>, np0: nat, rinv: nat)

  function V(s: seq<int>): int requires |s| >= 16 { Val(B, s, 16) }

  function R(): nat { Pow(B, 16) }

  ghost predicate ValidModulus(md: Modulus) {
    && |md.limbs| == 16 && InBase(B, md.limbs, 16) && md.np0 < B
    && V(md.limbs) > 1 && (md.limbs[0] * md.np0 + 1) % B == 0
    && (R() * md.rinv) % V(md.limbs) == 1
  }

  // ---- limb steps ----

  lemma {:induction false} ProductBound(x: int, y: int)
    requires 0 <= x < B && 0 <= y < B
    ensures 0 <= x * y <= 4294836225
  {
    MulMono(0, x, y);
    MulMono(x, 65535, y);
  }

  // ---- the loops ----

  /** One limb of the first inner loop. */
  method MulAddLimb(t: array<int>, j: nat, aj: int, x: int, c: int, ghost tlo: int, ghost alo: int) returns (carry: int)
    requires j < t.Length && 0 <= t[j] < B && 0 <= aj < B && 0 <= x < B && 0 <= c < B
    requires Val(B, t[..], j) + c * Pow(B, j) == tlo + x * alo
    modifies t
    ensures 0 <= t[j] < B && 0 <= carry < B && t[..] == old(t[..])[j := t[j]]
    ensures Val(B, t[..], j + 1) + carry * Pow(B, j + 1) == tlo + old(t[j]) * Pow(B, j) + x * (alo + aj * Pow(B, j))
  {
    ProductBound(aj, x);
    var sum := t[j] + aj * x + c;
    assert sum < 0x1_0000_0000;
    RowStep(B, Val(B, t[..], j), tlo, alo, x, c, t[j], aj, Pow(B, j));
    carry := sum / B;
    t[j] := sum % B;
    ValFrame(B, old(t[..]), t[..], j);
  }

  /** The first inner loop: t += x * a, with the overflow limb in t[17]. */
  method MulAddRow(t: array<int>, a: seq<int>, x: int)
    requires t.Length == 18 && InBase(B, t[..], 16) && 0 <= t[16] <= 1 && InBase(B, a, 16) && 0 <= x < B
    modifies t
    ensures InBase(B, t[..], 17) && 0 <= t[17] <= 1
    ensures Val(B, t[..], 18) == old(Val(B, t[..], 17)) + x * V(a)
  {
    ghost var t0 := t[..];
    var c, j := 0, 0;
    while j < 16
      invariant 0 <= j <= 16 && 0 <= c < B
      invariant InBase(B, t[..], 16)
      invariant forall k :: j <= k < 18 ==> t[k] == t0[k]
      invariant Val(B, t[..], j) + c * Pow(B, j) == Val(B, t0, j) + x * Val(B, a, j)
    {
      c := MulAddLimb(t, j, a[j], x, c, Val(B, t0, j), Val(B, a, j));
      j := j + 1;
    }
    StoreTop(t, c);
    TopRow(t[16], t[17], t0[16], c, R());
  }

  method StoreTop(t: array<int>, c: int)
    requires t.Length == 18 && 0 <= t[16] <= 1 && 0 <= c < B
    modifies t
    ensures t[..16] == old(t[..16]) && t[16] + t[17] * B == old(t[16]) + c && 0 <= t[16] < B && 0 <= t[17] <= 1
    ensures Val(B, t[..], 18) == old(Val(B, t[..], 16)) + t[16] * R() + t[17] * (B * R())
  {
    var s16 := t[16] + c;
    t[16] := s16 % B;
    t[17] := s16 / B;
    assert forall k :: 0 <= k < 16 ==> t[k] == t[..16][k] == old(t[..])[k];
    ValFrame(B, old(t[..]), t[..], 16);
  }

  lemma {:induction false} TopRow(t16: int, t17: int, u16: int, c: int, w: int)
    requires t16 + t17 * B == u16 + c
    ensures t16 * w + t17 * (B * w) == u16 * w + c * w
  {}

  /** One limb of the second inner loop: written one place lower. */
  method ReduceLimb(t: array<int>, j: nat, pj: int, m: int, c: int, ghost ulo: int, ghost plo: int) returns (carry: int)
    requires 1 <= j < t.Length && 0 <= t[j] < B && 0 <= pj < B && 0 <= m < B && 0 <= c < B
    requires B * Val(B, t[..], j - 1) + c * Pow(B, j) == ulo + m * plo
    modifies t
    ensures 0 <= t[j - 1] < B && 0 <= carry < B && t[..] == old(t[..])[j - 1 := t[j - 1]]
    ensures B * Val(B, t[..], j) + carry * Pow(B, j + 1) == ulo + old(t[j]) * Pow(B, j) + m * (plo + pj * Pow(B, j))
  {
    ProductBound(pj, m);
    var sum := t[j] + pj * m + c;
    assert sum < 0x1_0000_0000;
    RowStep(B, B * Val(B, t[..], j - 1), ulo, plo, m, c, t[j], pj, Pow(B, j));
    carry := sum / B;
    t[j - 1] := sum % B;
    ValFrame(B, old(t[..]), t[..], j - 1);
    ShiftWeight(Val(B, t[..], j - 1), t[j - 1], Pow(B, j - 1));
  }

  /** The second inner loop: adds the multiple of p that clears the low limb, and shifts. */
  method ReduceRow(md: Modulus, t: array<int>) returns (m: int)
    requires ValidModulus(md) && t.Length == 18 && InBase(B, t[..], 17) && 0 <= t[17] <= 1
    modifies t
    ensures InBase(B, t[..], 16) && 0 <= t[16] && 0 <= m < B
    ensures B * Val(B, t[..], 17) == old(Val(B, t[..], 18)) + m * V(md.limbs)
  {
    ghost var u := t[..];
    var c;
    m, c := LowLimb(md, t);
    c := ReduceLoop(md.limbs, t, m, c);
    ghost var lo := Val(B, t[..], 15);
    ShiftTop(t, c);
    TopLimbs(lo, t[15], t[16], u[16], u[17], c, Pow(B, 15));
    Distrib(u[16], c, R());
  }

  method ReduceLoop(P: seq<int>, t: array<int>, m: int, c0: int) returns (c: int)
    requires t.Length == 18 && InBase(B, t[..], 17) && InBase(B, P, 16) && 0 <= m < B && 0 <= c0 < B
    requires B * Val(B, t[..], 0) + c0 * Pow(B, 1) == Val(B, t[..], 1) + m * Val(B, P, 1)
    modifies t
    ensures InBase(B, t[..], 17) && 0 <= c < B && t[16] == old(t[16]) && t[17] == old(t[17])
    ensures B * Val(B, t[..], 15) + c * R() == old(Val(B, t[..], 16)) + m * V(P)
  {
    ghost var u := t[..];
    c := c0;
    var j := 1;
    while j < 16
      invariant 1 <= j <= 16 && 0 <= c < B
      invariant InBase(B, t[..], 17)
      invariant forall k :: j <= k < 18 ==> t[k] == u[k]
      invariant B * Val(B, t[..], j - 1) + c * Pow(B, j) == Val(B, u, j) + m * Val(B, P, j)
    {
      c := ReduceLimb(t, j, P[j], m, c, Val(B, u, j), Val(B, P, j));
      j := j + 1;
    }
  }

  method LowLimb(md: Modulus, t: array<int>) returns (m: int, c: int)
    requires ValidModulus(md) && t.Length == 18 && 0 <= t[0] < B
    ensures 0 <= m < B && 0 <= c < B
    ensures B * Val(B, t[..], 0) + c * Pow(B, 1) == Val(B, t[..], 1) + m * Val(B, md.limbs, 1)
  {
    m := (t[0] * md.np0) % B;
    ProductBound(m, md.limbs[0]);
    var s0 := t[0] + m * md.limbs[0];
    assert s0 < 0x1_0000_0000;
    LowLimbClears(t[0], md.limbs[0], md.np0);
    c := s0 / B;
    PowOne();
    assert Val(B, t[..], 1) == t[0] && Val(B, md.limbs, 1) == md.limbs[0];
  }

  method ShiftTop(t: array<int>, c: int)
    requires t.Length == 18 && 0 <= t[16] < B && 0 <= t[17] <= 1 && 0 <= c < B
    modifies t
    ensures t[..15] == old(t[..15]) && 0 <= t[15] < B && 0 <= t[16]
    ensures t[15] + (t[16] - old(t[17])) * B == old(t[16]) + c
    ensures Val(B, t[..], 17) == old(Val(B, t[..], 15)) + t[15] * Pow(B, 15) + t[16] * (B * Pow(B, 15))
  {
    var s16 := t[16] + c;
    t[15] := s16 % B;
    t[16] := t[17] + s16 / B;
    assert forall k :: 0 <= k < 15 ==> t[k] == t[..15][k] == old(t[..])[k];
    ValFrame(B, old(t[..]), t[..], 15);
  }

  lemma {:induction false} PowOne()
    ensures Pow(B, 0) == 1 && Pow(B, 1) == B
  {}

  lemma {:induction false} ShiftWeight(lo: int, d: int, w: int)
    ensures B * (lo + d * w) == B * lo + d * (B * w)
  {}

  /** The two top limbs after the shift. */
  lemma {:induction false} TopLimbs(lo: int, t15: int, t16: int, u16: int, u17: int, c: int, w: int)
    requires t15 + (t16 - u17) * B == u16 + c
    ensures B * (lo + t15 * w + t16 * (B * w)) == B * lo + (u16 + c) * (B * w) + u17 * (B * (B * w))
  {}

  /** t0 + (t0 * np0 mod B) * p0 is a multiple of B. */
  lemma {:induction false} LowLimbClears(t0: int, p0: int, np0: int)
    requires (p0 * np0 + 1) % B == 0 && 0 <= t0 && 0 <= p0 && 0 <= np0
    ensures var m := (t0 * np0) % B; (t0 + m * p0) % B == 0 && ((t0 + m * p0) / B) * B == t0 + m * p0
  {
    var m := (t0 * np0) % B;
    ModIdem(t0 * np0, B);
    CongMul(m, t0 * np0, p0, p0, B);
    CongAdd(t0, t0, m * p0, (t0 * np0) * p0, B);
    assert t0 + (t0 * np0) * p0 == t0 * (p0 * np0 + 1) by {
      assert (t0 * np0) * p0 == t0 * (p0 * np0);
    }
    CongMul(p0 * np0 + 1, 0, t0, t0, B);
    assert ((p0 * np0 + 1) * t0) % B == 0;
  }

  /** t - p - b0 over sixteen limbs; the final borrow is returned. */
  method SubtractModulus(t: seq<int>, p: seq<int>, b0: int) returns (d: seq<int>, borrow: int)
    requires InBase(B, t, 16) && InBase(B, p, 16) && 0 <= b0 <= 1
    ensures |d| == 16 && InBase(B, d, 16) && 0 <= borrow <= 1
    ensures V(d) == V(t) - V(p) - b0 + borrow * R()
  {
    d, borrow := [], b0;
    var j := 0;
    while j < 16
      invariant 0 <= j <= 16 && |d| == j && InBase(B, d, j) && 0 <= borrow <= 1
      invariant Val(B, d, j) == Val(B, t, j) - Val(B, p, j) - b0 + borrow * Pow(B, j)
    {
      var dd := t[j] - p[j] - borrow;
      ghost var before, b := d, borrow;
      if dd < 0 {
        borrow := 1;
        d := d + [dd + B];
      } else {
        borrow := 0;
        d := d + [dd];
      }
      ValFrame(B, before, d, j);
      BorrowStep(t[j], p[j], b, borrow, d[j], Pow(B, j));
      j := j + 1;
    }
  }

  lemma {:induction false} BorrowStep(tj: int, pj: int, b0: int, b1: int, dj: int, w: int)
    requires dj == tj - pj - b0 + b1 * B
    ensures dj * w == tj * w - pj * w - b0 * w + b1 * (B * w)
  {}

  // ---- accumulator bounds ----

  lemma {:induction false} AccumulatorStep(t: int, t': int, a: int, p: int, x: int, m: int)
    requires B * t' == t + x * a + m * p && t < a + p && 0 <= x < B && 0 <= m < B && 0 <= a && 0 < p
    ensures t' < a + p
  {
    MulMono(x, 65535, a);
    MulMono(m, 65535, p);
  }

  lemma {:induction false} AccumulatorValue(t: int, t': int, a: int, p: int, x: int, m: int, bi: int, M: int, w: int)
    requires B * t' == t + x * a + m * p && t * w == a * bi + p * M
    ensures t' * (B * w) == a * (bi + x * w) + p * (M + m * w)
  {}

  lemma {:induction false} MultiplierBound(M: int, m: int, w: int)
    requires 0 <= M < w && 0 <= m < B
    ensures 0 <= M + m * w < B * w
  {
    MulMono(0, m, w);
    MulMono(m, 65535, w);
  }

  /** A 17-limb value below 2R has a top limb of at most one. */
  lemma {:induction false} TopLimbSmall(t: seq<int>, bound: int)
    requires |t| >= 17 && InBase(B, t, 16) && 0 <= t[16] && Val(B, t, 17) < bound <= 2 * R()
    ensures t[16] <= 1
  {
    ValBound(B, t, 16);
    MulGe(t[16] - 1, R());
    assert (t[16] - 1) * R() == t[16] * R() - R();
  }

  /** What holds of the accumulator after `i` rows: it is (a * b_low + M * p) / 2^(16 i)
      for a multiplier M below 2^(16 i), and less than a + p. */
  ghost predicate Accumulated(t: seq<int>, a: int, b: seq<int>, p: int, i: nat, M: int) {
    && |t| == 18 && InBase(B, t, 16) && 0 <= t[16] <= 1 && i <= |b|
    && Val(B, t, 17) < a + p && 0 <= M < Pow(B, i)
    && Val(B, t, 17) * Pow(B, i) == a * Val(B, b, i) + p * M
  }

  method Row(md: Modulus, t: array<int>, a: seq<int>, b: seq<int>, i: nat, ghost M: int) returns (ghost M': int)
    requires ValidModulus(md) && InBase(B, a, 16) && InBase(B, b, 16) && i < 16
    requires Accumulated(t[..], V(a), b, V(md.limbs), i, M)
    modifies t
    ensures Accumulated(t[..], V(a), b, V(md.limbs), i + 1, M')
  {
    ghost var t0, p, va := Val(B, t[..], 17), V(md.limbs), V(a);
    ValBound(B, a, 16);
    ValBound(B, md.limbs, 16);
    MulAddRow(t, a, b[i]);
    var m := ReduceRow(md, t);
    AccumulatorStep(t0, Val(B, t[..], 17), va, p, b[i], m);
    AccumulatorValue(t0, Val(B, t[..], 17), va, p, b[i], m, Val(B, b, i), M, Pow(B, i));
    MultiplierBound(M, m, Pow(B, i));
    TopLimbSmall(t[..], va + p);
    M' := M + m * Pow(B, i);
  }

  /** The whole product: sixteen rows, then one conditional subtraction.  The result is
      congruent to a*b/R for all inputs, and canonical when a*b < p*R. */
  method CiosMul(md: Modulus, a: seq<int>, b: seq<int>) returns (r: seq<int>)
    requires ValidModulus(md) && InBase(B, a, 16) && InBase(B, b, 16)
    ensures |r| == 18 && InBase(B, r, 16)
    ensures (V(r) * R()) % V(md.limbs) == (V(a) * V(b)) % V(md.limbs)
    ensures V(a) * V(b) < V(md.limbs) * R() ==> V(r) < V(md.limbs)
  {
    var t;
    ghost var M;
    t, M := Accumulate(md, a, b);
    var d, borrow := SubtractModulus(t[..16], md.limbs, 0);
    ValFrame(B, t[..], t[..16], 16);
    ValBound(B, a, 16);
    ValBound(B, t[..], 16);
    ValBound(B, d, 16);
    Settle(V(t[..]), t[16], V(d), borrow, V(md.limbs), V(a), V(a) * V(b), M);
    if t[16] >= borrow { CopyLimbs(t, d); }
    r := t[..];
  }

  /** The sixteen rows. */
  method Accumulate(md: Modulus, a: seq<int>, b: seq<int>) returns (t: array<int>, ghost M: int)
    requires ValidModulus(md) && InBase(B, a, 16) && InBase(B, b, 16)
    ensures fresh(t) && t.Length == 18 && Accumulated(t[..], V(a), b, V(md.limbs), 16, M)
  {
    t := new int[18](_ => 0);
    M := 0;
    ValBound(B, a, 16);
    ZeroVal(B, t[..], 17);
    var i := 0;
    while i < 16
      invariant 0 <= i <= 16 && Accumulated(t[..], V(a), b, V(md.limbs), i, M)
    {
      M := Row(md, t, a, b, i, M);
      i := i + 1;
    }
  }

  /** The conditional subtraction leaves a * b / R modulo p, below p if a * b < p * R. */
  lemma {:induction false} Settle(lo: int, top: int, d: int, borrow: int, p: int, a: int, ab: int, M: int)
    requires 0 <= lo < R() && 0 <= top <= 1 && 0 <= d < R() && 0 <= borrow <= 1 && 0 <= M < R()
    requires d == lo - p + borrow * R() && lo + top * R() < a + p && a < R() && 0 < p
    requires (lo + top * R()) * R() == ab + p * M
    ensures var r := if top >= borrow then d else lo; (r * R()) % p == ab % p && (ab < p * R() ==> r < p)
  {
    var T := lo + top * R();
    Choose(T, lo, top, d, borrow, p, a);
    QuotientCong(T, ab, p, M, R());
    if ab < p * R() { QuotientBound(T, ab, p, M, R()); }
  }

  method CopyLimbs(t: array<int>, d: seq<int>)
    requires t.Length == 18 && |d| == 16
    modifies t
    ensures t[..16] == d && V(t[..]) == V(d)
  {
    var j := 0;
    while j < 16
      invariant 0 <= j <= 16
      invariant forall k :: 0 <= k < j ==> t[k] == d[k]
    {
      t[j] := d[j];
      j := j + 1;
    }
    ValFrame(B, t[..], d, 16);
  }

  /** The conditional subtraction keeps T when T < p and otherwise leaves exactly T - p. */
  lemma {:induction false} Choose(T: int, lo: int, top: int, d: int, borrow: int, p: int, a: int)
    requires T == lo + top * R() && 0 <= lo < R() && 0 <= top <= 1 && 0 <= d < R() && 0 <= borrow <= 1
    requires d == lo - p + borrow * R() && T < a + p && a < R() && 0 < p
    ensures top >= borrow ==> d == T - p
    ensures top < borrow ==> lo == T && T < p
  {}

  lemma {:induction false} QuotientBound(T: int, ab: int, p: int, M: int, r: int)
    requires T * r == ab + p * M && 0 <= M < r && 0 < p && ab < p * r
    ensures T < 2 * p
  {}

  /** From T * r = ab + p * M: T and T - p are both ab / r modulo p. */
  lemma {:induction false} QuotientCong(T: int, ab: int, p: int, M: int, r: int)
    requires T * r == ab + p * M && 0 < p
    ensures (T * r) % p == ab % p && ((T - p) * r) % p == ab % p
  {
    AddMultiple(ab, M, p);
    assert (T - p) * r == T * r + (-r) * p;
    AddMultiple(T * r, -r, p);
  }

  /** Two products in a row: a * (a * b / R) / R. */
  method MulTwice(md: Modulus, a: seq<int>, b: seq<int>) returns (r: seq<int>)
    requires ValidModulus(md) && InBase(B, a, 16) && InBase(B, b, 16)
    ensures |r| == 18 && InBase(B, r, 16)
    ensures (V(r) * R() * R()) % V(md.limbs) == (V(a) * V(a) * V(b)) % V(md.limbs)
  {
    var r1 := CiosMul(md, a, b);
    r := CiosMul(md, a, r1);
    ghost var p := V(md.limbs);
    CongMul(V(r) * R(), V(a) * V(r1), R(), R(), p);
    CongMul(V(r1) * R(), V(a) * V(b), V(a), V(a), p);
    assert V(a) * V(r1) * R() == V(r1) * R() * V(a);
    assert V(a) * V(b) * V(a) == V(a) * V(a) * V(b);
  }
}
