/** Scalar arithmetic modulo the curve order n: a 512-bit schoolbook product reduced by a
    most-significant-bit-first shift-and-subtract loop. */
module SecpScalar {
  import opened Limbs
  import opened ModArith
  import opened SecpField

  const N: nat := 0xFFFFFFFFFFFFFFFF_FFFFFFFFFFFFFFFE_BAAEDCE6AF48A03B_BFD25E8CD0364141
  const N_LIMBS: seq<int> := [0xBFD25E8CD0364141, 0xBAAEDCE6AF48A03B, 0xFFFFFFFFFFFFFFFE, 0xFFFFFFFFFFFFFFFF]

  lemma {:induction false} NLimbs()
    ensures Word4(N_LIMBS) && V(N_LIMBS) == N && N < W4 && 2 * W4 < 3 * N
  {}

  /** Limb-wise comparison from the top; equality counts as not below. */
  method GeqN(a: seq<int>) returns (r: bool)
    requires Word4(a)
    ensures r <==> V(a) >= N
  {
    V4(a);
    V4(N_LIMBS);
    var i := 4;
    while i > 0
      invariant 0 <= i <= 4 && forall k :: i <= k < 4 ==> a[k] == N_LIMBS[k]
    {
      i := i - 1;
      if a[i] > N_LIMBS[i] { return true; }
      if a[i] < N_LIMBS[i] { return false; }
    }
    return true;
  }

  /** r - n with a signed 128-bit borrow: arithmetic shift, truncating store. */
  method SubN(r0: seq<int>) returns (r: seq<int>)
    requires Word4(r0)
    ensures Word4(r)
    ensures V(r) == if V(r0) >= N then V(r0) - N else V(r0) - N + W4
  {
    NLimbs();
    r := [];
    var b := 0;
    for i := 0 to 4
      invariant |r| == i && InBase(W, r, i) && -1 <= b <= 0
      invariant Val(W, r, i) + b * Pow(W, i) == Val(W, r0, i) - Val(W, N_LIMBS, i)
    {
      var t := b + r0[i] - N_LIMBS[i];
      ghost var before := r;
      SignedStep(t, b, r0[i], N_LIMBS[i], Pow(W, i));
      r := r + [t % W];
      b := t / W;
      ValFrame(W, before, r, i);
    }
    Weights();
    Range(r);
    Range(r0);
  }

  lemma {:induction false} SignedStep(t: int, b: int, x: int, y: int, w: int)
    requires t == b + x - y
    ensures (t % W) * w + (t / W) * (W * w) == b * w + x * w - y * w
  {}

  /** One conditional subtraction reduces c * 2^256 + r exactly when that is below 2n. */
  method ReduceOnce(c: int, r0: seq<int>) returns (r: seq<int>)
    requires Word4(r0) && 0 <= c <= 1
    ensures Word4(r) && (V(r) == (c * W4 + V(r0)) % N <==> c * W4 + V(r0) < 2 * N)
  {
    NLimbs();
    Range(r0);
    ghost var x := c * W4 + V(r0);
    var ge := GeqN(r0);
    if c == 1 || ge {
      r := SubN(r0);
      if x < 2 * N { DivModUnique(x, N, 1, V(r)); } else { DivModUnique(x, N, 2, x - 2 * N); }
    } else {
      r := r0;
      ModSmall(V(r0), N);
    }
  }

  /** For all 256-bit inputs the sum is reduced exactly when it is below 2n, as sums of
      reduced inputs are. */
  method AddModN(a: seq<int>, b: seq<int>) returns (r: seq<int>)
    requires Word4(a) && Word4(b)
    ensures Word4(r) && (V(r) == (V(a) + V(b)) % N <==> V(a) + V(b) < 2 * N)
  {
    r := [];
    var c := 0;
    for i := 0 to 4
      invariant |r| == i && InBase(W, r, i) && 0 <= c <= 1
      invariant Val(W, r, i) + c * Pow(W, i) == Val(W, a, i) + Val(W, b, i)
    {
      c := a[i] + b[i] + c;
      ghost var before, c0 := r, c - a[i] - b[i];
      AddStep(W, a[i], b[i], c0, c % W, c / W, Pow(W, i));
      r := r + [c % W];
      c := c / W;
      ValFrame(W, before, r, i);
    }
    Weights();
    r := ReduceOnce(c, r);
  }

  // ---- the product ----

  /** One row of the product, then the carry chain above it. */
  method ProductRow(t0: seq<int>, i: nat, x: int, b: seq<int>) returns (t: seq<int>)
    requires i < 4 && |t0| == 8 && InBase(W, t0, 8) && 0 <= x < W && Word4(b)
    requires forall k :: i + 4 <= k < 8 ==> t0[k] == 0
    ensures |t| == 8 && InBase(W, t, 8) && forall k :: i + 5 <= k < 8 ==> t[k] == 0
    ensures Val(W, t, i + 5) == Val(W, t0, i + 4) + (x * Pow(W, i)) * V(b)
  {
    var carry;
    t, carry := MulRow(t0, i, x, b);
    ghost var t1 := t;
    var k := i + 4;
    ghost var c0 := carry;
    while carry > 0 && k < 8
      invariant i + 4 <= k <= 8 && |t| == 8 && InBase(W, t, 8) && 0 <= carry < W
      invariant k == i + 4 ==> t == t1 && carry == c0
      invariant k > i + 4 ==> carry == 0 && t == t1[i + 4 := c0]
    {
      var cur := t[k] + carry;
      t := t[k := cur % W];
      carry := cur / W;
      k := k + 1;
    }
    assert t == t1[i + 4 := c0];
    ValFrame(W, t1, t, i + 4);
  }

  method Product(a: seq<int>, b: seq<int>) returns (t: seq<int>)
    requires Word4(a) && Word4(b)
    ensures |t| == 8 && InBase(W, t, 8) && Val(W, t, 8) == V(a) * V(b)
  {
    t := [0, 0, 0, 0, 0, 0, 0, 0];
    ZeroVal(W, t, 4);
    for i := 0 to 4
      invariant |t| == 8 && InBase(W, t, 8) && forall k :: i + 4 <= k < 8 ==> t[k] == 0
      invariant Val(W, t, i + 4) == Val(W, a, i) * V(b)
    {
      t := ProductRow(t, i, a[i], b);
      Distrib(Val(W, a, i), a[i] * Pow(W, i), V(b));
    }
  }

  // ---- bits ----

  function Pow2(n: nat): nat { Pow(2, n) }

  /** Bit `64 q + s` of a limb value is bit `s` of limb `q`. */
  lemma {:induction false} LimbBit(t: seq<int>, q: nat, s: nat)
    requires |t| == 8 && InBase(W, t, 8) && q < 8 && s < 64
    ensures Pow2(64 * q + s) > 0 && Pow2(s) > 0 && 0 <= Val(W, t, 8)
    ensures (Val(W, t, 8) / Pow2(64 * q + s)) % 2 == (t[q] / Pow2(s)) % 2
  {
    var T := Val(W, t, 8);
    var hi := Word(t, q);
    PowPositive(W, q);
    PowPositive(2, s);
    PowPositive(2, 64 * q + s);
    PowAdd(2, 64 * q, s);
    PowMix(q);
    DivDiv(T, Pow(W, q), Pow2(s));
    TwoTo64();
    PowAdd(2, s, 64 - s);
    PowAdd(2, 1, 63 - s);
    assert Pow(2, 1) == 2;
    EvenMultiple(hi, Pow2(s), Pow2(63 - s));
    HighBits(t[q], Pow2(63 - s) * hi, Pow2(s));
  }

  /** Dividing out the low words leaves word `q` on a multiple of 2^64. */
  lemma {:induction false} Word(t: seq<int>, q: nat) returns (hi: int)
    requires |t| == 8 && InBase(W, t, 8) && q < 8
    ensures 0 <= Val(W, t, 8) && Pow(W, q) > 0 && Val(W, t, 8) / Pow(W, q) == t[q] + hi * W
  {
    var rest := t[q..];
    ValBound(W, t, 8);
    ValBound(W, t, q);
    ValSplit(W, t, q, 8 - q);
    ValSplit(W, rest, 1, 7 - q);
    Weights();
    assert Val(W, rest, 1) == t[q];
    hi := Val(W, rest[1..], 7 - q);
    DivModUnique(Val(W, t, 8), Pow(W, q), t[q] + hi * W, Val(W, t, q));
  }

  lemma {:induction false} PowMix(q: nat)
    ensures Pow2(64 * q) == Pow(W, q)
    decreases q
  {
    if q > 0 {
      PowMix(q - 1);
      PowAdd(2, 64 * (q - 1), 64);
      TwoTo64();
    }
  }

  lemma {:induction false} DivDiv(x: int, a: int, b: int)
    requires x >= 0 && a > 0 && b > 0
    ensures a * b > 0 && x / (a * b) == (x / a) / b
  {
    var q := x / a;
    var r := x % a;
    var q2, r2 := q / b, q % b;
    assert x == a * q + r && q == b * q2 + r2;
    assert a * q == a * (b * q2) + a * r2;
    assert a * (b * q2) == q2 * (a * b);
    MulMono(r2, b - 1, a);
    MulMono(0, r2, a);
    assert a * (b - 1) == a * b - a;
    MulMono(1, a, b);
    DivModUnique(x, a * b, q2, a * r2 + r);
  }

  /** Adding an even multiple of `u` does not change the lowest bit of the quotient. */
  lemma {:induction false} HighBits(x: int, z: int, u: int)
    requires u > 0
    ensures ((x + (2 * z) * u) / u) % 2 == (x / u) % 2
  {
    var q, r := x / u, x % u;
    assert x == u * q + r;
    Distrib(q, 2 * z, u);
    DivModUnique(x + (2 * z) * u, u, q + 2 * z, r);
  }

  lemma {:induction false} EvenMultiple(hi: int, u: int, half: int)
    ensures hi * (u * (2 * half)) == (2 * (half * hi)) * u
  {}

  /** Doubling a limb moves its top bit out. */
  lemma {:induction false} TopBit(x: int)
    requires 0 <= x < W
    ensures 0 <= x / 0x8000_0000_0000_0000 <= 1 && (x * 2) % W + x / 0x8000_0000_0000_0000 * W == 2 * x
    ensures (x * 2) % W <= W - 2
  {}

  /** Doubles four limbs and shifts a bit in; the top bit comes out. */
  method ShiftIn(r0: seq<int>, bit: int) returns (r: seq<int>, carry: int)
    requires Word4(r0) && 0 <= bit <= 1
    ensures Word4(r) && 0 <= carry <= 1
    ensures V(r) + carry * W4 == 2 * V(r0) + bit
  {
    r, carry := [], bit;
    for i := 0 to 4
      invariant |r| == i && InBase(W, r, i) && 0 <= carry <= 1
      invariant Val(W, r, i) + carry * Pow(W, i) == 2 * Val(W, r0, i) + bit
    {
      var nc := r0[i] / 0x8000_0000_0000_0000;
      var limb := (r0[i] * 2) % W + carry;
      ghost var before := r;
      TopBit(r0[i]);
      AddStep(W, r0[i], r0[i], carry, limb, nc, Pow(W, i));
      r := r + [limb];
      carry := nc;
      ValFrame(W, before, r, i);
    }
    Weights();
  }

  /** Shifts one more bit into a remainder modulo n. */
  method ShiftReduce(r0: seq<int>, bit: int, ghost t: nat) returns (r: seq<int>)
    requires Word4(r0) && 0 <= bit <= 1 && 0 <= V(r0) < N && V(r0) == t % N
    ensures Word4(r) && 0 <= V(r) < N && V(r) == (2 * t + bit) % N
  {
    var carry;
    r, carry := ShiftIn(r0, bit);
    NLimbs();
    ghost var x := V(r) + carry * W4;
    r := ReduceOnce(carry, r);
    StepResidue(t, bit, V(r0), x);
  }

  /** (a * b) mod n for all 256-bit inputs. */
  method MulModN(a: seq<int>, b: seq<int>) returns (r: seq<int>)
    requires Word4(a) && Word4(b)
    ensures Word4(r) && V(r) == (V(a) * V(b)) % N
  {
    var t := Product(a, b);
    r := [0, 0, 0, 0];
    SmallWord(0);
    AllBits(t);
    var bit := 512;
    while bit > 0
      invariant 0 <= bit <= 512
      invariant Word4(r) && V(r) == TopBits(t, bit) % N && 0 <= V(r) < N
    {
      bit := bit - 1;
      var shifted := t[bit / 64] / TwoPow(bit % 64);
      NextBit(t, bit);
      r := ShiftReduce(r, shifted % 2, TopBits(t, bit + 1));
    }
  }

  /** The bits of an 8-limb value from position `bit` on. */
  ghost function TopBits(t: seq<int>, bit: nat): nat
    requires |t| == 8 && InBase(W, t, 8)
  {
    ValBound(W, t, 8);
    Val(W, t, 8) / TwoPow(bit)
  }

  lemma {:induction false} AllBits(t: seq<int>)
    requires |t| == 8 && InBase(W, t, 8)
    ensures TopBits(t, 0) == Val(W, t, 8) && TopBits(t, 512) == 0
  {
    ValBound(W, t, 8);
    PowMix(8);
    DivModUnique(Val(W, t, 8), Pow2(512), 0, Val(W, t, 8));
    assert Pow2(0) == 1;
  }

  function TwoPow(n: nat): (r: nat)
    ensures r == Pow2(n) && r > 0
  {
    PowPositive(2, n);
    Pow(2, n)
  }

  /** The next bit down is bit `bit % 64` of limb `bit / 64`. */
  lemma {:induction false} NextBit(t: seq<int>, bit: nat)
    requires |t| == 8 && InBase(W, t, 8) && bit < 512
    ensures var b := (t[bit / 64] / TwoPow(bit % 64)) % 2;
            0 <= b <= 1 && TopBits(t, bit) == 2 * TopBits(t, bit + 1) + b
  {
    LimbBit(t, bit / 64, bit % 64);
    DivDiv(Val(W, t, 8), Pow2(bit), 2);
  }

  lemma {:induction false} StepResidue(q: int, b: int, r: int, x: int)
    requires r == q % N && x == 2 * r + b
    ensures x % N == (2 * q + b) % N
  {}
}
