/** Field arithmetic of secp256k1 (section 2.4.1 of SEC 2) on four 64-bit limbs: carry and
    borrow chains, the pseudo-Mersenne reduction, and square-and-multiply powers. */
module SecpField {
  import opened Limbs
  import opened ModArith

  const W: nat := 0x1_0000_0000_0000_0000
  const W4: nat := 0x1_0000000000000000_0000000000000000_0000000000000000_0000000000000000
  const DELTA: nat := 0x1000003D1
  const P: nat := 0xFFFFFFFFFFFFFFFF_FFFFFFFFFFFFFFFF_FFFFFFFFFFFFFFFF_FFFFFFFEFFFFFC2F
  const P_LIMBS: seq<int> := [0xFFFFFFFEFFFFFC2F, 0xFFFFFFFFFFFFFFFF, 0xFFFFFFFFFFFFFFFF, 0xFFFFFFFFFFFFFFFF]

  ghost predicate Word4(s: seq<int>) { |s| == 4 && InBase(W, s, 4) }

  function V(s: seq<int>): int requires |s| == 4 { Val(W, s, 4) }

  lemma {:induction false} Weights()
    ensures Pow(W, 0) == 1 && Pow(W, 1) == W && Pow(W, 4) == W4
  {}

  lemma {:induction false} V4(s: seq<int>)
    requires |s| == 4
    ensures V(s) == s[0] + s[1] * 0x1_0000000000000000 + s[2] * 0x1_0000000000000000_0000000000000000
                    + s[3] * 0x1_0000000000000000_0000000000000000_0000000000000000
  {
    Weights();
    assert Pow(W, 2) == 0x1_0000000000000000_0000000000000000;
    assert Pow(W, 3) == 0x1_0000000000000000_0000000000000000_0000000000000000;
    assert Val(W, s, 1) == s[0];
    assert Val(W, s, 2) == s[0] + s[1] * 0x1_0000000000000000;
    assert Val(W, s, 3) == Val(W, s, 2) + s[2] * Pow(W, 2);
  }

  lemma {:induction false} Range(s: seq<int>)
    requires Word4(s)
    ensures 0 <= V(s) < W4
  {
    Weights();
    ValBound(W, s, 4);
  }

  lemma {:induction false} PLimbs()
    ensures Word4(P_LIMBS) && V(P_LIMBS) == P && P + DELTA == W4
  {}

  // ---- carries and borrows ----

  lemma {:induction false} AddLimb(x: int, y: int, c: int)
    requires 0 <= x < W && 0 <= y < W && 0 <= c <= 1
    ensures var s1 := (x + y) % W; var c1 := if x + y >= W then 1 else 0;
            var s2 := (s1 + c) % W; var c2 := if s1 + c >= W then 1 else 0;
            0 <= s2 < W && 0 <= c1 + c2 <= 1 && s2 + (c1 + c2) * W == x + y + c
  {
  }

  /** Two overflowing additions per limb. */
  method Add256(a: seq<int>, b: seq<int>) returns (r: seq<int>, c: int)
    requires Word4(a) && Word4(b)
    ensures Word4(r) && 0 <= c <= 1
    ensures V(r) + c * W4 == V(a) + V(b)
  {
    r, c := [], 0;
    for i := 0 to 4
      invariant |r| == i && InBase(W, r, i) && 0 <= c <= 1
      invariant Val(W, r, i) + c * Pow(W, i) == Val(W, a, i) + Val(W, b, i)
    {
      AddLimb(a[i], b[i], c);
      var s1, c1 := (a[i] + b[i]) % W, if a[i] + b[i] >= W then 1 else 0;
      var s2, c2 := (s1 + c) % W, if s1 + c >= W then 1 else 0;
      ghost var before := r;
      AddStep(W, a[i], b[i], c, s2, c1 + c2, Pow(W, i));
      r := r + [s2];
      c := c1 + c2;
      ValFrame(W, before, r, i);
    }
    Weights();
  }

  /** One wrapping subtraction per limb; the borrow also covers a wrapped subtrahend. */
  method Sub256(a: seq<int>, b: seq<int>) returns (r: seq<int>, borrow: int)
    requires Word4(a) && Word4(b)
    ensures Word4(r) && 0 <= borrow <= 1
    ensures V(r) == V(a) - V(b) + borrow * W4
    ensures borrow == 1 <==> V(a) < V(b)
  {
    r, borrow := [], 0;
    for i := 0 to 4
      invariant |r| == i && InBase(W, r, i) && 0 <= borrow <= 1
      invariant Val(W, r, i) + Val(W, b, i) == Val(W, a, i) + borrow * Pow(W, i)
    {
      var ai := a[i];
      var bi := (b[i] + borrow) % W;
      var next := if bi < borrow then 1 else if ai < bi then 1 else 0;
      var ri := (ai - bi) % W;
      ghost var before := r;
      AddStep(W, ri, b[i], borrow, ai, next, Pow(W, i));
      r := r + [ri];
      borrow := next;
      ValFrame(W, before, r, i);
    }
    Weights();
    Range(r);
    Range(a);
    Range(b);
  }

  method CondSubP(a: seq<int>) returns (r: seq<int>)
    requires Word4(a)
    ensures Word4(r) && V(r) == if V(a) >= P then V(a) - P else V(a)
  {
    PLimbs();
    var d, b := Sub256(a, P_LIMBS);
    r := if b == 0 then d else a;
  }

  // ---- addition and subtraction ----

  method FeAdd(a: seq<int>, b: seq<int>) returns (r: seq<int>)
    requires Word4(a) && Word4(b)
    ensures Word4(r) && 0 <= V(r) < P
    // outside the canonical range the residue is lost exactly when the second carry is dropped
    ensures V(r) == (V(a) + V(b)) % P <==> V(a) + V(b) + DELTA < 2 * W4
  {
    var sum, c := Add256(a, b);
    PLimbs();
    Range(a);
    Range(b);
    Range(sum);
    if c > 0 {
      SmallWord(DELTA);
      var s, c2 := Add256(sum, [DELTA, 0, 0, 0]);
      Range(s);
      r := CondSubP(s);
      AddResidue(V(a) + V(b), V(s), c2, V(r));
    } else {
      r := CondSubP(sum);
      AddResidue0(V(a) + V(b), V(r));
    }
  }

  lemma {:induction false} SmallWord(x: int)
    requires 0 <= x < W
    ensures Word4([x, 0, 0, 0]) && V([x, 0, 0, 0]) == x
  {
    V4([x, 0, 0, 0]);
  }

  lemma {:induction false} AddResidue0(x: int, r: int)
    requires 0 <= x < W4 && r == if x >= P then x - P else x
    ensures 0 <= r < P && r == x % P
    ensures x + DELTA < 2 * W4
  {}

  /** x = sum - 2^256 folded by DELTA, with a possibly dropped carry. */
  lemma {:induction false} AddResidue(x: int, s: int, c2: int, r: int)
    requires W4 <= x <= 2 * W4 - 2 && 0 <= c2 <= 1 && 0 <= s < W4 && s + c2 * W4 == x - W4 + DELTA
    requires r == if s >= P then s - P else s
    ensures 0 <= r < P
    ensures r == x % P <==> x + DELTA < 2 * W4
  {}

  /** Congruent for all 256-bit inputs, canonical when the minuend is. */
  method FeSub(a: seq<int>, b: seq<int>) returns (r: seq<int>)
    requires Word4(a) && Word4(b)
    ensures Word4(r)
    ensures V(r) % P == (V(a) - V(b)) % P
    ensures V(a) < P ==> V(r) == (V(a) - V(b)) % P
  {
    var d, bo := Sub256(a, b);
    PLimbs();
    Range(a);
    Range(b);
    Range(d);
    if bo > 0 {
      SmallWord(DELTA);
      var s, b2 := Sub256(d, [DELTA, 0, 0, 0]);
      Range(s);
      if b2 > 0 {
        var s', c' := Add256(s, P_LIMBS);
        Range(s');
        s := s';
      }
      r := CondSubP(s);
      SubResidue(V(a) - V(b), V(d), b2, V(s), V(r));
    } else {
      r := d;
      if V(a) < P { ModSmall(V(d), P); }
    }
  }

  lemma {:induction false} SubResidue(x: int, d: int, b2: int, s: int, r: int)
    requires 0 < x + W4 && x < 0 && d == x + W4 && 0 <= b2 <= 1 && 0 <= s < W4
    requires b2 == 0 ==> s == d - DELTA
    requires b2 == 1 ==> s == d - DELTA + P
    requires r == if s >= P then s - P else s
    ensures 0 <= r < P && r == x % P
    ensures r % P == x % P
  {}

  // ---- multiplication ----

  /** The schoolbook product in 128-bit accumulators: no addition overflows. */
  method MulWide(a: seq<int>, b: seq<int>) returns (r: seq<int>)
    requires Word4(a) && Word4(b)
    ensures |r| == 8 && InBase(W, r, 8) && Val(W, r, 8) == V(a) * V(b)
  {
    r := [0, 0, 0, 0, 0, 0, 0, 0];
    ZeroVal(W, r, 4);
    for i := 0 to 4
      invariant |r| == 8 && InBase(W, r, 8) && forall k :: i + 4 <= k < 8 ==> r[k] == 0
      invariant Val(W, r, i + 4) == Val(W, a, i) * V(b)
    {
      ghost var r0 := r;
      var carry;
      r, carry := MulRow(r, i, a[i], b);
      assert r[i + 4] + carry < 0x1_0000000000000000_0000000000000000;
      ghost var before := r;
      r := r[i + 4 := r[i + 4] + carry];
      ValFrame(W, before, r, i + 4);
      RowTotal(r, i, a, V(b), r0, carry);
    }
    for k := 0 to 7
      invariant |r| == 8 && InBase(W, r, 8) && Val(W, r, 8) == V(a) * V(b)
    {
      ghost var before := r;
      r := r[k + 1 := r[k + 1] + r[k] / W][k := r[k] % W];
      assert r == before;
    }
  }

  lemma {:induction false} RowTotal(r: seq<int>, i: nat, a: seq<int>, vb: int, r0: seq<int>, carry: int)
    requires i < 4 && |r| == |r0| == 8 && |a| == 4 && r[i + 4] == carry
    requires Val(W, r, i + 4) + carry * Pow(W, i + 4) == Val(W, r0, i + 4) + (a[i] * Pow(W, i)) * vb
    requires Val(W, r0, i + 4) == Val(W, a, i) * vb
    ensures Val(W, r, i + 5) == Val(W, a, i + 1) * vb
  {}

  lemma {:induction false} WordProduct(x: int, y: int)
    requires 0 <= x < W && 0 <= y < W
    ensures 0 <= x * y <= 0xFFFFFFFFFFFFFFFE_0000000000000001
  {
    MulMono(0, x, y);
    MulMono(x, 0xFFFFFFFFFFFFFFFF, y);
  }

  method MulRow(s: seq<int>, i: nat, x: int, b: seq<int>) returns (r: seq<int>, carry: int)
    requires i < 4 && |s| == 8 && InBase(W, s, 8) && Word4(b) && 0 <= x < W && s[i + 4] == 0
    ensures |r| == 8 && InBase(W, r, 8) && 0 <= carry < W && forall k :: i + 4 <= k < 8 ==> r[k] == s[k]
    ensures Val(W, r, i + 4) + carry * Pow(W, i + 4) == Val(W, s, i + 4) + (x * Pow(W, i)) * V(b)
  {
    r, carry := s, 0;
    for j := 0 to 4
      invariant |r| == 8 && InBase(W, r, 8) && 0 <= carry < W && forall k :: i + j <= k < 8 ==> r[k] == s[k]
      invariant Val(W, r, i + j) + carry * Pow(W, i + j) == Val(W, s, i + j) + (x * Pow(W, i)) * Val(W, b, j)
    {
      WordProduct(x, b[j]);
      var prod := x * b[j];
      // overflowing_add on u128: both flags stay false
      assert r[i + j] + prod + carry < 0x1_0000000000000000_0000000000000000;
      var s2 := r[i + j] + prod + carry;
      ghost var before := r;
      ProductRow(Val(W, r, i + j), Val(W, s, i + j), Val(W, b, j), x, carry, r[i + j], b[j], i, j);
      r := r[i + j := s2 % W];
      carry := s2 / W;
      ValFrame(W, before, r, i + j);
    }
  }

  lemma {:induction false} ProductRow(lo: int, tlo: int, blo: int, x: int, c: int, tj: int, bj: int, i: nat, j: nat)
    requires tj + x * bj + c >= 0
    requires lo + c * Pow(W, i + j) == tlo + (x * Pow(W, i)) * blo
    ensures var sum := tj + x * bj + c;
            lo + (sum % W) * Pow(W, i + j) + (sum / W) * (W * Pow(W, i + j))
            == tlo + tj * Pow(W, i + j) + (x * Pow(W, i)) * (blo + bj * Pow(W, j))
  {
    var sum, w, u, y := tj + x * bj + c, Pow(W, i + j), Pow(W, i), Pow(W, j);
    PowAdd(W, i, j);
    CarryStep(W, sum, w);
    Distrib(tj + x * bj, c, w);
    Distrib(tj, x * bj, w);
    CrossTerm(x, bj, u, y);
    assert (x * u) * (blo + bj * y) == (x * u) * blo + (x * u) * (bj * y);
  }

  lemma {:induction false} CrossTerm(x: int, b: int, u: int, y: int)
    ensures (x * b) * (u * y) == (x * u) * (b * y)
  {}

  /** low + high * DELTA over four limbs, with the carry out. */
  method Fold(r: seq<int>) returns (low: seq<int>, carry: int)
    requires |r| == 8 && InBase(W, r, 8)
    ensures Word4(low) && 0 <= carry <= DELTA
    ensures V(low) + carry * W4 == Val(W, r, 4) + DELTA * Val(W, r[4..], 4)
  {
    low, carry := [], 0;
    for i := 0 to 4
      invariant |low| == i && InBase(W, low, i) && 0 <= carry < W
      invariant Val(W, low, i) + carry * Pow(W, i) == Val(W, r, i) + DELTA * Val(W, r[4..], i)
    {
      WordProduct(r[i + 4], DELTA);
      var prod := r[i + 4] * DELTA + r[i] + carry;
      assert prod < 0x1_0000000000000000_0000000000000000;
      ghost var before := low;
      RowStep(W, Val(W, low, i), Val(W, r, i), Val(W, r[4..], i), DELTA, carry, r[i], r[i + 4], Pow(W, i));
      low := low + [prod % W];
      carry := prod / W;
      ValFrame(W, before, low, i);
    }
    Weights();
    Range(low);
    ValBound(W, r, 4);
    assert InBase(W, r[4..], 4);
    ValBound(W, r[4..], 4);
    FoldCarry(V(low), carry, Val(W, r, 4), Val(W, r[4..], 4));
  }

  lemma {:induction false} FoldCarry(low: int, carry: int, l: int, h: int)
    requires 0 <= low < W4 && 0 <= l < W4 && 0 <= h < W4 && low + carry * W4 == l + DELTA * h
    ensures carry <= DELTA
  {}

  /** The canonical product for any 256-bit inputs. */
  method FeMul(a: seq<int>, b: seq<int>) returns (r: seq<int>)
    requires Word4(a) && Word4(b)
    ensures Word4(r) && V(r) == (V(a) * V(b)) % P
  {
    var t := MulWide(a, b);
    var low, carry := Fold(t);
    MulMono(carry, DELTA, DELTA);
    var cd := carry * DELTA;
    var top := [cd % W, cd / W, 0, 0];
    V4(top);
    var s, c := Add256(low, top);
    Weights();
    ValSplit(W, t, 4, 4);
    Range(low);
    Range(s);
    if c > 0 {
      SmallWord(DELTA);
      var s2, c2 := Add256(s, [DELTA, 0, 0, 0]);
      Range(s2);
      r := CondSubP(s2);
      MulResidue(V(a) * V(b), Val(W, t, 4), Val(W, t[4..], 4), V(low), carry, V(s), c, V(s2), c2, V(r));
    } else {
      r := CondSubP(s);
      MulResidue(V(a) * V(b), Val(W, t, 4), Val(W, t[4..], 4), V(low), carry, V(s), c, V(s), 0, V(r));
    }
  }

  lemma {:induction false} MulResidue(x: int, l: int, h: int, low: int, carry: int, s: int, c: int, s2: int, c2: int,
                                      r: int)
    requires x == l + h * W4 && low + carry * W4 == l + DELTA * h && 0 <= carry <= DELTA
    requires s + c * W4 == low + carry * DELTA && 0 <= c <= 1 && 0 <= s < W4 && 0 <= low < W4
    requires c == 1 ==> s2 + c2 * W4 == s + DELTA && 0 <= c2 <= 1
    requires c == 0 ==> s2 == s
    requires 0 <= s2 < W4 && r == if s2 >= P then s2 - P else s2
    ensures r == x % P
  {
    assert P + DELTA == W4;
    MulMono(carry, DELTA, DELTA);
    assert c == 1 ==> c2 == 0;
    var k := h + carry + c;
    assert x == s2 + k * P by {
      assert h * W4 == h * P + h * DELTA;
      assert carry * W4 == carry * P + carry * DELTA;
      assert k * P == h * P + carry * P + c * P;
    }
    AddMultiple(s2, k, P);
    AddResidue0(s2, r);
    ModSmall(r, P);
  }

  // ---- powers ----

  function ModPow(x: int, e: nat): nat { if e == 0 then 1 else (x * ModPow(x, e - 1)) % P }

  lemma {:induction false} ModPowRange(x: int, e: nat)
    ensures ModPow(x, e) < P
  {}

  lemma {:induction false} ModPowAdd(x: int, e: nat, f: nat)
    ensures ModPow(x, e + f) == (ModPow(x, e) * ModPow(x, f)) % P
    decreases f
  {
    ModPowRange(x, e);
    if f == 0 {
      ModSmall(ModPow(x, e), P);
    } else {
      ModPowAdd(x, e, f - 1);
      PowAddArith(x, ModPow(x, e), ModPow(x, f - 1), P);
      assert e + f - 1 == e + (f - 1);
    }
  }

  lemma {:induction false} PowAddArith(x: int, u: int, v: int, p: int)
    requires p > 0
    ensures (x * ((u * v) % p)) % p == (u * ((x * v) % p)) % p
  {
    ModIdem(u * v, p);
    CongMul(x, x, (u * v) % p, u * v, p);
    ModIdem(x * v, p);
    CongMul(u, u, (x * v) % p, x * v, p);
    assert x * (u * v) == u * (x * v);
  }

  /** A positive power depends on the residue of its base only. */
  lemma {:induction false} ModPowCong(x: int, y: int, e: nat)
    requires x % P == y % P && e > 0
    ensures ModPow(x, e) == ModPow(y, e)
    decreases e
  {
    if e > 1 { ModPowCong(x, y, e - 1); }
    CongMul(x, y, ModPow(x, e - 1), ModPow(x, e - 1), P);
  }

  /** Appending one bit to the exponent: square, then multiply if the bit is set. */
  lemma {:induction false} ModPowBit(x: int, e: nat, r: int, s: int, t: int, bit: bool)
    requires r == ModPow(x, e) && s == (r * r) % P && t == if bit then (s * x) % P else s
    ensures t == ModPow(x, 2 * e + if bit then 1 else 0)
  {
    ModPowAdd(x, e, e);
    assert s * x == x * s;
  }

  /** Square-and-multiply over the four words of an exponent, most significant bit first. */
  method FePow(a: seq<int>, exp: seq<int>) returns (r: seq<int>)
    requires Word4(a) && Word4(exp)
    ensures 0 <= V(exp) && Word4(r) && V(r) == ModPow(V(a), V(exp))
  {
    r := [1, 0, 0, 0];
    SmallWord(1);
    ghost var e: nat := 0;
    for w := 0 to 4
      invariant Word4(r) && e == High(exp, w) && V(r) == ModPow(V(a), e)
    {
      r := PowWord(a, r, exp[3 - w], e);
      e := e * W + exp[3 - w];
    }
    HighIsAll(exp);
  }

  /** The value of the top `w` words. */
  function High(s: seq<int>, w: nat): int
    requires |s| == 4 && w <= 4
  {
    if w == 0 then 0 else High(s, w - 1) * W + s[4 - w]
  }

  lemma {:induction false} HighIsAll(s: seq<int>)
    requires |s| == 4
    ensures High(s, 4) == V(s)
  {
    V4(s);
    assert High(s, 1) == s[3];
    assert High(s, 2) == s[3] * W + s[2];
    assert High(s, 3) == High(s, 2) * W + s[1];
  }

  method PowWord(a: seq<int>, r0: seq<int>, word: int, ghost e0: nat) returns (r: seq<int>)
    requires Word4(a) && Word4(r0) && 0 <= word < W && V(r0) == ModPow(V(a), e0)
    ensures Word4(r) && V(r) == ModPow(V(a), e0 * W + word)
  {
    r := r0;
    var bits := word;
    ghost var hi: nat := 0;
    for t := 0 to 64
      invariant Word4(r) && 0 <= bits < W && word * Pow(2, t) == hi * W + bits
      invariant V(r) == ModPow(V(a), e0 * Pow(2, t) + hi)
    {
      ghost var before := r;
      var bit := bits / 0x8000_0000_0000_0000 != 0;
      r := FeMul(r, r);
      ghost var sq := V(r);
      if bit { r := FeMul(r, a); }
      WordBit(V(a), e0, word, Pow(2, t), hi, bits, V(before), sq, V(r), bit);
      hi := 2 * hi + if bit then 1 else 0;
      bits := (2 * bits) % W;
    }
    TwoTo64();
    AllBits(word, hi, bits);
  }

  lemma {:induction false} AllBits(word: int, hi: int, bits: int)
    requires word * W == hi * W + bits && 0 <= bits < W
    ensures hi == word
  {
    Distrib(word, -hi, W);
    MulGe(word - hi, W);
  }

  /** One round of the bit loop: the exponent's next bit and the power it stands for. */
  lemma {:induction false} WordBit(x: int, e0: nat, word: nat, w: nat, hi: nat, bits: nat, r: int, s: int, t: int,
                                   bit: bool)
    requires word * w == hi * W + bits && bits < W && bit == (bits / 0x8000_0000_0000_0000 != 0)
    requires r == ModPow(x, e0 * w + hi) && s == (r * r) % P && t == if bit then (s * x) % P else s
    ensures var b := if bit then 1 else 0;
            word * (2 * w) == (2 * hi + b) * W + (2 * bits) % W && t == ModPow(x, e0 * (2 * w) + (2 * hi + b))
  {
    ModPowBit(x, e0 * w + hi, r, s, t, bit);
    BitStep(word, w, hi, bits, if bit then 1 else 0, e0);
  }

  lemma {:induction false} BitStep(word: int, w: int, hi: int, bits: int, b: int, e0: int)
    requires word * w == hi * W + bits && 0 <= bits < W && b == if bits / 0x8000_0000_0000_0000 != 0 then 1 else 0
    ensures word * (2 * w) == (2 * hi + b) * W + (2 * bits) % W
    ensures 2 * (e0 * w + hi) + b == e0 * (2 * w) + (2 * hi + b)
  {
    assert word * (2 * w) == 2 * (word * w);
    assert 2 * bits == b * W + (2 * bits) % W;
    assert e0 * (2 * w) == 2 * (e0 * w);
  }

  lemma {:induction false} TwoTo64()
    ensures Pow(2, 64) == W
  {
    PowAdd(2, 8, 8);
    PowAdd(2, 16, 16);
    PowAdd(2, 32, 32);
    assert Pow(2, 4) == 16;
    PowAdd(2, 4, 4);
  }

  const INV_EXP: seq<int> := [0xFFFFFFFEFFFFFC2D, 0xFFFFFFFFFFFFFFFF, 0xFFFFFFFFFFFFFFFF, 0xFFFFFFFFFFFFFFFF]
  const SQRT_EXP: seq<int> := [0xFFFFFFFFBFFFFF0C, 0xFFFFFFFFFFFFFFFF, 0xFFFFFFFFFFFFFFFF, 0x3FFFFFFFFFFFFFFF]

  /** a^(p-2) */
  method FeInv(a: seq<int>) returns (r: seq<int>)
    requires Word4(a)
    ensures Word4(r) && V(r) == ModPow(V(a), P - 2)
  {
    V4(INV_EXP);
    r := FePow(a, INV_EXP);
  }

  /** a^((p+1)/4) */
  method FeSqrt(a: seq<int>) returns (r: seq<int>)
    requires Word4(a)
    ensures Word4(r) && V(r) == ModPow(V(a), (P + 1) / 4)
  {
    V4(SQRT_EXP);
    r := FePow(a, SQRT_EXP);
  }
}
