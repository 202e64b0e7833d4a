/** The Poseidon permutation (t = 3, 8 full and 57 partial rounds) run on Montgomery limbs,
    against the permutation over the plain field. */
module Poseidon {
  import opened Limbs
  import opened ModArith
  import opened Cios

  // ---- the permutation over the plain field ----

  datatype Triple = Triple(x0: nat, x1: nat, x2: nat)

  function Quintic(x: nat, p: nat): nat requires p > 0 { x * x * x * x * x % p }

  /** Adding the round constants `c(3r), c(3r+1), c(3r+2)`. */
  function AddConstants(p: nat, c: nat -> nat, r: nat, s: Triple): Triple
    requires p > 0
  {
    Triple((s.x0 + c(3 * r)) % p, (s.x1 + c(3 * r + 1)) % p, (s.x2 + c(3 * r + 2)) % p)
  }

  /** Fifth powers: of all three in rounds 0-3 and 61-64, else of the first only. */
  function SBox(p: nat, r: nat, s: Triple): Triple
    requires p > 0
  {
    if r < 4 || r >= 61 then Triple(Quintic(s.x0, p), Quintic(s.x1, p), Quintic(s.x2, p))
    else s.(x0 := Quintic(s.x0, p))
  }

  /** The 3x3 matrix `m`, in row order. */
  function Mix(p: nat, m: nat -> nat, s: Triple): Triple
    requires p > 0
  {
    Triple(Dot(p, m(0), m(1), m(2), s), Dot(p, m(3), m(4), m(5), s), Dot(p, m(6), m(7), m(8), s))
  }

  function Round(p: nat, c: nat -> nat, m: nat -> nat, r: nat, s: Triple): Triple
    requires p > 0
  {
    Mix(p, m, SBox(p, r, AddConstants(p, c, r, s)))
  }

  function Dot(p: nat, u0: nat, u1: nat, u2: nat, s: Triple): nat
    requires p > 0
  {
    (u0 * s.x0 + u1 * s.x1 + u2 * s.x2) % p
  }

  function Permute(p: nat, c: nat -> nat, m: nat -> nat, rounds: nat, s: Triple): Triple
    requires p > 0
  {
    if rounds == 0 then s else Round(p, c, m, rounds - 1, Permute(p, c, m, rounds - 1, s))
  }

  /** The hash of two field elements: 65 rounds from the state (0, a, b). */
  function HashOf(p: nat, c: nat -> nat, m: nat -> nat, a: nat, b: nat): nat
    requires p > 0
  {
    Permute(p, c, m, 65, Triple(0, a % p, b % p)).x0
  }

  /** The fifth power by two squarings and a product. */
  lemma {:induction false} QuinticSteps(x: nat, p: nat)
    requires p > 0
    ensures (x * x % p) * (x * x % p) % p * x % p == Quintic(x, p)
  {
    var y := x * x;
    ModIdem(y, p);
    CongMul(y % p, y, y % p, y, p);
    ModIdem((y % p) * (y % p), p);
    CongMul((y % p) * (y % p) % p, y * y, x, x, p);
    FifthPower(x);
  }

  lemma {:induction false} FifthPower(x: int)
    ensures (x * x) * (x * x) * x == x * x * x * x * x
  {
  }

  /** A row product with a reduction after every step. */
  lemma {:induction false} DotSteps(p: nat, u0: nat, u1: nat, u2: nat, s: Triple)
    requires p > 0
    ensures ((u0 * s.x0 % p + u1 * s.x1 % p) % p + u2 * s.x2 % p) % p == Dot(p, u0, u1, u2, s)
  {
    var a, b, c := u0 * s.x0, u1 * s.x1, u2 * s.x2;
    ModIdem(a, p);
    ModIdem(b, p);
    ModIdem(c, p);
    CongAdd(a % p, a, b % p, b, p);
    ModIdem(a % p + b % p, p);
    CongAdd((a % p + b % p) % p, a + b, c % p, c, p);
  }

  // ---- Montgomery representation ----

  /** `v` is the canonical Montgomery form of the field element `x`. */
  ghost predicate Rep(md: Modulus, v: int, x: int)
    requires |md.limbs| >= 16 && V(md.limbs) > 0
  {
    0 <= v < V(md.limbs) && 0 <= x < V(md.limbs) && v % V(md.limbs) == (x * R()) % V(md.limbs)
  }

  /** A canonical limb sequence in Montgomery form. */
  ghost predicate Holds(md: Modulus, s: seq<int>, x: int)
    requires |md.limbs| >= 16 && V(md.limbs) > 0
  {
    InBase(B, s, 16) && Rep(md, V(s), x)
  }

  lemma {:induction false} ModRange(x: int, p: int)
    requires p > 0
    ensures 0 <= x % p < p
  {}

  lemma {:induction false} MulRep(md: Modulus, v: int, v1: int, x1: int, v2: int, x2: int)
    requires ValidModulus(md) && Rep(md, v1, x1) && Rep(md, v2, x2)
    requires 0 <= v < V(md.limbs) && (v * R()) % V(md.limbs) == (v1 * v2) % V(md.limbs)
    ensures Rep(md, v, (x1 * x2) % V(md.limbs))
  {
    var p, r := V(md.limbs), R();
    CongMul(v1, x1 * r, v2, x2 * r, p);
    assert (x1 * r) * (x2 * r) == ((x1 * x2) * r) * r by { Shuffle(x1, x2, r); }
    ModSmall(1, p);
    CongCancel(v, (x1 * x2) * r, r, md.rinv, p);
    ModIdem(x1 * x2, p);
    ModRange(x1 * x2, p);
    CongMul(x1 * x2, (x1 * x2) % p, r, r, p);
  }

  lemma {:induction false} Shuffle(a: int, b: int, r: int)
    ensures (a * r) * (b * r) == ((a * b) * r) * r
  {}

  lemma {:induction false} AddRep(md: Modulus, v: int, v1: int, x1: int, v2: int, x2: int)
    requires ValidModulus(md) && Rep(md, v1, x1) && Rep(md, v2, x2) && v == (v1 + v2) % V(md.limbs)
    ensures Rep(md, v, (x1 + x2) % V(md.limbs))
  {
    AddRepArith(v1, x1, v2, x2, R(), V(md.limbs));
    ModRange(v1 + v2, V(md.limbs));
    ModRange(x1 + x2, V(md.limbs));
  }

  lemma {:induction false} AddRepArith(v1: int, x1: int, v2: int, x2: int, r: int, p: int)
    requires p > 0 && v1 % p == (x1 * r) % p && v2 % p == (x2 * r) % p
    ensures ((v1 + v2) % p) % p == (((x1 + x2) % p) * r) % p
  {
    CongAdd(v1, x1 * r, v2, x2 * r, p);
    Distrib(x1, x2, r);
    ModIdem(v1 + v2, p);
    ModIdem(x1 + x2, p);
    CongMul(x1 + x2, (x1 + x2) % p, r, r, p);
  }

  /** The field element that a canonical table entry stands for. */
  function Unmont(md: Modulus, v: int): nat
    requires |md.limbs| >= 16 && V(md.limbs) > 0
  {
    (v * md.rinv) % V(md.limbs)
  }

  lemma {:induction false} ConstRep(md: Modulus, v: int)
    requires ValidModulus(md) && 0 <= v < V(md.limbs)
    ensures Rep(md, v, Unmont(md, v))
  {
    var p, r := V(md.limbs), R();
    ModRange(v * md.rinv, p);
    ModIdem(v * md.rinv, p);
    CongMul(Unmont(md, v), v * md.rinv, r, r, p);
    assert (v * md.rinv) * r == (r * md.rinv) * v by { Assoc(v, md.rinv, r); }
    ModSmall(1, p);
    CongMul(r * md.rinv, 1, v, v, p);
    assert 1 * v == v;
  }

  /** Entry: multiplying any value by R^2 gives the Montgomery form of its residue. */
  lemma {:induction false} EntryRep(md: Modulus, v: int, a: int, r2: int)
    requires ValidModulus(md) && 0 <= v < V(md.limbs) && 0 <= a && r2 % V(md.limbs) == (R() * R()) % V(md.limbs)
    requires (v * R()) % V(md.limbs) == (a * r2) % V(md.limbs)
    ensures Rep(md, v, a % V(md.limbs))
  {
    var p, r := V(md.limbs), R();
    CongMul(a, a, r2, r * r, p);
    MulAssoc(a, r, r);
    ModSmall(1, p);
    CongCancel(v, a * r, r, md.rinv, p);
    ModIdem(a, p);
    ModRange(a, p);
    CongMul(a, a % p, r, r, p);
  }

  /** Exit: multiplying a Montgomery form by one gives the plain element. */
  lemma {:induction false} ExitRep(md: Modulus, out: int, v: int, x: int)
    requires ValidModulus(md) && Rep(md, v, x) && 0 <= out < V(md.limbs)
    requires (out * R()) % V(md.limbs) == (v * 1) % V(md.limbs)
    ensures out == x
  {
    var p := V(md.limbs);
    ModSmall(1, p);
    CongCancel(out, x, R(), md.rinv, p);
    ModSmall(out, p);
    ModSmall(x, p);
  }

  // ---- limb operations ----

  lemma {:induction false} ProductFits(a: int, b: int, p: int, r: int)
    requires 0 <= a < r && 0 <= b < p
    ensures a * b < p * r && b * a < p * r
  {}

  method MontMul(md: Modulus, a: seq<int>, b: seq<int>, ghost x: nat, ghost y: nat) returns (r: seq<int>)
    requires ValidModulus(md) && Holds(md, a, x) && Holds(md, b, y)
    ensures Holds(md, r, (x * y) % V(md.limbs))
  {
    ValBound(B, md.limbs, 16);
    ProductFits(V(a), V(b), V(md.limbs), R());
    r := CiosMul(md, a, b);
    ValBound(B, r, 16);
    MulRep(md, V(r), V(a), x, V(b), y);
  }

  /** Limb addition with one conditional subtraction; canonical in, canonical out. */
  method Fadd(md: Modulus, a: seq<int>, b: seq<int>) returns (c: seq<int>)
    requires ValidModulus(md) && 2 * V(md.limbs) <= R()
    requires InBase(B, a, 16) && InBase(B, b, 16) && V(a) < V(md.limbs) && V(b) < V(md.limbs)
    ensures |c| == 16 && InBase(B, c, 16)
    ensures V(c) == (V(a) + V(b)) % V(md.limbs)
  {
    c := [];
    var carry, i := 0, 0;
    while i < 16
      invariant 0 <= i <= 16 && |c| == i && InBase(B, c, i) && 0 <= carry <= 1
      invariant Val(B, c, i) + carry * Pow(B, i) == Val(B, a, i) + Val(B, b, i)
    {
      var s := a[i] + b[i] + carry;
      ghost var before, k0 := c, carry;
      if s >= 65536 {
        carry := 1;
        c := c + [s - 65536];
      } else {
        carry := 0;
        c := c + [s];
      }
      ValFrame(B, before, c, i);
      AddStep(B, a[i], b[i], k0, c[i], carry, Pow(B, i));
      i := i + 1;
    }
    ValBound(B, a, 16);
    ValBound(B, b, 16);
    ValBound(B, c, 16);
    NoCarry(V(c), carry, V(a) + V(b), R());
    var d, borrow := SubtractModulus(c, md.limbs, carry);
    ValBound(B, d, 16);
    NoCarry2(V(d), borrow, V(c) - V(md.limbs), R(), V(md.limbs));
    if borrow == 0 {
      c := d;
      DivModUnique(V(a) + V(b), V(md.limbs), 1, V(c));
    } else {
      ModSmall(V(a) + V(b), V(md.limbs));
    }
  }

  lemma {:induction false} NoCarry(c: int, carry: int, sum: int, r: int)
    requires c + carry * r == sum && 0 <= c && sum < r && 0 <= carry <= 1
    ensures carry == 0 && c == sum
  {}

  lemma {:induction false} NoCarry2(d: int, borrow: int, diff: int, r: int, p: int)
    requires d == diff + borrow * r && 0 <= d < r && -p <= diff < p < r && 0 <= borrow <= 1
    ensures borrow == 0 ==> d == diff && diff >= 0
    ensures borrow == 1 ==> diff < 0
  {}

  method MontAdd(md: Modulus, a: seq<int>, b: seq<int>, ghost x: nat, ghost y: nat) returns (r: seq<int>)
    requires ValidModulus(md) && 2 * V(md.limbs) <= R() && Holds(md, a, x) && Holds(md, b, y)
    ensures Holds(md, r, (x + y) % V(md.limbs))
  {
    r := Fadd(md, a, b);
    ValBound(B, r, 16);
    AddRep(md, V(r), V(a), x, V(b), y);
  }

  method Pow5(md: Modulus, a: seq<int>, ghost x: nat) returns (r: seq<int>)
    requires ValidModulus(md) && Holds(md, a, x)
    ensures Holds(md, r, Quintic(x, V(md.limbs)))
  {
    ghost var p := V(md.limbs);
    var x2 := MontMul(md, a, a, x, x);
    var x4 := MontMul(md, x2, x2, (x * x) % p, (x * x) % p);
    r := MontMul(md, x4, a, ((x * x) % p) * ((x * x) % p) % p, x);
    QuinticSteps(x, p);
  }

  // ---- constant tables ----

  /** The value of element `k` of a flat table with sixteen limbs per element. */
  function Entry(tab: seq<int>, k: nat): int
    requires 16 * k + 16 <= |tab|
  {
    V(tab[16 * k..16 * k + 16])
  }

  ghost predicate Table(md: Modulus, tab: seq<int>, n: nat)
    requires |md.limbs| >= 16
  {
    |tab| == 16 * n && InBase(B, tab, 16 * n)
    && forall k :: 0 <= k < n ==> Entry(tab, k) < V(md.limbs)
  }

  /** The field elements that a table stands for. */
  function Elem(md: Modulus, tab: seq<int>): nat -> nat
    requires |md.limbs| >= 16 && V(md.limbs) > 0
  {
    (k: nat) => if 16 * k + 16 <= |tab| then Unmont(md, Entry(tab, k)) else 0
  }

  method Kslice(md: Modulus, tab: seq<int>, k: nat, ghost n: nat) returns (r: seq<int>)
    requires ValidModulus(md) && Table(md, tab, n) && k < n
    ensures Holds(md, r, Elem(md, tab)(k))
  {
    r := [];
    var i := 0;
    while i < 16
      invariant 0 <= i <= 16 && r == tab[16 * k..16 * k + i]
    {
      r := r + [tab[k * 16 + i]];
      i := i + 1;
    }
    assert InBase(B, r, 16) by {
      forall j | 0 <= j < 16 ensures 0 <= r[j] < B { assert r[j] == tab[16 * k + j]; }
    }
    ValBound(B, r, 16);
    assert V(r) == Entry(tab, k);
    ConstRep(md, V(r));
  }

  // ---- one round ----

  method MdsRow(md: Modulus, mm: seq<int>, k: nat, s0: seq<int>, s1: seq<int>, s2: seq<int>, ghost x: Triple)
    returns (r: seq<int>)
    requires ValidModulus(md) && 2 * V(md.limbs) <= R() && Table(md, mm, 9) && k <= 6
    requires Holds(md, s0, x.x0) && Holds(md, s1, x.x1) && Holds(md, s2, x.x2)
    ensures var m := Elem(md, mm); Holds(md, r, Dot(V(md.limbs), m(k), m(k + 1), m(k + 2), x))
  {
    ghost var p, m := V(md.limbs), Elem(md, mm);
    var k0 := Kslice(md, mm, k, 9);
    var n := MontMul(md, k0, s0, m(k), x.x0);
    var k1 := Kslice(md, mm, k + 1, 9);
    var a := MontMul(md, k1, s1, m(k + 1), x.x1);
    n := MontAdd(md, n, a, m(k) * x.x0 % p, m(k + 1) * x.x1 % p);
    var k2 := Kslice(md, mm, k + 2, 9);
    var b := MontMul(md, k2, s2, m(k + 2), x.x2);
    r := MontAdd(md, n, b, (m(k) * x.x0 % p + m(k + 1) * x.x1 % p) % p, m(k + 2) * x.x2 % p);
    DotSteps(p, m(k), m(k + 1), m(k + 2), x);
  }

  method Ark(md: Modulus, cc: seq<int>, k: nat, s: seq<int>, ghost x: nat) returns (r: seq<int>)
    requires ValidModulus(md) && 2 * V(md.limbs) <= R() && Table(md, cc, 195) && k < 195 && Holds(md, s, x)
    ensures Holds(md, r, (x + Elem(md, cc)(k)) % V(md.limbs))
  {
    var c := Kslice(md, cc, k, 195);
    r := MontAdd(md, s, c, x, Elem(md, cc)(k));
  }

  ghost predicate HoldsAll(md: Modulus, s0: seq<int>, s1: seq<int>, s2: seq<int>, x: Triple)
    requires |md.limbs| >= 16 && V(md.limbs) > 0
  {
    Holds(md, s0, x.x0) && Holds(md, s1, x.x1) && Holds(md, s2, x.x2)
  }

  method SBoxStep(md: Modulus, r: nat, t0: seq<int>, t1: seq<int>, t2: seq<int>, ghost x: Triple)
      returns (s0: seq<int>, s1: seq<int>, s2: seq<int>)
    requires ValidModulus(md) && HoldsAll(md, t0, t1, t2, x)
    ensures HoldsAll(md, s0, s1, s2, SBox(V(md.limbs), r, x))
  {
    var fullA := r < 4;
    var fullB := r >= 61;
    s1, s2 := t1, t2;
    s0 := Pow5(md, t0, x.x0);
    if fullA || fullB {
      s1 := Pow5(md, t1, x.x1);
      s2 := Pow5(md, t2, x.x2);
    }
  }

  method ArkStep(md: Modulus, cc: seq<int>, r: nat, t0: seq<int>, t1: seq<int>, t2: seq<int>, ghost x: Triple)
      returns (s0: seq<int>, s1: seq<int>, s2: seq<int>)
    requires ValidModulus(md) && 2 * V(md.limbs) <= R() && Table(md, cc, 195) && r < 65 && HoldsAll(md, t0, t1, t2, x)
    ensures HoldsAll(md, s0, s1, s2, AddConstants(V(md.limbs), Elem(md, cc), r, x))
  {
    s0 := Ark(md, cc, 3 * r, t0, x.x0);
    s1 := Ark(md, cc, 3 * r + 1, t1, x.x1);
    s2 := Ark(md, cc, 3 * r + 2, t2, x.x2);
  }

  method RoundStep(md: Modulus, cc: seq<int>, mm: seq<int>, r: nat, t0: seq<int>, t1: seq<int>, t2: seq<int>,
                   ghost x: Triple)
      returns (s0: seq<int>, s1: seq<int>, s2: seq<int>)
    requires ValidModulus(md) && 2 * V(md.limbs) <= R() && Table(md, cc, 195) && Table(md, mm, 9) && r < 65
    requires HoldsAll(md, t0, t1, t2, x)
    ensures HoldsAll(md, s0, s1, s2, Round(V(md.limbs), Elem(md, cc), Elem(md, mm), r, x))
  {
    ghost var p := V(md.limbs);
    s0, s1, s2 := ArkStep(md, cc, r, t0, t1, t2, x);
    ghost var a := AddConstants(p, Elem(md, cc), r, x);
    s0, s1, s2 := SBoxStep(md, r, s0, s1, s2, a);
    s0, s1, s2 := MixStep(md, mm, s0, s1, s2, SBox(p, r, a));
  }

  method MixStep(md: Modulus, mm: seq<int>, t0: seq<int>, t1: seq<int>, t2: seq<int>, ghost x: Triple)
      returns (s0: seq<int>, s1: seq<int>, s2: seq<int>)
    requires ValidModulus(md) && 2 * V(md.limbs) <= R() && Table(md, mm, 9) && HoldsAll(md, t0, t1, t2, x)
    ensures HoldsAll(md, s0, s1, s2, Mix(V(md.limbs), Elem(md, mm), x))
  {
    s0 := MdsRow(md, mm, 0, t0, t1, t2, x);
    s1 := MdsRow(md, mm, 3, t0, t1, t2, x);
    s2 := MdsRow(md, mm, 6, t0, t1, t2, x);
  }

  /** The hash: two plain 16-limb inputs in, one canonical plain element out.  `r2` is the
      limb table of R^2 mod p. */
  method Hash(md: Modulus, r2: seq<int>, cc: seq<int>, mm: seq<int>, a: seq<int>, b: seq<int>) returns (out: seq<int>)
    requires ValidModulus(md) && 2 * V(md.limbs) <= R() && Table(md, cc, 195) && Table(md, mm, 9)
    requires InBase(B, r2, 16) && V(r2) < V(md.limbs) && V(r2) % V(md.limbs) == (R() * R()) % V(md.limbs)
    requires InBase(B, a, 16) && InBase(B, b, 16)
    ensures InBase(B, out, 16)
    ensures var p := V(md.limbs);
            0 <= V(a) && 0 <= V(b)
            && V(out) == HashOf(p, Elem(md, cc), Elem(md, mm), V(a), V(b))
  {
    ghost var p, c, m := V(md.limbs), Elem(md, cc), Elem(md, mm);
    var s1 := Enter(md, r2, a);
    var s2 := Enter(md, r2, b);
    var s0 := [0, 0, 0, 0, 0, 0, 0, 0, 0, 0, 0, 0, 0, 0, 0, 0];
    ZeroVal(B, s0, 16);
    ghost var x0 := Triple(0, V(a) % p, V(b) % p);
    var r := 0;
    while r < 65
      invariant 0 <= r <= 65
      invariant HoldsAll(md, s0, s1, s2, Permute(p, c, m, r, x0))
    {
      s0, s1, s2 := RoundStep(md, cc, mm, r, s0, s1, s2, Permute(p, c, m, r, x0));
      r := r + 1;
    }
    out := Leave(md, s0, Permute(p, c, m, 65, x0).x0);
  }

  method Enter(md: Modulus, r2: seq<int>, a: seq<int>) returns (s: seq<int>)
    requires ValidModulus(md) && InBase(B, a, 16)
    requires InBase(B, r2, 16) && V(r2) < V(md.limbs) && V(r2) % V(md.limbs) == (R() * R()) % V(md.limbs)
    ensures 0 <= V(a) && Holds(md, s, V(a) % V(md.limbs))
  {
    ValBound(B, a, 16);
    ValBound(B, r2, 16);
    ProductFits(V(a), V(r2), V(md.limbs), R());
    s := CiosMul(md, a, r2);
    ValBound(B, s, 16);
    EntryRep(md, V(s), V(a), V(r2));
  }

  method Leave(md: Modulus, s: seq<int>, ghost x: nat) returns (out: seq<int>)
    requires ValidModulus(md) && Holds(md, s, x)
    ensures InBase(B, out, 16) && V(out) == x
  {
    var one := [1, 0, 0, 0, 0, 0, 0, 0, 0, 0, 0, 0, 0, 0, 0, 0];
    OneVal(one, 16);
    ValBound(B, md.limbs, 16);
    ProductFits(1, V(s), V(md.limbs), R());
    out := CiosMul(md, s, one);
    ValBound(B, out, 16);
    ExitRep(md, V(out), V(s), x);
  }

  lemma {:induction false} OneVal(s: seq<int>, n: nat)
    requires 1 <= n <= |s| && s[0] == 1 && forall k :: 1 <= k < n ==> s[k] == 0
    ensures Val(B, s, n) == 1
    decreases n
  {
    if n > 1 { OneVal(s, n - 1); } else { PowOne(); }
  }
}
