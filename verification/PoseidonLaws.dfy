/** What the permutation computes, in plain powers: which rounds are full, where constants and
    matrix entries go, and where the inputs enter. */
module PoseidonLaws {
  import opened Limbs
  import opened ModArith
  import opened Poseidon

  // ---- powers modulo p ----

  lemma {:induction false} PowOne(y: nat)
    ensures Pow(y, 1) == y && Pow(y, 5) == y * y * y * y * y
  {
    assert Pow(y, 0) == 1;
    assert Pow(y, 2) == y * Pow(y, 1) && Pow(y, 3) == y * Pow(y, 2) && Pow(y, 4) == y * Pow(y, 3);
    assert Pow(y, 5) == y * Pow(y, 4);
    FiveFold(y);
  }

  lemma {:induction false} FiveFold(y: int)
    ensures y * (y * (y * (y * y))) == y * y * y * y * y
  {
    MulAssoc(y, y, y);
    MulComm(y, y * y);
    MulComm(y, y * y * y);
    MulComm(y, y * y * y * y);
  }

  lemma {:induction false} PowFive(y: nat, e: nat)
    ensures Pow(y, 5 * e) == Pow(Pow(y, e), 5)
  {
    var z := Pow(y, e);
    PowAdd(y, e, e);
    PowAdd(y, 2 * e, e);
    PowAdd(y, 3 * e, e);
    PowAdd(y, 4 * e, e);
    PowOne(z);
  }

  lemma {:induction false} QuinticCong(x: nat, y: nat, p: nat)
    requires p > 0 && x % p == y % p
    ensures Quintic(x, p) == Pow(y, 5) % p
  {
    CongMul(x, y, x, y, p);
    CongMul(x * x, y * y, x, y, p);
    CongMul(x * x * x, y * y * y, x, y, p);
    CongMul(x * x * x * x, y * y * y * y, x, y, p);
    PowOne(y);
  }

  /** Raising a residue to the fifth power multiplies its exponent by five. */
  lemma {:induction false} PowerStep(y: nat, e: nat, x: nat, p: nat)
    requires p > 0 && x % p == Pow(y, e) % p
    ensures Quintic(x, p) == Pow(y, 5 * e) % p
  {
    QuinticCong(x, Pow(y, e), p);
    PowFive(y, e);
  }

  /** `y` to the fifth power, d times over. */
  function Fifths(y: nat, d: nat, p: nat): nat requires p > 0 { Pow(y, Pow(5, d)) % p }

  // ---- rounds and lanes ----

  /** Full rounds among the first n: the first four and those from 61 on. */
  function Full(n: nat): nat { if n <= 4 then n else if n <= 61 then 4 else n - 57 }

  /** A matrix that copies lane j (1 or 2) to lane 0 and keeps lanes 1 and 2. */
  predicate Copies(m: nat -> nat, j: nat) {
    && 1 <= j <= 2 && m(0) == 0 && m(j) == 1 && m(3 - j) == 0
    && m(3) == 0 && m(4) == 1 && m(5) == 0 && m(6) == 0 && m(7) == 0 && m(8) == 1
  }

  predicate Identity(m: nat -> nat) {
    m(0) == 1 && m(1) == 0 && m(2) == 0 && m(3) == 0 && m(4) == 1 && m(5) == 0 && m(6) == 0 && m(7) == 0 && m(8) == 1
  }

  function Lane(s: Triple, j: nat): nat { if j == 0 then s.x0 else if j == 1 then s.x1 else s.x2 }

  /** Lane j gets the constant k in round r and none in any other round. */
  ghost predicate OneConstant(c: nat -> nat, j: nat, r: nat, k: nat) {
    forall i: nat :: c(3 * i + j) == if i == r then k else 0
  }

  /** What a round leaves in a lane before the matrix. */
  function Raised(p: nat, r: nat, x: nat): nat
    requires p > 0
  {
    if r < 4 || 61 <= r then Quintic(x % p, p) else x % p
  }

  lemma {:induction false} LaneSBox(p: nat, c: nat -> nat, r: nat, j: nat, s: Triple)
    requires p > 0 && 1 <= j <= 2
    ensures Lane(SBox(p, r, AddConstants(p, c, r, s)), j) == Raised(p, r, Lane(s, j) + c(3 * r + j)) < p
  {
    ModRange(Lane(s, j) + c(3 * r + j), p);
  }

  lemma {:induction false} CopyMix(p: nat, m: nat -> nat, j: nat, s: Triple)
    requires p > 0 && Copies(m, j)
    ensures Mix(p, m, s).x0 == Lane(s, j) % p == Lane(Mix(p, m, s), j)
  {}

  lemma {:induction false} CopyRound(p: nat, c: nat -> nat, m: nat -> nat, r: nat, j: nat, s: Triple)
    requires p > 0 && Copies(m, j)
    ensures Round(p, c, m, r, s).x0 == Lane(Round(p, c, m, r, s), j) == Raised(p, r, Lane(s, j) + c(3 * r + j))
  {
    var a := SBox(p, r, AddConstants(p, c, r, s));
    LaneSBox(p, c, r, j, s);
    CopyMix(p, m, j, a);
    ModSmall(Lane(a, j), p);
  }

  lemma {:induction false} CopyNext(p: nat, c: nat -> nat, m: nat -> nat, n: nat, j: nat, s: Triple)
    requires p > 0 && Copies(m, j)
    ensures Tracks(Permute(p, c, m, n + 1, s), j, n + 1, Raised(p, n, Lane(Permute(p, c, m, n, s), j) + c(3 * n + j)))
  {
    CopyRound(p, c, m, n, j, Permute(p, c, m, n, s));
  }

  /** Lane j holds v after n rounds, and so does lane 0 from the first round on. */
  predicate Tracks(t: Triple, j: nat, n: nat, v: nat) { Lane(t, j) == v && (n > 0 ==> t.x0 == v) }

  /** One lane on its own. */
  function LaneRun(p: nat, c: nat -> nat, j: nat, n: nat, x: nat): nat
    requires p > 0
  {
    if n == 0 then x else Raised(p, n - 1, LaneRun(p, c, j, n - 1, x) + c(3 * (n - 1) + j))
  }

  lemma {:induction false} LaneRuns(p: nat, c: nat -> nat, m: nat -> nat, n: nat, j: nat, s: Triple)
    requires p > 0 && Copies(m, j)
    ensures Tracks(Permute(p, c, m, n, s), j, n, LaneRun(p, c, j, n, Lane(s, j)))
    decreases n
  {
    if n > 0 {
      LaneRuns(p, c, m, n - 1, j, s);
      CopyNext(p, c, m, n - 1, j, s);
    }
  }

  /** Before its constant, a lane holds its input to the fifth power once per full round. */
  lemma {:induction false} LaneBefore(p: nat, c: nat -> nat, j: nat, n: nat, r: nat, k: nat, x: nat)
    requires p > 0 && OneConstant(c, j, r, k) && n <= r && n <= 65 && x < p
    ensures LaneRun(p, c, j, n, x) == Fifths(x, Full(n), p)
    decreases n
  {
    if n == 0 {
      FirstPower(x, p);
    } else {
      LaneBefore(p, c, j, n - 1, r, k, x);
      LaneStays(p, c, n - 1, j, r, k, x, Full(n - 1), LaneRun(p, c, j, n - 1, x));
    }
  }

  lemma {:induction false} FirstPower(a: nat, p: nat)
    requires a < p
    ensures Fifths(a, 0, p) == a
  {
    PowOne(a);
    ModSmall(a, p);
  }

  /** What a round without a constant makes of a power in a lane. */
  lemma {:induction false} LaneStep(p: nat, r: nat, y: nat, e: nat, x: nat)
    requires p > 0 && x == Fifths(y, e, p) && r < 65
    ensures Raised(p, r, x) == Fifths(y, e + Full(r + 1) - Full(r), p)
  {
    ModIdem(Pow(y, Pow(5, e)), p);
    PowerStep(y, Pow(5, e), x % p, p);
    assert Pow(5, e + 1) == 5 * Pow(5, e);
  }

  /** From its constant on, it holds the sum with the constant, to the fifth power once per
      full round. */
  lemma {:induction false} LaneAfter(p: nat, c: nat -> nat, j: nat, n: nat, r: nat, k: nat, x: nat)
    requires p > 0 && OneConstant(c, j, r, k) && r < n <= 65 && x < p
    ensures LaneRun(p, c, j, n, x) == Fifths(Pow(x, Pow(5, Full(r))) + k, Full(n) - Full(r), p)
    decreases n
  {
    var i, a := n - 1, Pow(x, Pow(5, Full(r)));
    if i == r {
      LaneBefore(p, c, j, r, r, k, x);
      assert c(3 * r + j) == k;
      LaneMeets(p, r, a, k, LaneRun(p, c, j, r, x));
    } else {
      LaneAfter(p, c, j, i, r, k, x);
      LaneStays(p, c, i, j, r, k, a + k, Full(i) - Full(r), LaneRun(p, c, j, i, x));
    }
  }

  lemma {:induction false} LaneStays(p: nat, c: nat -> nat, i: nat, j: nat, r: nat, k: nat, y: nat, e: nat, x: nat)
    requires p > 0 && OneConstant(c, j, r, k) && i != r && i < 65 && x == Fifths(y, e, p)
    ensures Raised(p, i, x + c(3 * i + j)) == Fifths(y, e + Full(i + 1) - Full(i), p)
  {
    assert c(3 * i + j) == 0;
    LaneStep(p, i, y, e, x);
  }

  /** The round that adds the constant. */
  lemma {:induction false} LaneMeets(p: nat, r: nat, a: nat, k: nat, x: nat)
    requires p > 0 && x == a % p && r < 65
    ensures Raised(p, r, x + k) == Fifths(a + k, Full(r + 1) - Full(r), p)
  {
    ModIdem(a, p);
    CongAdd(x, a, k, k, p);
    ModIdem(x + k, p);
    QuinticCong((x + k) % p, a + k, p);
    PowOne(a + k);
    PowOne(5);
    assert Pow(5, 0) == 1;
  }

  // ---- the hash ----

  /** Over a matrix that copies lane j, where lane j has the one constant k in round r: the
      input of that lane to the fifth power once per full round, k added on the way. */
  lemma {:induction false} HashPowers(p: nat, c: nat -> nat, m: nat -> nat, j: nat, r: nat, k: nat, a: nat, b: nat)
    requires p > 0 && Copies(m, j) && OneConstant(c, j, r, k) && r < 65
    ensures var x := if j == 1 then a % p else b % p; var f := if r <= 4 then r else if r <= 61 then 4 else r - 57;
            HashOf(p, c, m, a, b) == Pow(Pow(x, Pow(5, f)) + k, Pow(5, 8 - f)) % p
  {
    var s := Triple(0, a % p, b % p);
    ModRange(a, p);
    ModRange(b, p);
    LaneRuns(p, c, m, 65, j, s);
    LaneAfter(p, c, j, 65, r, k, Lane(s, j));
  }

  /** Over the identity, with the one constant k at the very start of lane 0: every round
      raises it. */
  lemma {:induction false} HashEveryRound(p: nat, c: nat -> nat, m: nat -> nat, k: nat, a: nat, b: nat, n: nat)
    requires p > 0 && Identity(m) && OneConstant(c, 0, 0, k) && n == 65
    ensures HashOf(p, c, m, a, b) == Pow(k, Pow(5, n)) % p
  {
    FirstLane(p, c, m, k, n, Triple(0, a % p, b % p));
  }

  lemma {:induction false} FirstLane(p: nat, c: nat -> nat, m: nat -> nat, k: nat, n: nat, s: Triple)
    requires p > 0 && Identity(m) && OneConstant(c, 0, 0, k) && s.x0 == 0 && n > 0
    ensures Permute(p, c, m, n, s).x0 == Fifths(k, n, p)
    decreases n
  {
    var t := Permute(p, c, m, n - 1, s);
    IdentityRound(p, c, m, n - 1, t);
    if n == 1 {
      assert c(3 * 0 + 0) == k;
      FirstFifth(k, p);
    } else {
      assert c(3 * (n - 1) + 0) == 0;
      FirstLane(p, c, m, k, n - 1, s);
      NextFifth(k, n - 1, t.x0, p);
    }
  }

  lemma {:induction false} FirstFifth(k: nat, p: nat)
    requires p > 0
    ensures Quintic((0 + k) % p, p) == Fifths(k, 1, p)
  {
    FromZero(k, p);
    PowOne(5);
  }

  lemma {:induction false} NextFifth(k: nat, d: nat, x: nat, p: nat)
    requires p > 0 && x == Fifths(k, d, p)
    ensures Quintic((x + 0) % p, p) == Fifths(k, d + 1, p)
  {
    ModIdem(Pow(k, Pow(5, d)), p);
    PowerStep(k, Pow(5, d), x % p, p);
  }

  lemma {:induction false} IdentityRound(p: nat, c: nat -> nat, m: nat -> nat, r: nat, s: Triple)
    requires p > 0 && Identity(m)
    ensures Round(p, c, m, r, s).x0 == Quintic((s.x0 + c(3 * r)) % p, p)
  {
    var a := SBox(p, r, AddConstants(p, c, r, s));
    QuinticRange((s.x0 + c(3 * r)) % p, p);
  }

  lemma {:induction false} QuinticRange(x: nat, p: nat)
    requires p > 0
    ensures 0 <= Quintic(x, p) < p && Quintic(x, p) % p == Quintic(x, p)
  {}

  /** With constants in the last round only, the permutation of zero is the matrix times
      their fifth powers, row by row. */
  lemma {:induction false} LastRound(p: nat, c: nat -> nat, m: nat -> nat, n: nat)
    requires p > 0 && n == 65 && forall i: nat :: i < 192 ==> c(i) == 0
    ensures var t := Permute(p, c, m, n, Triple(0, 0, 0));
            var u := Triple(Pow(c(192), 5) % p, Pow(c(193), 5) % p, Pow(c(194), 5) % p);
            && t.x0 == (m(0) * u.x0 + m(1) * u.x1 + m(2) * u.x2) % p
            && t.x1 == (m(3) * u.x0 + m(4) * u.x1 + m(5) * u.x2) % p
            && t.x2 == (m(6) * u.x0 + m(7) * u.x1 + m(8) * u.x2) % p
  {
    ZeroStays(p, c, m, n - 1);
    LastSBox(p, c, n - 1);
  }

  lemma {:induction false} LastSBox(p: nat, c: nat -> nat, r: nat)
    requires p > 0 && r == 64
    ensures SBox(p, r, AddConstants(p, c, r, Triple(0, 0, 0)))
         == Triple(Pow(c(192), 5) % p, Pow(c(193), 5) % p, Pow(c(194), 5) % p)
  {
    FromZero(c(3 * r), p);
    FromZero(c(3 * r + 1), p);
    FromZero(c(3 * r + 2), p);
    AllThree(p, c, r);
  }

  /** A full round on zero raises its three constants. */
  lemma {:induction false} AllThree(p: nat, c: nat -> nat, r: nat)
    requires p > 0 && 61 <= r
    ensures SBox(p, r, AddConstants(p, c, r, Triple(0, 0, 0)))
         == Triple(Quintic((0 + c(3 * r)) % p, p), Quintic((0 + c(3 * r + 1)) % p, p),
                   Quintic((0 + c(3 * r + 2)) % p, p))
  {}

  lemma {:induction false} FromZero(k: nat, p: nat)
    requires p > 0
    ensures Quintic((0 + k) % p, p) == Pow(k, 5) % p
  {
    ModIdem(k, p);
    QuinticCong(k % p, k, p);
  }

  lemma {:induction false} ZeroStays(p: nat, c: nat -> nat, m: nat -> nat, n: nat)
    requires p > 0 && n <= 64 && forall i: nat :: i < 192 ==> c(i) == 0
    ensures Permute(p, c, m, n, Triple(0, 0, 0)) == Triple(0, 0, 0)
    decreases n
  {
    if n > 0 {
      ZeroStays(p, c, m, n - 1);
      ZeroRound(p, c, m, n - 1);
    }
  }

  lemma {:induction false} ZeroRound(p: nat, c: nat -> nat, m: nat -> nat, r: nat)
    requires p > 0 && c(3 * r) == 0 && c(3 * r + 1) == 0 && c(3 * r + 2) == 0
    ensures Round(p, c, m, r, Triple(0, 0, 0)) == Triple(0, 0, 0)
  {
    var z := Triple(0, 0, 0);
    assert AddConstants(p, c, r, z) == z;
    assert Quintic(0, p) == 0;
    assert SBox(p, r, z) == z;
    DotZero(p, m(0), m(1), m(2));
    DotZero(p, m(3), m(4), m(5));
    DotZero(p, m(6), m(7), m(8));
  }

  lemma {:induction false} DotZero(p: nat, u0: nat, u1: nat, u2: nat)
    requires p > 0
    ensures Dot(p, u0, u1, u2, Triple(0, 0, 0)) == 0
  {}
}
