/** The point operations of secp256k1 over the verified field layer, and their closure on
    the curve y^2 = x^3 + 7. */
module SecpCurve {
  import opened Limbs
  import opened ModArith
  import opened SecpField

  // ---- points over the integers modulo P ----

  datatype Point = Infinity | Affine(x: nat, y: nat)

  predicate OnCurve(q: Point) { OnCurveAt(q, P) }

  predicate OnCurveAt(q: Point, p: int)
    requires p > 0
  {
    q.Infinity? || (q.x < p && q.y < p && (q.y * q.y) % p == (q.x * q.x * q.x + 7) % p)
  }

  function Inverse(a: int): nat { ModPow(a, P - 2) }

  /** The slope construction shared by addition and doubling: the third intersection of
      the line with slope `l` through (x1, y1), reflected. */
  function Chord(l: int, x1: int, y1: int, minus: int): Point { ChordAt(l, x1, y1, minus, P) }

  function ChordAt(l: int, x1: int, y1: int, minus: int, p: int): Point
    requires p > 0
  {
    var nx := ((l * l) % p - minus) % p;
    Affine(nx, ((l * ((x1 - nx) % p)) % p - y1) % p)
  }

  /** The doubled point, where `inv` inverts 2y. */
  function Tangent(q: Point, inv: int, p: int): Point
    requires p > 0 && q.Affine?
  {
    ChordAt(((3 * ((q.x * q.x) % p)) % p * inv) % p, q.x, q.y, (q.x + q.x) % p, p)
  }

  function Double(q: Point): Point {
    if q.Infinity? || (q.y + q.y) % P == 0 then Infinity
    else Tangent(q, Inverse((q.y + q.y) % P), P)
  }

  function Add(a: Point, b: Point): Point {
    if a.Infinity? then b
    else if b.Infinity? then a
    else if a.x == b.x then (if a.y == b.y then Double(a) else Infinity)
    else Secant(a, b, Inverse((b.x - a.x) % P), P)
  }

  /** The sum of two points, where `inv` inverts the difference of their x. */
  function Secant(a: Point, b: Point, inv: int, p: int): Point
    requires p > 0 && a.Affine? && b.Affine?
  {
    var l := (((b.y - a.y) % p) * inv) % p;
    var nx := (((l * l) % p - a.x) % p - b.x) % p;
    Affine(nx, ((l * ((a.x - nx) % p)) % p - a.y) % p)
  }

  /** Double-and-add over `n` bits of `k`, least significant bit first. */
  function Ladder(acc: Point, q: Point, k: nat, n: nat): Point
    decreases n
  {
    if n == 0 then acc else Ladder(if k % 2 == 1 then Add(acc, q) else acc, Double(q), k / 2, n - 1)
  }

  /** The j-fold double. */
  function DoubleN(q: Point, j: nat): Point { if j == 0 then q else Double(DoubleN(q, j - 1)) }

  predicate Bit(k: nat, j: nat) {
    PowPositive(2, j);
    (k / Pow(2, j)) % 2 == 1
  }

  /** The sum, from infinity, of the j-fold doubles of `q` for the set bits j below n of the
      scalar, lowest first. */
  function Multiple(q: Point, k: nat, n: nat): Point {
    if n == 0 then Infinity
    else if Bit(k, n - 1) then Add(Multiple(q, k, n - 1), DoubleN(q, n - 1)) else Multiple(q, k, n - 1)
  }

  /** Fermat inversion, the one property of the prime P that the closure needs. */
  ghost predicate InverseLaw() {
    forall a :: 0 < a < P ==> (a * Inverse(a)) % P == 1
  }

  // ---- what a sum is ----

  /** The reflection of (rx, ry) is the third point of the line with slope n / d through
      (ax, ay), whose other point on the curve has x-coordinate bx: Vieta's formula for the
      three x-coordinates, and the line's equation. */
  predicate ThirdPoint(ax: int, ay: int, bx: int, rx: int, ry: int, n: int, d: int, p: int)
    requires p > 0
  {
    ((ax + bx + rx) * (d * d)) % p == (n * n) % p && ((ay + ry) * d) % p == (n * (ax - rx)) % p
  }

  lemma {:induction false} LineLaw(l: int, ax: int, ay: int, bx: int, rx: int, ry: int, n: int, d: int, p: int)
    requires p > 0 && (l * d) % p == n % p
    requires rx % p == (l * l - ax - bx) % p && ry % p == (l * (ax - rx) - ay) % p
    ensures ThirdPoint(ax, ay, bx, rx, ry, n, d, p)
  {
    CongAdd(rx, l * l - ax - bx, ax + bx, ax + bx, p);
    CongMul(ax + bx + rx, l * l, d * d, d * d, p);
    SquareProduct(l, d);
    CongMul(l * d, n, l * d, n, p);
    CongAdd(ry, l * (ax - rx) - ay, ay, ay, p);
    CongMul(ay + ry, l * (ax - rx), d, d, p);
    Rotate(l, ax - rx, d);
    MulComm(l * d, ax - rx);
    CongMul(l * d, n, ax - rx, ax - rx, p);
    Swap3(l, ax - rx, d);
  }

  lemma {:induction false} SquareProduct(l: int, d: int)
    ensures (l * l) * (d * d) == (l * d) * (l * d)
  {}

  lemma {:induction false} Swap3(l: int, u: int, d: int)
    ensures (l * u) * d == (l * d) * u
  {}

  lemma {:induction false} SecantLaw(a: Point, b: Point, inv: int, p: int)
    requires p > 0 && a.Affine? && b.Affine? && (((b.x - a.x) % p) * inv) % p == 1
    ensures var r := Secant(a, b, inv, p);
            r.Affine? && r.x < p && r.y < p && ThirdPoint(a.x, a.y, b.x, r.x, r.y, b.y - a.y, b.x - a.x, p)
  {
    var l, r := (((b.y - a.y) % p) * inv) % p, Secant(a, b, inv, p);
    ChordSlope(a.x, a.y, b.x, b.y, inv, l, p);
    ThirdReduced(l * l, a.x, b.x, p);
    LastReduced(l, a.x - r.x, a.y, p);
    SecantRange(l, a, b.x, r, p);
    ModIdem(l * l - a.x - b.x, p);
    ModIdem(l * (a.x - r.x) - a.y, p);
    LineLaw(l, a.x, a.y, b.x, r.x, r.y, b.y - a.y, b.x - a.x, p);
  }

  lemma {:induction false} LastReduced(l: int, u: int, y: int, p: int)
    requires p > 0
    ensures ((l * (u % p)) % p - y) % p == (l * u - y) % p
  {
    ModIdem(u, p);
    CongMul(l, l, u % p, u, p);
    ModIdem(l * (u % p), p);
    CongSub((l * (u % p)) % p, l * u, y, y, p);
  }

  lemma {:induction false} TangentLaw(q: Point, inv: int, p: int)
    requires p > 0 && q.Affine? && (((q.y + q.y) % p) * inv) % p == 1
    ensures var r := Tangent(q, inv, p);
            r.Affine? && r.x < p && r.y < p && ThirdPoint(q.x, q.y, q.x, r.x, r.y, 3 * (q.x * q.x), 2 * q.y, p)
  {
    var l, r := ((3 * ((q.x * q.x) % p)) % p * inv) % p, Tangent(q, inv, p);
    TangentSlope(q.x, q.y, inv, l, p);
    Rotate3(2, l, q.y);
    ZeroDiff(l * (2 * q.y), 3 * (q.x * q.x), p);
    TwiceReduced(l * l, q.x + q.x, p);
    LastReduced(l, q.x - r.x, q.y, p);
    InRange(l, q.x, q.y, r.x, r.y, p);
    ModIdem(l * l - q.x - q.x, p);
    ModIdem(l * (q.x - r.x) - q.y, p);
    LineLaw(l, q.x, q.y, q.x, r.x, r.y, 3 * (q.x * q.x), 2 * q.y, p);
  }

  /** Two points on different verticals add up to the reflected third point of their chord;
      infinity is neutral, a point and its reflection cancel, and equal points double. */
  lemma {:induction false} AddIsChord(a: Point, b: Point)
    requires InverseLaw() && (a.Affine? ==> a.x < P) && (b.Affine? ==> b.x < P)
    ensures a.Infinity? ==> Add(a, b) == b
    ensures b.Infinity? ==> Add(a, b) == a
    ensures a.Affine? && b.Affine? && a.x == b.x ==> Add(a, b) == if a.y == b.y then Double(a) else Infinity
    ensures a.Affine? && b.Affine? && a.x != b.x ==>
              var r := Add(a, b);
              r.Affine? && r.x < P && r.y < P && ThirdPoint(a.x, a.y, b.x, r.x, r.y, b.y - a.y, b.x - a.x, P)
  {
    if a.Affine? && b.Affine? && a.x != b.x {
      DistinctResidues(a.x, b.x, P);
      SecantLaw(a, b, Inverse((b.x - a.x) % P), P);
    }
  }

  /** A point doubles to the reflected third point of its tangent, or to infinity where the
      tangent is vertical. */
  lemma {:induction false} DoubleIsTangent(q: Point)
    requires InverseLaw()
    ensures q.Infinity? || (2 * q.y) % P == 0 ==> Double(q) == Infinity
    ensures q.Affine? && (2 * q.y) % P != 0 ==>
              var r := Double(q);
              r.Affine? && r.x < P && r.y < P && ThirdPoint(q.x, q.y, q.x, r.x, r.y, 3 * (q.x * q.x), 2 * q.y, P)
  {
    if q.Affine? && (q.y + q.y) % P != 0 { TangentLaw(q, Inverse((q.y + q.y) % P), P); }
  }

  // ---- what the ladder climbs ----

  lemma {:induction false} DoubleShift(q: Point, j: nat)
    ensures DoubleN(Double(q), j) == DoubleN(q, j + 1)
  {
    if j > 0 { DoubleShift(q, j - 1); }
  }

  lemma {:induction false} BitShift(k: nat, j: nat)
    ensures Bit(k / 2, j) == Bit(k, j + 1) && Bit(k, 0) == (k % 2 == 1)
  {
    PowPositive(2, j);
    HalfDivides(k, Pow(2, j));
    assert Pow(2, 0) == 1;
  }

  lemma {:induction false} HalfDivides(k: nat, u: nat)
    requires u > 0
    ensures k / 2 / u == k / (2 * u)
  {
    var q, r := k / 2 / u, k / 2 % u;
    assert k / 2 == u * q + r;
    assert k == 2 * (u * q + r) + k % 2;
    MulAssoc(2, u, q);
    MulComm(2 * u, q);
    DivModUnique(k, 2 * u, q, 2 * r + k % 2);
  }

  /** The ladder's last step adds its last double if the last bit is set. */
  lemma {:induction false} LadderLast(acc: Point, q: Point, k: nat, n: nat)
    ensures var a := Ladder(acc, q, k, n);
            Ladder(acc, q, k, n + 1) == if Bit(k, n) then Add(a, DoubleN(q, n)) else a
    decreases n
  {
    BitShift(k, if n > 0 then n - 1 else 0);
    var acc' := if k % 2 == 1 then Add(acc, q) else acc;
    if n > 0 {
      LadderLast(acc', Double(q), k / 2, n - 1);
      DoubleShift(q, n - 1);
    } else {
      assert Ladder(acc', Double(q), k / 2, 0) == acc';
    }
  }

  lemma {:induction false} LadderIsMultiple(q: Point, k: nat, n: nat)
    ensures Ladder(Infinity, q, k, n) == Multiple(q, k, n)
  {
    if n > 0 {
      LadderIsMultiple(q, k, n - 1);
      LadderLast(Infinity, q, k, n - 1);
    }
  }

  lemma {:induction false} BitIs(k: nat, j: nat, q: nat, r: nat)
    requires k == q * Pow(2, j) + r && r < Pow(2, j)
    ensures Bit(k, j) == (q % 2 == 1)
  {
    DivModUnique(k, Pow(2, j), q, r);
  }

  /** Adding a power of two above a number sets that bit and leaves the lower ones alone. */
  lemma {:induction false} TopPower(k: nat, n: nat, j: nat)
    requires k < Pow(2, n) && j <= n
    ensures Bit(k + Pow(2, n), j) == (j == n || Bit(k, j)) && !Bit(k, n)
  {
    BitIs(k, n, 0, k);
    BitIs(k + Pow(2, n), n, 1, k);
    if j < n {
      PowPositive(2, j);
      PowAdd(2, j, n - j);
      LowerBit(k, j, Pow(2, j), Pow(2, n - j - 1));
    }
  }

  lemma {:induction false} LowerBit(k: nat, j: nat, u: nat, h: nat)
    requires u == Pow(2, j) && u > 0
    ensures Bit(k + u * (2 * h), j) == Bit(k, j)
  {
    var q, r := k / u, k % u;
    assert k == u * q + r;
    MulComm(u, q);
    MulComm(u, 2 * h);
    Distrib(q, 2 * h, u);
    BitIs(k, j, q, r);
    BitIs(k + u * (2 * h), j, q + 2 * h, r);
  }

  lemma {:induction false} SameBits(q: Point, k: nat, k': nat, n: nat)
    requires forall j: nat :: j < n ==> Bit(k, j) == Bit(k', j)
    ensures Multiple(q, k, n) == Multiple(q, k', n)
  {
    if n > 0 { SameBits(q, k, k', n - 1); }
  }

  /** The multiple of a sum k + 2^n, with k below 2^n, adds the n-fold double to that of k;
      leading zeros change nothing. */
  lemma {:induction false} MultipleGrows(q: Point, k: nat, n: nat)
    requires k < Pow(2, n)
    ensures Multiple(q, k, n + 1) == Multiple(q, k, n)
    ensures Multiple(q, k + Pow(2, n), n + 1) == Add(Multiple(q, k, n), DoubleN(q, n))
  {
    TopPower(k, n, n);
    forall j: nat | j < n ensures Bit(k + Pow(2, n), j) == Bit(k, j) { TopPower(k, n, j); }
    SameBits(q, k, k + Pow(2, n), n);
  }

  lemma {:induction false} MultipleStays(q: Point, k: nat, m: nat, n: nat)
    requires k < Pow(2, m) && m <= n
    ensures k < Pow(2, n) && Multiple(q, k, n) == Multiple(q, k, m)
    decreases n
  {
    if n > m {
      MultipleStays(q, k, m, n - 1);
      MultipleGrows(q, k, n - 1);
    }
  }

  lemma {:induction false} MultipleOfZero(q: Point, n: nat)
    ensures Multiple(q, 0, n) == Infinity
  {
    if n > 0 {
      MultipleOfZero(q, n - 1);
      PowPositive(2, n - 1);
      MultipleGrows(q, 0, n - 1);
    }
  }

  lemma {:induction false} MultipleOfPower(q: Point, j: nat, n: nat)
    requires j < n
    ensures Multiple(q, Pow(2, j), n) == DoubleN(q, j)
  {
    PowPositive(2, j);
    MultipleOfZero(q, j);
    MultipleGrows(q, 0, j);
    MultipleStays(q, Pow(2, j), j + 1, n);
  }

  lemma {:induction false} MultipleOfThree(q: Point, n: nat)
    requires n >= 2
    ensures Multiple(q, 3, n) == Add(q, Double(q))
  {
    assert Pow(2, 0) == 1 && Pow(2, 1) == 2 && Pow(2, 2) == 4;
    MultipleOfPower(q, 0, 1);
    MultipleGrows(q, 1, 1);
    MultipleStays(q, 3, 2, n);
    assert DoubleN(q, 0) == q && DoubleN(q, 1) == Double(q);
  }

  /** What a scalar makes of a point: its first multiples, and its doubles at powers of two. */
  predicate Multiplies(q: Point, k: nat, r: Point) {
    && r == Multiple(q, k, 256)
    && (k == 0 ==> r == Infinity) && (k == 1 ==> r == q) && (k == 2 ==> r == Double(q))
    && (k == 3 ==> r == Add(q, Double(q)))
    && forall j: nat :: j < 256 && k == Pow(2, j) ==> r == DoubleN(q, j)
  }

  lemma {:induction false} LadderMultiplies(q: Point, k: nat, n: nat)
    requires n == 256
    ensures Multiplies(q, k, Ladder(Infinity, q, k, n))
  {
    LadderIsMultiple(q, k, n);
    MultipleOfZero(q, n);
    MultipleOfThree(q, n);
    SmallPowers(q, n);
    forall j: nat | j < n && k == Pow(2, j) ensures Multiple(q, k, n) == DoubleN(q, j) { MultipleOfPower(q, j, n); }
  }

  lemma {:induction false} SmallPowers(q: Point, n: nat)
    requires n >= 2
    ensures Multiple(q, 1, n) == q && Multiple(q, 2, n) == Double(q)
  {
    assert Pow(2, 0) == 1 && Pow(2, 1) == 2;
    MultipleOfPower(q, 0, n);
    MultipleOfPower(q, 1, n);
    assert DoubleN(q, 0) == q && DoubleN(q, 1) == Double(q);
  }

  // ---- algebra ----

  lemma {:induction false} TangentIdentity(l: int, x: int, y: int, nx: int, ny: int)
    requires nx == l * l - 2 * x && ny == l * (x - nx) - y
    ensures ny * ny - nx * nx * nx - 7 == (y * y - x * x * x - 7) + (2 * (l * y) - 3 * (x * x)) * (l * l - 3 * x)
  {}

  /** The cubic minus the squared line, divided by (u - x1). */
  function Quot(l: int, x1: int, y1: int, u: int): int {
    u * u + u * x1 + x1 * x1 - l * l * (u - x1) - 2 * (l * y1)
  }

  lemma {:induction false} LineIdentity(l: int, x1: int, y1: int, u: int)
    ensures (u - x1) * Quot(l, x1, y1, u)
         == (u * u * u - x1 * x1 * x1) - ((l * (u - x1)) * (l * (u - x1)) + 2 * y1 * (l * (u - x1)))
  {}

  lemma {:induction false} QuotAtThird(l: int, x1: int, y1: int, x2: int)
    ensures Quot(l, x1, y1, l * l - x1 - x2) == Quot(l, x1, y1, x2)
  {}

  // ---- closure ----

  /** The reduced coordinates stand for the unreduced ones. */
  lemma {:induction false} Reduced(l: int, x1: int, y1: int, nx: int, nx0: int, ny: int, p: int)
    requires p > 0 && nx % p == nx0 % p && ny % p == ((l * ((x1 - nx) % p)) % p - y1) % p
    ensures (ny * ny) % p == ((l * (x1 - nx0) - y1) * (l * (x1 - nx0) - y1)) % p
    ensures (nx * nx * nx + 7) % p == (nx0 * nx0 * nx0 + 7) % p
  {
    CongSub(x1, x1, nx, nx0, p);
    ModIdem(x1 - nx, p);
    CongMul(l, l, (x1 - nx) % p, x1 - nx0, p);
    ModIdem(l * ((x1 - nx) % p), p);
    CongSub((l * ((x1 - nx) % p)) % p, l * (x1 - nx0), y1, y1, p);
    var ny0 := l * (x1 - nx0) - y1;
    CongMul(ny, ny0, ny, ny0, p);
    CongMul(nx, nx0, nx, nx0, p);
    CongMul(nx * nx, nx0 * nx0, nx, nx0, p);
    CongAdd(nx * nx * nx, nx0 * nx0 * nx0, 7, 7, p);
  }

  lemma {:induction false} ZeroDiff(x: int, y: int, p: int)
    requires p > 0
    ensures (x - y) % p == 0 <==> x % p == y % p
  {
    if x % p == y % p {
      CongSub(x, y, y, y, p);
    }
    if (x - y) % p == 0 {
      CongAdd(x - y, 0, y, y, p);
    }
  }

  /** The slope of the tangent: (3 x^2 / 2y) * y twice is 3 x^2. */
  lemma {:induction false} TangentSlope(x: int, y: int, inv: int, l: int, p: int)
    requires p > 0 && (((y + y) % p) * inv) % p == 1 && l == ((3 * ((x * x) % p)) % p * inv) % p
    ensures (2 * (l * y) - 3 * (x * x)) % p == 0
  {
    var d := (y + y) % p;
    var n := (3 * ((x * x) % p)) % p;
    SlopeTimes(n, d, inv, l, p);
    ModIdem(x * x, p);
    CongMul(3, 3, (x * x) % p, x * x, p);
    ModIdem(3 * ((x * x) % p), p);
    ModIdem(y + y, p);
    CongMul(l, l, d, y + y, p);
    assert l * (y + y) == 2 * (l * y);
    ZeroDiff(2 * (l * y), 3 * (x * x), p);
  }

  lemma {:induction false} SlopeTimes(n: int, d: int, inv: int, l: int, p: int)
    requires p > 0 && (d * inv) % p == 1 && l == (n * inv) % p
    ensures (l * d) % p == n % p
  {
    ModIdem(n * inv, p);
    CongMul(l, n * inv, d, d, p);
    Rotate(n, inv, d);
    ModSmall(1, p);
    CongMul(d * inv, 1, n, n, p);
    assert 1 * n == n;
  }

  /** The reflected third point of a tangent is on the curve. */
  lemma {:induction false} TangentCloses(x: int, y: int, inv: int, l: int, nx: int, ny: int, p: int)
    requires p > 0 && (y * y) % p == (x * x * x + 7) % p
    requires (((y + y) % p) * inv) % p == 1 && l == ((3 * ((x * x) % p)) % p * inv) % p
    requires nx == ((l * l) % p - (x + x) % p) % p && ny == ((l * ((x - nx) % p)) % p - y) % p
    ensures (ny * ny) % p == (nx * nx * nx + 7) % p
  {
    TangentSlope(x, y, inv, l, p);
    var nx0 := l * l - 2 * x;
    TwiceReduced(l * l, x + x, p);
    ModIdem((l * ((x - nx) % p)) % p - y, p);
    Reduced(l, x, y, nx, nx0, ny, p);
    TangentOnCurve(l, x, y, nx0, l * (x - nx0) - y, p);
  }

  /** Doubling stays on the curve. */
  lemma {:induction false} DoubleOnCurve(q: Point)
    requires InverseLaw() && OnCurve(q)
    ensures OnCurve(Double(q))
  {
    if q.Affine? && (q.y + q.y) % P != 0 { TangentPoint(q, Inverse((q.y + q.y) % P), P); }
  }

  lemma {:induction false} TangentPoint(q: Point, inv: int, p: int)
    requires p > 0 && q.Affine? && OnCurveAt(q, p) && (((q.y + q.y) % p) * inv) % p == 1
    ensures OnCurveAt(Tangent(q, inv, p), p)
  {
    var l, r := ((3 * ((q.x * q.x) % p)) % p * inv) % p, Tangent(q, inv, p);
    TangentCloses(q.x, q.y, inv, l, r.x, r.y, p);
    InRange(l, q.x, q.y, r.x, r.y, p);
  }

  lemma {:induction false} InRange(l: int, x: int, y: int, nx: int, ny: int, p: int)
    requires p > 0 && nx == ((l * l) % p - (x + x) % p) % p && ny == ((l * ((x - nx) % p)) % p - y) % p
    ensures 0 <= nx < p && 0 <= ny < p
  {}

  lemma {:induction false} TangentOnCurve(l: int, x: int, y: int, nx: int, ny: int, p: int)
    requires p > 0 && nx == l * l - 2 * x && ny == l * (x - nx) - y
    requires (2 * (l * y) - 3 * (x * x)) % p == 0 && (y * y) % p == (x * x * x + 7) % p
    ensures (ny * ny) % p == (nx * nx * nx + 7) % p
  {
    TangentIdentity(l, x, y, nx, ny);
    CongMul(2 * (l * y) - 3 * (x * x), 0, l * l - 3 * x, l * l - 3 * x, p);
    CurveSum(y * y, x * x * x, (2 * (l * y) - 3 * (x * x)) * (l * l - 3 * x), ny * ny, nx * nx * nx, p);
  }

  lemma {:induction false} CurveSum(yy: int, xxx: int, m: int, nyy: int, nxxx: int, p: int)
    requires p > 0 && nyy - nxxx - 7 == (yy - xxx - 7) + m && m % p == 0 && yy % p == (xxx + 7) % p
    ensures nyy % p == (nxxx + 7) % p
  {
    ZeroDiff(yy, xxx + 7, p);
    CongAdd(yy - (xxx + 7), 0, m, 0, p);
    ZeroDiff(nyy, nxxx + 7, p);
  }

  lemma {:induction false} TwiceReduced(a: int, b: int, p: int)
    requires p > 0
    ensures ((a % p - b % p) % p) % p == (a - b) % p
  {
    ModIdem(a % p - b % p, p);
    ModIdem(a, p);
    ModIdem(b, p);
    CongSub(a % p, a, b % p, b, p);
  }

  /** The slope of the chord: l * (x2 - x1) is y2 - y1. */
  lemma {:induction false} ChordSlope(x1: int, y1: int, x2: int, y2: int, inv: int, l: int, p: int)
    requires p > 0 && (((x2 - x1) % p) * inv) % p == 1 && l == (((y2 - y1) % p) * inv) % p
    ensures (l * (x2 - x1)) % p == (y2 - y1) % p && ((x2 - x1) * inv) % p == 1
  {
    var d := (x2 - x1) % p;
    SlopeTimes((y2 - y1) % p, d, inv, l, p);
    ModIdem(x2 - x1, p);
    ModIdem(y2 - y1, p);
    CongMul(l, l, d, x2 - x1, p);
    CongMul(d, x2 - x1, inv, inv, p);
  }

  /** The quotient polynomial vanishes at the second point. */
  lemma {:induction false} QuotVanishes(l: int, x1: int, y1: int, x2: int, y2: int, inv: int, p: int)
    requires p > 0 && (l * (x2 - x1)) % p == (y2 - y1) % p && ((x2 - x1) * inv) % p == 1
    requires (y1 * y1) % p == (x1 * x1 * x1 + 7) % p && (y2 * y2) % p == (x2 * x2 * x2 + 7) % p
    ensures Quot(l, x1, y1, x2) % p == 0
  {
    var d, e := l * (x2 - x1), y2 - y1;
    LineIdentity(l, x1, y1, x2);
    CongMul(d, e, d, e, p);
    CongMul(2 * y1, 2 * y1, d, e, p);
    CongAdd(d * d, e * e, 2 * y1 * d, 2 * y1 * e, p);
    assert e * e + 2 * y1 * e == y2 * y2 - y1 * y1 by {
      assert e * e + 2 * y1 * e == (y2 - y1) * (y2 + y1);
    }
    CongSub(y2 * y2, x2 * x2 * x2 + 7, y1 * y1, x1 * x1 * x1 + 7, p);
    var cubes := x2 * x2 * x2 - x1 * x1 * x1;
    CongSub(cubes, cubes, d * d + 2 * y1 * d, cubes, p);
    assert ((x2 - x1) * Quot(l, x1, y1, x2)) % p == 0;
    ModSmall(1, p);
    assert Quot(l, x1, y1, x2) * (x2 - x1) == (x2 - x1) * Quot(l, x1, y1, x2) && 0 * (x2 - x1) == 0;
    CongCancel(Quot(l, x1, y1, x2), 0, x2 - x1, inv, p);
  }

  /** The reflected third point of a chord is on the curve. */
  lemma {:induction false} ChordCloses(x1: int, y1: int, x2: int, y2: int, inv: int, l: int, nx: int, ny: int, p: int)
    requires p > 0 && (y1 * y1) % p == (x1 * x1 * x1 + 7) % p && (y2 * y2) % p == (x2 * x2 * x2 + 7) % p
    requires (((x2 - x1) % p) * inv) % p == 1 && l == (((y2 - y1) % p) * inv) % p
    requires nx == (((l * l) % p - x1) % p - x2) % p && ny == ((l * ((x1 - nx) % p)) % p - y1) % p
    ensures (ny * ny) % p == (nx * nx * nx + 7) % p
  {
    ChordSlope(x1, y1, x2, y2, inv, l, p);
    QuotVanishes(l, x1, y1, x2, y2, inv, p);
    QuotAtThird(l, x1, y1, x2);
    var nx0 := l * l - x1 - x2;
    ThirdReduced(l * l, x1, x2, p);
    ModIdem((l * ((x1 - nx) % p)) % p - y1, p);
    Reduced(l, x1, y1, nx, nx0, ny, p);
    ThirdOnCurve(l, x1, y1, nx0, p);
  }

  lemma {:induction false} DistinctResidues(x1: int, x2: int, p: int)
    requires 0 <= x1 < p && 0 <= x2 < p && x1 != x2
    ensures 0 < (x2 - x1) % p < p
  {}

  /** Addition stays on the curve. */
  lemma {:induction false} AddOnCurve(a: Point, b: Point)
    requires InverseLaw() && OnCurve(a) && OnCurve(b)
    ensures OnCurve(Add(a, b))
  {
    if a.Infinity? || b.Infinity? { return; }
    if a.x == b.x {
      DoubleOnCurve(a);
      return;
    }
    DistinctResidues(a.x, b.x, P);
    SecantPoint(a, b, Inverse((b.x - a.x) % P), P);
  }

  lemma {:induction false} SecantPoint(a: Point, b: Point, inv: int, p: int)
    requires p > 0 && a.Affine? && b.Affine? && OnCurveAt(a, p) && OnCurveAt(b, p)
    requires (((b.x - a.x) % p) * inv) % p == 1
    ensures OnCurveAt(Secant(a, b, inv, p), p)
  {
    var l, r := (((b.y - a.y) % p) * inv) % p, Secant(a, b, inv, p);
    ChordCloses(a.x, a.y, b.x, b.y, inv, l, r.x, r.y, p);
    SecantRange(l, a, b.x, r, p);
  }

  lemma {:induction false} SecantRange(l: int, a: Point, bx: int, r: Point, p: int)
    requires p > 0 && a.Affine? && r.Affine? && r.x == (((l * l) % p - a.x) % p - bx) % p
    requires r.y == ((l * ((a.x - r.x) % p)) % p - a.y) % p
    ensures r.x < p && r.y < p
  {}

  lemma {:induction false} ThirdReduced(a: int, b: int, c: int, p: int)
    requires p > 0
    ensures ((((a % p - b) % p) - c) % p) % p == (a - b - c) % p
  {
    ModIdem(a, p);
    CongSub(a % p, a, b, b, p);
    ModIdem(a % p - b, p);
    CongSub((a % p - b) % p, a - b, c, c, p);
    ModIdem((a % p - b) % p - c, p);
  }

  lemma {:induction false} ThirdOnCurve(l: int, x1: int, y1: int, u: int, p: int)
    requires p > 0 && Quot(l, x1, y1, u) % p == 0 && (y1 * y1) % p == (x1 * x1 * x1 + 7) % p
    ensures ((l * (x1 - u) - y1) * (l * (x1 - u) - y1)) % p == (u * u * u + 7) % p
  {
    LineIdentity(l, x1, y1, u);
    var d := l * (u - x1);
    var line := d * d + 2 * y1 * d;
    CongMul(u - x1, u - x1, Quot(l, x1, y1, u), 0, p);
    assert ((u * u * u - x1 * x1 * x1) - line) % p == 0;
    ZeroDiff(u * u * u - x1 * x1 * x1, line, p);
    CongAdd(u * u * u - x1 * x1 * x1, line, x1 * x1 * x1 + 7, y1 * y1, p);
    LineSquare(l, x1, y1, u);
  }

  lemma {:induction false} LineSquare(l: int, x1: int, y1: int, u: int)
    ensures var d := l * (u - x1);
            (l * (x1 - u) - y1) * (l * (x1 - u) - y1) == d * d + 2 * y1 * d + y1 * y1
  {}

  /** Every point of a double-and-add run over a curve point is on the curve. */
  lemma {:induction false} LadderOnCurve(acc: Point, q: Point, k: nat, n: nat)
    requires InverseLaw() && OnCurve(acc) && OnCurve(q)
    ensures OnCurve(Ladder(acc, q, k, n))
    decreases n
  {
    if n > 0 {
      AddOnCurve(acc, q);
      DoubleOnCurve(q);
      LadderOnCurve(if k % 2 == 1 then Add(acc, q) else acc, Double(q), k / 2, n - 1);
    }
  }

  // ---- limb points ----

  datatype Pt = Pt(x: seq<int>, y: seq<int>, inf: bool)

  /** Coordinates are 256-bit numbers, not necessarily reduced. */
  ghost predicate Words(q: Pt) { Word4(q.x) && Word4(q.y) && 0 <= V(q.x) && 0 <= V(q.y) }

  /** Coordinates are canonical field elements. */
  ghost predicate Canonical(q: Pt) { Words(q) && V(q.x) < P && V(q.y) < P }

  function Abs(q: Pt): Point
    requires |q.x| == 4 && |q.y| == 4 && 0 <= V(q.x) && 0 <= V(q.y)
  {
    if q.inf then Infinity else Affine(V(q.x), V(q.y))
  }

  const ZERO4: seq<int> := [0, 0, 0, 0]

  method InfinityPt() returns (r: Pt)
    ensures Canonical(r) && Abs(r) == Infinity && r.inf
  {
    SmallWord(0);
    r := Pt(ZERO4, ZERO4, true);
  }

  lemma {:induction false} Injective(s: seq<int>, t: seq<int>)
    requires Word4(s) && Word4(t)
    ensures s == t <==> V(s) == V(t)
  {
    if V(s) == V(t) {
      ValInjective(W, s, t, 4);
      assert s[..4] == s && t[..4] == t;
    }
  }

  /** A factor may be replaced by its residue. */
  lemma {:induction false} MulReduced(l: int, d: int, x: int, p: int)
    requires p > 0 && d % p == x % p
    ensures (l * d) % p == (l * (x % p)) % p && (d * l) % p == ((x % p) * l) % p
  {
    ModIdem(x, p);
    CongMul(l, l, d, x % p, p);
    CongMul(d, x % p, l, l, p);
  }

  /** nx and ny of the slope construction, from limbs. */
  method FinishChord(l: seq<int>, x1: seq<int>, y1: seq<int>, nx: seq<int>) returns (r: Pt)
    requires Word4(l) && Word4(x1) && Word4(y1) && Word4(nx) && 0 <= V(nx) < P
    ensures Canonical(r) && Abs(r) == Affine(V(nx), ((V(l) * ((V(x1) - V(nx)) % P)) % P - V(y1)) % P)
  {
    var d := FeSub(x1, nx);
    var t := FeMul(l, d);
    MulReduced(V(l), V(d), V(x1) - V(nx), P);
    var ny := FeSub(t, y1);
    r := Pt(nx, ny, false);
    assert 0 <= V(ny) < P;
  }

  /** 3 x^2 / 2y */
  method TangentLambda(x: seq<int>, twoY: seq<int>) returns (l: seq<int>)
    requires Word4(x) && Word4(twoY)
    ensures Word4(l) && V(l) == ((3 * ((V(x) * V(x)) % P)) % P * Inverse(V(twoY))) % P
  {
    SmallWord(3);
    var x2 := FeMul(x, x);
    var num := FeMul([3, 0, 0, 0], x2);
    var inv := FeInv(twoY);
    l := FeMul(num, inv);
  }

  /** (y2 - y1) / (x2 - x1) */
  method ChordLambda(a: Pt, b: Pt) returns (l: seq<int>)
    requires Words(a) && Words(b)
    ensures Word4(l) && V(l) == (((V(b.y) - V(a.y)) % P) * Inverse((V(b.x) - V(a.x)) % P)) % P
  {
    var dy := FeSub(b.y, a.y);
    var dx := FeSub(b.x, a.x);
    var inv := FeInv(dx);
    InverseReduced(V(dx), V(b.x) - V(a.x));
    l := FeMul(dy, inv);
    MulReduced(V(inv), V(dy), V(b.y) - V(a.y), P);
  }

  lemma {:induction false} InverseReduced(d: int, x: int)
    requires d % P == x % P
    ensures Inverse(d) == Inverse(x % P)
  {
    ModIdem(x, P);
    ModPowCong(d, x % P, P - 2);
  }

  /** Twice this number does not lose its second carry. */
  predicate Doubles(v: int) { v + v + DELTA < 2 * W4 }

  predicate Doublable(q: Point) { q.Affine? ==> Doubles(q.x) && Doubles(q.y) }

  /** Where 2y keeps its carry, which it does for canonical y, doubling is right exactly
      when 2x keeps its carry too or is not needed. */
  method PointDouble(q: Pt) returns (r: Pt)
    requires Words(q)
    ensures Canonical(r)
    ensures q.inf || Doubles(V(q.y)) ==>
              (Abs(r) == Double(Abs(q)) <==> q.inf || (V(q.y) + V(q.y)) % P == 0 || Doubles(V(q.x)))
  {
    if q.inf {
      r := InfinityPt();
      return;
    }
    var twoY := FeAdd(q.y, q.y);
    SmallWord(0);
    Injective(twoY, ZERO4);
    if twoY == ZERO4 {
      r := InfinityPt();
      return;
    }
    r := TangentDouble(q, twoY);
  }

  /** Doubling with a nonzero 2y. */
  method TangentDouble(q: Pt, twoY: seq<int>) returns (r: Pt)
    requires Words(q) && Word4(twoY) && !q.inf
    ensures Canonical(r) && r.inf == false
    ensures var l := ((3 * ((V(q.x) * V(q.x)) % P)) % P * Inverse(V(twoY))) % P;
            Abs(r) == Chord(l, V(q.x), V(q.y), (V(q.x) + V(q.x)) % P) <==> Doubles(V(q.x))
  {
    var l := TangentLambda(q.x, twoY);
    var lx := FeMul(l, l);
    var twoX := FeAdd(q.x, q.x);
    var nx := FeSub(lx, twoX);
    SubInjective(V(lx), V(twoX), (V(q.x) + V(q.x)) % P, P);
    r := FinishChord(l, q.x, q.y, nx);
  }

  lemma {:induction false} SubInjective(a: int, b: int, c: int, p: int)
    requires 0 <= b < p && 0 <= c < p
    ensures (a - b) % p == (a - c) % p <==> b == c
  {
    if (a - b) % p == (a - c) % p {
      CongSub(a, a, a - b, a - c, p);
      ModSmall(b, p);
      ModSmall(c, p);
    }
  }

  /** Addition is right for all 256-bit coordinates, except where it doubles. */
  method PointAdd(a: Pt, b: Pt) returns (r: Pt)
    requires Words(a) && Words(b)
    ensures Words(r) && (Canonical(a) && Canonical(b) ==> Canonical(r))
    ensures Doublable(Abs(b)) || Abs(a) != Abs(b) ==> Abs(r) == Add(Abs(a), Abs(b))
  {
    if a.inf { return b; }
    if b.inf { return a; }
    Injective(a.x, b.x);
    Injective(a.y, b.y);
    if a.x != b.x {
      r := ChordSum(a, b);
    } else if a.y == b.y {
      r := PointDouble(a);
    } else {
      r := InfinityPt();
    }
  }

  method ChordSum(a: Pt, b: Pt) returns (r: Pt)
    requires Words(a) && Words(b) && !a.inf && !b.inf && V(a.x) != V(b.x)
    ensures Canonical(r) && Abs(r) == Add(Abs(a), Abs(b))
  {
    var l := ChordLambda(a, b);
    var lx := FeMul(l, l);
    var nx := FeSub(lx, a.x);
    nx := FeSub(nx, b.x);
    r := FinishChord(l, a.x, a.y, nx);
  }

  /** A public key the verifier lifts and then doubles wrongly: its x is 2^256 - 1, its y
      the even square root of (0x1000003d0)^3 + 7. */
  lemma {:induction false} UnreducedKeyFails(x: nat, y: nat)
    requires x == W4 - 1 && y == 0x3005f900bfcb00068a7051ed83f822487ce803fab076680c519f7f52ccb6b9f6
    ensures y % 2 == 0 && OnCurve(Affine(x % P, y)) && Doubles(y) && (y + y) % P != 0 && !Doubles(x)
  {
    var k := 0x9023d83f4261309e9e8cb6d911767d25a1994f61702082c0c845db67a290533;
    var x0 := DELTA - 1;
    DivModUnique(x, P, 1, x0);
    DivModUnique(y * y, P, k, 0x100000b70002b9b00376a5007);
    DivModUnique(x0 * x0 * x0 + 7, P, 0, 0x100000b70002b9b00376a5007);
    DivModUnique(y + y, P, 0, y + y);
  }

  /** The result is the multiple by all 256 bits for every base point that doubles, reduced
      or not, and on the curve whenever the base point is. */
  method ScalarMul(k: seq<int>, base: Pt) returns (r: Pt)
    requires Word4(k) && Words(base)
    ensures 0 <= V(k) && Words(r) && (Canonical(base) ==> Canonical(r))
    ensures Doublable(Abs(base)) ==> Multiplies(Abs(base), V(k), Abs(r))
    ensures InverseLaw() && OnCurve(Abs(base)) ==> OnCurve(Abs(r))
  {
    Range(k);
    r := MulWords(k, base);
    LadderMultiplies(Abs(base), V(k), 256);
    if InverseLaw() && OnCurve(Abs(base)) { LadderOnCurve(Infinity, Abs(base), V(k), 256); }
  }

  /** Low words first, low bits first. */
  method MulWords(k: seq<int>, base: Pt) returns (r: Pt)
    requires Word4(k) && Words(base) && 0 <= V(k)
    ensures Words(r) && (Canonical(base) ==> Canonical(r))
    ensures Doublable(Abs(base)) ==> Abs(r) == Ladder(Infinity, Abs(base), V(k), 256)
  {
    r := InfinityPt();
    var q := base;
    ghost var rest: nat := V(k);
    Tail(k, 0);
    for w := 0 to 4
      invariant Words(r) && Words(q) && (Canonical(base) ==> Canonical(r) && Canonical(q))
                && rest == Val(W, k[w..], 4 - w)
      invariant Doublable(Abs(base)) ==> Doublable(Abs(q))
      invariant Doublable(Abs(base)) ==>
                  Ladder(Abs(r), Abs(q), rest, 256 - 64 * w) == Ladder(Infinity, Abs(base), V(k), 256)
    {
      Tail(k, w);
      ghost var next: nat := Val(W, k[w + 1..], 3 - w);
      r, q := MulWord(r, q, k[w], next, 192 - 64 * w);
      rest := next;
    }
  }

  lemma {:induction false} Tail(k: seq<int>, w: nat)
    requires Word4(k) && w < 4
    ensures k[0..] == k && 0 <= Val(W, k[w + 1..], 3 - w)
    ensures Val(W, k[w..], 4 - w) == k[w] + Val(W, k[w + 1..], 3 - w) * W
  {
    assert k[w..][1..] == k[w + 1..];
    Weights();
    ValSplit(W, k[w..], 1, 3 - w);
    assert Val(W, k[w..], 1) == k[w];
    assert InBase(W, k[w + 1..], 3 - w);
    ValBound(W, k[w + 1..], 3 - w);
  }

  /** Add if the bit is set, and double. */
  method MulBit(r0: Pt, q0: Pt, bit: bool) returns (r: Pt, q: Pt)
    requires Words(r0) && Words(q0)
    ensures Words(r) && Words(q) && (Canonical(r0) && Canonical(q0) ==> Canonical(r) && Canonical(q))
    ensures Doublable(Abs(q0)) ==>
              Doublable(Abs(q)) && Abs(q) == Double(Abs(q0)) && Abs(r) == if bit then Add(Abs(r0), Abs(q0)) else Abs(r0)
  {
    r := r0;
    if bit { r := PointAdd(r, q0); }
    q := PointDouble(q0);
  }

  /** From a base that doubles, the ladder still to climb has the same result. */
  predicate Advances(acc0: Point, q0: Point, k0: nat, n0: nat, acc: Point, q: Point, k: nat, n: nat) {
    Doublable(q0) ==> Doublable(q) && Ladder(acc, q, k, n) == Ladder(acc0, q0, k0, n0)
  }

  method MulWord(r0: Pt, q0: Pt, word: int, ghost next: nat, ghost n: nat) returns (r: Pt, q: Pt)
    requires Words(r0) && Words(q0) && 0 <= word < W
    ensures Words(r) && Words(q) && (Canonical(r0) && Canonical(q0) ==> Canonical(r) && Canonical(q))
    ensures Advances(Abs(r0), Abs(q0), word + next * W, n + 64, Abs(r), Abs(q), next, n)
  {
    r, q := r0, q0;
    var bits := word;
    ghost var scale: nat := W;
    TwoTo64();
    for t := 0 to 64
      invariant Words(r) && Words(q) && (Canonical(r0) && Canonical(q0) ==> Canonical(r) && Canonical(q))
      invariant 0 <= bits < scale == Pow(2, 64 - t)
      invariant Advances(Abs(r0), Abs(q0), word + next * W, n + 64, Abs(r), Abs(q), bits + next * scale, n + 64 - t)
    {
      ghost var acc, p := Abs(r), Abs(q);
      r, q := MulBit(r, q, bits % 2 != 0);
      Advance(Abs(r0), Abs(q0), word + next * W, n + 64, acc, p, bits, next, Pow(2, 63 - t), n + 64 - t, Abs(r),
              Abs(q));
      bits := bits / 2;
      scale := Pow(2, 63 - t);
    }
  }

  /** One bit on, with the words above as a multiple of `2 * half`. */
  lemma {:induction false} Advance(acc0: Point, q0: Point, k0: nat, n0: nat, acc: Point, q: Point, bits: nat, next: nat,
                                   half: nat, n: nat, acc': Point, q': Point)
    requires Advances(acc0, q0, k0, n0, acc, q, bits + next * (2 * half), n) && n > 0
    requires Doublable(q) ==>
               Doublable(q') && q' == Double(q) && acc' == if bits % 2 != 0 then Add(acc, q) else acc
    ensures Advances(acc0, q0, k0, n0, acc', q', bits / 2 + next * half, n - 1)
  {
    HalfStep(half, next, bits);
  }

  lemma {:induction false} HalfStep(half: nat, next: nat, bits: nat)
    ensures (bits + next * (2 * half)) % 2 == bits % 2
    ensures (bits + next * (2 * half)) / 2 == bits / 2 + next * half
  {
    Rotate3(next, 2, half);
  }
}
