/** Little-endian limb sequences in an arbitrary base. */
module Limbs {
  import opened ModArith

  function Pow(b: nat, n: nat): nat { if n == 0 then 1 else b * Pow(b, n - 1) }

  /** The value of the first `n` limbs. */
  function Val(b: nat, s: seq<int>, n: nat): int
    requires n <= |s|
  {
    if n == 0 then 0 else Val(b, s, n - 1) + s[n - 1] * Pow(b, n - 1)
  }

  ghost predicate InBase(b: nat, s: seq<int>, n: nat) {
    n <= |s| && forall i :: 0 <= i < n ==> 0 <= s[i] < b
  }

  lemma {:induction false} PowPositive(b: nat, n: nat)
    requires b > 0
    ensures Pow(b, n) > 0
  {
    if n > 0 { PowPositive(b, n - 1); }
  }

  lemma {:induction false} Rotate3(x: int, y: int, z: int)
    ensures x * (y * z) == y * (x * z)
  {
    MulAssoc(x, y, z);
    MulComm(x, y);
    MulAssoc(y, x, z);
  }

  lemma {:induction false} PowAdd(b: nat, m: nat, n: nat)
    ensures Pow(b, m + n) == Pow(b, m) * Pow(b, n)
    decreases n
  {
    if n > 0 {
      PowAdd(b, m, n - 1);
      Rotate3(b, Pow(b, m), Pow(b, n - 1));
    }
  }

  lemma {:induction false} ValBound(b: nat, s: seq<int>, n: nat)
    requires b > 0 && InBase(b, s, n)
    ensures 0 <= Val(b, s, n) < Pow(b, n)
    decreases n
  {
    if n > 0 {
      ValBound(b, s, n - 1);
      TopBound(b, Val(b, s, n - 1), s[n - 1], Pow(b, n - 1));
    }
  }

  lemma {:induction false} TopBound(b: nat, lo: int, x: int, w: int)
    requires 0 <= lo < w && 0 <= x < b
    ensures 0 <= lo + x * w < b * w
  {
    MulMono(0, x, w);
    MulMono(x, b - 1, w);
    Distrib(b - 1, 1, w);
  }

  lemma {:induction false} ValFrame(b: nat, s: seq<int>, t: seq<int>, n: nat)
    requires n <= |s| && n <= |t| && forall i :: 0 <= i < n ==> s[i] == t[i]
    ensures Val(b, s, n) == Val(b, t, n)
    decreases n
  {
    if n > 0 { ValFrame(b, s, t, n - 1); }
  }

  lemma {:induction false} TopDigit(x: int, y: int, lo: int, lo': int, w: int)
    requires lo + x * w == lo' + y * w && 0 <= lo < w && 0 <= lo' < w
    ensures x == y
  {
    assert (x - y) * w == x * w - y * w;
    MulGe(x - y, w);
  }

  /** A limb sequence is determined by its value. */
  lemma {:induction false} ValInjective(b: nat, s: seq<int>, t: seq<int>, n: nat)
    requires b > 0 && InBase(b, s, n) && InBase(b, t, n) && Val(b, s, n) == Val(b, t, n)
    ensures s[..n] == t[..n]
    decreases n
  {
    if n > 0 {
      ValBound(b, s, n - 1);
      ValBound(b, t, n - 1);
      TopDigit(s[n - 1], t[n - 1], Val(b, s, n - 1), Val(b, t, n - 1), Pow(b, n - 1));
      ValInjective(b, s, t, n - 1);
      assert s[..n] == s[..n - 1] + [s[n - 1]] && t[..n] == t[..n - 1] + [t[n - 1]];
    }
  }

  lemma {:induction false} ValSplit(b: nat, s: seq<int>, m: nat, n: nat)
    requires m + n <= |s|
    ensures Val(b, s, m + n) == Val(b, s, m) + Val(b, s[m..], n) * Pow(b, m)
    decreases n
  {
    if n > 0 {
      ValSplit(b, s, m, n - 1);
      PowAdd(b, m, n - 1);
      var x, lo := s[m + n - 1], Val(b, s[m..], n - 1);
      assert s[m..][n - 1] == x;
      Rotate3(x, Pow(b, m), Pow(b, n - 1));
      MulComm(Pow(b, m), x * Pow(b, n - 1));
      Distrib(lo, x * Pow(b, n - 1), Pow(b, m));
    }
  }

  // ---- limb steps ----

  /** One limb of a sum with its carry in and out, at weight `w`. */
  lemma {:induction false} AddStep(b: nat, x: int, y: int, c0: int, r: int, c1: int, w: int)
    requires r + c1 * b == x + y + c0
    ensures r * w + c1 * (b * w) == x * w + y * w + c0 * w
  {}

  lemma {:induction false} ZeroVal(b: nat, t: seq<int>, n: nat)
    requires n <= |t| && forall k :: 0 <= k < n ==> t[k] == 0
    ensures Val(b, t, n) == 0
    decreases n
  {
    if n > 0 { ZeroVal(b, t, n - 1); }
  }

  lemma {:induction false} CarryStep(b: nat, sum: int, w: int)
    requires sum >= 0 && b > 0
    ensures sum % b + (sum / b) * b == sum
    ensures (sum % b) * w + (sum / b) * (b * w) == sum * w
  {}

  /** One limb of `t + x * a` with carry `c` into weight `w`. */
  lemma {:induction false} RowStep(b: nat, lo: int, tlo: int, alo: int, x: int, c: int, tj: int, aj: int, w: int)
    requires tj + aj * x + c >= 0 && b > 0
    requires lo + c * w == tlo + x * alo
    ensures var sum := tj + aj * x + c;
            lo + (sum % b) * w + (sum / b) * (b * w) == tlo + tj * w + x * (alo + aj * w)
  {}
}
