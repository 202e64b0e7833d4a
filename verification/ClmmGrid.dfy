/** The pool's own price grid: powers of 1.0001 in fixed point, and their square roots. */
module ClmmGrid {
  import opened ModArith
  import opened ClmmMath

  const SCALE: nat :=
      1000000000000000000000000000000000000000000000000000000000000000000000000000000000000000000000000000000000000
  const UP: nat :=
      1000100000000000000000000000000000000000000000000000000000000000000000000000000000000000000000000000000000000
  const DOWN: nat :=
      999900009999000099990000999900009999000099990000999900009999000099990000999900009999000099990000999900009999

  /** What square-and-multiply with a floor at every step makes of the factor `r`. */
  function Climb(acc: nat, r: nat, q: nat): nat
    decreases q
  {
    if q == 0 then acc
    else Climb(if q % 2 == 1 then Times(acc, r) else acc, if q / 2 > 0 then Times(r, r) else r, q / 2)
  }

  function Times(a: nat, b: nat): nat {
    Floor(a * b, SCALE);
    a * b / SCALE
  }

  /** The squared grid price of cell `i`, times 2^128. */
  function SquareAt(i: int): nat {
    var acc := if i < 0 then Climb(SCALE, DOWN, -i) else Climb(SCALE, UP, i);
    Floor(acc * C128, SCALE);
    acc * C128 / SCALE
  }

  predicate IsRoot(r: nat, n: nat) { r * r <= n < (r + 1) * (r + 1) }

  /** The grid price of a cell, as the code computes it. */
  method PriceAt(i: int) returns (g: nat)
    ensures IsRoot(g, SquareAt(i))
  {
    var acc: nat, r: nat, q: nat := SCALE, if i < 0 then DOWN else UP, if i < 0 then -i else i;
    ghost var goal := Climb(acc, r, q);
    while q > 0
      invariant Climb(acc, r, q) == goal
    {
      if q % 2 == 1 { acc := Times(acc, r); }
      q := q / 2;
      if q > 0 { r := Times(r, r); }
    }
    Floor(acc * C128, SCALE);
    g := Isqrt(acc * C128 / SCALE);
  }

  lemma {:induction false} RootUnique(a: nat, b: nat, n: nat)
    requires IsRoot(a, n) && IsRoot(b, n)
    ensures a == b
  {}

  /** `g` is the code's grid at cell `i`. */
  ghost predicate OnGrid(g: int -> nat, i: int) { IsRoot(g(i), SquareAt(i)) }

  /** The grid prices around one. */
  function Price(i: int): nat
    requires -1 <= i <= 2
  {
    if i == -1 then 18445821805675392311 else if i == 0 then T64
    else if i == 1 then 18447666387855959850 else 18448588748116922571
  }

  lemma {:induction false} FirstPrices(g: int -> nat, i: int)
    requires -1 <= i <= 2 && OnGrid(g, i)
    ensures g(i) == Price(i)
  {
    RootUnique(g(i), Price(i), SquareAt(i));
  }
}
