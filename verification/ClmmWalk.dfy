/** The cell walks of the concentrated-liquidity pool over an arbitrary positive,
    nondecreasing price grid. */
module ClmmWalk {
  import opened ModArith
  import opened ClmmMath

  /** Liquidity per cell and the range of cells that positions have touched. */
  datatype Book = Book(g: int -> nat, lq: map<int, nat>, imin: int, imax: int)

  ghost predicate Grid(g: int -> nat) {
    (forall i :: g(i) > 0) && (forall i, j :: i <= j ==> g(i) <= g(j))
  }

  function Lq(lq: map<int, nat>, i: int): nat { if i in lq then lq[i] else 0 }

  /** The price lies between the grid points around its cell. */
  predicate Bracketed(g: int -> nat, p: int, s: nat) { g(p - 1) <= s <= g(p + 1) }

  /** Where a walk ends: the cell and price, the output of cells that took input, the output
      of cells that took none, the unspent input, and whether the last cell was left part-filled. */
  datatype Leg = Leg(p: int, s: nat, out: nat, free: nat, rem: nat, filled: bool)

  /** Selling X: cell by cell upwards. */
  function Up(b: Book, p: int, s: nat, rm: nat): (r: Leg)
    requires Grid(b.g) && 0 < s <= b.g(p + 1)
    decreases if p <= b.imax then b.imax + 1 - p else 0
  {
    if rm == 0 || s >= b.g(b.imax + 1) || p >= b.imax + 1 then Leg(p, s, 0, 0, rm, false)
    else
      var l, gh := Lq(b.lq, p), b.g(p + 1);
      var dx, dy := Dx(l, s, gh), Dy(l, s, gh);
      if dx <= rm then
        var r := Up(b, p + 1, gh, rm - dx);
        if dx == 0 then r.(free := r.free + dy) else r.(out := r.out + dy)
      else
        SfdxStopsShort(l, s, rm, gh);
        var s2 := Sfdx(l, s, rm);
        Leg(p, s2, Dy(l, s, s2), 0, 0, true)
  }

  /** Selling Y: cell by cell downwards. A cell that takes no Y pays no X. */
  function Down(b: Book, p: int, s: nat, rm: nat): (r: Leg)
    requires Grid(b.g) && b.g(p - 1) <= s
    decreases if p > b.imin then p - b.imin else 0
  {
    if rm == 0 || s <= b.g(b.imin) || p <= b.imin then Leg(p, s, 0, 0, rm, false)
    else
      var l, gl := Lq(b.lq, p), b.g(p - 1);
      var dx, dy := Dx(l, gl, s), Dy(l, gl, s);
      if dy <= rm then
        var r := Down(b, p - 1, gl, rm - dy);
        if dy == 0 then r else r.(out := r.out + dx)
      else
        SfdyiStopsShort(l, s, rm, gl);
        var s2 := Sfdyi(l, s, rm);
        Leg(p, s2, Dx(l, s2, s), 0, 0, true)
  }

  /** A leg with output from earlier cells added. */
  function Gain(r: Leg, out: nat, free: nat): Leg { r.(out := r.out + out, free := r.free + free) }

  /** A walk that will end at `total` is at (p, s) with `rm` unspent and has gathered `acc`. */
  ghost predicate Climbing(b: Book, total: Leg, p: int, s: nat, rm: nat, acc: nat) {
    && Grid(b.g) && 0 < s <= b.g(p + 1)
    && var r := Up(b, p, s, rm);
       total.p == r.p && total.s == r.s && total.rem == r.rem && total.out + total.free == r.out + r.free + acc
  }

  /** The same for a preview, which gathers no free output. */
  ghost predicate Quoting(b: Book, total: Leg, p: int, s: nat, rm: nat, acc: nat) {
    && Grid(b.g) && 0 < s <= b.g(p + 1)
    && var r := Up(b, p, s, rm); total.rem == r.rem && total.out == r.out + acc
  }

  lemma {:induction false} DownFree(b: Book, p: int, s: nat, rm: nat)
    requires Grid(b.g) && b.g(p - 1) <= s
    ensures Down(b, p, s, rm).free == 0
    decreases if p > b.imin then p - b.imin else 0
  {
    if !(rm == 0 || s <= b.g(b.imin) || p <= b.imin) {
      var l, gl := Lq(b.lq, p), b.g(p - 1);
      if Dy(l, gl, s) <= rm { DownFree(b, p - 1, gl, rm - Dy(l, gl, s)); }
    }
  }

  // ---- where walks end ----

  /** An upward walk stays bracketed and in range; a part-filled cell has liquidity and
      stops strictly before its far edge, with nothing unspent; input is left over only at
      the end of the range. */
  predicate UpEnd(b: Book, p: int, s: nat, rm: nat, r: Leg) {
    && Bracketed(b.g, r.p, r.s) && p <= r.p <= b.imax + 1 && s <= r.s && r.rem <= rm
    && (r.filled ==> Lq(b.lq, r.p) > 0 && r.s < b.g(r.p + 1) && r.rem == 0 && rm > 0)
    && (!r.filled && r.rem > 0 ==> r.s >= b.g(b.imax + 1) || r.p == b.imax + 1)
  }

  predicate DownEnd(b: Book, p: int, s: nat, rm: nat, r: Leg) {
    && Bracketed(b.g, r.p, r.s) && b.imin <= r.p <= p && r.s <= s && r.rem <= rm && r.free == 0
    && (r.filled ==> Lq(b.lq, r.p) > 0 && b.g(r.p - 1) < r.s && r.rem == 0 && rm > 0)
    && (!r.filled && r.rem > 0 ==> r.s <= b.g(b.imin) || r.p == b.imin)
  }

  lemma {:induction false} UpKeeps(b: Book, p: int, s: nat, rm: nat)
    requires Grid(b.g) && Bracketed(b.g, p, s) && p <= b.imax + 1
    ensures UpEnd(b, p, s, rm, Up(b, p, s, rm))
    decreases if p <= b.imax then b.imax + 1 - p else 0
  {
    if rm == 0 || s >= b.g(b.imax + 1) || p >= b.imax + 1 {
    } else if Dx(Lq(b.lq, p), s, b.g(p + 1)) <= rm {
      UpKeeps(b, p + 1, b.g(p + 1), rm - Dx(Lq(b.lq, p), s, b.g(p + 1)));
      UpCross(b, p, s, rm);
    } else {
      UpFill(b, p, s, rm);
    }
  }

  lemma {:induction false} UpFill(b: Book, p: int, s: nat, rm: nat)
    requires Grid(b.g) && Bracketed(b.g, p, s) && 0 < rm && s < b.g(b.imax + 1) && p <= b.imax
    requires rm < Dx(Lq(b.lq, p), s, b.g(p + 1))
    ensures UpEnd(b, p, s, rm, Up(b, p, s, rm))
  {
    SfdxStopsShort(Lq(b.lq, p), s, rm, b.g(p + 1));
  }

  lemma {:induction false} UpCross(b: Book, p: int, s: nat, rm: nat)
    requires Grid(b.g) && Bracketed(b.g, p, s) && 0 < rm && s < b.g(b.imax + 1) && p <= b.imax
    requires var dx := Dx(Lq(b.lq, p), s, b.g(p + 1));
             dx <= rm && UpEnd(b, p + 1, b.g(p + 1), rm - dx, Up(b, p + 1, b.g(p + 1), rm - dx))
    ensures UpEnd(b, p, s, rm, Up(b, p, s, rm))
  {}

  lemma {:induction false} DownKeeps(b: Book, p: int, s: nat, rm: nat)
    requires Grid(b.g) && Bracketed(b.g, p, s) && b.imin <= p
    ensures DownEnd(b, p, s, rm, Down(b, p, s, rm))
    decreases if p > b.imin then p - b.imin else 0
  {
    if rm == 0 || s <= b.g(b.imin) || p <= b.imin {
    } else if Dy(Lq(b.lq, p), b.g(p - 1), s) <= rm {
      DownKeeps(b, p - 1, b.g(p - 1), rm - Dy(Lq(b.lq, p), b.g(p - 1), s));
      DownCross(b, p, s, rm);
    } else {
      DownFill(b, p, s, rm);
    }
  }

  lemma {:induction false} DownFill(b: Book, p: int, s: nat, rm: nat)
    requires Grid(b.g) && Bracketed(b.g, p, s) && 0 < rm && b.g(b.imin) < s && b.imin < p
    requires rm < Dy(Lq(b.lq, p), b.g(p - 1), s)
    ensures DownEnd(b, p, s, rm, Down(b, p, s, rm))
  {
    SfdyiStopsShort(Lq(b.lq, p), s, rm, b.g(p - 1));
  }

  lemma {:induction false} DownCross(b: Book, p: int, s: nat, rm: nat)
    requires Grid(b.g) && Bracketed(b.g, p, s) && 0 < rm && b.g(b.imin) < s && b.imin < p
    requires var dy := Dy(Lq(b.lq, p), b.g(p - 1), s);
             dy <= rm && DownEnd(b, p - 1, b.g(p - 1), rm - dy, Down(b, p - 1, b.g(p - 1), rm - dy))
    ensures DownEnd(b, p, s, rm, Down(b, p, s, rm))
  {}

  /** A walk that spends nothing collects output only from cells that took none, and has
      then moved. */
  lemma {:induction false} UpUnspent(b: Book, p: int, s: nat, rm: nat)
    requires Grid(b.g) && 0 < s <= b.g(p + 1)
    ensures var r := Up(b, p, s, rm);
            r.rem <= rm && (r.rem == rm ==> r.out == 0) && (r.free > 0 ==> r.p > p) && r.p >= p
    decreases if p <= b.imax then b.imax + 1 - p else 0
  {
    if !(rm == 0 || s >= b.g(b.imax + 1) || p >= b.imax + 1) {
      var l, gh := Lq(b.lq, p), b.g(p + 1);
      if Dx(l, s, gh) <= rm { UpUnspent(b, p + 1, gh, rm - Dx(l, s, gh)); }
    }
  }

  lemma {:induction false} DownUnspent(b: Book, p: int, s: nat, rm: nat)
    requires Grid(b.g) && b.g(p - 1) <= s
    ensures var r := Down(b, p, s, rm); r.rem <= rm && (r.rem == rm ==> r.out == 0)
    decreases if p > b.imin then p - b.imin else 0
  {
    if !(rm == 0 || s <= b.g(b.imin) || p <= b.imin) {
      var l, gl := Lq(b.lq, p), b.g(p - 1);
      if Dy(l, gl, s) <= rm { DownUnspent(b, p - 1, gl, rm - Dy(l, gl, s)); }
    }
  }

  // ---- free output ----

  /** Every cell the walk crosses without taking X also pays no Y. */
  predicate NothingFree(b: Book, p: int, s: nat, rm: nat)
    requires Grid(b.g) && 0 < s <= b.g(p + 1)
    decreases if p <= b.imax then b.imax + 1 - p else 0
  {
    rm == 0 || s >= b.g(b.imax + 1) || p >= b.imax + 1
    || (var l, gh := Lq(b.lq, p), b.g(p + 1);
        var dx := Dx(l, s, gh);
        dx > rm || ((dx == 0 ==> Dy(l, s, gh) == 0) && NothingFree(b, p + 1, gh, rm - dx)))
  }

  lemma {:induction false} FreeIff(b: Book, p: int, s: nat, rm: nat)
    requires Grid(b.g) && 0 < s <= b.g(p + 1)
    ensures Up(b, p, s, rm).free == 0 <==> NothingFree(b, p, s, rm)
    decreases if p <= b.imax then b.imax + 1 - p else 0
  {
    if !(rm == 0 || s >= b.g(b.imax + 1) || p >= b.imax + 1) {
      var l, gh := Lq(b.lq, p), b.g(p + 1);
      if Dx(l, s, gh) <= rm { FreeIff(b, p + 1, gh, rm - Dx(l, s, gh)); }
    }
  }

  /** What crossing cell i takes and pays, on a walk that starts at (p, s). */
  function TakenX(b: Book, p: int, s: nat, i: int): nat
    requires Grid(b.g) && 0 < s <= b.g(p + 1)
  {
    Dx(Lq(b.lq, i), if i == p then s else b.g(i), b.g(i + 1))
  }

  function PaidY(b: Book, p: int, s: nat, i: int): nat
    requires Grid(b.g) && 0 < s <= b.g(p + 1)
  {
    Dy(Lq(b.lq, i), if i == p then s else b.g(i), b.g(i + 1))
  }

  /** No cell from the current one to the end of the range takes any X. */
  ghost predicate Idle(b: Book, p: int, s: nat)
    requires Grid(b.g) && 0 < s <= b.g(p + 1)
  {
    forall i :: p <= i <= b.imax ==> TakenX(b, p, s, i) == 0
  }

  /** One of them pays Y. */
  ghost predicate Generous(b: Book, p: int, s: nat)
    requires Grid(b.g) && 0 < s <= b.g(p + 1)
  {
    exists i :: p <= i <= b.imax && PaidY(b, p, s, i) > 0
  }

  /** A walk spends nothing exactly when no cell up to the end of the range takes X; it then
      pays exactly when one of them pays Y. */
  lemma {:induction false} IdleIff(b: Book, p: int, s: nat, rm: nat)
    requires Grid(b.g) && 0 < s <= b.g(p + 1) && rm > 0
    ensures Up(b, p, s, rm).rem == rm <==> Idle(b, p, s)
    ensures Idle(b, p, s) ==> (NothingFree(b, p, s, rm) <==> !Generous(b, p, s))
    decreases if p <= b.imax then b.imax + 1 - p else 0
  {
    if p > b.imax {
    } else if s >= b.g(b.imax + 1) {
      EndIdle(b, p, s);
    } else {
      var dx := TakenX(b, p, s, p);
      UpStep(b, p, s, rm, dx);
      FirstIdle(b, p, s);
      FirstGenerous(b, p, s);
      if dx == 0 {
        IdleIff(b, p + 1, b.g(p + 1), rm);
      } else if dx <= rm {
        UpUnspent(b, p + 1, b.g(p + 1), rm - dx);
      }
    }
  }

  lemma {:induction false} UpStep(b: Book, p: int, s: nat, rm: nat, dx: nat)
    requires Grid(b.g) && 0 < s <= b.g(p + 1) && 0 < rm && s < b.g(b.imax + 1) && p <= b.imax
             && dx == TakenX(b, p, s, p)
    ensures dx > rm ==> Up(b, p, s, rm).rem == 0
    ensures dx <= rm ==> Up(b, p, s, rm).rem == Up(b, p + 1, b.g(p + 1), rm - dx).rem
    ensures dx == 0 ==> (NothingFree(b, p, s, rm) <==> PaidY(b, p, s, p) == 0 && NothingFree(b, p + 1, b.g(p + 1), rm))
  {}

  lemma {:induction false} FirstIdle(b: Book, p: int, s: nat)
    requires Grid(b.g) && 0 < s <= b.g(p + 1) && p <= b.imax
    ensures Idle(b, p, s) <==> TakenX(b, p, s, p) == 0 && Idle(b, p + 1, b.g(p + 1))
  {
    if Idle(b, p, s) {
      var q, gh := p + 1, b.g(p + 1);
      forall i | q <= i <= b.imax ensures TakenX(b, q, gh, i) == 0 { SameCell(b, p, s, i); }
    }
    if TakenX(b, p, s, p) == 0 && Idle(b, p + 1, b.g(p + 1)) {
      forall i | p <= i <= b.imax ensures TakenX(b, p, s, i) == 0 {
        if i > p { SameCell(b, p, s, i); }
      }
    }
  }

  lemma {:induction false} FirstGenerous(b: Book, p: int, s: nat)
    requires Grid(b.g) && 0 < s <= b.g(p + 1) && p <= b.imax
    ensures Generous(b, p, s) <==> PaidY(b, p, s, p) > 0 || Generous(b, p + 1, b.g(p + 1))
  {
    if Generous(b, p + 1, b.g(p + 1)) {
      var i :| p + 1 <= i <= b.imax && PaidY(b, p + 1, b.g(p + 1), i) > 0;
      SameCell(b, p, s, i);
    }
    if Generous(b, p, s) {
      var i :| p <= i <= b.imax && PaidY(b, p, s, i) > 0;
      if i > p { SameCell(b, p, s, i); }
    }
  }

  lemma {:induction false} SameCell(b: Book, p: int, s: nat, i: int)
    requires Grid(b.g) && 0 < s <= b.g(p + 1) && p < i
    ensures var gh := b.g(p + 1);
            TakenX(b, p, s, i) == TakenX(b, p + 1, gh, i) && PaidY(b, p, s, i) == PaidY(b, p + 1, gh, i)
  {}

  lemma {:induction false} EndIdle(b: Book, p: int, s: nat)
    requires Grid(b.g) && b.g(b.imax + 1) <= s <= b.g(p + 1) && 0 < s
    ensures Idle(b, p, s) && !Generous(b, p, s)
  {
    forall i | p <= i <= b.imax ensures TakenX(b, p, s, i) == 0 && PaidY(b, p, s, i) == 0 { NoWidth(b, p, s, i); }
  }

  /** Past the end of the range cells have no width. */
  lemma {:induction false} NoWidth(b: Book, p: int, s: nat, i: int)
    requires Grid(b.g) && b.g(b.imax + 1) <= s <= b.g(p + 1) && 0 < s && p <= i <= b.imax
    ensures TakenX(b, p, s, i) == 0 && PaidY(b, p, s, i) == 0
  {
    assert b.g(p + 1) <= b.g(i + 1) <= b.g(b.imax + 1);
    if i > p { assert b.g(p + 1) <= b.g(i); }
  }

  /** Up to the square-root price one, Y never comes for free. */
  lemma {:induction false} CheapIsNeverFree(l: nat, s: nat, s2: nat)
    requires 0 < s <= s2 <= T64 && Dy(l, s, s2) > 0
    ensures Dx(l, s, s2) > 0
  {
    var a := l * (s2 - s);
    Floor(a, T64);
    assert a >= T64 by { QuotientAtMost(a, T64, 0); }
    MulMono(T64, a, T64);
    MulMono(s, T64, s2);
    assert s * s2 <= T64 * T64;
    Positive(s, s2);
    QuotientAtMost(a * T64, s * s2, 0);
  }

  lemma {:induction false} CheapBookNothingFree(b: Book, p: int, s: nat, rm: nat)
    requires Grid(b.g) && 0 < s <= b.g(p + 1) && b.g(b.imax + 1) <= T64
    ensures NothingFree(b, p, s, rm)
    decreases if p <= b.imax then b.imax + 1 - p else 0
  {
    if !(rm == 0 || s >= b.g(b.imax + 1) || p >= b.imax + 1) {
      var l, gh := Lq(b.lq, p), b.g(p + 1);
      assert gh <= b.g(b.imax + 1);
      var dx := Dx(l, s, gh);
      if Dy(l, s, gh) > 0 { CheapIsNeverFree(l, s, gh); }
      if dx <= rm { CheapBookNothingFree(b, p + 1, gh, rm - dx); }
    }
  }

  // ---- monotonicity ----

  /** More input never gives less output, counting free output or not. */
  lemma {:induction false} UpMono(b: Book, p: int, s: nat, rm: nat, rm': nat)
    requires Grid(b.g) && 0 < s <= b.g(p + 1) && rm <= rm'
    ensures var r, r' := Up(b, p, s, rm), Up(b, p, s, rm'); r.out <= r'.out && r.free <= r'.free
    decreases if p <= b.imax then b.imax + 1 - p else 0
  {
    if !(rm == 0 || s >= b.g(b.imax + 1) || p >= b.imax + 1) {
      var l, gh := Lq(b.lq, p), b.g(p + 1);
      var dx := Dx(l, s, gh);
      if dx <= rm {
        UpMono(b, p + 1, gh, rm - dx, rm' - dx);
      } else {
        SfdxStopsShort(l, s, rm, gh);
        var s2 := Sfdx(l, s, rm);
        if dx <= rm' {
          DyMono(l, s, s, s2, gh);
        } else {
          SfdxMono(l, s, rm, rm', gh);
          SfdxStopsShort(l, s, rm', gh);
          DyMono(l, s, s, s2, Sfdx(l, s, rm'));
        }
      }
    }
  }

  lemma {:induction false} DownMono(b: Book, p: int, s: nat, rm: nat, rm': nat)
    requires Grid(b.g) && b.g(p - 1) <= s && rm <= rm'
    ensures Down(b, p, s, rm).out <= Down(b, p, s, rm').out
    decreases if p > b.imin then p - b.imin else 0
  {
    if !(rm == 0 || s <= b.g(b.imin) || p <= b.imin) {
      var l, gl := Lq(b.lq, p), b.g(p - 1);
      var dy := Dy(l, gl, s);
      if dy <= rm {
        DownMono(b, p - 1, gl, rm - dy, rm' - dy);
      } else {
        SfdyiStopsShort(l, s, rm, gl);
        var s2 := Sfdyi(l, s, rm);
        if dy <= rm' {
          DxMonoLow(l, gl, s2, s);
        } else {
          SfdyiMono(l, s, rm, rm');
          SfdyiStopsShort(l, s, rm', gl);
          DxMonoLow(l, Sfdyi(l, s, rm'), s2, s);
        }
      }
    }
  }
}
