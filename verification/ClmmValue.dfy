/** What walks and round trips are worth: no better than the price they reach, but for one
    unit of input per crossed or part-filled cell. */
module ClmmValue {
  import opened ModArith
  import opened Wrappers
  import opened ClmmMath
  import opened ClmmGrid
  import opened ClmmWalk
  import opened ClmmPool

  const T128: nat := T64 * T64

  // ---- one segment ----

  /** The Y of a segment is worth no more than its X and one, at its price. */
  lemma {:induction false} SegmentUp(l: nat, s: nat, s2: nat)
    requires 0 < s <= s2
    ensures Dy(l, s, s2) * T128 <= (Dx(l, s, s2) + 1) * (s * s2)
  {
    var n, y := l * (s2 - s), Dy(l, s, s2);
    Positive(s, s2);
    Floor(n, T64);
    Floor(n * T64, s * s2);
    MulMono(y * T64, n, T64);
    MulAssoc(y, T64, T64);
  }

  /** The X of a segment is worth no more than its Y and one. */
  lemma {:induction false} SegmentDown(l: nat, s: nat, s2: nat)
    requires 0 < s <= s2
    ensures Dx(l, s, s2) * (s * s2) <= (Dy(l, s, s2) + 1) * T128
  {
    var n, y := l * (s2 - s), Dy(l, s, s2);
    Positive(s, s2);
    Floor(n, T64);
    Floor(n * T64, s * s2);
    MulMono(n, (y + 1) * T64, T64);
    MulAssoc(y + 1, T64, T64);
  }

  // ---- whole walks ----

  /** How many cells an upward walk crosses or part-fills. */
  function UpSteps(b: Book, p: int, s: nat, rm: nat): nat
    requires Grid(b.g) && 0 < s <= b.g(p + 1)
    decreases if p <= b.imax then b.imax + 1 - p else 0
  {
    if rm == 0 || s >= b.g(b.imax + 1) || p >= b.imax + 1 then 0
    else
      var dx := Dx(Lq(b.lq, p), s, b.g(p + 1));
      if dx <= rm then 1 + UpSteps(b, p + 1, b.g(p + 1), rm - dx) else 1
  }

  function DownSteps(b: Book, p: int, s: nat, rm: nat): nat
    requires Grid(b.g) && b.g(p - 1) <= s
    decreases if p > b.imin then p - b.imin else 0
  {
    if rm == 0 || s <= b.g(b.imin) || p <= b.imin then 0
    else
      var dy := Dy(Lq(b.lq, p), b.g(p - 1), s);
      if dy <= rm then 1 + DownSteps(b, p - 1, b.g(p - 1), rm - dy) else 1
  }

  /** An upward walk ends no lower than it starts, and pays Y worth no more, at the price it
      ends at, than the X it takes and one per step. */
  predicate UpWorth(s: nat, r: Leg, rm: nat, steps: nat) {
    s <= r.s && r.rem <= rm && (r.out + r.free) * T128 <= (rm - r.rem + steps) * (r.s * r.s)
  }

  predicate DownWorth(s: nat, r: Leg, rm: nat, steps: nat) {
    0 < r.s <= s && r.rem <= rm && (r.out + r.free) * (r.s * r.s) <= (rm - r.rem + steps) * T128
  }

  lemma {:induction false} UpValue(b: Book, p: int, s: nat, rm: nat)
    requires Grid(b.g) && 0 < s <= b.g(p + 1)
    ensures UpWorth(s, Up(b, p, s, rm), rm, UpSteps(b, p, s, rm))
    decreases if p <= b.imax then b.imax + 1 - p else 0
  {
    if !(rm == 0 || s >= b.g(b.imax + 1) || p >= b.imax + 1) {
      var dx := Dx(Lq(b.lq, p), s, b.g(p + 1));
      if dx <= rm {
        UpValue(b, p + 1, b.g(p + 1), rm - dx);
        UpCrossValue(b, p, s, rm, dx);
      } else {
        UpPartValue(b, p, s, rm);
      }
    }
  }

  lemma {:induction false} UpPartValue(b: Book, p: int, s: nat, rm: nat)
    requires Grid(b.g) && 0 < s <= b.g(p + 1) && 0 < rm < Dx(Lq(b.lq, p), s, b.g(p + 1))
    requires s < b.g(b.imax + 1) && p <= b.imax
    ensures UpWorth(s, Up(b, p, s, rm), rm, UpSteps(b, p, s, rm))
  {
    UpFillValue(Lq(b.lq, p), s, rm, b.g(p + 1));
  }

  lemma {:induction false} UpCrossValue(b: Book, p: int, s: nat, rm: nat, dx: nat)
    requires Grid(b.g) && 0 < s <= b.g(p + 1) && rm > 0 && s < b.g(b.imax + 1) && p <= b.imax
    requires dx == Dx(Lq(b.lq, p), s, b.g(p + 1)) <= rm
    requires UpWorth(b.g(p + 1), Up(b, p + 1, b.g(p + 1), rm - dx), rm - dx, UpSteps(b, p + 1, b.g(p + 1), rm - dx))
    ensures UpWorth(s, Up(b, p, s, rm), rm, UpSteps(b, p, s, rm))
  {
    var l, gh := Lq(b.lq, p), b.g(p + 1);
    SegmentUp(l, s, gh);
    UpJoin(s, gh, Up(b, p + 1, gh, rm - dx), rm - dx, UpSteps(b, p + 1, gh, rm - dx), dx, Dy(l, s, gh));
  }

  lemma {:induction false} UpFillValue(l: nat, s: nat, rm: nat, gh: nat)
    requires 0 < s <= gh && Dx(l, s, gh) > rm
    ensures var s2 := Sfdx(l, s, rm); s <= s2 && Dy(l, s, s2) * T128 <= (rm + 1) * (s2 * s2)
  {
    FillWithin(l, s, rm, gh);
    var s2 := Sfdx(l, s, rm);
    SegmentUp(l, s, s2);
    Raise(s, s2, Dx(l, s, s2) + 1, rm + 1);
  }

  /** A part-filled cell takes no more X than there is. */
  lemma {:induction false} FillWithin(l: nat, s: nat, rm: nat, gh: nat)
    requires 0 < s <= gh && Dx(l, s, gh) > rm
    ensures s <= Sfdx(l, s, rm) <= gh && Dx(l, s, Sfdx(l, s, rm)) <= rm
  {
    SfdxStopsShort(l, s, rm, gh);
    if s <= C128 {
      SfdxExact(l, s, rm, s);
      SfdxExact(l, s, rm, Sfdx(l, s, rm));
    } else {
      DxEmpty(l, s);
    }
  }

  lemma {:induction false} Raise(s: nat, s2: nat, k: nat, m: nat)
    requires s <= s2 && k <= m
    ensures k * (s * s2) <= m * (s2 * s2)
  {
    MulMono(s, s2, s2);
    MulMono(s * s2, s2 * s2, k);
    MulMono(k, m, s2 * s2);
  }

  lemma {:induction false} UpJoin(s: nat, gh: nat, r: Leg, rm: nat, steps: nat, dx: nat, dy: nat)
    requires s <= gh && UpWorth(gh, r, rm, steps) && dy * T128 <= (dx + 1) * (s * gh)
    ensures UpWorth(s, if dx == 0 then r.(free := r.free + dy) else r.(out := r.out + dy), rm + dx, 1 + steps)
  {
    var q := r.s * r.s;
    MulMono(s, r.s, gh);
    MulMono(gh, r.s, r.s);
    MulMono(s * gh, q, dx + 1);
    Distrib(r.out + r.free, dy, T128);
    Distrib(rm - r.rem + steps, dx + 1, q);
    assert (r.out + r.free + dy) * T128 <= (rm + dx - r.rem + (1 + steps)) * q by {
      assert rm + dx - r.rem + (1 + steps) == rm - r.rem + steps + (dx + 1);
    }
  }

  lemma {:induction false} DownValue(b: Book, p: int, s: nat, rm: nat)
    requires Grid(b.g) && b.g(p - 1) <= s
    ensures DownWorth(s, Down(b, p, s, rm), rm, DownSteps(b, p, s, rm))
    decreases if p > b.imin then p - b.imin else 0
  {
    if !(rm == 0 || s <= b.g(b.imin) || p <= b.imin) {
      var l, gl := Lq(b.lq, p), b.g(p - 1);
      var dx, dy := Dx(l, gl, s), Dy(l, gl, s);
      if dy <= rm {
        DownValue(b, p - 1, gl, rm - dy);
        SegmentDown(l, gl, s);
        DownJoin(s, gl, Down(b, p - 1, gl, rm - dy), rm - dy, DownSteps(b, p - 1, gl, rm - dy),
                 if dy == 0 then 0 else dx, dy);
      } else {
        DownFillValue(l, s, rm, gl);
      }
    }
  }

  lemma {:induction false} DownFillValue(l: nat, s: nat, rm: nat, gl: nat)
    requires 0 < gl <= s && Dy(l, gl, s) > rm
    ensures var s2 := Sfdyi(l, s, rm); 0 < s2 <= s && Dx(l, s2, s) * (s2 * s2) <= (rm + 1) * T128
  {
    SfdyiStopsShort(l, s, rm, gl);
    var s2 := Sfdyi(l, s, rm);
    SegmentDown(l, s2, s);
    SfdyiExact(l, s, rm, s2);
    Narrow(s2, s, Dx(l, s2, s));
    MulMono(Dy(l, s2, s) + 1, rm + 1, T128);
  }

  lemma {:induction false} Narrow(s: nat, s2: nat, k: nat)
    requires s <= s2
    ensures k * (s * s) <= k * (s * s2)
  {
    MulMono(s, s2, s);
    MulMono(s * s, s * s2, k);
  }

  lemma {:induction false} DownJoin(s: nat, gl: nat, r: Leg, rm: nat, steps: nat, dx: nat, dy: nat)
    requires 0 < gl <= s && DownWorth(gl, r, rm, steps) && dx * (gl * s) <= (dy + 1) * T128
    ensures DownWorth(s, r.(out := r.out + dx), rm + dy, 1 + steps)
  {
    var q := r.s * r.s;
    MulMono(r.s, gl, r.s);
    MulMono(r.s, s, gl);
    MulMono(q, gl * s, dx);
    Distrib(r.out + r.free, dx, q);
    Distrib(rm - r.rem + steps, dy + 1, T128);
  }

  lemma {:induction false} StepBounds(b: Book, p: int, s: nat, rm: nat)
    requires Grid(b.g) && Bracketed(b.g, p, s) && p <= b.imax + 1 && b.imin <= p
    ensures UpSteps(b, p, s, rm) <= b.imax + 1 - p
    ensures DownSteps(b, p, s, rm) <= p - b.imin
  {
    UpStepBound(b, p, s, rm);
    DownStepBound(b, p, s, rm);
  }

  lemma {:induction false} UpStepBound(b: Book, p: int, s: nat, rm: nat)
    requires Grid(b.g) && 0 < s <= b.g(p + 1) && p <= b.imax + 1
    ensures UpSteps(b, p, s, rm) <= b.imax + 1 - p
    decreases if p <= b.imax then b.imax + 1 - p else 0
  {
    if !(rm == 0 || s >= b.g(b.imax + 1) || p >= b.imax + 1) {
      var dx := Dx(Lq(b.lq, p), s, b.g(p + 1));
      if dx <= rm { UpStepBound(b, p + 1, b.g(p + 1), rm - dx); }
    }
  }

  lemma {:induction false} DownStepBound(b: Book, p: int, s: nat, rm: nat)
    requires Grid(b.g) && b.g(p - 1) <= s && b.imin <= p
    ensures DownSteps(b, p, s, rm) <= p - b.imin
    decreases if p > b.imin then p - b.imin else 0
  {
    if !(rm == 0 || s <= b.g(b.imin) || p <= b.imin) {
      var dy := Dy(Lq(b.lq, p), b.g(p - 1), s);
      if dy <= rm { DownStepBound(b, p - 1, b.g(p - 1), rm - dy); }
    }
  }

  // ---- swaps and round trips ----

  /** An X swap never pays better than the price it ends at, but for one X per step. */
  lemma {:induction false} SwapXValue(g: int -> nat, st: State, amt: nat, mo: Option<nat>)
    requires Grid(g) && Ready(g, st) && SwapX(g, st, amt, mo).refund < amt
    ensures var o := SwapX(g, st, amt, mo);
            && o.refund <= Net(amt, st.shift) && Ready(g, o.st)
            && o.out * T128 <= (Net(amt, st.shift) - o.refund + (st.imax + 1 - st.p)) * (o.st.s * o.st.s)
  {
    var b, v := BookOf(g, st), Net(amt, st.shift);
    UpValue(b, st.p, st.s, v);
    UpKeeps(b, st.p, st.s, v);
    StepBounds(b, st.p, st.s, v);
    UpWithin(st.s, UpLeg(g, st, v), v, UpSteps(b, st.p, st.s, v), st.imax + 1 - st.p);
  }

  lemma {:induction false} UpWithin(s: nat, r: Leg, rm: nat, steps: nat, most: nat)
    requires UpWorth(s, r, rm, steps) && steps <= most
    ensures UpWorth(s, r, rm, most)
  {
    MulMono(rm - r.rem + steps, rm - r.rem + most, r.s * r.s);
  }

  lemma {:induction false} DownWithin(s: nat, r: Leg, rm: nat, steps: nat, most: nat)
    requires DownWorth(s, r, rm, steps) && steps <= most
    ensures DownWorth(s, r, rm, most)
  {
    MulMono(rm - r.rem + steps, rm - r.rem + most, T128);
  }

  lemma {:induction false} SwapYValue(g: int -> nat, st: State, amt: nat, mo: Option<nat>)
    requires Grid(g) && Ready(g, st) && SwapY(g, st, amt, mo).refund < amt
    ensures var o := SwapY(g, st, amt, mo);
            && o.refund <= Net(amt, st.shift) && Ready(g, o.st)
            && o.out * (o.st.s * o.st.s) <= (Net(amt, st.shift) - o.refund + (st.p - st.imin)) * T128
  {
    var b, v := BookOf(g, st), Net(amt, st.shift);
    DownValue(b, st.p, st.s, v);
    DownKeeps(b, st.p, st.s, v);
    StepBounds(b, st.p, st.s, v);
    DownWithin(st.s, DownLeg(g, st, v), v, DownSteps(b, st.p, st.s, v), st.p - st.imin);
  }

  /** Selling X and then all the Y it paid brings back no more than the X spent and one per
      cell above, at the ratio of the prices reached, and one Y per cell below. */
  lemma {:induction false} RoundTrip(g: int -> nat, st: State, amt: nat, mo: Option<nat>, mo': Option<nat>)
    requires Grid(g) && Ready(g, st) && SwapX(g, st, amt, mo).refund < amt
    ensures var o := SwapX(g, st, amt, mo);
            && Ready(g, o.st)
            && var o' := SwapY(g, o.st, o.out, mo');
               o'.refund < o.out ==>
                 o'.out * (o'.st.s * o'.st.s)
                 <= (Net(amt, st.shift) - o.refund + (st.imax + 1 - st.p)) * (o.st.s * o.st.s)
                     + (o.st.p - st.imin) * T128
  {
    SwapXValue(g, st, amt, mo);
    var o := SwapX(g, st, amt, mo);
    var o' := SwapY(g, o.st, o.out, mo');
    if o'.refund < o.out {
      SwapYValue(g, o.st, o.out, mo');
      var v, k: nat := Net(o.out, o.st.shift) - o'.refund, o.st.p - st.imin;
      MulMono(v, o.out, T128);
      Distrib(v, k, T128);
    }
  }

  // ---- a round trip that gains ----

  /** A pool at the price one, liquidity 43024 in the two cells around it, fee shift 8, over
      the code's grid (`FirstPrices`). */
  ghost predicate Small(g: int -> nat, st: State) {
    && Grid(g) && g(-1) == Price(-1) && g(0) == Price(0) && g(1) == Price(1)
    && st.s == T64 && st.p == 0 && st.imin == -1 && st.imax == 0 && st.tokx != "" && st.shift == 8
    && Lq(st.lq, -1) == 43024 && Lq(st.lq, 0) == 43024
  }

  lemma {:induction false} SmallUp(l: nat, s2: nat, rm: nat)
    requires l == 43024 && s2 == 18447666387855959850 && rm == 1
    ensures Dx(l, T64, s2) > rm && Sfdx(l, T64, rm) == 18447601623059824013
    ensures Dy(l, T64, Sfdx(l, T64, rm)) == 2
  {}

  lemma {:induction false} SmallDown(l: nat, gl: nat, s: nat, rm: nat)
    requires l == 43024 && gl == 18445821805675392311 && s == 18447601623059824013 && rm == 2
    ensures Dy(l, gl, s) > rm && Sfdyi(l, s, rm) == 18446315358830065538
    ensures Dx(l, Sfdyi(l, s, rm), s) == 2
  {}

  /** One X buys two Y, and they buy two X. */
  lemma {:induction false} RoundTripGains(g: int -> nat, st: State, amt: nat)
    requires Small(g, st) && amt == 1
    ensures Ready(g, st) && Ready(g, SwapX(g, st, amt, None).st)
    ensures Trades(SwapX(g, st, amt, None), 2) && Trades(SwapY(g, SwapX(g, st, amt, None).st, 2, None), 2)
  {
    SmallSell(g, st, amt);
    SmallBack(g, SwapX(g, st, amt, None).st, 2);
  }

  /** A swap takes its whole input and pays `out`. */
  predicate Trades(o: Outcome, out: nat) { o.refund == 0 && o.out == out }

  /** Where the first swap leaves the pool. */
  ghost predicate Raised(g: int -> nat, st: State) {
    && Grid(g) && g(-1) == Price(-1) && g(0) == Price(0) && g(1) == Price(1)
    && st.s == 18447601623059824013 && st.p == 0 && st.imin == -1 && st.imax == 0 && st.tokx != "" && st.shift == 8
    && Lq(st.lq, 0) == 43024
  }

  lemma {:induction false} SmallSell(g: int -> nat, st: State, amt: nat)
    requires Small(g, st) && amt == 1
    ensures Ready(g, st) && Trades(SwapX(g, st, amt, None), 2) && Raised(g, SwapX(g, st, amt, None).st)
  {
    var b, v := BookOf(g, st), Net(amt, st.shift);
    SmallUp(43024, g(1), v);
    assert Up(b, 0, T64, v) == Leg(0, Sfdx(43024, T64, v), 2, 0, 0, true);
  }

  lemma {:induction false} SmallBack(g: int -> nat, st: State, amt: nat)
    requires Raised(g, st) && amt == 2
    ensures Ready(g, st) && Trades(SwapY(g, st, amt, None), 2)
  {
    var v := Net(amt, st.shift);
    SmallDown(43024, g(-1), st.s, v);
    assert Down(BookOf(g, st), 0, st.s, v) == Leg(0, Sfdyi(43024, st.s, v), 2, 0, 0, true);
  }
}
