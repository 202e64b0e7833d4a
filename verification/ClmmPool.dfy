/** The concentrated-liquidity pool: its key-value state, swaps, quotes, seeds and mints,
    and what every run of them keeps. */
module ClmmPool {
  import opened ModArith
  import opened Wrappers
  import opened ClmmMath
  import opened ClmmGrid
  import opened ClmmWalk

  datatype Last = NoSwap | SwapOut(out: nat, rem: nat)

  datatype State = State(s: nat, p: int, x: int, y: int, imin: int, imax: int, escx: int, escy: int,
                         tokx: string, toky: string, shift: nat, feex: nat, feey: nat, last: Last, lq: map<int, nat>)

  function BookOf(g: int -> nat, st: State): Book { Book(g, st.lq, st.imin, st.imax) }

  /** The price is bracketed by its cell, and the cell is in range or one above it. */
  predicate Ready(g: int -> nat, st: State) {
    Bracketed(g, st.p, st.s) && st.imin <= st.p <= st.imax + 1
  }

  /** A zero shift stands for 8. */
  function Fee(amt: nat, shift: nat): (f: nat)
    ensures f <= amt && (amt > 0 ==> f < amt)
  {
    var k := if shift == 0 then 8 else shift;
    FeeSmall(amt, k);
    amt / Pow2(k)
  }

  lemma {:induction false} FeeSmall(amt: nat, k: nat)
    requires k > 0
    ensures 0 <= amt / Pow2(k) <= amt && (amt > 0 ==> amt / Pow2(k) < amt)
  {
    Pow2Mono(1, k);
    var m := Pow2(k);
    Floor(amt, m);
    var q := amt / m;
    assert q * 2 <= q * m by { MulMono(2, m, q); MulComm(q, m); }
  }

  /** The fee is the floor of the shifted amount. */
  lemma {:induction false} FeeIsFloor(amt: nat, shift: nat)
    ensures var m := Pow2(if shift == 0 then 8 else shift); Fee(amt, shift) * m <= amt < (Fee(amt, shift) + 1) * m
  {}

  /** What is left to trade after the fee. */
  function Net(amt: nat, shift: nat): nat { amt - Fee(amt, shift) }

  /** A larger amount leaves no less after the fee. */
  lemma {:induction false} NetMono(amt: nat, amt': nat, shift: nat)
    requires amt <= amt'
    ensures Net(amt, shift) <= Net(amt', shift)
  {
    var m := Pow2(if shift == 0 then 8 else shift);
    var d := amt' - amt;
    Floor(amt, m);
    var q := amt / m;
    assert d <= d * m by { MulMono(1, m, d); MulComm(d, m); }
    assert (q + d + 1) * m == (q + 1) * m + d * m;
    QuotientAtMost(amt', m, q + d);
  }

  // ---- swaps as functions ----

  datatype Outcome = Outcome(st: State, refund: nat, out: nat)

  function UpLeg(g: int -> nat, st: State, v: nat): Leg
    requires Grid(g) && Ready(g, st)
  {
    Up(BookOf(g, st), st.p, st.s, v)
  }

  function DownLeg(g: int -> nat, st: State, v: nat): Leg
    requires Grid(g) && Ready(g, st)
  {
    Down(BookOf(g, st), st.p, st.s, v)
  }

  /** The walk's own writes: cell and price, unless nothing was spent and nothing gained. */
  function Moved(st: State, leg: Leg, v: nat): State {
    if leg.out + leg.free == 0 && leg.rem == v then st else st.(p := leg.p, s := leg.s)
  }

  /** What an X swap makes of its walk: a full refund, or the books and escrows moved by what
      was consumed and paid. */
  function SettledX(st: State, leg: Leg, amt: nat, mo: Option<nat>): Outcome {
    var v, out := Net(amt, st.shift), leg.out + leg.free;
    if leg.rem == v then Outcome(Moved(st, leg, v), amt, 0)
    else if out == 0 || (mo.Some? && out < mo.value) then Outcome(st, amt, 0)
    else Outcome(st.(p := leg.p, s := leg.s, escx := st.escx + amt - leg.rem, escy := st.escy - out,
                     x := st.x + v - leg.rem, y := st.y + out, feex := st.feex + Fee(amt, st.shift),
                     last := SwapOut(out, leg.rem)), leg.rem, out)
  }

  function SettledY(st: State, leg: Leg, amt: nat, mo: Option<nat>): Outcome {
    var v, out := Net(amt, st.shift), leg.out + leg.free;
    if leg.rem == v then Outcome(Moved(st, leg, v), amt, 0)
    else if out == 0 || (mo.Some? && out < mo.value) then Outcome(st, amt, 0)
    else Outcome(st.(p := leg.p, s := leg.s, escy := st.escy + amt - leg.rem, escx := st.escx - out,
                     y := st.y + v - leg.rem, x := st.x + out, feey := st.feey + Fee(amt, st.shift),
                     last := SwapOut(out, leg.rem)), leg.rem, out)
  }

  function SwapX(g: int -> nat, st: State, amt: nat, mo: Option<nat>): Outcome
    requires Grid(g) && Ready(g, st)
  {
    if st.tokx == "" || amt == 0 then Outcome(st, amt, 0)
    else SettledX(st, UpLeg(g, st, Net(amt, st.shift)), amt, mo)
  }

  function SwapY(g: int -> nat, st: State, amt: nat, mo: Option<nat>): Outcome
    requires Grid(g) && Ready(g, st)
  {
    if st.tokx == "" || amt == 0 then Outcome(st, amt, 0)
    else SettledY(st, DownLeg(g, st, Net(amt, st.shift)), amt, mo)
  }

  /** The zero-write preview; None where the original fails to parse its own empty quote. */
  function QuoteSwap(g: int -> nat, st: State, amt: nat, isX: bool): Option<(nat, nat)>
    requires Grid(g) && Ready(g, st)
  {
    var v := Net(amt, st.shift);
    if v == 0 then None
    else if isX then Some((UpLeg(g, st, v).out, UpLeg(g, st, v).rem))
    else Some((DownLeg(g, st, v).out, DownLeg(g, st, v).rem))
  }

  // ---- mints ----

  function AddRange(lq: map<int, nat>, lo: int, hi: int, d: nat): map<int, nat>
    decreases if lo <= hi then hi - lo + 1 else 0
  {
    if lo > hi then lq else AddRange(lq[lo := Lq(lq, lo) + d], lo + 1, hi, d)
  }

  /** A mint adds its liquidity to exactly the cells of its range. */
  lemma {:induction false} AddRangeAdds(lq: map<int, nat>, lo: int, hi: int, d: nat, i: int)
    ensures Lq(AddRange(lq, lo, hi, d), i) == Lq(lq, i) + (if lo <= i <= hi then d else 0)
    decreases if lo <= hi then hi - lo + 1 else 0
  {
    if lo <= hi { AddRangeAdds(lq[lo := Lq(lq, lo) + d], lo + 1, hi, d, i); }
  }

  function Mint(st: State, d: nat, lo: int, hi: int, rx: nat, ry: nat): State {
    st.(escx := st.escx + rx, escy := st.escy + ry, lq := AddRange(st.lq, lo, hi, d),
        imin := if lo < st.imin then lo else st.imin, imax := if hi > st.imax then hi else st.imax)
  }

  // ---- quotes and swaps agree ----

  /** A committed X swap's output is the quoted one plus the free output; so they agree
      exactly when no crossed cell pays Y for no X. The refunds always agree. */
  lemma {:induction false} QuoteIsSwapX(g: int -> nat, st: State, amt: nat, mo: Option<nat>)
    requires Grid(g) && Ready(g, st) && SwapX(g, st, amt, mo).refund != amt
    ensures QuoteSwap(g, st, amt, true).Some?
    ensures SwapX(g, st, amt, mo).st.last.SwapOut?
    ensures var o, q := SwapX(g, st, amt, mo), QuoteSwap(g, st, amt, true).value;
            && o.refund == q.1 == o.st.last.rem && o.out == o.st.last.out && q.0 <= o.out
            && (o.out == q.0 <==> NothingFree(BookOf(g, st), st.p, st.s, Net(amt, st.shift)))
  {
    FreeIff(BookOf(g, st), st.p, st.s, Net(amt, st.shift));
  }

  lemma {:induction false} QuoteIsSwapY(g: int -> nat, st: State, amt: nat, mo: Option<nat>)
    requires Grid(g) && Ready(g, st) && SwapY(g, st, amt, mo).refund != amt
    ensures QuoteSwap(g, st, amt, false).Some?
    ensures var o, q := SwapY(g, st, amt, mo), QuoteSwap(g, st, amt, false).value;
            o.refund == q.1 && o.out == q.0 && o.st.last == SwapOut(q.0, q.1)
  {
    DownFree(BookOf(g, st), st.p, st.s, Net(amt, st.shift));
  }

  /** On a book priced at most one, X quotes are always exact. */
  lemma {:induction false} CheapQuoteIsSwapX(g: int -> nat, st: State, amt: nat, mo: Option<nat>)
    requires Grid(g) && Ready(g, st) && g(st.imax + 1) <= T64 && SwapX(g, st, amt, mo).refund != amt
    ensures QuoteSwap(g, st, amt, true) == Some((SwapX(g, st, amt, mo).out, SwapX(g, st, amt, mo).refund))
  {
    CheapBookNothingFree(BookOf(g, st), st.p, st.s, Net(amt, st.shift));
    QuoteIsSwapX(g, st, amt, mo);
  }

  /** More input is never quoted less output, in either direction. */
  lemma {:induction false} QuoteMono(g: int -> nat, st: State, amt: nat, amt': nat, isX: bool)
    requires Grid(g) && Ready(g, st) && 0 < amt <= amt'
    ensures QuoteSwap(g, st, amt, isX).Some? && QuoteSwap(g, st, amt', isX).Some?
    ensures QuoteSwap(g, st, amt, isX).value.0 <= QuoteSwap(g, st, amt', isX).value.0
  {
    NetMono(amt, amt', st.shift);
    if isX {
      UpMono(BookOf(g, st), st.p, st.s, Net(amt, st.shift), Net(amt', st.shift));
    } else {
      DownMono(BookOf(g, st), st.p, st.s, Net(amt, st.shift), Net(amt', st.shift));
    }
  }

  // ---- minimums ----

  /** A minimum decides only whether the swap goes through: up to what the swap pays without
      one it changes nothing, above that everything is refunded, and the pool is as if the
      swap had not been tried unless its walk spends nothing anyway. */
  predicate Decides(st: State, amt: nat, m: nat, free: Outcome, o: Outcome) {
    if m <= free.out then o == free
    else o.refund == amt && o.out == 0 && o.st == if free.refund < amt then st else free.st
  }

  lemma {:induction false} MinimumX(g: int -> nat, st: State, amt: nat, m: nat)
    requires Grid(g) && Ready(g, st)
    ensures Decides(st, amt, m, SwapX(g, st, amt, None), SwapX(g, st, amt, Some(m)))
  {
    UpUnspent(BookOf(g, st), st.p, st.s, Net(amt, st.shift));
  }

  lemma {:induction false} MinimumY(g: int -> nat, st: State, amt: nat, m: nat)
    requires Grid(g) && Ready(g, st)
    ensures Decides(st, amt, m, SwapY(g, st, amt, None), SwapY(g, st, amt, Some(m)))
  {
    DownUnspent(BookOf(g, st), st.p, st.s, Net(amt, st.shift));
  }

  /** Without a minimum a swap goes through exactly when a token is set and its walk spends
      something and pays something. */
  lemma {:induction false} FreeSwapIff(g: int -> nat, st: State, amt: nat)
    requires Grid(g) && Ready(g, st)
    ensures var v := Net(amt, st.shift); var up, down := UpLeg(g, st, v), DownLeg(g, st, v);
            && (SwapX(g, st, amt, None).refund < amt <==> st.tokx != "" && up.rem < v && up.out + up.free > 0)
            && (SwapY(g, st, amt, None).refund < amt <==> st.tokx != "" && down.rem < v && down.out > 0)
  {
    var v := Net(amt, st.shift);
    UpUnspent(BookOf(g, st), st.p, st.s, v);
    DownUnspent(BookOf(g, st), st.p, st.s, v);
    DownFree(BookOf(g, st), st.p, st.s, v);
  }

  /** A quote that spends something and pays something, and meets the minimum, is honoured:
      exactly downwards and where nothing is free, and by no less in any case. */
  lemma {:induction false} QuoteIsHonoured(g: int -> nat, st: State, amt: nat, isX: bool, m: nat)
    requires Grid(g) && Ready(g, st) && st.tokx != "" && QuoteSwap(g, st, amt, isX).Some?
    requires var q := QuoteSwap(g, st, amt, isX).value; q.1 < Net(amt, st.shift) && 0 < q.0 && m <= q.0
    ensures var q := QuoteSwap(g, st, amt, isX).value;
            var o := if isX then SwapX(g, st, amt, Some(m)) else SwapY(g, st, amt, Some(m));
            && o.refund == q.1 && o.out >= q.0
            && (!isX || NothingFree(BookOf(g, st), st.p, st.s, Net(amt, st.shift)) ==> o.out == q.0)
  {
    FreeSwapIff(g, st, amt);
    if isX {
      MinimumX(g, st, amt, m);
      QuoteIsSwapX(g, st, amt, None);
    } else {
      MinimumY(g, st, amt, m);
      QuoteIsSwapY(g, st, amt, None);
    }
  }

  /** Only an empty swap has no quote. */
  lemma {:induction false} QuoteNoneIff(g: int -> nat, st: State, amt: nat, isX: bool)
    requires Grid(g) && Ready(g, st)
    ensures QuoteSwap(g, st, amt, isX).None? <==> amt == 0
  {}

  // ---- the escrow law ----

  /** An X swap either refunds everything or moves exactly what it consumed and paid: the
      consumed input is split between the book and the fee. */
  lemma {:induction false} EscrowLawX(g: int -> nat, st: State, amt: nat, mo: Option<nat>)
    requires Grid(g) && Ready(g, st)
    ensures var o := SwapX(g, st, amt, mo);
            && o.refund <= amt && o.st.escx == st.escx + amt - o.refund && o.st.escy == st.escy - o.out
            && o.st.y == st.y + o.out && o.st.x + o.st.feex == st.x + st.feex + amt - o.refund
            && o.st.feex == st.feex + (if o.refund < amt then Fee(amt, st.shift) else 0)
            && (o.refund < amt ==> o.out > 0 && (mo.Some? ==> o.out >= mo.value))
  {
    UpUnspent(BookOf(g, st), st.p, st.s, Net(amt, st.shift));
  }

  lemma {:induction false} EscrowLawY(g: int -> nat, st: State, amt: nat, mo: Option<nat>)
    requires Grid(g) && Ready(g, st)
    ensures var o := SwapY(g, st, amt, mo);
            && o.refund <= amt && o.st.escy == st.escy + amt - o.refund && o.st.escx == st.escx - o.out
            && o.st.x == st.x + o.out && o.st.y + o.st.feey == st.y + st.feey + amt - o.refund
            && o.st.feey == st.feey + (if o.refund < amt then Fee(amt, st.shift) else 0)
            && (o.refund < amt ==> o.out > 0 && (mo.Some? ==> o.out >= mo.value))
  {
    DownUnspent(BookOf(g, st), st.p, st.s, Net(amt, st.shift));
  }

  /** A Y swap that refunds everything changes nothing. */
  lemma {:induction false} FullRefundY(g: int -> nat, st: State, amt: nat, mo: Option<nat>)
    requires Grid(g) && Ready(g, st) && SwapY(g, st, amt, mo).refund == amt
    ensures SwapY(g, st, amt, mo).st == st
  {
    DownUnspent(BookOf(g, st), st.p, st.s, Net(amt, st.shift));
    DownKeeps(BookOf(g, st), st.p, st.s, Net(amt, st.shift));
  }

  /** From the current cell to the end of the range no cell takes any X, and one pays Y. */
  ghost predicate GivesAway(g: int -> nat, st: State, amt: nat)
    requires Grid(g) && Ready(g, st)
  {
    st.tokx != "" && amt > 0 && Idle(BookOf(g, st), st.p, st.s) && Generous(BookOf(g, st), st.p, st.s)
  }

  /** An X swap that refunds everything changes nothing, exactly unless the book gives
      output away for no input. */
  lemma {:induction false} FullRefundX(g: int -> nat, st: State, amt: nat, mo: Option<nat>)
    requires Grid(g) && Ready(g, st) && SwapX(g, st, amt, mo).refund == amt
    ensures SwapX(g, st, amt, mo).st == st <==> !GivesAway(g, st, amt)
  {
    var v := Net(amt, st.shift);
    UpUnspent(BookOf(g, st), st.p, st.s, v);
    FreeIff(BookOf(g, st), st.p, st.s, v);
    if amt > 0 { IdleIff(BookOf(g, st), st.p, st.s, v); }
  }

  // ---- where the code's own grid fails both laws ----

  /** A pool at the price one of cell 0, over the code's grid at the cells around it. */
  ghost predicate AtOne(g: int -> nat, st: State) {
    && Grid(g) && OnGrid(g, 0) && OnGrid(g, 1) && OnGrid(g, 2)
    && st.s == T64 && st.p == 0 && st.imin == 0 && st.tokx != "" && Lq(st.lq, 0) == 20001
  }

  lemma {:induction false} AtOneReady(g: int -> nat, st: State)
    requires AtOne(g, st) && st.imax >= 0
    ensures Ready(g, st) && g(0) == T64 && g(1) == 18447666387855959850 && g(2) == 18448588748116922571
  {
    FirstPrices(g, 0);
    FirstPrices(g, 1);
    FirstPrices(g, 2);
  }

  /** Liquidity 20001 takes no X from one grid price to the next, and pays one Y. */
  lemma {:induction false} FreeCell(s2: nat)
    requires s2 == 18447666387855959850
    ensures Dx(20001, T64, s2) == 0 && Dy(20001, T64, s2) == 1
  {}

  /** A full refund that moves the price. */
  lemma {:induction false} RefundMovesPrice(g: int -> nat, st: State, amt: nat)
    requires AtOne(g, st) && st.imax == 0 && amt > 0
    ensures Ready(g, st) && SwapX(g, st, amt, None).refund == amt
    ensures SwapX(g, st, amt, None).st == st.(p := 1, s := g(1)) != st
  {
    AtOneReady(g, st);
    var b, v := BookOf(g, st), Net(amt, st.shift);
    FreeCell(g(1));
    assert Up(b, 1, g(1), v) == Leg(1, g(1), 0, 0, v, false);
    assert Up(b, 0, T64, v) == Leg(1, g(1), 0, 1, v, false);
  }

  /** Ten X in the second cell stop inside it and pay eleven Y. */
  lemma {:induction false} PartFill(l: nat, s: nat, s2: nat, dx: nat)
    requires l == 1000000 && s == 18447666387855959850 && s2 == 18448588748116922571 && dx == 10
    ensures Dx(l, s, s2) > dx && Sfdx(l, s, dx) == 18447869324564604543 && Dy(l, s, Sfdx(l, s, dx)) == 11
  {}

  /** A quote one Y short: the swap pays twelve and the preview says eleven. */
  lemma {:induction false} QuoteFallsShort(g: int -> nat, st: State, amt: nat)
    requires AtOne(g, st) && st.imax == 1 && Lq(st.lq, 1) == 1000000 && st.shift == 8 && amt == 10
    ensures Ready(g, st) && SwapX(g, st, amt, None).out == 12 && QuoteSwap(g, st, amt, true) == Some((11, 0))
  {
    AtOneReady(g, st);
    var b, v := BookOf(g, st), Net(amt, st.shift);
    assert v == 10;
    FreeCell(g(1));
    PartFill(1000000, g(1), g(2), v);
    var s2 := Sfdx(1000000, g(1), v);
    assert Up(b, 1, g(1), v) == Leg(1, s2, 11, 0, 0, true);
    assert Up(b, 0, T64, v) == Leg(1, s2, 11, 1, 0, true);
  }

  // ---- runs ----

  datatype Event =
    | Init(tokx: string, toky: string, shift: nat, s0: nat)
    | Seed(isX: bool, amt: nat)
    | Position(d: nat, lo: int, hi: int, rx: nat, ry: nat)
    | TradeX(amt: nat, mo: Option<nat>)
    | TradeY(amt: nat, mo: Option<nat>)

  function InitState(st: State, tokx: string, toky: string, shift: nat, s0: nat): State {
    State(s0, 0, 0, 0, 0, 0, 0, 0, tokx, toky, shift, 0, 0, NoSwap, st.lq)
  }

  function SeedState(st: State, isX: bool, amt: nat): State {
    if isX then st.(escx := st.escx + amt) else st.(escy := st.escy + amt)
  }

  /** A pool with the token transfers seen from outside since its initialisation, and what
      swaps took and paid of each token. */
  datatype World = World(st: State, inX: int, inY: int, volX: int, volY: int)

  function Next(g: int -> nat, w: World, e: Event): World
    requires Grid(g) && Ready(g, w.st)
  {
    match e
    case Init(tokx, toky, shift, s0) => World(InitState(w.st, tokx, toky, shift, s0), 0, 0, 0, 0)
    case Seed(isX, amt) =>
      w.(st := SeedState(w.st, isX, amt), inX := if isX then w.inX + amt else w.inX,
         inY := if isX then w.inY else w.inY + amt)
    case Position(d, lo, hi, rx, ry) =>
      w.(st := Mint(w.st, d, lo, hi, rx, ry), inX := w.inX + rx, inY := w.inY + ry)
    case TradeX(amt, mo) =>
      var o := SwapX(g, w.st, amt, mo);
      World(o.st, w.inX + amt - o.refund, w.inY - o.out, w.volX + amt - o.refund, w.volY + o.out)
    case TradeY(amt, mo) =>
      var o := SwapY(g, w.st, amt, mo);
      World(o.st, w.inX - o.out, w.inY + amt - o.refund, w.volX + o.out, w.volY + amt - o.refund)
  }

  /** Pools start from a bracketed price. */
  predicate Admissible(g: int -> nat, e: Event) { e.Init? ==> Bracketed(g, 0, e.s0) }

  /** Escrows are the transfers; books and fees together are the swaps' turnover. */
  ghost predicate Inv(g: int -> nat, w: World) {
    && Ready(g, w.st) && w.st.escx == w.inX && w.st.escy == w.inY
    && w.st.x + w.st.feex == w.volX && w.st.y + w.st.feey == w.volY
  }

  lemma {:induction false} StepKeeps(g: int -> nat, w: World, e: Event)
    requires Grid(g) && Inv(g, w) && Admissible(g, e)
    ensures Inv(g, Next(g, w, e))
  {
    match e
    case Init(tokx, toky, shift, s0) =>
    case Seed(isX, amt) =>
    case Position(d, lo, hi, rx, ry) =>
    case TradeX(amt, mo) => TradeXKeeps(g, w, amt, mo);
    case TradeY(amt, mo) => TradeYKeeps(g, w, amt, mo);
  }

  lemma {:induction false} TradeXKeeps(g: int -> nat, w: World, amt: nat, mo: Option<nat>)
    requires Grid(g) && Inv(g, w)
    ensures Inv(g, Next(g, w, TradeX(amt, mo)))
  {
    EscrowLawX(g, w.st, amt, mo);
    UpKeeps(BookOf(g, w.st), w.st.p, w.st.s, Net(amt, w.st.shift));
  }

  lemma {:induction false} TradeYKeeps(g: int -> nat, w: World, amt: nat, mo: Option<nat>)
    requires Grid(g) && Inv(g, w)
    ensures Inv(g, Next(g, w, TradeY(amt, mo)))
  {
    EscrowLawY(g, w.st, amt, mo);
    DownKeeps(BookOf(g, w.st), w.st.p, w.st.s, Net(amt, w.st.shift));
  }

  /** `trace` is a run: every world follows from the one before. */
  ghost predicate IsRun(g: int -> nat, trace: seq<World>, es: seq<Event>)
    requires Grid(g)
  {
    && |trace| == |es| + 1
    && (forall i :: 0 <= i < |es| ==> Admissible(g, es[i]))
    && (forall i :: 0 <= i < |es| ==> Ready(g, trace[i].st) ==> trace[i + 1] == Next(g, trace[i], es[i]))
  }

  /** Every world of every run from a bracketed pool is bracketed and in range, with
      escrows equal to what came in minus what went out, and each token's book and fee adding
      up to what swaps took and paid of it. */
  lemma {:induction false} RunKeeps(g: int -> nat, trace: seq<World>, es: seq<Event>, k: nat)
    requires Grid(g) && IsRun(g, trace, es) && Inv(g, trace[0]) && k < |trace|
    ensures Inv(g, trace[k])
    decreases k
  {
    if k > 0 {
      RunKeeps(g, trace, es, k - 1);
      StepKeeps(g, trace[k - 1], es[k - 1]);
    }
  }

  // ---- the range of cells in use ----

  /** A mint's range lies within the pool's afterwards, and what was within it stays so. */
  lemma {:induction false} MintWidens(st: State, d: nat, lo: int, hi: int, rx: nat, ry: nat)
    requires lo <= hi
    ensures var st' := Mint(st, d, lo, hi, rx, ry);
            && st'.imin <= lo && hi <= st'.imax && st'.imin <= st.imin && st.imax <= st'.imax
            && (st'.imin == st.imin || st'.imin == lo) && (st'.imax == st.imax || st'.imax == hi)
  {}

  /** Every cell with liquidity lies in the pool's range. */
  ghost predicate Covered(st: State) { forall i :: Lq(st.lq, i) > 0 ==> st.imin <= i <= st.imax }

  /** A pool without liquidity, as it is created. */
  lemma {:induction false} EmptyCovered(st: State)
    requires st.lq == map[]
    ensures Covered(st) && forall i :: Lq(st.lq, i) == 0
  {}

  lemma {:induction false} StepCovers(g: int -> nat, w: World, e: Event)
    requires Grid(g) && Inv(g, w) && Covered(w.st) && !e.Init?
    ensures Covered(Next(g, w, e).st)
  {
    match e
    case Position(d, lo, hi, rx, ry) =>
      forall i ensures Lq(Next(g, w, e).st.lq, i) == Lq(w.st.lq, i) + (if lo <= i <= hi then d else 0) {
        AddRangeAdds(w.st.lq, lo, hi, d, i);
      }
    case _ =>
  }

  /** Every cell with liquidity lies in range over every run without another
      initialisation, which would reset the range and keep the cells. */
  lemma {:induction false} RunCovers(g: int -> nat, trace: seq<World>, es: seq<Event>, k: nat)
    requires Grid(g) && IsRun(g, trace, es) && Inv(g, trace[0]) && Covered(trace[0].st) && k < |trace|
    requires forall i :: 0 <= i < |es| ==> !es[i].Init?
    ensures Covered(trace[k].st)
    decreases k
  {
    if k > 0 {
      RunCovers(g, trace, es, k - 1);
      RunKeeps(g, trace, es, k - 1);
      StepCovers(g, trace[k - 1], es[k - 1]);
    }
  }

  /** Initialising again strands liquidity outside the range. */
  lemma {:induction false} SecondInitUncovers(st: State, tokx: string, toky: string, shift: nat, s0: nat, i: int)
    requires i != 0 && Lq(st.lq, i) > 0
    ensures !Covered(InitState(st, tokx, toky, shift, s0))
  {}

  // ---- the pool object ----

  /** The store is one record that every write replaces, as the original replaces entries of
      its map. */
  class Pool {
    const g: int -> nat
    var st: State

    ghost predicate Valid()
      reads this
    {
      Grid(g) && Ready(g, st)
    }

    constructor (grid: int -> nat, tokx: string, toky: string, shift: nat, s0: nat)
      requires Grid(grid) && Bracketed(grid, 0, s0)
      ensures g == grid && Valid()
      ensures st == State(s0, 0, 0, 0, 0, 0, 0, 0, tokx, toky, shift, 0, 0, NoSwap, map[])
    {
      g, st := grid, State(s0, 0, 0, 0, 0, 0, 0, 0, tokx, toky, shift, 0, 0, NoSwap, map[]);
    }

    /** Initialisation may be repeated; the liquidity cells survive it. */
    method Initialise(tokx: string, toky: string, shift: nat, s0: nat)
      modifies this
      ensures st == InitState(old(st), tokx, toky, shift, s0)
      ensures Grid(g) ==> (Valid() <==> Bracketed(g, 0, s0))
    {
      st := st.(tokx := tokx, toky := toky, s := s0, p := 0, imin := 0, imax := 0);
      st := st.(x := 0, y := 0, escx := 0, escy := 0, shift := shift, feex := 0, feey := 0, last := NoSwap);
    }

    /** Executes the upward walk, writing cell and price. */
    method SwarmUp(s0: nat, p0: int, amt: nat) returns (out: nat, rem: nat, committed: bool)
      requires Grid(g) && 0 < s0 <= g(p0 + 1)
      modifies this
      ensures var v := Net(amt, old(st).shift); var leg := Up(BookOf(g, old(st)), p0, s0, v);
              && out == leg.out + leg.free && rem == leg.rem && committed == (leg.rem != v)
              && st == Moved(old(st), leg, v)
    {
      var v := Net(amt, st.shift);
      var pp, ss;
      pp, ss, out, rem := ClimbUp(p0, s0, v);
      if !(out == 0 && rem == v) { st := st.(p := pp, s := ss); }
      return out, rem, rem != v;
    }

    /** The upward loop: crossed cells are credited whether or not they took input. */
    method ClimbUp(p0: int, s0: nat, v: nat) returns (pp: int, ss: nat, acc: nat, rm: nat)
      requires Grid(g) && 0 < s0 <= g(p0 + 1)
      ensures var leg := Up(BookOf(g, st), p0, s0, v);
              pp == leg.p && ss == leg.s && acc == leg.out + leg.free && rm == leg.rem
    {
      ghost var b := BookOf(g, st);
      var gmax := g(st.imax + 1);
      pp, ss, acc, rm := p0, s0, 0, v;
      ghost var total := Up(b, p0, s0, v);
      while rm != 0 && ss < gmax && pp < st.imax + 1
        invariant Climbing(b, total, pp, ss, rm, acc)
        decreases if pp <= st.imax then st.imax + 1 - pp else 0
      {
        var l, gh := Lq(st.lq, pp), g(pp + 1);
        var dy, dx := Dy(l, ss, gh), Dx(l, ss, gh);
        if dx <= rm {
          acc, rm, pp, ss := acc + dy, rm - dx, pp + 1, gh;
        } else {
          SfdxStopsShort(l, ss, rm, gh);
          var s2 := Sfdx(l, ss, rm);
          return pp, s2, acc + Dy(l, ss, s2), 0;
        }
      }
    }

    method SwarmDn(s0: nat, p0: int, amt: nat) returns (out: nat, rem: nat, committed: bool)
      requires Grid(g) && g(p0 - 1) <= s0
      modifies this
      ensures var v := Net(amt, old(st).shift); var leg := Down(BookOf(g, old(st)), p0, s0, v);
              && out == leg.out + leg.free && rem == leg.rem && committed == (leg.rem != v)
              && st == Moved(old(st), leg, v)
    {
      var v := Net(amt, st.shift);
      DownFree(BookOf(g, st), p0, s0, v);
      var pp, ss;
      pp, ss, out, rem := ClimbDn(p0, s0, v);
      if !(out == 0 && rem == v) { st := st.(p := pp, s := ss); }
      return out, rem, rem != v;
    }

    /** The downward loop: a cell that takes no Y is not credited. */
    method ClimbDn(p0: int, s0: nat, v: nat) returns (pp: int, ss: nat, acc: nat, rm: nat)
      requires Grid(g) && g(p0 - 1) <= s0
      ensures var leg := Down(BookOf(g, st), p0, s0, v); pp == leg.p && ss == leg.s && acc == leg.out && rm == leg.rem
    {
      ghost var b := BookOf(g, st);
      var gmin := g(st.imin);
      pp, ss, acc, rm := p0, s0, 0, v;
      while rm != 0 && ss > gmin && pp > st.imin
        invariant g(pp - 1) <= ss && Down(b, p0, s0, v) == Gain(Down(b, pp, ss, rm), acc, 0)
        decreases if pp > st.imin then pp - st.imin else 0
      {
        var l, gl := Lq(st.lq, pp), g(pp - 1);
        var dxo, dyi := Dx(l, gl, ss), Dy(l, gl, ss);
        if dyi <= rm {
          acc, rm, pp := if dyi == 0 then acc else acc + dxo, rm - dyi, pp - 1;
          ss := gl;
        } else {
          SfdyiStopsShort(l, ss, rm, gl);
          var s2 := Sfdyi(l, ss, rm);
          return pp, s2, acc + Dx(l, s2, ss), 0;
        }
      }
    }

    method TakeX(amt: nat, mo: Option<nat>) returns (refund: nat)
      requires Valid()
      modifies this
      ensures st == SwapX(g, old(st), amt, mo).st && refund == SwapX(g, old(st), amt, mo).refund
      ensures Valid()
    {
      TradeXKeeps(g, World(st, st.escx, st.escy, st.x + st.feex, st.y + st.feey), amt, mo);
      if st.tokx == "" || amt == 0 { return amt; }
      var snap := st;
      ghost var leg := UpLeg(g, st, Net(amt, st.shift));
      st := st.(escx := st.escx + amt);
      var out, rem, committed := SwarmUp(st.s, st.p, amt);
      refund := SettleX(snap, leg, amt, mo, out, rem, committed);
    }

    /** Refund, undo or commit after the walk. */
    method SettleX(snap: State, ghost leg: Leg, amt: nat, mo: Option<nat>, out: nat, rem: nat, committed: bool)
      returns (refund: nat)
      requires out == leg.out + leg.free && rem == leg.rem && committed == (leg.rem != Net(amt, snap.shift))
      requires st == Moved(snap.(escx := snap.escx + amt), leg, Net(amt, snap.shift))
      modifies this
      ensures st == SettledX(snap, leg, amt, mo).st && refund == SettledX(snap, leg, amt, mo).refund
    {
      var v := Net(amt, st.shift);
      if !committed {
        st := st.(escx := st.escx - amt);
        return amt;
      }
      if out == 0 {
        st := st.(escx := st.escx - amt, x := snap.x, p := snap.p, s := snap.s);
        return amt;
      }
      if mo.Some? && out < mo.value {
        st := snap;
        return amt;
      }
      st := st.(escx := st.escx - rem);
      st := st.(escy := st.escy - out);
      st := st.(x := snap.x + v - rem, y := snap.y + out);
      st := st.(feex := st.feex + Fee(amt, st.shift));
      st := st.(last := SwapOut(out, rem));
      return rem;
    }

    method TakeY(amt: nat, mo: Option<nat>) returns (refund: nat)
      requires Valid()
      modifies this
      ensures st == SwapY(g, old(st), amt, mo).st && refund == SwapY(g, old(st), amt, mo).refund
      ensures Valid()
    {
      TradeYKeeps(g, World(st, st.escx, st.escy, st.x + st.feex, st.y + st.feey), amt, mo);
      if st.tokx == "" || amt == 0 { return amt; }
      var snap := st;
      ghost var leg := DownLeg(g, st, Net(amt, st.shift));
      st := st.(escy := st.escy + amt);
      var out, rem, committed := SwarmDn(st.s, st.p, amt);
      refund := SettleY(snap, leg, amt, mo, out, rem, committed);
    }

    /** Refund, undo or commit after the walk. */
    method SettleY(snap: State, ghost leg: Leg, amt: nat, mo: Option<nat>, out: nat, rem: nat, committed: bool)
      returns (refund: nat)
      requires out == leg.out + leg.free && rem == leg.rem && committed == (leg.rem != Net(amt, snap.shift))
      requires st == Moved(snap.(escy := snap.escy + amt), leg, Net(amt, snap.shift))
      modifies this
      ensures st == SettledY(snap, leg, amt, mo).st && refund == SettledY(snap, leg, amt, mo).refund
    {
      var v := Net(amt, st.shift);
      if !committed {
        st := st.(escy := st.escy - amt);
        return amt;
      }
      if out == 0 {
        st := st.(escy := st.escy - amt, y := snap.y, p := snap.p, s := snap.s);
        return amt;
      }
      if mo.Some? && out < mo.value {
        st := snap;
        return amt;
      }
      st := st.(escy := st.escy - rem);
      st := st.(escx := st.escx - out);
      st := st.(y := snap.y + v - rem, x := snap.x + out);
      st := st.(feey := st.feey + Fee(amt, st.shift));
      st := st.(last := SwapOut(out, rem));
      return rem;
    }

    /** The upward preview: the same walk without writes, and without free output. */
    method QarmUp(v: nat) returns (out: nat, rem: nat)
      requires Valid()
      ensures out == UpLeg(g, st, v).out && rem == UpLeg(g, st, v).rem
    {
      ghost var b := BookOf(g, st);
      var gmax := g(st.imax + 1);
      var q: int, ss: nat, acc: nat, rm: nat := st.p, st.s, 0, v;
      ghost var total := Up(b, st.p, st.s, v);
      while rm != 0 && ss < gmax && q < st.imax + 1
        invariant Quoting(b, total, q, ss, rm, acc)
        decreases if q <= st.imax then st.imax + 1 - q else 0
      {
        var l, gh := Lq(st.lq, q), g(q + 1);
        var dx := Dx(l, ss, gh);
        if dx <= rm {
          acc := if dx == 0 then acc else acc + Dy(l, ss, gh);
          rm, q, ss := rm - dx, q + 1, gh;
        } else {
          SfdxStopsShort(l, ss, rm, gh);
          return acc + Dy(l, ss, Sfdx(l, ss, rm)), 0;
        }
      }
      return acc, rm;
    }

    method QarmDn(v: nat) returns (out: nat, rem: nat)
      requires Valid()
      ensures out == DownLeg(g, st, v).out && rem == DownLeg(g, st, v).rem
    {
      ghost var b := BookOf(g, st);
      var gmin := g(st.imin);
      var q: int, ss: nat, acc: nat, rm: nat := st.p, st.s, 0, v;
      while rm != 0 && ss > gmin && q > st.imin
        invariant g(q - 1) <= ss
        invariant Down(b, st.p, st.s, v) == Gain(Down(b, q, ss, rm), acc, 0)
        decreases if q > st.imin then q - st.imin else 0
      {
        var l, gl := Lq(st.lq, q), g(q - 1);
        var dyi := Dy(l, gl, ss);
        if dyi <= rm {
          acc := if dyi == 0 then acc else acc + Dx(l, gl, ss);
          rm, q := rm - dyi, q - 1;
          ss := gl;
        } else {
          SfdyiStopsShort(l, ss, rm, gl);
          return acc + Dx(l, Sfdyi(l, ss, rm), ss), 0;
        }
      }
      return acc, rm;
    }

    method Quote(amt: nat, isX: bool) returns (r: Option<(nat, nat)>)
      requires Valid()
      ensures r == QuoteSwap(g, st, amt, isX)
    {
      var v := Net(amt, st.shift);
      if v == 0 { return None; }
      var out, rem;
      if isX { out, rem := QarmUp(v); } else { out, rem := QarmDn(v); }
      return Some((out, rem));
    }

    method Credit(isX: bool, amt: nat)
      requires Valid()
      modifies this
      ensures st == SeedState(old(st), isX, amt) && Valid()
    {
      if isX { st := st.(escx := st.escx + amt); } else { st := st.(escy := st.escy + amt); }
    }

    method MintPos(d: nat, lo: int, hi: int, rx: nat, ry: nat)
      requires Valid()
      modifies this
      ensures st == Mint(old(st), d, lo, hi, rx, ry) && Valid()
    {
      st := st.(escx := st.escx + rx, escy := st.escy + ry);
      ghost var st0 := st;
      var i := lo;
      while i <= hi
        invariant AddRange(st0.lq, lo, hi, d) == AddRange(st.lq, i, hi, d)
        invariant st == st0.(lq := st.lq)
      {
        st := st.(lq := st.lq[i := Lq(st.lq, i) + d]);
        i := i + 1;
      }
      if lo < st.imin { st := st.(imin := lo); }
      if hi > st.imax { st := st.(imax := hi); }
    }
  }
}
