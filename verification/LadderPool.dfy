/** The five-slot ladder pool: its entry points and callbacks as updates of the storage
    keys S0..S4, F, AB, PB, SHT and SH:<account>, each against a function on values. */
module LadderPool {
  import opened ModArith
  import opened Wrappers
  import opened Ledger

  const CAP_TOTAL: nat := 1_000_000_000_000_000_000
  const TWO128: nat := 0x1_0000000000000000_0000000000000000
  /** Amounts are decimal strings of at most thirty digits. */
  const MAX_INPUT: nat := 1_000_000_000_000_000_000_000_000_000_000

  /** Five amounts of A, at 98, 99, 100, 101 and 102 B per 100 A. */
  datatype Slots = Slots(s0: nat, s1: nat, s2: nat, s3: nat, s4: nat)

  /** The storage of the pool. */
  datatype State = State(slots: Slots, f: nat, ab: nat, pb: nat, sht: nat, sh: map<Account, nat>)

  /** A 128-bit product divided and rounded down. */
  function MulDiv(x: nat, y: nat, d: nat): (r: nat)
    requires d > 0
  {
    Floor(x * y, d);
    x * y / d
  }

  lemma {:induction false} MulDivLe(x: nat, y: nat, d: nat)
    requires d > 0
    ensures MulDiv(x, y, d) * d <= x * y
  {}

  // ---- the ladder walk ----

  datatype Step = Step(rem: nat, dy: nat, fee: nat, left: nat)

  /** One slot at price `p` per 100. */
  function SlotStep(dx: nat, la: nat, p: nat): Step {
    var used := if dx < la then dx else la;
    Step(dx - used, MulDiv(used, p, 100), MulDiv(used, 30, 10000), la - used)
  }

  datatype Walk = Walk(slots: Slots, dy: nat, rem: nat, fee: nat)

  function PoolSwap(s: Slots, amt: nat): Walk {
    var a := SlotStep(amt, s.s0, 98);
    var b := SlotStep(a.rem, s.s1, 99);
    var c := SlotStep(b.rem, s.s2, 100);
    var d := SlotStep(c.rem, s.s3, 101);
    var e := SlotStep(d.rem, s.s4, 102);
    Walk(Slots(a.left, b.left, c.left, d.left, e.left),
         a.dy + b.dy + c.dy + d.dy + e.dy, e.rem, a.fee + b.fee + c.fee + d.fee + e.fee)
  }

  // ---- deposits ----

  function Total(s: Slots): nat { s.s0 + s.s1 + s.s2 + s.s3 + s.s4 }

  function Widen(slot: nat, base: nat, amt: nat, tot: nat, p: nat): nat
    requires tot > 0 && p > 0
  {
    slot + MulDiv(MulDiv(amt, base, tot), 100, p)
  }

  /** The shape of an empty ladder, else the current fill. */
  function WidenAll(s: Slots, amt: nat): Slots {
    if Total(s) == 0
    then Slots(Widen(s.s0, 1000, amt, 12500, 98), Widen(s.s1, 2000, amt, 12500, 99), Widen(s.s2, 5000, amt, 12500, 100),
               Widen(s.s3, 3000, amt, 12500, 101), Widen(s.s4, 1500, amt, 12500, 102))
    else Slots(Widen(s.s0, s.s0, amt, Total(s), 98), Widen(s.s1, s.s1, amt, Total(s), 99),
               Widen(s.s2, s.s2, amt, Total(s), 100), Widen(s.s3, s.s3, amt, Total(s), 101),
               Widen(s.s4, s.s4, amt, Total(s), 102))
  }

  /** The widening products stay within 128 bits. */
  predicate WidenFits(s: Slots, amt: nat) {
    Total(s) < TWO128 && Fits(s, amt) && Fits(WidenAll(s, amt), 1)
  }

  /** The shares a deposit buys; None is a refund (too small, over capacity, dust) or an
      arithmetic trap, which has the same effect. */
  function DepositShares(st: State, amt: nat): Option<nat> {
    if amt >= MAX_INPUT || amt < 10 || st.pb + amt > CAP_TOTAL then None
    else if st.sht == 0 then Some(amt)
    else if st.pb == 0 || amt * st.sht >= TWO128 || MulDiv(amt, st.sht, st.pb) == 0 then None
    else Some(MulDiv(amt, st.sht, st.pb))
  }

  function Deposit(st: State, who: Account, amt: nat): State {
    if !Accepts(st, amt) then st
    else
      var n := DepositShares(st, amt).value;
      st.(slots := WidenAll(st.slots, amt), sht := st.sht + n, pb := st.pb + amt,
          sh := st.sh[who := Balance(st.sh, who) + n])
  }

  predicate Accepts(st: State, amt: nat) {
    DepositShares(st, amt).Some? && st.sht + DepositShares(st, amt).value < TWO128 && WidenFits(st.slots, amt)
  }

  // ---- swaps ----

  /** The arguments a swap hands to its payout callback. */
  datatype SwapArgs = SwapArgs(r: nat, a: nat, u: nat, d: nat, f: nat, c: Slots)

  /** A swap refunds everything, keeps the input without a payout, or starts a payout. */
  datatype SwapCall = Reject | Keep(rem: nat) | Payout(args: SwapArgs)

  function Minus(a: Slots, b: Slots): Slots
    requires Below(b, a)
  {
    Slots(a.s0 - b.s0, a.s1 - b.s1, a.s2 - b.s2, a.s3 - b.s3, a.s4 - b.s4)
  }

  function Plus(a: Slots, b: Slots): Slots {
    Slots(a.s0 + b.s0, a.s1 + b.s1, a.s2 + b.s2, a.s3 + b.s3, a.s4 + b.s4)
  }

  predicate Below(a: Slots, b: Slots) {
    a.s0 <= b.s0 && a.s1 <= b.s1 && a.s2 <= b.s2 && a.s3 <= b.s3 && a.s4 <= b.s4
  }

  /** What every walk satisfies. */
  predicate WalkOf(w: Walk, s: Slots, amt: nat) { Below(w.slots, s) && w.rem <= amt }

  lemma {:induction false} WalkShape(s: Slots, amt: nat)
    ensures WalkOf(PoolSwap(s, amt), s, amt)
  {
  }

  /** A swap is refused for an unmet minimum, for capacity, or by an arithmetic trap. */
  predicate Passes(st: State, amt: nat, min: nat, w: Walk) {
    st.f + w.fee < TWO128 && min <= w.dy && st.ab + (amt - w.rem) <= CAP_TOTAL && w.dy <= st.pb
  }

  function Booked(st: State, amt: nat, min: nat, w: Walk): State
    requires WalkOf(w, st.slots, amt)
  {
    if !Passes(st, amt, min, w) then st
    else st.(slots := w.slots, f := st.f + w.fee, ab := st.ab + (amt - w.rem), pb := st.pb - w.dy)
  }

  function Reply(st: State, amt: nat, min: nat, w: Walk): SwapCall
    requires WalkOf(w, st.slots, amt)
  {
    if !Passes(st, amt, min, w) then Reject
    else if w.dy == 0 then Keep(w.rem)
    else Payout(SwapArgs(w.rem, amt, amt - w.rem, w.dy, w.fee, Minus(st.slots, w.slots)))
  }

  /** The message's minimum parses and the amount has at most thirty digits. */
  predicate WellFormed(amt: nat, min: Option<nat>) { amt < MAX_INPUT && min.Some? && min.value < MAX_INPUT }

  function SwapState(st: State, amt: nat, min: Option<nat>): State {
    WalkShape(st.slots, amt);
    if WellFormed(amt, min) then Booked(st, amt, min.value, PoolSwap(st.slots, amt)) else st
  }

  function SwapReply(st: State, amt: nat, min: Option<nat>): SwapCall {
    WalkShape(st.slots, amt);
    if WellFormed(amt, min) then Reply(st, amt, min.value, PoolSwap(st.slots, amt)) else Reject
  }

  /** The payout callback: a failed payout reverses the swap's own deltas; a subtraction
      that underflows traps and leaves the storage alone. */
  predicate Reversible(st: State, args: SwapArgs) { args.f <= st.f && args.u <= st.ab }

  function PayOut(st: State, args: SwapArgs, paid: bool): State {
    if paid || !Reversible(st, args) then st
    else st.(slots := Plus(st.slots, args.c), f := st.f - args.f, ab := st.ab - args.u, pb := st.pb + args.d)
  }

  // ---- withdrawals ----

  datatype WithdrawArgs = WithdrawArgs(who: Account, s: nat, a: nat, b: nat, x: Slots)

  function Scale(s: Slots, num: nat, den: nat): Slots
    requires den > 0
  {
    Slots(MulDiv(s.s0, num, den), MulDiv(s.s1, num, den), MulDiv(s.s2, num, den), MulDiv(s.s3, num, den),
          MulDiv(s.s4, num, den))
  }

  /** A withdrawal is refused for bad or missing shares; it traps when the pool holds no B
      or a product leaves 128 bits. */
  predicate Withdraws(st: State, who: Account, n: nat) {
    && 1 <= n < MAX_INPUT && n <= Balance(st.sh, who) && n <= st.sht && st.pb > 0
    && n * st.ab < TWO128 && n * st.pb < TWO128 && Fits(st.slots, st.pb - OutB(st, n))
  }

  /** Every slot times `k` stays within 128 bits. */
  predicate Fits(s: Slots, k: int) {
    s.s0 * k < TWO128 && s.s1 * k < TWO128 && s.s2 * k < TWO128 && s.s3 * k < TWO128 && s.s4 * k < TWO128
  }

  function OutA(st: State, n: nat): nat requires st.sht > 0 { MulDiv(n, st.ab, st.sht) }

  function OutB(st: State, n: nat): nat requires st.sht > 0 { MulDiv(n, st.pb, st.sht) }

  lemma {:induction false} ShareBound(n: nat, x: nat, t: nat)
    requires n <= t && t > 0
    ensures MulDiv(n, x, t) <= x && MulDiv(x, n, t) <= x
  {
    MulMono(n, t, x);
    Floor(n * x, t);
    MulCancelLe(MulDiv(n, x, t), x, t);
    MulComm(n, x);
  }

  function WithdrawState(st: State, who: Account, n: nat): State {
    if !Withdraws(st, who, n) then st
    else
      ShareBound(n, st.ab, st.sht);
      ShareBound(n, st.pb, st.sht);
      var left := Balance(st.sh, who) - n;
      var pb := st.pb - OutB(st, n);
      st.(sht := st.sht - n, sh := if left == 0 then st.sh - {who} else st.sh[who := left],
          ab := st.ab - OutA(st, n), pb := pb, slots := Scale(st.slots, pb, st.pb))
  }

  lemma {:induction false} ScaleBelow(s: Slots, num: nat, den: nat)
    requires num <= den && den > 0
    ensures Below(Scale(s, num, den), s)
  {
    ShareBound(num, s.s0, den);
    ShareBound(num, s.s1, den);
    ShareBound(num, s.s2, den);
    ShareBound(num, s.s3, den);
    ShareBound(num, s.s4, den);
  }

  /** The arguments a withdrawal hands to its callback. */
  function WithdrawCall(st: State, who: Account, n: nat): WithdrawArgs
    requires Withdraws(st, who, n)
  {
    var s' := WithdrawState(st, who, n).slots;
    ShareBound(n, st.pb, st.sht);
    ScaleBelow(st.slots, st.pb - OutB(st, n), st.pb);
    WithdrawArgs(who, n, OutA(st, n), OutB(st, n), Minus(st.slots, s'))
  }

  /** The withdrawal callback: a failed first leg reverses the withdrawal's deltas. */
  function PayB(st: State, w: WithdrawArgs, paid: bool): State {
    if paid then st
    else st.(slots := Plus(st.slots, w.x), sht := st.sht + w.s, sh := st.sh[w.who := Balance(st.sh, w.who) + w.s],
             ab := st.ab + w.a, pb := st.pb + w.b)
  }

  // ---- the contract ----

  /** Storage keys as fields (`slots` holds S0..S4); every method is one entry point or
      callback. */
  class Pool {
    var slots: Slots
    var f: nat
    var ab: nat
    var pb: nat
    var sht: nat
    var sh: map<Account, nat>
    var dy: nat
    var rem: nat

    function View(): State
      reads this
    {
      State(slots, f, ab, pb, sht, sh)
    }

    constructor ()
      ensures View() == State(Slots(0, 0, 0, 0, 0), 0, 0, 0, 0, map[])
    {
      slots, f, ab, pb, sht, sh := Slots(0, 0, 0, 0, 0), 0, 0, 0, 0, map[];
      dy, rem := 0, 0;
    }

    method WidenLadder(amt: nat)
      modifies this`slots
      ensures slots == WidenAll(old(slots), amt)
    {
      var tot := Total(slots);
      if tot == 0 {
        slots := slots.(s0 := Widen(slots.s0, 1000, amt, 12500, 98));
        slots := slots.(s1 := Widen(slots.s1, 2000, amt, 12500, 99));
        slots := slots.(s2 := Widen(slots.s2, 5000, amt, 12500, 100));
        slots := slots.(s3 := Widen(slots.s3, 3000, amt, 12500, 101));
        slots := slots.(s4 := Widen(slots.s4, 1500, amt, 12500, 102));
      } else {
        slots := slots.(s0 := Widen(slots.s0, slots.s0, amt, tot, 98));
        slots := slots.(s1 := Widen(slots.s1, slots.s1, amt, tot, 99));
        slots := slots.(s2 := Widen(slots.s2, slots.s2, amt, tot, 100));
        slots := slots.(s3 := Widen(slots.s3, slots.s3, amt, tot, 101));
        slots := slots.(s4 := Widen(slots.s4, slots.s4, amt, tot, 102));
      }
    }

    /** Returns the refund: the whole amount, or nothing. */
    method AddBLiq(amt: nat, who: Account) returns (refund: nat)
      modifies this
      ensures View() == Deposit(old(View()), who, amt)
      ensures refund == if Accepts(old(View()), amt) then 0 else amt
    {
      if amt >= MAX_INPUT || amt < 10 { return amt; }
      if pb + amt > CAP_TOTAL { return amt; }
      var n := amt;
      if sht != 0 {
        if pb == 0 || amt * sht >= TWO128 { return amt; }
        n := MulDiv(amt, sht, pb);
      }
      if n == 0 || sht + n >= TWO128 || !WidenFits(slots, amt) { return amt; }
      WidenLadder(amt);
      sht := sht + n;
      pb := pb + amt;
      sh := sh[who := Balance(sh, who) + n];
      return 0;
    }

    /** The walk writes the slots, the fee and the scratch keys. */
    method Swap(amt: nat)
      modifies this`slots, this`f, this`dy, this`rem
      ensures f >= old(f) && Walk(slots, dy, rem, f - old(f)) == PoolSwap(old(slots), amt)
    {
      var dx, out, fe := amt, 0, 0;
      var st := SlotStep(dx, slots.s0, 98);
      dx, out, fe, slots := st.rem, out + st.dy, fe + st.fee, slots.(s0 := st.left);
      st := SlotStep(dx, slots.s1, 99);
      dx, out, fe, slots := st.rem, out + st.dy, fe + st.fee, slots.(s1 := st.left);
      st := SlotStep(dx, slots.s2, 100);
      dx, out, fe, slots := st.rem, out + st.dy, fe + st.fee, slots.(s2 := st.left);
      st := SlotStep(dx, slots.s3, 101);
      dx, out, fe, slots := st.rem, out + st.dy, fe + st.fee, slots.(s3 := st.left);
      st := SlotStep(dx, slots.s4, 102);
      dx, out, fe, slots := st.rem, out + st.dy, fe + st.fee, slots.(s4 := st.left);
      f := f + fe;
      dy := out;
      rem := dx;
    }

    /** Walks first, then restores the snapshot when the swap is refused. */
    method SwapLeg(amt: nat, min: Option<nat>) returns (r: SwapCall)
      modifies this
      ensures View() == SwapState(old(View()), amt, min)
      ensures r == SwapReply(old(View()), amt, min)
    {
      if amt >= MAX_INPUT || min.None? || min.value >= MAX_INPUT { return Reject; }
      var f0, before := f, slots;
      Swap(amt);
      WalkShape(before, amt);
      r := Judge(amt, min.value, f0, before);
    }

    /** The guards after the walk, given the fee and slots before it. */
    method Judge(amt: nat, min: nat, f0: nat, before: Slots) returns (r: SwapCall)
      requires f0 <= f && WalkOf(Walk(slots, dy, rem, f - f0), before, amt)
      modifies this
      ensures var w := Walk(old(slots), old(dy), old(rem), old(f) - f0);
              var st := old(View()).(slots := before, f := f0);
              View() == Booked(st, amt, min, w) && r == Reply(st, amt, min, w)
    {
      var usedA := amt - rem;
      if f >= TWO128 || dy < min || ab + usedA > CAP_TOTAL || dy > pb {
        slots, f := before, f0;
        return Reject;
      }
      ab := ab + usedA;
      pb := pb - dy;
      if dy == 0 { return Keep(rem); }
      return Payout(SwapArgs(rem, amt, usedA, dy, f - f0, Minus(before, slots)));
    }

    method OnPayOut(args: SwapArgs, paid: bool) returns (refund: nat)
      modifies this
      ensures View() == PayOut(old(View()), args, paid)
      ensures refund == if paid then args.r else args.a
    {
      if paid { return args.r; }
      if args.f > f || args.u > ab { return args.a; }
      slots := Plus(slots, args.c);
      f := f - args.f;
      ab := ab - args.u;
      pb := pb + args.d;
      return args.a;
    }

    method Withdraw4(who: Account, n: nat) returns (r: Option<WithdrawArgs>)
      modifies this
      ensures View() == WithdrawState(old(View()), who, n)
      ensures r == if Withdraws(old(View()), who, n) then Some(WithdrawCall(old(View()), who, n)) else None
    {
      if n >= MAX_INPUT || n < 1 || Balance(sh, who) < n { return None; }
      var ab0, pb0, o := ab, pb, slots;
      var st := View();
      if !Withdraws(st, who, n) { return None; }
      var outA, outB := OutA(st, n), OutB(st, n);
      ShareBound(n, ab0, sht);
      ShareBound(n, pb0, sht);
      sht := sht - n;
      var left := Balance(sh, who) - n;
      sh := if left == 0 then sh - {who} else sh[who := left];
      ab := ab0 - outA;
      pb := pb0 - outB;
      slots := Scale(o, pb, pb0);
      ScaleBelow(o, pb, pb0);
      return Some(WithdrawArgs(who, n, outA, outB, Minus(o, slots)));
    }

    method OnPayB(w: WithdrawArgs, paid: bool)
      modifies this
      ensures View() == PayB(old(View()), w, paid)
    {
      if paid { return; }
      slots := Plus(slots, w.x);
      sht := sht + w.s;
      sh := sh[w.who := Balance(sh, w.who) + w.s];
      ab := ab + w.a;
      pb := pb + w.b;
    }
  }
}
