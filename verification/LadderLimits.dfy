/** Where the ladder pool's guarantees end: withdrawals that leave too little book behind a
    pending payout, and pools that a swap has emptied of B. */
module LadderLimits {
  import opened ModArith
  import opened Wrappers
  import opened Ledger
  import opened LadderPool
  import opened LadderRuns

  // ---- slots worth more than the book ----

  predicate Overhangs(w: World) { Worth(w.st.slots) > 100 * w.st.pb }

  /** Some way for the pending operations to settle leaves slots worth more than the book. */
  ghost predicate CanOverhang(w: World) { exists es :: Settling(es) && Overhangs(Run(w, es)) }

  lemma {:induction false} SolventReplace(w: World, i: nat, w': World)
    requires Solvent(w) && i < |w.ops| && i < |w'.ops| && w'.ops == w.ops[i := w'.ops[i]]
    requires var c, c' := ClaimOf(w.ops[i]), ClaimOf(w'.ops[i]);
             Worth(w'.st.slots) + c'.slack + 100 * w.st.pb <= Worth(w.st.slots) + c.slack + 100 * w'.st.pb
    ensures Solvent(w')
  {
    ClaimsUpdate(w.ops, i, w'.ops[i]);
  }

  lemma {:induction false} SlotSum(s: Slots, t: Slots)
    ensures Worth(Plus(s, t)) == Worth(s) + Worth(t)
  {}

  /** Receipts and callbacks keep a pool solvent, whatever the receipts say. */
  lemma {:induction false} SettleKeeps(w: World, e: Event)
    requires Solvent(w) && (e.Deliver? || e.Callback?)
    ensures Solvent(Next(w, e))
  {
    var w' := Next(w, e);
    if e.i < |w.ops| {
      var op := w.ops[e.i];
      assert w.ops == w.ops[e.i := op];
      if e.Callback? && op.SwapOp? { SlotSum(w.st.slots, op.args.c); }
      if e.Callback? && op.WithdrawOp? { SlotSum(w.st.slots, op.wd.x); }
      SolventReplace(w, e.i, w');
    }
  }

  lemma {:induction false} SettlingKeeps(w: World, es: seq<Event>)
    requires Solvent(w) && Settling(es)
    ensures !Overhangs(Run(w, es))
    decreases |es|
  {
    if es != [] {
      SettleKeeps(w, es[0]);
      SettlingKeeps(Next(w, es[0]), es[1..]);
    }
  }

  lemma {:induction false} SomeSlack(ops: seq<Op>) returns (i: nat)
    requires Claims(ops).slack > 0
    ensures i < |ops| && ClaimOf(ops[i]).slack > 0
    decreases |ops|
  {
    i := |ops| - 1;
    if ClaimOf(ops[i]).slack == 0 { i := SomeSlack(ops[..i]); }
  }

  /** Failing the payouts that hold slack, one by one, hands it all back to the slots. */
  lemma {:induction false} OverhangingRun(w: World) returns (es: seq<Event>)
    requires Backed(w) && !Solvent(w)
    ensures Settling(es) && Overhangs(Run(w, es))
    decreases Claims(w.ops).slack, 1
  {
    if Claims(w.ops).slack == 0 { return []; }
    var i := SomeSlack(w.ops);
    if w.ops[i].receipt.InFlight? {
      var e := Deliver(i, false, false);
      var w1 := Next(w, e);
      assert ClaimOf(w1.ops[i]) == ClaimOf(w.ops[i]);
      ClaimsUpdate(w.ops, i, w1.ops[i]);
      es := OverhangingTail(w1, i);
      RunCons(w, e, es);
      es := [e] + es;
    } else {
      es := OverhangingTail(w, i);
    }
  }

  lemma {:induction false} OverhangingTail(w: World, i: nat) returns (es: seq<Event>)
    requires Backed(w) && !Solvent(w) && i < |w.ops| && ClaimOf(w.ops[i]).slack > 0 && w.ops[i].receipt.Returned?
    ensures Settling(es) && Overhangs(Run(w, es))
    decreases Claims(w.ops).slack, 0
  {
    var e := Callback(i);
    var w1 := Next(w, e);
    ClaimCovered(w.ops, i);
    if w.ops[i].SwapOp? { SlotSum(w.st.slots, w.ops[i].args.c); } else { SlotSum(w.st.slots, w.ops[i].wd.x); }
    ClaimsUpdate(w.ops, i, w1.ops[i]);
    BackedCallback(w, i);
    es := OverhangingRun(w1);
    RunCons(w, e, es);
    es := [e] + es;
  }

  /** After a withdrawal that strands no payout, some settling of the pending operations
      leaves slots worth more than the book if and only if the withdrawal leaves no room for
      their slack. */
  lemma {:induction false} OverhangsIff(w: World, who: Account, n: nat)
    requires Inv(w) && Withdraws(w.st, who, n) && Leaves(w.st, n, Claims(w.ops).u)
    ensures CanOverhang(WithdrawStep(w, who, n)) <==> !Room(w.st, n, Claims(w.ops).slack)
  {
    var w' := WithdrawStep(w, who, n);
    SolventIff(w, who, n);
    BackedWithdraw(w, who, n);
    if Solvent(w') {
      forall es | Settling(es) ensures !Overhangs(Run(w', es)) { SettlingKeeps(w', es); }
    } else {
      var es := OverhangingRun(w');
    }
  }

  // ---- a pool without B ----

  /** Shares are out, but the book and the ladder are empty and no payout is awaited. */
  predicate Locked(w: World) {
    w.st.pb == 0 && w.st.sht > 0 && Total(w.st.slots) == 0 && Quiet(w.ops)
  }

  lemma {:induction false} EmptyWalk(s: Slots, amt: nat)
    requires Total(s) == 0
    ensures PoolSwap(s, amt) == Walk(s, 0, amt, 0)
  {
    EmptySlot(amt, s.s0, 98);
    EmptySlot(amt, s.s1, 99);
    EmptySlot(amt, s.s2, 100);
    EmptySlot(amt, s.s3, 101);
    EmptySlot(amt, s.s4, 102);
  }

  lemma {:induction false} EmptySlot(dx: nat, la: nat, p: nat)
    requires la == 0
    ensures SlotStep(dx, la, p) == Step(dx, 0, 0, 0)
  {}

  lemma {:induction false} LockedSwap(st: State, amt: nat, min: Option<nat>)
    requires Total(st.slots) == 0
    ensures SwapState(st, amt, min) == st && !SwapReply(st, amt, min).Payout?
  {
    EmptyWalk(st.slots, amt);
  }

  lemma {:induction false} LockedStep(w: World, e: Event)
    requires Locked(w)
    ensures Next(w, e).st == w.st && Locked(Next(w, e))
  {
    match e
    case DepositIn(_, _) =>
    case SwapIn(amt, min) => LockedSwap(w.st, amt, min);
    case RawSwap(amt) => EmptyWalk(w.st.slots, amt);
    case Withdraw(_, _) =>
    case Deliver(i, _, _) =>
    case Callback(i) =>
  }

  /** Nothing anyone does changes a locked pool: its A stays inside, and no share redeems. */
  lemma {:induction false} LockedForever(w: World, es: seq<Event>)
    requires Locked(w)
    ensures Run(w, es).st == w.st && Locked(Run(w, es))
    decreases |es|
  {
    if es != [] {
      LockedStep(w, es[0]);
      LockedForever(Next(w, es[0]), es[1..]);
    }
  }

  /** A slot's worth has no fraction of B. */
  predicate Whole(p: nat, la: nat) { p * la % 100 == 0 }

  predicate WholeSlots(s: Slots) {
    Whole(98, s.s0) && Whole(99, s.s1) && Whole(100, s.s2) && Whole(101, s.s3) && Whole(102, s.s4)
  }

  /** A swap pays out the whole book if and only if it buys the whole ladder, the ladder is
      worth the whole book, and no slot's worth is rounded. */
  lemma {:induction false} EmptiesIff(w: World, amt: nat, min: Option<nat>)
    requires Inv(w) && SwapReply(w.st, amt, min).Payout?
    ensures var st' := SwapState(w.st, amt, min);
            st'.pb == 0 <==> Total(w.st.slots) <= amt && Worth(w.st.slots) == 100 * w.st.pb && WholeSlots(w.st.slots)
    ensures SwapState(w.st, amt, min).pb == 0 ==> Total(SwapState(w.st, amt, min).slots) == 0
  {
    var s, k := w.st.slots, PoolSwap(w.st.slots, amt);
    WalkShape(s, amt);
    WalkWhole(s, amt);
    WalkValue(s, amt);
  }

  /** A walk pays a hundredth of the ladder's worth exactly when it buys all of it and loses
      nothing to rounding. */
  lemma {:induction false} WalkWhole(s: Slots, amt: nat)
    ensures var k := PoolSwap(s, amt);
            && (100 * k.dy == Worth(s) <==> Total(s) <= amt && WholeSlots(s))
            && (100 * k.dy == Worth(s) ==> Total(k.slots) == 0)
  {
    var a := SlotStep(amt, s.s0, 98);
    var b := SlotStep(a.rem, s.s1, 99);
    var c := SlotStep(b.rem, s.s2, 100);
    var d := SlotStep(c.rem, s.s3, 101);
    SlotWhole(amt, s.s0, 98);
    SlotWhole(a.rem, s.s1, 99);
    SlotWhole(b.rem, s.s2, 100);
    SlotWhole(c.rem, s.s3, 101);
    SlotWhole(d.rem, s.s4, 102);
  }

  lemma {:induction false} SlotWhole(dx: nat, la: nat, p: nat)
    requires p > 0
    ensures var k := SlotStep(dx, la, p);
            && 100 * k.dy <= p * la && (100 * k.dy == p * la <==> la <= dx && Whole(p, la))
            && (la <= dx ==> k.left == 0 && k.rem == dx - la) && k.left <= la && (la > dx ==> k.rem == 0)
  {
    var used := if dx < la then dx else la;
    Floor(used * p, 100);
    MulMono(used, la, p);
    if dx < la { MulMono(used + 1, la, p); }
  }

  predicate Draining(es: seq<Event>) {
    && |es| == 4 && es[0].DepositIn? && es[0].amt == 208229175
    && es[1].SwapIn? && es[1].amt == 207920920 && es[1].min == Some(0)
    && es[2].Deliver? && es[2].i == 1 && es[2].ok && es[2].said && es[3].Callback? && es[3].i == 1
  }

  /** A deposit whose ladder is worth exactly the book. */
  predicate Filled(st: State) {
    && st.slots == Slots(16998300, 33653200, 83291670, 49480200, 24497550)
    && st.f == 0 && st.ab == 0 && st.pb == 208229175 && st.sht == 208229175
  }

  /** The book and the ladder are empty, and a swap's whole input is inside. */
  predicate Emptied(st: State, amt: nat) { st.pb == 0 && st.sht > 0 && Total(st.slots) == 0 && st.ab == amt }

  /** A first deposit, and one swap that is paid all of it: the pool is locked with the
      swap's whole input inside. */
  lemma {:induction false} DrainingLocks(w: World, es: seq<Event>)
    requires Fresh(w) && Draining(es)
    ensures Locked(Run(w, es)) && Run(w, es).st.ab == 207920920
  {
    var d, s := es[0], es[1];
    FourSteps(w, es);
    DrainFill(w, d.who, d.amt);
    var w1 := DepositStep(w, d.who, d.amt);
    FilledEmpties(w1.st, s.amt);
    DrainRun(w1, s.amt, s.min, es[2].i);
  }

  /** The first swap's walk pays the whole book and takes the whole input. */
  predicate Empties(st: State, amt: nat, k: Walk) {
    && k.dy == st.pb > 0 && k.rem == 0 && Total(k.slots) == 0 && 10000 * k.fee <= 30 * amt
    && amt <= CAP_TOTAL && st.ab == 0 && st.f == 0 && st.sht > 0
  }

  lemma {:induction false} FilledEmpties(st: State, amt: nat)
    requires Filled(st) && amt == 207920920
    ensures Empties(st, amt, PoolSwap(st.slots, amt))
  {
    DrainWalk(st.slots, amt);
  }

  lemma {:induction false} DrainRun(w: World, amt: nat, min: Option<nat>, i: nat)
    requires Empties(w.st, amt, PoolSwap(w.st.slots, amt)) && |w.ops| == 1 && !w.ops[0].SwapOp? && !w.ops[0].WithdrawOp?
    requires min == Some(0) && i == 1
    ensures var w' := CallbackStep(DeliverStep(SwapStep(w, amt, min), i, true, true), i);
            Emptied(w'.st, amt) && Quiet(w'.ops)
  {
    var k, w1 := PoolSwap(w.st.slots, amt), SwapStep(w, amt, min);
    WalkShape(w.st.slots, amt);
    SwapIs(w, amt, min, k);
    EmptyingSwap(w, w1, amt, 0, k);
    DrainPaid(w1, i);
  }

  lemma {:induction false} SwapIs(w: World, amt: nat, min: Option<nat>, k: Walk)
    requires WellFormed(amt, min) && k == PoolSwap(w.st.slots, amt) && WalkOf(k, w.st.slots, amt)
    ensures SwapStep(w, amt, min).st == Booked(w.st, amt, min.value, k)
    ensures SwapStep(w, amt, min).ops == w.ops + [OpFor(Reply(w.st, amt, min.value, k), amt)]
  {}

  lemma {:induction false} EmptyingSwap(w: World, w': World, amt: nat, min: nat, k: Walk)
    requires WalkOf(k, w.st.slots, amt) && Empties(w.st, amt, k) && |w.ops| == 1 && min == 0
    requires w'.st == Booked(w.st, amt, min, k) && w'.ops == w.ops + [OpFor(Reply(w.st, amt, min, k), amt)]
    ensures Emptied(w'.st, amt) && |w'.ops| == 2 && w'.ops[0] == w.ops[0]
    ensures w'.ops[1].SwapOp? && w'.ops[1].receipt == InFlight
  {}

  lemma {:induction false} FourSteps(w: World, es: seq<Event>)
    requires |es| == 4 && es[0].DepositIn? && es[1].SwapIn? && es[2].Deliver? && es[2].ok && es[2].said
    requires es[3].Callback? && es[3].i == es[2].i
    ensures var w2 := SwapStep(DepositStep(w, es[0].who, es[0].amt), es[1].amt, es[1].min);
            Run(w, es) == CallbackStep(DeliverStep(w2, es[2].i, true, true), es[2].i)
  {
    var a, b := es[1..], es[2..];
    assert a[1..] == b;
    TwoSteps(Next(Next(w, es[0]), a[0]), b);
    assert Run(Next(w, es[0]), a) == Run(Next(Next(w, es[0]), a[0]), b);
  }

  lemma {:induction false} DrainFill(w: World, who: Account, amt: nat)
    requires Fresh(w) && amt == 208229175
    ensures var w' := DepositStep(w, who, amt);
            Filled(w'.st) && |w'.ops| == 1 && !w'.ops[0].SwapOp? && !w'.ops[0].WithdrawOp?
  {
    DrainWiden(w.st.slots, amt);
    DrainAccepted(w.st, amt);
  }

  lemma {:induction false} DrainWiden(s: Slots, amt: nat)
    requires Total(s) == 0 && amt == 208229175
    ensures WidenAll(s, amt) == Slots(16998300, 33653200, 83291670, 49480200, 24497550)
  {
    DrainLow(s, amt);
    DrainHigh(s, amt);
    WidenTo(s, amt, Slots(16998300, 33653200, 83291670, 49480200, 24497550));
  }

  lemma {:induction false} DrainLow(s: Slots, amt: nat)
    requires Total(s) == 0 && amt == 208229175
    ensures Widen(s.s0, 1000, amt, 12500, 98) == 16998300 && Widen(s.s1, 2000, amt, 12500, 99) == 33653200
  {
    WidenIs(s.s0, 1000, amt, 12500, 98, 16658334, 16998300);
    WidenIs(s.s1, 2000, amt, 12500, 99, 33316668, 33653200);
  }

  lemma {:induction false} DrainHigh(s: Slots, amt: nat)
    requires Total(s) == 0 && amt == 208229175
    ensures Widen(s.s2, 5000, amt, 12500, 100) == 83291670
    ensures Widen(s.s3, 3000, amt, 12500, 101) == 49480200 && Widen(s.s4, 1500, amt, 12500, 102) == 24497550
  {
    WidenIs(s.s2, 5000, amt, 12500, 100, 83291670, 83291670);
    WidenIs(s.s3, 3000, amt, 12500, 101, 49975002, 49480200);
    WidenIs(s.s4, 1500, amt, 12500, 102, 24987501, 24497550);
  }

  lemma {:induction false} DrainAccepted(st: State, amt: nat)
    requires amt == 208229175 && st.sht == 0 && st.pb == 0 && Total(st.slots) == 0
    requires WidenAll(st.slots, amt) == Slots(16998300, 33653200, 83291670, 49480200, 24497550)
    ensures Accepts(st, amt) && DepositShares(st, amt) == Some(amt)
  {}

  lemma {:induction false} DrainWalk(s: Slots, amt: nat)
    requires s == Slots(16998300, 33653200, 83291670, 49480200, 24497550) && amt == 207920920
    ensures var k := PoolSwap(s, amt);
            k.dy == 208229175 && k.rem == 0 && Total(k.slots) == 0 && 10000 * k.fee <= 30 * amt
  {
    DrainWorth(s, amt);
    WalkWhole(s, amt);
    WalkValue(s, amt);
    WalkExact(s, amt);
  }

  lemma {:induction false} DrainWorth(s: Slots, amt: nat)
    requires s == Slots(16998300, 33653200, 83291670, 49480200, 24497550) && amt == 207920920
    ensures Total(s) == amt && Worth(s) == 100 * 208229175 && WholeSlots(s)
  {}

  /** The receipt comes back as paid, and the callback finds nothing to do. */
  lemma {:induction false} DrainPaid(w: World, i: nat)
    requires |w.ops| == 2 && !w.ops[0].SwapOp? && !w.ops[0].WithdrawOp? && w.ops[1].SwapOp?
             && w.ops[1].receipt == InFlight
    requires i == 1
    ensures var w' := CallbackStep(DeliverStep(w, i, true, true), i); w'.st == w.st && Quiet(w'.ops)
  {
    PaidOp(w, i);
    SettledOp(DeliverStep(w, i, true, true), i);
  }

  lemma {:induction false} PaidOp(w: World, i: nat)
    requires |w.ops| == 2 && w.ops[1].SwapOp? && w.ops[1].receipt == InFlight && i == 1
    ensures var w' := DeliverStep(w, i, true, true);
            && w'.st == w.st && |w'.ops| == 2 && w'.ops[0] == w.ops[0]
            && w'.ops[1].SwapOp? && w'.ops[1].receipt.Paid()
  {}

  lemma {:induction false} SettledOp(w: World, i: nat)
    requires |w.ops| == 2 && w.ops[1].SwapOp? && w.ops[1].receipt.Paid() && i == 1
    ensures var w' := CallbackStep(w, i);
            w'.st == w.st && |w'.ops| == 2 && w'.ops[0] == w.ops[0] && w'.ops[1].RefundA?
  {}

  /** Withdrawing every share while the swap of one hundred A is unpaid leaves no room for
      the payout's slack, and a walk's rounding loss comes back to an empty book. */
  lemma {:induction false} HastyExitInsolvent(w: World, es: seq<Event>)
    requires Fresh(w) && Hasty(es)
    ensures var w2 := Run(w, es);
            Inv(w2) && Withdraws(w2.st, "lp", 1000) && !Solvent(WithdrawStep(w2, "lp", 1000))
  {
    HastyInv(w, es);
    HastyOpen(w, es);
    var w2 := Run(w, es);
    HastyAll(w2.st, 1000);
    ClaimCovered(w2.ops, 1);
    SolventIff(w2, "lp", 1000);
  }

  lemma {:induction false} HastyAll(st: State, n: nat)
    requires Sold(st) && n == 1000
    ensures Withdraws(st, "lp", n) && OutB(st, n) == st.pb
    ensures Room(st, n, 0) && forall slack: nat :: slack > 0 ==> !Room(st, n, slack)
  {}
}
