/** Whole runs of the ladder pool: receipts in flight, callbacks, refunds, and the two
    token balances the pool holds. */
module LadderRuns {
  import opened ModArith
  import opened Wrappers
  import opened Ledger
  import opened LadderPool

  /** An awaited transfer, before and after its outcome is known: whether the tokens moved,
      and whether the promise result is non-empty, which is all the callbacks look at. */
  datatype Receipt = InFlight | Returned(moved: bool, said: bool) {
    predicate Paid() { Returned? && said }
    predicate Moved() { Returned? && moved }
  }

  /** What is still to happen: an awaited payout and its callback, a second withdrawal leg
      (which has no callback), or a token contract's refund. */
  datatype Op =
    | SwapOp(args: SwapArgs, receipt: Receipt)
    | WithdrawOp(wd: WithdrawArgs, receipt: Receipt)
    | SecondLeg(amount: nat)
    | RefundA(amount: nat)
    | RefundB(amount: nat)
    | Done

  /** The pool's storage, its balances in both token contracts, and the B that no book
      claims since a second leg failed. */
  datatype World = World(st: State, balA: nat, balB: nat, orphanB: nat, ops: seq<Op>)

  datatype Event =
    | DepositIn(who: Account, amt: nat)
    | SwapIn(amt: nat, min: Option<nat>)
    | RawSwap(amt: nat)
    | Withdraw(who: Account, shares: nat)
    | Deliver(i: nat, ok: bool, said: bool)
    | Callback(i: nat)

  // ---- steps ----

  function Less(bal: nat, n: nat): nat { if n <= bal then bal - n else 0 }

  /** An incoming B transfer; what the entry point does not keep is refunded later. */
  function DepositStep(w: World, who: Account, amt: nat): World {
    w.(st := Deposit(w.st, who, amt), balB := w.balB + amt,
       ops := w.ops + [RefundB(if Accepts(w.st, amt) then 0 else amt)])
  }

  function SwapStep(w: World, amt: nat, min: Option<nat>): World {
    w.(st := SwapState(w.st, amt, min), balA := w.balA + amt, ops := w.ops + [OpFor(SwapReply(w.st, amt, min), amt)])
  }

  function OpFor(r: SwapCall, amt: nat): Op {
    match r
    case Reject => RefundA(amt)
    case Keep(rem) => RefundA(rem)
    case Payout(args) => SwapOp(args, InFlight)
  }

  /** The dispatch entry's bare walk: anyone may call it. */
  function RawStep(w: World, amt: nat): World {
    var k := PoolSwap(w.st.slots, amt);
    if amt >= MAX_INPUT || w.st.f + k.fee >= TWO128 then w
    else w.(st := w.st.(slots := k.slots, f := w.st.f + k.fee))
  }

  function WithdrawStep(w: World, who: Account, n: nat): World {
    if !Withdraws(w.st, who, n) then w
    else w.(st := WithdrawState(w.st, who, n), ops := w.ops + [WithdrawOp(WithdrawCall(w.st, who, n), InFlight)])
  }

  /** A transfer moves tokens only if the balance covers it. */
  predicate Moves(w: World, op: Op, ok: bool) {
    match op
    case SwapOp(args, _) => ok && args.d <= w.balB
    case WithdrawOp(wd, _) => ok && (if wd.a == 0 then wd.b <= w.balB else wd.a <= w.balA)
    case SecondLeg(b) => ok && b <= w.balB
    case _ => false
  }

  /** A receipt's outcome, and what an awaited one says of it; a refund takes what the
      balance has. */
  function DeliverStep(w: World, i: nat, ok: bool, said: bool): World {
    if i >= |w.ops| then w
    else
      var moved := Moves(w, w.ops[i], ok);
      match w.ops[i]
      case SwapOp(args, InFlight) =>
        w.(balB := if moved then w.balB - args.d else w.balB, ops := w.ops[i := SwapOp(args, Returned(moved, said))])
      case WithdrawOp(wd, InFlight) =>
        w.(balA := if moved && wd.a > 0 then w.balA - wd.a else w.balA,
           balB := if moved && wd.a == 0 then w.balB - wd.b else w.balB,
           ops := w.ops[i := WithdrawOp(wd, Returned(moved, said))])
      case SecondLeg(b) =>
        w.(balB := if moved then w.balB - b else w.balB,
           orphanB := if moved then w.orphanB else w.orphanB + b, ops := w.ops[i := Done])
      case RefundA(n) => w.(balA := Less(w.balA, n), ops := w.ops[i := Done])
      case RefundB(n) => w.(balB := Less(w.balB, n), ops := w.ops[i := Done])
      case _ => w
  }

  /** A callback runs once its receipt has returned. */
  function CallbackStep(w: World, i: nat): World {
    if i >= |w.ops| then w
    else
      match w.ops[i]
      case SwapOp(args, Returned(_, said)) =>
        w.(st := PayOut(w.st, args, said), ops := w.ops[i := RefundA(if said then args.r else args.a)])
      case WithdrawOp(wd, Returned(_, said)) =>
        w.(st := PayB(w.st, wd, said), ops := w.ops[i := if said && wd.a > 0 then SecondLeg(wd.b) else Done])
      case _ => w
  }

  function Next(w: World, e: Event): World {
    match e
    case DepositIn(who, amt) => DepositStep(w, who, amt)
    case SwapIn(amt, min) => SwapStep(w, amt, min)
    case RawSwap(amt) => RawStep(w, amt)
    case Withdraw(who, n) => WithdrawStep(w, who, n)
    case Deliver(i, ok, said) => DeliverStep(w, i, ok, said)
    case Callback(i) => CallbackStep(w, i)
  }

  function Run(w: World, es: seq<Event>): World
    decreases |es|
  {
    if es == [] then w else Run(Next(w, es[0]), es[1..])
  }

  // ---- claims of pending operations ----

  /** The B value of slot amounts, times 100. */
  function Worth(s: Slots): nat { 98 * s.s0 + 99 * s.s1 + 100 * s.s2 + 101 * s.s3 + 102 * s.s4 }

  /** What a pending operation may still subtract from AB and F, the rounding slack its
      reversal would hand back to the slots, and the tokens it still owns. */
  datatype Claim = Claim(u: nat, f: nat, slack: nat, a: nat, b: nat)

  function Slack(x: Slots, d: nat): nat {
    if Worth(x) >= 100 * d then Worth(x) - 100 * d else 0
  }

  function ClaimOf(op: Op): Claim {
    match op
    case SwapOp(args, receipt) =>
      var b := if receipt.Moved() then 0 else args.d;
      if receipt.Paid() then Claim(0, 0, 0, args.r, b) else Claim(args.u, args.f, Slack(args.c, args.d), args.r, b)
    case WithdrawOp(wd, receipt) =>
      Claim(0, 0, if receipt.Paid() then 0 else Slack(wd.x, wd.b), if receipt.Moved() then 0 else wd.a,
            if receipt.Moved() && wd.a == 0 then 0 else wd.b)
    case SecondLeg(b) => Claim(0, 0, 0, 0, b)
    case RefundA(n) => Claim(0, 0, 0, n, 0)
    case RefundB(n) => Claim(0, 0, 0, 0, n)
    case Done => Claim(0, 0, 0, 0, 0)
  }

  function AddClaim(x: Claim, y: Claim): Claim {
    Claim(x.u + y.u, x.f + y.f, x.slack + y.slack, x.a + y.a, x.b + y.b)
  }

  function Claims(ops: seq<Op>): Claim {
    if ops == [] then Claim(0, 0, 0, 0, 0) else AddClaim(Claims(ops[..|ops| - 1]), ClaimOf(ops[|ops| - 1]))
  }

  lemma {:induction false} ClaimsAppend(ops: seq<Op>, op: Op)
    ensures Claims(ops + [op]) == AddClaim(Claims(ops), ClaimOf(op))
  {
    assert (ops + [op])[..|ops|] == ops;
  }

  lemma {:induction false} ClaimsUpdate(ops: seq<Op>, i: nat, op: Op)
    requires i < |ops|
    ensures AddClaim(Claims(ops[i := op]), ClaimOf(ops[i])) == AddClaim(Claims(ops), ClaimOf(op))
    decreases |ops|
  {
    var n, ops' := |ops| - 1, ops[i := op];
    ClaimsLast(ops);
    ClaimsLast(ops');
    if i == n {
      assert ops'[..n] == ops[..n];
      Swap(Claims(ops[..n]), ClaimOf(op), ClaimOf(ops[n]));
    } else {
      assert ops'[..n] == ops[..n][i := op];
      ClaimsUpdate(ops[..n], i, op);
      Swap(Claims(ops'[..n]), ClaimOf(ops[n]), ClaimOf(ops[i]));
      Swap(Claims(ops[..n]), ClaimOf(ops[n]), ClaimOf(op));
    }
  }

  lemma {:induction false} ClaimsLast(ops: seq<Op>)
    requires ops != []
    ensures Claims(ops) == AddClaim(Claims(ops[..|ops| - 1]), ClaimOf(ops[|ops| - 1]))
  {
  }

  lemma {:induction false} Swap(x: Claim, y: Claim, z: Claim)
    ensures AddClaim(AddClaim(x, y), z) == AddClaim(AddClaim(x, z), y)
  {
  }

  lemma {:induction false} ClaimCovered(ops: seq<Op>, i: nat)
    requires i < |ops|
    ensures var c, t := ClaimOf(ops[i]), Claims(ops);
            c.u <= t.u && c.f <= t.f && c.slack <= t.slack && c.a <= t.a && c.b <= t.b
    decreases |ops|
  {
    if i < |ops| - 1 { ClaimCovered(ops[..|ops| - 1], i); }
  }

  // ---- the invariant ----

  /** The slots are worth no more B than the book holds, slack included. */
  predicate Solvent(w: World) { Worth(w.st.slots) + Claims(w.ops).slack <= 100 * w.st.pb }

  /** Every pending reversal finds the A and the fees it subtracts. */
  predicate Backed(w: World) { Claims(w.ops).u <= w.st.ab && Claims(w.ops).f <= w.st.f }

  /** The token balances are the books plus what pending operations own. */
  predicate Balanced(w: World) {
    && w.balA == w.st.ab + Claims(w.ops).a
    && w.balB == w.st.pb + Claims(w.ops).b + w.orphanB
  }

  /** A pending swap's arguments: its input splits into used and unspent, and it pays
      something, but no more than its slots are worth. */
  predicate Priced(op: Op) {
    op.SwapOp? ==> op.args.a == op.args.u + op.args.r && 0 < 100 * op.args.d <= Worth(op.args.c)
  }

  /** A returned receipt is non-empty exactly when its tokens moved. */
  predicate Honest(op: Op) {
    (op.SwapOp? || op.WithdrawOp?) && op.receipt.Returned? ==> op.receipt.moved == op.receipt.said
  }

  predicate Fair(op: Op) { Priced(op) && Honest(op) }

  predicate AllFair(ops: seq<Op>) { forall i :: 0 <= i < |ops| ==> Fair(ops[i]) }

  predicate Inv(w: World) { Solvent(w) && Backed(w) && Balanced(w) && AllFair(w.ops) }

  /** No awaited payout: only second legs and refunds may be under way. */
  predicate Quiet(ops: seq<Op>) { forall i :: 0 <= i < |ops| ==> !ops[i].SwapOp? && !ops[i].WithdrawOp? }

  /** Withdrawals leave room for what pending operations may hand back and the A they may
      take, as every one from a quiet pool does, and receipts are honest. */
  predicate Proper(w: World, e: Event) {
    && (e.Withdraw? && Withdraws(w.st, e.who, e.shares) ==> Admitted(w, e.shares))
    && (e.Deliver? && e.i < |w.ops| ==> e.said == Moves(w, w.ops[e.i], e.ok))
  }

  predicate Disciplined(w: World, es: seq<Event>)
    decreases |es|
  {
    es == [] || (Proper(w, es[0]) && Disciplined(Next(w, es[0]), es[1..]))
  }

  lemma {:induction false} QuietClaims(ops: seq<Op>)
    requires Quiet(ops)
    ensures Claims(ops).u == 0 && Claims(ops).f == 0 && Claims(ops).slack == 0
    decreases |ops|
  {
    if ops != [] { QuietClaims(ops[..|ops| - 1]); }
  }

  // ---- rounding ----

  /** A walk takes from the slots what it uses, and pays no more B than they are worth. */
  lemma {:induction false} WalkValue(s: Slots, amt: nat)
    ensures var w := PoolSwap(s, amt);
            Below(w.slots, s) && w.rem <= amt && amt - w.rem == Total(s) - Total(w.slots)
            && 100 * w.dy <= Worth(s) - Worth(w.slots)
  {}

  /** A walk loses less than one B per slot to rounding, and charges the fee on what it used. */
  lemma {:induction false} WalkExact(s: Slots, amt: nat)
    ensures var w := PoolSwap(s, amt); var used := amt - w.rem;
            && Worth(s) - Worth(w.slots) < 100 * w.dy + 500
            && 10000 * w.fee <= 30 * used < 10000 * w.fee + 50000
  {}

  /** A walk takes slots from the cheapest on, and returns input only from an empty ladder. */
  lemma {:induction false} WalkOrder(s: Slots, amt: nat)
    ensures var w := PoolSwap(s, amt);
            && (w.rem > 0 ==> Total(w.slots) == 0)
            && (w.slots.s1 < s.s1 ==> w.slots.s0 == 0) && (w.slots.s2 < s.s2 ==> w.slots.s1 == 0)
            && (w.slots.s3 < s.s3 ==> w.slots.s2 == 0) && (w.slots.s4 < s.s4 ==> w.slots.s3 == 0)
  {
  }

  /** A widened slot grows by at most its share of the deposit. */
  lemma {:induction false} WidenValue(slot: nat, base: nat, amt: nat, tot: nat, p: nat)
    requires tot > 0 && p > 0
    ensures slot <= Widen(slot, base, amt, tot, p)
    ensures (Widen(slot, base, amt, tot, p) - slot) * p * tot <= base * (100 * amt)
  {}

  lemma {:induction false} Spread(a: nat, b: nat, c: nat, d: nat, e: nat, t: nat)
    ensures (a + b + c + d + e) * t == a * t + b * t + c * t + d * t + e * t
  {
  }

  lemma {:induction false} SumShares5(t: nat, amt: nat, b0: nat, b1: nat, b2: nat, b3: nat, b4: nat,
                     x0: nat, x1: nat, x2: nat, x3: nat, x4: nat)
    requires t > 0 && t == b0 + b1 + b2 + b3 + b4
    requires x0 * t <= b0 * (100 * amt) && x1 * t <= b1 * (100 * amt) && x2 * t <= b2 * (100 * amt)
    requires x3 * t <= b3 * (100 * amt) && x4 * t <= b4 * (100 * amt)
    ensures x0 + x1 + x2 + x3 + x4 <= 100 * amt
  {
    var k := 100 * amt;
    Spread(x0, x1, x2, x3, x4, t);
    Spread(b0, b1, b2, b3, b4, k);
    assert t * k == (b0 + b1 + b2 + b3 + b4) * k;
    MulCancelLe(x0 + x1 + x2 + x3 + x4, k, t);
  }

  /** A deposit of `amt` adds at most `amt` worth of slots. */
  lemma {:induction false} WidenWorth(s: Slots, amt: nat)
    ensures Below(s, WidenAll(s, amt)) && Worth(WidenAll(s, amt)) <= Worth(s) + 100 * amt
  {
    if Total(s) == 0 {
      WidenParts(s, Slots(1000, 2000, 5000, 3000, 1500), amt);
    } else {
      WidenParts(s, s, amt);
    }
  }

  lemma {:induction false} WidenParts(s: Slots, b: Slots, amt: nat)
    requires Total(b) > 0
    ensures var r := Slots(Widen(s.s0, b.s0, amt, Total(b), 98), Widen(s.s1, b.s1, amt, Total(b), 99),
                           Widen(s.s2, b.s2, amt, Total(b), 100), Widen(s.s3, b.s3, amt, Total(b), 101),
                           Widen(s.s4, b.s4, amt, Total(b), 102));
            Below(s, r) && Worth(r) <= Worth(s) + 100 * amt
  {
    var t := Total(b);
    WidenValue(s.s0, b.s0, amt, t, 98);
    WidenValue(s.s1, b.s1, amt, t, 99);
    WidenValue(s.s2, b.s2, amt, t, 100);
    WidenValue(s.s3, b.s3, amt, t, 101);
    WidenValue(s.s4, b.s4, amt, t, 102);
    SumShares5(t, amt, b.s0, b.s1, b.s2, b.s3, b.s4,
               (Widen(s.s0, b.s0, amt, t, 98) - s.s0) * 98, (Widen(s.s1, b.s1, amt, t, 99) - s.s1) * 99,
               (Widen(s.s2, b.s2, amt, t, 100) - s.s2) * 100, (Widen(s.s3, b.s3, amt, t, 101) - s.s3) * 101,
               (Widen(s.s4, b.s4, amt, t, 102) - s.s4) * 102);
  }

  /** A widened slot misses its share of the deposit by less than one B and its own price. */
  lemma {:induction false} WidenLoss(slot: nat, base: nat, amt: nat, tot: nat, p: nat)
    requires tot > 0 && p > 0
    ensures amt * base * 100 < ((Widen(slot, base, amt, tot, p) - slot) * p + p + 100) * tot
  {}

  lemma {:induction false} SumLoss5(t: nat, amt: nat, b0: nat, b1: nat, b2: nat, b3: nat, b4: nat,
                                    x0: nat, x1: nat, x2: nat, x3: nat, x4: nat)
    requires t > 0 && t == b0 + b1 + b2 + b3 + b4
    requires amt * b0 * 100 < x0 * t && amt * b1 * 100 < x1 * t && amt * b2 * 100 < x2 * t
    requires amt * b3 * 100 < x3 * t && amt * b4 * 100 < x4 * t
    ensures 100 * amt < x0 + x1 + x2 + x3 + x4
  {
    var k, x := 100 * amt, x0 + x1 + x2 + x3 + x4;
    Hundred(amt, b0);
    Hundred(amt, b1);
    Hundred(amt, b2);
    Hundred(amt, b3);
    Hundred(amt, b4);
    Spread(b0, b1, b2, b3, b4, k);
    Spread(x0, x1, x2, x3, x4, t);
    assert t * k < x * t;
    assert x <= k ==> x * t <= k * t by { if x <= k { MulMono(x, k, t); } }
    assert t * k == k * t;
  }

  lemma {:induction false} Hundred(amt: nat, b: nat)
    ensures amt * b * 100 == b * (100 * amt)
  {
  }

  /** A deposit is laid out in the ladder up to a rounding loss below ten B. */
  lemma {:induction false} WidenFull(s: Slots, amt: nat)
    ensures Worth(s) + 100 * amt < Worth(WidenAll(s, amt)) + 1000
  {
    if Total(s) == 0 {
      WidenPartsFull(s, Slots(1000, 2000, 5000, 3000, 1500), amt);
    } else {
      WidenPartsFull(s, s, amt);
    }
  }

  lemma {:induction false} WidenPartsFull(s: Slots, b: Slots, amt: nat)
    requires Total(b) > 0
    ensures var r := Slots(Widen(s.s0, b.s0, amt, Total(b), 98), Widen(s.s1, b.s1, amt, Total(b), 99),
                           Widen(s.s2, b.s2, amt, Total(b), 100), Widen(s.s3, b.s3, amt, Total(b), 101),
                           Widen(s.s4, b.s4, amt, Total(b), 102));
            Worth(s) + 100 * amt < Worth(r) + 1000
  {
    var t := Total(b);
    WidenLoss(s.s0, b.s0, amt, t, 98);
    WidenLoss(s.s1, b.s1, amt, t, 99);
    WidenLoss(s.s2, b.s2, amt, t, 100);
    WidenLoss(s.s3, b.s3, amt, t, 101);
    WidenLoss(s.s4, b.s4, amt, t, 102);
    SumLoss5(t, amt, b.s0, b.s1, b.s2, b.s3, b.s4,
             (Widen(s.s0, b.s0, amt, t, 98) - s.s0) * 98 + 98 + 100,
             (Widen(s.s1, b.s1, amt, t, 99) - s.s1) * 99 + 99 + 100,
             (Widen(s.s2, b.s2, amt, t, 100) - s.s2) * 100 + 100 + 100,
             (Widen(s.s3, b.s3, amt, t, 101) - s.s3) * 101 + 101 + 100,
             (Widen(s.s4, b.s4, amt, t, 102) - s.s4) * 102 + 102 + 100);
  }

  /** A withdrawal scales the slots' worth by no more than it scales the book. */
  lemma {:induction false} ScaleWorth(s: Slots, num: nat, den: nat)
    requires den > 0 && num <= den && Worth(s) <= 100 * den
    ensures Worth(Scale(s, num, den)) <= 100 * num
  {
    var r := Scale(s, num, den);
    MulDivLe(s.s0, num, den);
    MulDivLe(s.s1, num, den);
    MulDivLe(s.s2, num, den);
    MulDivLe(s.s3, num, den);
    MulDivLe(s.s4, num, den);
    Weighted(r, s, num, den);
    ScaleBound(Worth(r), Worth(s), num, den);
  }

  lemma {:induction false} ScaleBound(r: nat, s: nat, num: nat, den: nat)
    requires den > 0 && r * den <= s * num && s <= 100 * den
    ensures r <= 100 * num
  {
    var k := 100 * den;
    assert s * num <= k * num;
    assert k * num == den * (100 * num);
    MulCancelLe(r, 100 * num, den);
  }

  lemma {:induction false} Weighted(r: Slots, s: Slots, num: nat, den: nat)
    requires r.s0 * den <= s.s0 * num && r.s1 * den <= s.s1 * num && r.s2 * den <= s.s2 * num
    requires r.s3 * den <= s.s3 * num && r.s4 * den <= s.s4 * num
    ensures Worth(r) * den <= Worth(s) * num
  {}

  // ---- every step keeps the invariant ----

  lemma {:induction false} DepositKeeps(w: World, who: Account, amt: nat)
    requires Inv(w)
    ensures Inv(DepositStep(w, who, amt))
  {
    if Accepts(w.st, amt) {
      WidenWorth(w.st.slots, amt);
      DepositBooks(w, DepositStep(w, who, amt), 0, amt);
    } else {
      DepositBooks(w, DepositStep(w, who, amt), amt, 0);
    }
  }

  lemma {:induction false} DepositBooks(w: World, w': World, back: nat, kept: nat)
    requires Inv(w) && w'.ops == w.ops + [RefundB(back)]
    requires w'.st.f == w.st.f && w'.st.ab == w.st.ab && w'.st.pb == w.st.pb + kept
    requires Worth(w'.st.slots) <= Worth(w.st.slots) + 100 * kept
    requires w'.balA == w.balA && w'.balB == w.balB + kept + back && w'.orphanB == w.orphanB
    ensures Inv(w')
  {}

  lemma {:induction false} SwapKeeps(w: World, amt: nat, min: Option<nat>)
    requires Inv(w)
    ensures Inv(SwapStep(w, amt, min))
  {
    WalkValue(w.st.slots, amt);
    if WellFormed(amt, min) {
      SwapBooks(w, amt, min.value, PoolSwap(w.st.slots, amt));
    } else {
      ClaimsAppend(w.ops, RefundA(amt));
    }
  }

  lemma {:induction false} SwapBooks(w: World, amt: nat, min: nat, k: Walk)
    requires Inv(w) && WalkOf(k, w.st.slots, amt) && 100 * k.dy <= Worth(w.st.slots) - Worth(k.slots)
    ensures var op := OpFor(Reply(w.st, amt, min, k), amt);
            Inv(w.(st := Booked(w.st, amt, min, k), balA := w.balA + amt, ops := w.ops + [op]))
  {
    var op := OpFor(Reply(w.st, amt, min, k), amt);
    var w' := w.(st := Booked(w.st, amt, min, k), balA := w.balA + amt, ops := w.ops + [op]);
    ClaimsAppend(w.ops, op);
    if Passes(w.st, amt, min, k) && k.dy > 0 { SlotDelta(w.st.slots, k.slots); }
    assert Fair(op);
    assert AllFair(w'.ops);
  }

  lemma {:induction false} SlotDelta(s: Slots, t: Slots)
    requires Below(t, s)
    ensures Worth(Minus(s, t)) == Worth(s) - Worth(t)
  {}

  lemma {:induction false} RawKeeps(w: World, amt: nat)
    requires Inv(w)
    ensures Inv(RawStep(w, amt))
  {}

  /** The slots a withdrawal leaves, with so much slack, are worth no more than the book it
      leaves. */
  predicate Room(st: State, n: nat, slack: nat)
    requires 0 < n <= st.sht && st.pb > 0
  {
    ShareBound(n, st.pb, st.sht);
    var pb := st.pb - OutB(st, n);
    Worth(Scale(st.slots, pb, st.pb)) + slack <= 100 * pb
  }

  /** The A a withdrawal leaves covers the inputs of all swaps whose payout has not returned
      as paid. */
  predicate Leaves(st: State, n: nat, u: nat) requires st.sht > 0 { u <= st.ab - OutA(st, n) }

  predicate Admitted(w: World, n: nat)
    requires 0 < n <= w.st.sht && w.st.pb > 0
  {
    Room(w.st, n, Claims(w.ops).slack) && Leaves(w.st, n, Claims(w.ops).u)
  }

  /** A quiet pool admits every withdrawal. */
  lemma {:induction false} QuietAdmits(w: World, n: nat)
    requires Inv(w) && Quiet(w.ops) && 0 < n <= w.st.sht && w.st.pb > 0
    ensures Admitted(w, n)
  {
    QuietClaims(w.ops);
    ShareBound(n, w.st.pb, w.st.sht);
    ShareBound(n, w.st.ab, w.st.sht);
    ScaleWorth(w.st.slots, w.st.pb - OutB(w.st, n), w.st.pb);
  }

  /** A withdrawal keeps the pool solvent if and only if it leaves room for the pending slack. */
  lemma {:induction false} SolventIff(w: World, who: Account, n: nat)
    requires Solvent(w) && Withdraws(w.st, who, n)
    ensures Solvent(WithdrawStep(w, who, n)) <==> Room(w.st, n, Claims(w.ops).slack)
  {
    ShareBound(n, w.st.pb, w.st.sht);
    var wd := WithdrawCall(w.st, who, n);
    var s' := Scale(w.st.slots, w.st.pb - wd.b, w.st.pb);
    ScaleBelow(w.st.slots, w.st.pb - wd.b, w.st.pb);
    SlotDelta(w.st.slots, s');
    ClaimsAppend(w.ops, WithdrawOp(wd, InFlight));
  }

  /** A withdrawal keeps the whole invariant exactly when it is admitted. */
  lemma {:induction false} WithdrawKeepsIff(w: World, who: Account, n: nat)
    requires Inv(w) && Withdraws(w.st, who, n)
    ensures Inv(WithdrawStep(w, who, n)) <==> Admitted(w, n)
  {
    SolventIff(w, who, n);
    BackedWithdraw(w, who, n);
    WithdrawBooks(w, who, n);
  }

  lemma {:induction false} WithdrawBooks(w: World, who: Account, n: nat)
    requires Balanced(w) && AllFair(w.ops) && Withdraws(w.st, who, n)
    ensures Balanced(WithdrawStep(w, who, n)) && AllFair(WithdrawStep(w, who, n).ops)
  {
    ShareBound(n, w.st.ab, w.st.sht);
    ShareBound(n, w.st.pb, w.st.sht);
    ClaimsAppend(w.ops, WithdrawOp(WithdrawCall(w.st, who, n), InFlight));
  }

  /** An operation moves on: what its claim loses, the books or the balances take up. */
  lemma {:induction false} ReplaceKeeps(w: World, i: nat, w': World)
    requires Inv(w) && i < |w.ops| && i < |w'.ops| && w'.ops == w.ops[i := w'.ops[i]] && Fair(w'.ops[i])
    requires var c, c' := ClaimOf(w.ops[i]), ClaimOf(w'.ops[i]);
             && Worth(w'.st.slots) + c'.slack + 100 * w.st.pb <= Worth(w.st.slots) + c.slack + 100 * w'.st.pb
             && c'.u + w.st.ab <= c.u + w'.st.ab && c'.f + w.st.f <= c.f + w'.st.f
             && w'.balA + w.st.ab + c.a == w.balA + w'.st.ab + c'.a
             && w'.balB + w.st.pb + c.b + w.orphanB == w.balB + w'.st.pb + c'.b + w'.orphanB
    ensures Inv(w')
  {
    ClaimsUpdate(w.ops, i, w'.ops[i]);
  }

  lemma {:induction false} DeliverKeeps(w: World, i: nat, ok: bool, said: bool)
    requires Inv(w) && (i < |w.ops| ==> said == Moves(w, w.ops[i], ok))
    ensures Inv(DeliverStep(w, i, ok, said))
  {
    if i < |w.ops| {
      assert Fair(w.ops[i]);
      if w.ops[i].SwapOp? || w.ops[i].WithdrawOp? {
        DeliverAwaited(w, i, ok, said);
      } else {
        ClaimCovered(w.ops, i);
        DeliverLast(w, i, ok, said);
      }
    }
  }

  lemma {:induction false} DeliverLast(w: World, i: nat, ok: bool, said: bool)
    requires Inv(w) && i < |w.ops| && !w.ops[i].SwapOp? && !w.ops[i].WithdrawOp?
    requires ClaimOf(w.ops[i]).a <= w.balA && ClaimOf(w.ops[i]).b <= w.balB
    ensures Inv(DeliverStep(w, i, ok, said))
  {
    var w' := DeliverStep(w, i, ok, said);
    assert w.ops == w.ops[i := w.ops[i]];
    ReplaceKeeps(w, i, w');
  }

  lemma {:induction false} DeliverAwaited(w: World, i: nat, ok: bool, said: bool)
    requires Inv(w) && i < |w.ops| && (w.ops[i].SwapOp? || w.ops[i].WithdrawOp?) && Fair(w.ops[i])
    requires said == Moves(w, w.ops[i], ok)
    ensures Inv(DeliverStep(w, i, ok, said))
  {
    ReplaceKeeps(w, i, DeliverStep(w, i, ok, said));
  }

  lemma {:induction false} CallbackKeeps(w: World, i: nat)
    requires Inv(w)
    ensures Inv(CallbackStep(w, i))
  {
    if i < |w.ops| {
      ClaimCovered(w.ops, i);
      assert Fair(w.ops[i]);
      ReplaceKeeps(w, i, CallbackStep(w, i));
    }
  }

  lemma {:induction false} StepKeeps(w: World, e: Event)
    requires Inv(w) && Proper(w, e)
    ensures Inv(Next(w, e))
  {
    match e
    case DepositIn(who, amt) => DepositKeeps(w, who, amt);
    case SwapIn(amt, min) => SwapKeeps(w, amt, min);
    case RawSwap(amt) => RawKeeps(w, amt);
    case Withdraw(who, n) =>
      if Withdraws(w.st, who, n) { WithdrawKeepsIff(w, who, n); }
    case Deliver(i, ok, said) => DeliverKeeps(w, i, ok, said);
    case Callback(i) => CallbackKeeps(w, i);
  }

  /** Solvency, backing and both balance equations over every disciplined run. */
  lemma {:induction false} RunKeeps(w: World, es: seq<Event>)
    requires Inv(w) && Disciplined(w, es)
    ensures Inv(Run(w, es))
    decreases |es|
  {
    if es != [] {
      StepKeeps(w, es[0]);
      RunKeeps(Next(w, es[0]), es[1..]);
    }
  }

  /** The pool as initialised. */
  predicate Fresh(w: World) {
    && Total(w.st.slots) == 0 && w.st.f == 0 && w.st.ab == 0 && w.st.pb == 0 && w.st.sht == 0 && w.st.sh == map[]
    && w.balA == 0 && w.balB == 0 && w.orphanB == 0 && w.ops == []
  }

  lemma {:induction false} FreshInv(w: World)
    requires Fresh(w)
    ensures Inv(w)
  {
    assert Claims(w.ops) == Claim(0, 0, 0, 0, 0);
  }

  lemma {:induction false} LadderSolvency(w: World, es: seq<Event>)
    requires Fresh(w) && Disciplined(w, es)
    ensures Inv(Run(w, es))
  {
    FreshInv(w);
    RunKeeps(w, es);
  }

  /** In such a state no walk pays more than the book holds, every failed payout can be
      reversed, every awaited transfer and every refund is covered by the balance. */
  lemma {:induction false} NothingUnderflows(w: World, amt: nat, i: nat)
    requires Inv(w)
    ensures PoolSwap(w.st.slots, amt).dy <= w.st.pb
    ensures i < |w.ops| && w.ops[i].SwapOp? && !w.ops[i].receipt.Paid() ==> Reversible(w.st, w.ops[i].args)
    ensures i < |w.ops| ==> ClaimOf(w.ops[i]).a <= w.balA && ClaimOf(w.ops[i]).b <= w.balB
  {
    WalkValue(w.st.slots, amt);
    if i < |w.ops| { ClaimCovered(w.ops, i); }
  }

  /** No callback's additions to AB, PB or a slot leave 128 bits, as long as the pool's own
      balances in the token contracts are 128-bit numbers (for B, 98 hundredths of that). */
  lemma {:induction false} CallbackSumsFit(w: World, i: nat)
    requires Inv(w) && w.balA < TWO128 && 100 * w.balB < 98 * TWO128
    ensures var st' := CallbackStep(w, i).st; st'.ab < TWO128 && st'.pb < TWO128 && Fits(st'.slots, 1)
  {
    CallbackKeeps(w, i);
  }

  /** The ladder products of an admitted deposit fit in 128 bits, and the walk's never
      leave them. */
  lemma {:induction false} LadderProductsFit(w: World, amt: nat)
    requires Inv(w) && w.st.pb + amt <= CAP_TOTAL
    ensures WidenFits(w.st.slots, amt)
  {
    var s := w.st.slots;
    WidenWorth(s, amt);
    assert 98 * Total(s) <= Worth(s);
    SmallProduct(s.s0, amt);
    SmallProduct(s.s1, amt);
    SmallProduct(s.s2, amt);
    SmallProduct(s.s3, amt);
    SmallProduct(s.s4, amt);
  }

  lemma {:induction false} SmallProduct(x: nat, k: nat)
    requires 98 * x <= 100 * CAP_TOTAL && k <= CAP_TOTAL
    ensures x * k < TWO128
  {
    MulMono(k, CAP_TOTAL, x);
    assert x * k == k * x;
    assert CAP_TOTAL * x < TWO128;
  }

  // ---- no dilution ----

  /** An accepted deposit does not lower the B per share, and mints the full share. */
  lemma {:induction false} DepositNotDilutive(st: State, who: Account, amt: nat)
    requires Accepts(st, amt)
    ensures var st' := Deposit(st, who, amt); var n := st'.sht - st.sht;
            n > 0 && (st.sht > 0 ==> st.pb * st'.sht <= st'.pb * st.sht && amt * st.sht < (n + 1) * st.pb)
  {
    if st.sht > 0 { FairMint(st.pb, st.sht, amt); }
  }

  lemma {:induction false} FairMint(pb: nat, sht: nat, amt: nat)
    requires pb > 0
    ensures var n := MulDiv(amt, sht, pb); pb * (sht + n) <= (pb + amt) * sht && amt * sht < (n + 1) * pb
  {}

  /** A withdrawal lowers neither the A nor the B per share, and pays the full share of both. */
  lemma {:induction false} WithdrawNotDilutive(st: State, who: Account, n: nat)
    requires Withdraws(st, who, n)
    ensures var st' := WithdrawState(st, who, n);
            && st.pb * st'.sht <= st'.pb * st.sht && st.ab * st'.sht <= st'.ab * st.sht
            && n * st.pb < (st.pb - st'.pb + 1) * st.sht && n * st.ab < (st.ab - st'.ab + 1) * st.sht
  {
    Kept(n, st.pb, st.sht);
    Kept(n, st.ab, st.sht);
  }

  lemma {:induction false} Kept(n: nat, x: nat, t: nat)
    requires 0 < n <= t
    ensures var out := MulDiv(n, x, t); out <= x && x * (t - n) <= (x - out) * t && n * x < (out + 1) * t
  {}

  // ---- reversals are exact ----

  lemma {:induction false} FailedSwapUndone(st: State, amt: nat, min: Option<nat>)
    requires SwapReply(st, amt, min).Payout?
    ensures PayOut(SwapState(st, amt, min), SwapReply(st, amt, min).args, false) == st
  {}

  lemma {:induction false} FailedWithdrawUndone(st: State, who: Account, n: nat)
    requires Withdraws(st, who, n)
    ensures PayB(WithdrawState(st, who, n), WithdrawCall(st, who, n), false) == st
  {}

  // ---- minimums ----

  /** A swap that is kept pays at least its minimum. */
  lemma {:induction false} MinimumMet(st: State, amt: nat, min: nat)
    ensures var r := SwapReply(st, amt, Some(min)); (r.Payout? ==> r.args.d >= min) && (r.Keep? ==> min == 0)
  {}

  /** A minimum decides only whether the swap goes through: up to what the swap pays without
      one it changes nothing, above that, or unreadable, the swap is refunded untouched. */
  lemma {:induction false} MinimumDecides(st: State, amt: nat, min: nat)
    requires min < MAX_INPUT
    ensures SwapState(st, amt, None) == st && SwapReply(st, amt, None) == Reject
    ensures var free := SwapReply(st, amt, Some(0));
            var pays := if free.Payout? then free.args.d else 0;
            if min <= pays
            then SwapReply(st, amt, Some(min)) == free && SwapState(st, amt, Some(min)) == SwapState(st, amt, Some(0))
            else SwapReply(st, amt, Some(min)) == Reject && SwapState(st, amt, Some(min)) == st
  {}

  /** Without a minimum, a well-formed swap goes through exactly when it leaves AB within the
      pool's capacity, PB covers it, and the fees fit 128 bits. */
  lemma {:induction false} FreeSwapIff(st: State, amt: nat)
    requires amt < MAX_INPUT
    ensures var k := PoolSwap(st.slots, amt);
            SwapReply(st, amt, Some(0)).Reject?
            <==> st.ab + Total(st.slots) - Total(k.slots) > CAP_TOTAL || k.dy > st.pb || st.f + k.fee >= TWO128
    ensures SwapState(st, amt, Some(0)) == st || SwapState(st, amt, Some(0)).ab <= CAP_TOTAL
  {
    WalkValue(st.slots, amt);
  }

  // ---- when a callback can trap ----

  /** The callback of operation i would reverse a payout and underflow. */
  predicate Traps(w: World, i: nat) {
    && i < |w.ops| && w.ops[i].SwapOp? && w.ops[i].receipt.Returned? && !w.ops[i].receipt.said
    && !Reversible(w.st, w.ops[i].args)
  }

  predicate Strands(w: World) { exists i :: 0 <= i < |w.ops| && Traps(w, i) }

  /** Only receipts come back and callbacks run. */
  predicate Settling(es: seq<Event>) { forall j :: 0 <= j < |es| ==> es[j].Deliver? || es[j].Callback? }

  /** Some way for the pending operations to settle ends in a trapping callback. */
  ghost predicate CanStrand(w: World) { exists es :: Settling(es) && Strands(Run(w, es)) }

  predicate Careful(w: World, es: seq<Event>)
    decreases |es|
  {
    es == []
    || ((es[0].Withdraw? && Withdraws(w.st, es[0].who, es[0].shares) ==> Leaves(w.st, es[0].shares, Claims(w.ops).u))
        && Careful(Next(w, es[0]), es[1..]))
  }

  lemma {:induction false} BackedReplace(w: World, i: nat, w': World)
    requires Backed(w) && i < |w.ops| && i < |w'.ops| && w'.ops == w.ops[i := w'.ops[i]]
    requires var c, c' := ClaimOf(w.ops[i]), ClaimOf(w'.ops[i]);
             c'.u + w.st.ab <= c.u + w'.st.ab && c'.f + w.st.f <= c.f + w'.st.f
    ensures Backed(w')
  {
    ClaimsUpdate(w.ops, i, w'.ops[i]);
  }

  /** What a callback takes from the books is covered by the claim it gives up. */
  lemma {:induction false} CallbackTakes(w: World, i: nat)
    requires i < |w.ops| && ClaimOf(w.ops[i]).u <= w.st.ab && ClaimOf(w.ops[i]).f <= w.st.f
    ensures var w' := CallbackStep(w, i); var c := ClaimOf(w.ops[i]);
            && |w'.ops| == |w.ops| && w'.ops == w.ops[i := w'.ops[i]] && !Traps(w, i)
            && ClaimOf(w'.ops[i]).u + w.st.ab <= c.u + w'.st.ab && ClaimOf(w'.ops[i]).f + w.st.f <= c.f + w'.st.f
  {}

  lemma {:induction false} BackedCallback(w: World, i: nat)
    requires Backed(w)
    ensures Backed(CallbackStep(w, i)) && !Traps(w, i)
  {
    if i < |w.ops| {
      ClaimCovered(w.ops, i);
      CallbackTakes(w, i);
      BackedReplace(w, i, CallbackStep(w, i));
    }
  }

  lemma {:induction false} BackedDeliver(w: World, i: nat, ok: bool, said: bool)
    requires Backed(w)
    ensures Backed(DeliverStep(w, i, ok, said))
  {
    if i < |w.ops| {
      assert w.ops == w.ops[i := w.ops[i]];
      BackedReplace(w, i, DeliverStep(w, i, ok, said));
    }
  }

  lemma {:induction false} BackedSwap(w: World, amt: nat, min: Option<nat>)
    requires Backed(w)
    ensures Backed(SwapStep(w, amt, min))
  {
    WalkShape(w.st.slots, amt);
    ClaimsAppend(w.ops, OpFor(SwapReply(w.st, amt, min), amt));
  }

  lemma {:induction false} BackedWithdraw(w: World, who: Account, n: nat)
    requires Withdraws(w.st, who, n) && Claims(w.ops).f <= w.st.f
    ensures var w' := WithdrawStep(w, who, n);
            && Claims(w'.ops).u == Claims(w.ops).u && w'.st.ab == w.st.ab - OutA(w.st, n)
            && (Backed(w') <==> Leaves(w.st, n, Claims(w.ops).u))
  {}

  lemma {:induction false} BackedDeposit(w: World, who: Account, amt: nat)
    requires Backed(w)
    ensures Backed(DepositStep(w, who, amt))
  {}

  lemma {:induction false} BackedRaw(w: World, amt: nat)
    requires Backed(w)
    ensures Backed(RawStep(w, amt))
  {
  }

  lemma {:induction false} BackedStep(w: World, e: Event)
    requires Backed(w)
    requires e.Withdraw? && Withdraws(w.st, e.who, e.shares) ==> Leaves(w.st, e.shares, Claims(w.ops).u)
    ensures Backed(Next(w, e))
  {
    match e
    case DepositIn(who, amt) => BackedDeposit(w, who, amt);
    case SwapIn(amt, min) => BackedSwap(w, amt, min);
    case RawSwap(amt) => BackedRaw(w, amt);
    case Withdraw(who, n) =>
      if Withdraws(w.st, who, n) { BackedWithdraw(w, who, n); }
    case Deliver(i, ok, said) => BackedDeliver(w, i, ok, said);
    case Callback(i) => BackedCallback(w, i);
  }

  /** Over every run whose withdrawals all leave that much, whatever receipts say, no
      callback ever traps. */
  lemma {:induction false} CarefulNeverStrands(w: World, es: seq<Event>)
    requires Backed(w) && Careful(w, es)
    ensures Backed(Run(w, es)) && !Strands(Run(w, es))
    decreases |es|
  {
    if es == [] {
      forall i | 0 <= i < |w.ops| ensures !Traps(w, i) { BackedCallback(w, i); }
    } else {
      BackedStep(w, es[0]);
      CarefulNeverStrands(Next(w, es[0]), es[1..]);
    }
  }

  lemma {:induction false} SettlingIsCareful(w: World, es: seq<Event>)
    requires Settling(es)
    ensures Careful(w, es)
    decreases |es|
  {
    if es != [] { SettlingIsCareful(Next(w, es[0]), es[1..]); }
  }

  lemma {:induction false} SomeInput(ops: seq<Op>) returns (i: nat)
    requires Claims(ops).u > 0
    ensures i < |ops| && ClaimOf(ops[i]).u > 0
    decreases |ops|
  {
    i := |ops| - 1;
    if ClaimOf(ops[i]).u == 0 { i := SomeInput(ops[..i]); }
  }

  lemma {:induction false} RunCons(w: World, e: Event, es: seq<Event>)
    ensures Run(w, [e] + es) == Run(Next(w, e), es)
    ensures Settling(es) && (e.Deliver? || e.Callback?) ==> Settling([e] + es)
  {}

  /** With less A than unpaid inputs, failing payouts one by one runs into a trap. */
  lemma {:induction false} StrandingRun(w: World) returns (es: seq<Event>)
    requires Claims(w.ops).u > w.st.ab
    ensures Settling(es) && Strands(Run(w, es))
    decreases Claims(w.ops).u, 1
  {
    var i := SomeInput(w.ops);
    if w.ops[i].receipt.InFlight? {
      var e := Deliver(i, false, false);
      var w1 := Next(w, e);
      assert ClaimOf(w1.ops[i]) == ClaimOf(w.ops[i]);
      ClaimsUpdate(w.ops, i, w1.ops[i]);
      es := StrandingTail(w1, i);
      RunCons(w, e, es);
      es := [e] + es;
    } else {
      es := StrandingTail(w, i);
    }
  }

  lemma {:induction false} StrandingTail(w: World, i: nat) returns (es: seq<Event>)
    requires Claims(w.ops).u > w.st.ab && i < |w.ops| && ClaimOf(w.ops[i]).u > 0 && w.ops[i].receipt.Returned?
    ensures Settling(es) && Strands(Run(w, es))
    decreases Claims(w.ops).u, 0
  {
    if Traps(w, i) {
      es := [];
    } else {
      var e := Callback(i);
      var w1 := Next(w, e);
      ClaimsUpdate(w.ops, i, w1.ops[i]);
      es := StrandingRun(w1);
      RunCons(w, e, es);
      es := [e] + es;
    }
  }

  /** After a withdrawal some settling of the pending operations ends in a trapping callback
      if and only if the withdrawal leaves less A than the inputs of the swaps not yet paid. */
  lemma {:induction false} StrandsIff(w: World, who: Account, n: nat)
    requires Inv(w) && Withdraws(w.st, who, n)
    ensures CanStrand(WithdrawStep(w, who, n)) <==> Claims(w.ops).u > w.st.ab - OutA(w.st, n)
  {
    var w' := WithdrawStep(w, who, n);
    BackedWithdraw(w, who, n);
    if Leaves(w.st, n, Claims(w.ops).u) {
      forall es | Settling(es) ensures !Strands(Run(w', es)) {
        SettlingIsCareful(w', es);
        CarefulNeverStrands(w', es);
      }
    } else {
      var es := StrandingRun(w');
    }
  }

  // ---- receipts that do not tell ----

  /** The tokens an awaited transfer moves. */
  function Stake(op: Op): nat
    requires op.SwapOp? || op.WithdrawOp?
  {
    if op.SwapOp? then op.args.d else if op.wd.a == 0 then op.wd.b else op.wd.a
  }

  /** A callback keeps the balance equations if and only if the promise result is non-empty
      exactly when the tokens moved (or there was nothing to move). */
  lemma {:induction false} CallbackBalancedIff(w: World, i: nat)
    requires Balanced(w) && Backed(w) && i < |w.ops| && (w.ops[i].SwapOp? || w.ops[i].WithdrawOp?)
    requires Priced(w.ops[i]) && w.ops[i].receipt.Returned?
    ensures Balanced(CallbackStep(w, i)) <==> w.ops[i].receipt.moved == w.ops[i].receipt.said || Stake(w.ops[i]) == 0
  {
    ClaimCovered(w.ops, i);
    var w' := CallbackStep(w, i);
    ClaimsUpdate(w.ops, i, w'.ops[i]);
  }

  /** A token that returns nothing for a successful transfer unbalances the pool with every
      swap it pays. */
  lemma {:induction false} SilentTokenUnbalances(w: World, i: nat)
    requires Inv(w) && i < |w.ops| && w.ops[i].SwapOp? && w.ops[i].receipt.InFlight?
    ensures !Balanced(CallbackStep(DeliverStep(w, i, true, false), i))
  {
    assert Fair(w.ops[i]);
    ClaimCovered(w.ops, i);
    var w1 := DeliverStep(w, i, true, false);
    ClaimsUpdate(w.ops, i, w1.ops[i]);
    CallbackBalancedIff(w1, i);
  }

  predicate Hasty(es: seq<Event>) { es == [DepositIn("lp", 1000), SwapIn(100, Some(0))] }

  predicate Held(st: State) {
    && st.slots == Slots(81, 161, 400, 237, 117) && st.f == 0 && st.ab == 0 && st.pb == 1000 && st.sht == 1000
    && Balance(st.sh, "lp") == 1000
  }

  predicate Sold(st: State) {
    && Below(st.slots, Slots(81, 161, 400, 237, 117)) && st.ab == 100 && st.pb == 903 && st.sht == 1000
    && Balance(st.sh, "lp") == 1000
  }

  predicate Awaits(op: Op) { op.SwapOp? && op.receipt == InFlight && op.args.u == 100 && ClaimOf(op).slack > 0 }

  lemma {:induction false} HastyDeposit(w: World, e: Event)
    requires Fresh(w) && e.DepositIn? && e.who == "lp" && e.amt == 1000
    ensures var w' := Next(w, e); Held(w'.st) && |w'.ops| == 1
  {
    FirstWiden(w.st.slots, e.amt);
    HastyAccepted(w.st, e.amt);
  }

  lemma {:induction false} FirstWiden(s: Slots, amt: nat)
    requires Total(s) == 0 && amt == 1000
    ensures WidenAll(s, amt) == Slots(81, 161, 400, 237, 117)
  {
    FirstSlots(s, amt);
    WidenTo(s, amt, Slots(81, 161, 400, 237, 117));
  }

  lemma {:induction false} FirstSlots(s: Slots, amt: nat)
    requires Total(s) == 0 && amt == 1000
    ensures Widen(s.s0, 1000, amt, 12500, 98) == 81 && Widen(s.s1, 2000, amt, 12500, 99) == 161
    ensures Widen(s.s2, 5000, amt, 12500, 100) == 400
    ensures Widen(s.s3, 3000, amt, 12500, 101) == 237 && Widen(s.s4, 1500, amt, 12500, 102) == 117
  {
    WidenIs(s.s0, 1000, amt, 12500, 98, 80, 81);
    WidenIs(s.s1, 2000, amt, 12500, 99, 160, 161);
    WidenIs(s.s2, 5000, amt, 12500, 100, 400, 400);
    WidenIs(s.s3, 3000, amt, 12500, 101, 240, 237);
    WidenIs(s.s4, 1500, amt, 12500, 102, 120, 117);
  }

  /** An empty ladder is widened slot by slot. */
  lemma {:induction false} WidenTo(s: Slots, amt: nat, r: Slots)
    requires Total(s) == 0
    requires Widen(s.s0, 1000, amt, 12500, 98) == r.s0 && Widen(s.s1, 2000, amt, 12500, 99) == r.s1
    requires Widen(s.s2, 5000, amt, 12500, 100) == r.s2
    requires Widen(s.s3, 3000, amt, 12500, 101) == r.s3 && Widen(s.s4, 1500, amt, 12500, 102) == r.s4
    ensures WidenAll(s, amt) == r
  {}

  lemma {:induction false} WidenIs(slot: nat, base: nat, amt: nat, tot: nat, p: nat, part: nat, n: nat)
    requires tot > 0 && p > 0 && amt * base == part * tot && n * p <= part * 100 < n * p + p
    ensures Widen(slot, base, amt, tot, p) == slot + n
  {
    DivModUnique(amt * base, tot, part, 0);
    DivModUnique(part * 100, p, n, part * 100 - n * p);
  }

  lemma {:induction false} HastyAccepted(st: State, amt: nat)
    requires amt == 1000 && st.sht == 0 && st.pb == 0 && Total(st.slots) == 0
    requires WidenAll(st.slots, amt) == Slots(81, 161, 400, 237, 117)
    ensures Accepts(st, amt) && DepositShares(st, amt) == Some(amt)
  {}

  lemma {:induction false} HastySwap(w: World, e: Event)
    requires Held(w.st) && e.SwapIn? && e.amt == 100 && e.min == Some(0)
    ensures var w' := Next(w, e);
            Sold(w'.st) && |w'.ops| == |w.ops| + 1 && Awaits(w'.ops[|w.ops|])
  {
    var k := PoolSwap(w.st.slots, e.amt);
    HastyWalk(w.st.slots, e.amt);
    WalkShape(w.st.slots, e.amt);
    SwapEvent(w, e, k);
    HastyBooks(w.st, e.amt, e.min.value, k);
  }

  lemma {:induction false} HastyBooks(st: State, amt: nat, min: nat, k: Walk)
    requires amt == 100 && min == 0 && Held(st) && k.dy == 97 && k.rem == 0 && k.fee == 0 && WalkOf(k, st.slots, amt)
    requires Worth(st.slots) - Worth(k.slots) == 9819
    ensures Sold(Booked(st, amt, min, k)) && Reply(st, amt, min, k).Payout?
    ensures Awaits(OpFor(Reply(st, amt, min, k), amt))
  {
    SlotDelta(st.slots, k.slots);
  }

  lemma {:induction false} SwapEvent(w: World, e: Event, k: Walk)
    requires e.SwapIn? && WellFormed(e.amt, e.min) && k == PoolSwap(w.st.slots, e.amt) && WalkOf(k, w.st.slots, e.amt)
    ensures Next(w, e).st == Booked(w.st, e.amt, e.min.value, k)
    ensures Next(w, e).ops == w.ops + [OpFor(Reply(w.st, e.amt, e.min.value, k), e.amt)]
  {
  }

  lemma {:induction false} HastyWalk(s: Slots, amt: nat)
    requires amt == 100 && s == Slots(81, 161, 400, 237, 117)
    ensures var k := PoolSwap(s, amt); k.dy == 97 && k.rem == 0 && k.fee == 0 && Worth(s) - Worth(k.slots) == 9819
  {}

  /** A deposit, a swap, and half the shares leave before the swap is paid. */
  lemma {:induction false} HastyWithdrawalStrands(w: World, es: seq<Event>)
    requires Fresh(w) && Hasty(es)
    ensures CanStrand(WithdrawStep(Run(w, es), "lp", 500))
  {
    HastyInv(w, es);
    HastyOpen(w, es);
    HastyExit(Run(w, es), 500);
  }

  lemma {:induction false} TwoSteps(w: World, es: seq<Event>)
    requires |es| == 2
    ensures Run(w, es) == Next(Next(w, es[0]), es[1])
  {
    var b := es[1..];
    assert b[1..] == [];
    assert Run(Next(w, es[0]), b) == Next(Next(w, es[0]), b[0]);
  }

  lemma {:induction false} HastyInv(w: World, es: seq<Event>)
    requires Fresh(w) && |es| == 2 && es[0].DepositIn? && es[1].SwapIn?
    ensures Inv(Run(w, es))
  {
    FreshInv(w);
    TwoSteps(w, es);
    HastyKeeps(w, es[0], es[1]);
  }

  lemma {:induction false} HastyKeeps(w: World, e0: Event, e1: Event)
    requires Inv(w) && e0.DepositIn? && e1.SwapIn?
    ensures Inv(Next(Next(w, e0), e1))
  {
    StepKeeps(w, e0);
    StepKeeps(Next(w, e0), e1);
  }

  lemma {:induction false} HastyOpen(w: World, es: seq<Event>)
    requires Fresh(w) && Hasty(es)
    ensures var w2 := Run(w, es); Sold(w2.st) && |w2.ops| == 2 && Awaits(w2.ops[1])
  {
    TwoSteps(w, es);
    HastyDeposit(w, es[0]);
    HastySwap(Next(w, es[0]), es[1]);
  }

  lemma {:induction false} HastyExit(w: World, n: nat)
    requires Inv(w) && Sold(w.st) && |w.ops| == 2 && Awaits(w.ops[1]) && n == 500
    ensures CanStrand(WithdrawStep(w, "lp", n))
  {
    ClaimCovered(w.ops, 1);
    HastyShare(w.st, n);
    StrandsIff(w, "lp", n);
  }

  lemma {:induction false} HastyShare(st: State, n: nat)
    requires Sold(st) && n == 500
    ensures Withdraws(st, "lp", n) && OutA(st, n) == 50
  {}

  // ---- shares over every interleaving ----

  ghost predicate SharesAddUp(st: State) { Sum(st.sh) == st.sht }

  lemma {:induction false} BurnKeepsShares(st: State, who: Account, n: nat)
    requires SharesAddUp(st) && Withdraws(st, who, n)
    ensures SharesAddUp(WithdrawState(st, who, n))
  {
    SumDrop(st.sh, who);
    SumSet(st.sh, who, Balance(st.sh, who) - n);
  }

  lemma {:induction false} MintKeepsShares(st: State, who: Account, amt: nat)
    requires SharesAddUp(st)
    ensures SharesAddUp(Deposit(st, who, amt))
  {
    if Accepts(st, amt) { SumSet(st.sh, who, Balance(st.sh, who) + DepositShares(st, amt).value); }
  }

  lemma {:induction false} CallbackKeepsShares(w: World, i: nat)
    requires SharesAddUp(w.st)
    ensures SharesAddUp(CallbackStep(w, i).st)
  {
    if i < |w.ops| && w.ops[i].WithdrawOp? {
      var wd := w.ops[i].wd;
      SumSet(w.st.sh, wd.who, Balance(w.st.sh, wd.who) + wd.s);
    }
  }

  lemma {:induction false} StepKeepsShares(w: World, e: Event)
    requires SharesAddUp(w.st)
    ensures SharesAddUp(Next(w, e).st)
  {
    match e
    case DepositIn(who, amt) => MintKeepsShares(w.st, who, amt);
    case SwapIn(amt, min) =>
    case RawSwap(amt) =>
    case Withdraw(who, n) =>
      if Withdraws(w.st, who, n) { BurnKeepsShares(w.st, who, n); }
    case Deliver(i, ok, said) =>
    case Callback(i) => CallbackKeepsShares(w, i);
  }

  lemma {:induction false} RunKeepsShares(w: World, es: seq<Event>)
    requires SharesAddUp(w.st)
    ensures SharesAddUp(Run(w, es).st)
    decreases |es|
  {
    if es != [] {
      StepKeepsShares(w, es[0]);
      RunKeepsShares(Next(w, es[0]), es[1..]);
    }
  }

  /** Whatever the interleaving, the share entries add up to SHT, so no account's holding
      exceeds it. */
  lemma {:induction false} SharesConserved(w: World, es: seq<Event>, who: Account)
    requires Fresh(w)
    ensures SharesAddUp(Run(w, es).st)
    ensures Balance(Run(w, es).st.sh, who) <= Run(w, es).st.sht
  {
    RunKeepsShares(w, es);
    SumDrop(Run(w, es).st.sh, who);
  }
}
