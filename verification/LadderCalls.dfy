/** When the ladder pool's calls go through, and what they do to its storage. */
module LadderCalls {
  import opened ModArith
  import opened Wrappers
  import opened Ledger
  import opened LadderPool
  import opened LadderRuns

  /** Shares for a deposit: the deposit itself for the first, else in proportion to PB. */
  function SharesFor(st: State, amt: nat): nat
    requires st.sht > 0 ==> st.pb > 0
  {
    if st.sht == 0 then amt else MulDiv(amt, st.sht, st.pb)
  }

  /** In every state a run reaches, a deposit is kept exactly when it is at least 10 and of at
      most thirty digits, leaves PB within capacity, buys a share, and its share arithmetic
      fits 128 bits; with shares out and no B nothing is kept. */
  lemma {:induction false} DepositIff(w: World, amt: nat)
    requires Inv(w)
    ensures var st := w.st;
            Accepts(st, amt)
            <==> && 10 <= amt < MAX_INPUT && st.pb + amt <= CAP_TOTAL
                 && (st.sht > 0 ==> st.pb > 0 && st.pb <= amt * st.sht < TWO128)
                 && st.sht + SharesFor(st, amt) < TWO128
  {
    if w.st.pb + amt <= CAP_TOTAL { LadderProductsFit(w, amt); }
    if w.st.sht > 0 && w.st.pb > 0 { AtLeastOnce(amt * w.st.sht, w.st.pb); }
  }

  lemma {:induction false} AtLeastOnce(n: nat, d: nat)
    requires d > 0
    ensures n / d > 0 <==> n >= d
  {
    Floor(n, d);
    if n / d > 0 { MulMono(1, n / d, d); }
  }

  /** A kept deposit is booked in full and shared out to its sender alone. */
  lemma {:induction false} DepositBooksAll(st: State, who: Account, amt: nat)
    requires Accepts(st, amt)
    ensures var st2 := Deposit(st, who, amt);
            && (st.sht > 0 ==> st.pb > 0) && st2.pb == st.pb + amt && st2.ab == st.ab && st2.f == st.f
            && st2.sht == st.sht + SharesFor(st, amt)
            && Balance(st2.sh, who) == Balance(st.sh, who) + SharesFor(st, amt)
            && forall o :: o != who ==> Balance(st2.sh, o) == Balance(st.sh, o)
  {}

  /** A slot grows by what its share of the deposit buys at its price, rounding down twice. */
  predicate Buys(g: int, base: nat, amt: nat, tot: nat, p: nat)
    requires tot > 0
  {
    var part := amt * base / tot;
    g * p <= 100 * part < (g + 1) * p
  }

  /** The first deposit is spread 2 : 4 : 10 : 6 : 3 over the five prices, a later one in
      proportion to the slots. */
  lemma {:induction false} WidenShape(s: Slots, amt: nat)
    ensures var b := if Total(s) == 0 then Slots(1000, 2000, 5000, 3000, 1500) else s;
            var t, r := Total(b), WidenAll(s, amt);
            && Buys(r.s0 - s.s0, b.s0, amt, t, 98) && Buys(r.s1 - s.s1, b.s1, amt, t, 99)
            && Buys(r.s2 - s.s2, b.s2, amt, t, 100) && Buys(r.s3 - s.s3, b.s3, amt, t, 101)
            && Buys(r.s4 - s.s4, b.s4, amt, t, 102)
  {
    var b := if Total(s) == 0 then Slots(1000, 2000, 5000, 3000, 1500) else s;
    var t := Total(b);
    WidenBuys(s.s0, b.s0, amt, t, 98);
    WidenBuys(s.s1, b.s1, amt, t, 99);
    WidenBuys(s.s2, b.s2, amt, t, 100);
    WidenBuys(s.s3, b.s3, amt, t, 101);
    WidenBuys(s.s4, b.s4, amt, t, 102);
  }

  lemma {:induction false} WidenBuys(slot: nat, base: nat, amt: nat, tot: nat, p: nat)
    requires tot > 0 && p > 0
    ensures Buys(Widen(slot, base, amt, tot, p) - slot, base, amt, tot, p)
  {
    Floor(amt * base, tot);
    Floor(amt * base / tot * 100, p);
  }

  /** A withdrawal goes through exactly when it is of one share or more and of at most thirty
      digits, held, there is B, and the share and slot products fit 128 bits. */
  lemma {:induction false} WithdrawIff(st: State, who: Account, n: nat)
    ensures Withdraws(st, who, n)
            <==> && 1 <= n <= Balance(st.sh, who) && n < MAX_INPUT && n <= st.sht && st.pb > 0
                 && n * st.ab < TWO128 && n * st.pb < TWO128
                 && var pb := st.pb - n * st.pb / st.sht;
                    && st.slots.s0 * pb < TWO128 && st.slots.s1 * pb < TWO128 && st.slots.s2 * pb < TWO128
                    && st.slots.s3 * pb < TWO128 && st.slots.s4 * pb < TWO128
    ensures !Withdraws(st, who, n) ==> WithdrawState(st, who, n) == st
  {}

  /** It takes the shares from the withdrawer alone, and drops the key of one who leaves. */
  lemma {:induction false} WithdrawTakes(st: State, who: Account, n: nat)
    requires Withdraws(st, who, n)
    ensures var st2, wd := WithdrawState(st, who, n), WithdrawCall(st, who, n);
            && st2.sht == st.sht - n && Balance(st2.sh, who) == Balance(st.sh, who) - n
            && (who in st2.sh <==> n < Balance(st.sh, who))
            && (forall o :: o != who ==> Balance(st2.sh, o) == Balance(st.sh, o))
            && wd.who == who && wd.s == n && st2.ab == st.ab - wd.a && st2.pb == st.pb - wd.b && st2.f == st.f
            && Plus(st2.slots, wd.x) == st.slots
  {}

  /** Amounts and minimums of more than thirty digits are refused. */
  lemma {:induction false} LongAmounts(st: State, amt: nat, min: nat)
    requires amt >= MAX_INPUT || min >= MAX_INPUT
    ensures SwapReply(st, amt, Some(min)) == Reject && SwapState(st, amt, Some(min)) == st
  {}

  /** The bare walk takes slots and charges fees, and books nothing else: with a large enough
      amount anyone can empty the ladder. */
  lemma {:induction false} RawEmpties(w: World, amt: nat)
    ensures var k, w' := PoolSwap(w.st.slots, amt), RawStep(w, amt);
            && w' == w.(st := w'.st) && w'.st == w.st.(slots := w'.st.slots, f := w'.st.f)
            && (amt < MAX_INPUT && w.st.f + k.fee < TWO128 ==> w'.st.slots == k.slots && w'.st.f == w.st.f + k.fee)
            && (amt >= MAX_INPUT || w.st.f + k.fee >= TWO128 ==> w' == w)
    ensures Total(w.st.slots) <= amt < MAX_INPUT && w.st.f + PoolSwap(w.st.slots, amt).fee < TWO128 ==>
              Total(RawStep(w, amt).st.slots) == 0
  {
    WalkOrder(w.st.slots, amt);
    WalkValue(w.st.slots, amt);
  }

  /** In every state a run reaches, a transfer that the token accepts moves. */
  lemma {:induction false} CoveredMoves(w: World, i: nat)
    requires Inv(w) && i < |w.ops|
    requires var op := w.ops[i]; op.SecondLeg? || ((op.SwapOp? || op.WithdrawOp?) && op.receipt.InFlight?)
    ensures Moves(w, w.ops[i], true)
  {
    ClaimCovered(w.ops, i);
  }
}
