/** The constant-product market maker: reserves, share supply, wallets and holdings, and what
    every run of its entry points keeps. */
module Amm {
  import opened ModArith
  import opened Ledger

  datatype State = State(ra: nat, rb: nat, ts: nat, wa: map<Account, nat>, wb: map<Account, nat>, lp: map<Account, nat>)

  // ---- the entry points on values; an abort leaves the state as it is ----

  predicate CanAdd(st: State, who: Account, a: int, b: int) {
    && a > 0 && b > 0 && (st.ts != 0 ==> a * st.rb == b * st.ra && st.ra > 0)
    && a <= Balance(st.wa, who) && b <= Balance(st.wb, who)
  }

  function Minted(st: State, a: nat, b: nat): nat
    requires st.ts != 0 ==> st.ra > 0
  {
    if st.ts == 0 then (if a < b then a else b)
    else
      Floor(st.ts * a, st.ra);
      st.ts * a / st.ra
  }

  function Add(st: State, who: Account, a: int, b: int): State {
    if !CanAdd(st, who, a, b) then st
    else
      var n := Minted(st, a, b);
      State(st.ra + a, st.rb + b, st.ts + n, st.wa[who := Balance(st.wa, who) - a],
            st.wb[who := Balance(st.wb, who) - b],
            st.lp[who := Balance(st.lp, who) + n])
  }

  /** The supply is tested too: a division by zero or an underflow would abort. */
  predicate CanRemove(st: State, who: Account, n: int) { 0 < n <= Balance(st.lp, who) && n <= st.ts }

  function Share(r: nat, n: nat, ts: nat): (out: nat)
    requires 0 < n <= ts
    ensures out <= r
  {
    ShareFits(r, n, ts);
    r * n / ts
  }

  function Remove(st: State, who: Account, n: int): State {
    if !CanRemove(st, who, n) then st
    else
      var a, b := Share(st.ra, n, st.ts), Share(st.rb, n, st.ts);
      State(st.ra - a, st.rb - b, st.ts - n, st.wa[who := Balance(st.wa, who) + a],
            st.wb[who := Balance(st.wb, who) + b],
            st.lp[who := Balance(st.lp, who) - n])
  }

  /** The output for an input after the 0.3% fee. */
  function Output(rIn: nat, rOut: nat, x: nat): (out: nat)
    requires rIn > 0
    ensures out <= rOut
  {
    OutputFits(rIn, rOut, x);
    rOut * x * 997 / (rIn * 1000 + x * 997)
  }

  predicate CanSwap(st: State, who: Account, payA: bool, x: int) {
    && x > 0 && st.ts != 0 && st.ra > 0 && st.rb > 0
    && (if payA then Output(st.ra, st.rb, x) > 0 && x <= Balance(st.wa, who)
        else Output(st.rb, st.ra, x) > 0 && x <= Balance(st.wb, who))
  }

  function Swap(st: State, who: Account, payA: bool, x: int): State {
    if !CanSwap(st, who, payA, x) then st
    else if payA then
      var out := Output(st.ra, st.rb, x);
      st.(ra := st.ra + x, rb := st.rb - out, wa := st.wa[who := Balance(st.wa, who) - x],
          wb := st.wb[who := Balance(st.wb, who) + out])
    else
      var out := Output(st.rb, st.ra, x);
      st.(ra := st.ra - out, rb := st.rb + x, wa := st.wa[who := Balance(st.wa, who) + out],
          wb := st.wb[who := Balance(st.wb, who) - x])
  }

  // ---- rounding ----

  lemma {:induction false} ShareFits(r: nat, n: nat, ts: nat)
    requires 0 < n <= ts
    ensures 0 <= r * n / ts <= r && r * n / ts * ts <= r * n
  {}

  lemma {:induction false} OutputFits(rIn: nat, rOut: nat, x: nat)
    requires rIn > 0
    ensures var out := rOut * x * 997 / (rIn * 1000 + x * 997);
            0 <= out <= rOut && out * (rIn * 1000 + x * 997) <= rOut * x * 997
  {
    var d := rIn * 1000 + x * 997;
    Floor(rOut * x * 997, d);
    assert rOut * x * 997 == rOut * (x * 997);
    assert rOut * (x * 997) <= rOut * d by { MulMono(x * 997, d, rOut); MulComm(rOut, x * 997); MulComm(rOut, d); }
    MulCancelLe(rOut * x * 997 / d, rOut, d);
  }

  /** Nothing is rounded away beyond one unit: a later deposit mints its full share. */
  lemma {:induction false} MintIsFull(st: State, a: nat, b: nat)
    requires st.ts != 0 ==> st.ra > 0
    ensures st.ts == 0 ==>
              Minted(st, a, b) <= a && Minted(st, a, b) <= b
              && (Minted(st, a, b) == a || Minted(st, a, b) == b)
    ensures st.ts != 0 ==> Minted(st, a, b) * st.ra <= st.ts * a < (Minted(st, a, b) + 1) * st.ra
  {}

  /** A burn pays its full share of a reserve. */
  lemma {:induction false} ShareIsFull(r: nat, n: nat, ts: nat)
    requires 0 < n <= ts
    ensures Share(r, n, ts) * ts <= r * n < (Share(r, n, ts) + 1) * ts
  {}

  /** A swap pays the most that the fee-adjusted product allows: one unit more would break
      1000·rIn·rOut ≤ (1000·rIn + 997·x)·(rOut − out). */
  lemma {:induction false} OutputIsFull(rIn: nat, rOut: nat, x: nat)
    requires rIn > 0
    ensures var out := Output(rIn, rOut, x); var r := rIn * 1000 + x * 997;
            rIn * 1000 * rOut <= r * (rOut - out) && rIn * 1000 * rOut > r * (rOut - out - 1)
  {}

  // ---- what the entry points move ----

  /** One account's wallets and holding change by so much, everyone else's stay. */
  ghost predicate Moves(st: State, st2: State, who: Account, a: int, b: int, n: int) {
    && Balance(st2.wa, who) == Balance(st.wa, who) + a && Balance(st2.wb, who) == Balance(st.wb, who) + b
    && Balance(st2.lp, who) == Balance(st.lp, who) + n
    && forall o :: o != who ==>
         Balance(st2.wa, o) == Balance(st.wa, o) && Balance(st2.wb, o) == Balance(st.wb, o)
         && Balance(st2.lp, o) == Balance(st.lp, o)
  }

  /** A deposit that is covered and keeps the ratio takes both amounts from the caller and
      mints the full share, the smaller amount if it is the first. */
  lemma {:induction false} AddMoves(st: State, who: Account, a: int, b: int)
    requires a > 0 && b > 0 && a <= Balance(st.wa, who) && b <= Balance(st.wb, who)
    requires st.ts != 0 ==> st.ra > 0 && a * st.rb == b * st.ra
    ensures var st2 := Add(st, who, a, b); var n := st2.ts - st.ts;
            && Moves(st, st2, who, -a, -b, n) && st2.ra == st.ra + a && st2.rb == st.rb + b
            && (if st.ts == 0 then n == (if a < b then a else b) else n * st.ra <= st.ts * a < (n + 1) * st.ra)
  {
    MintIsFull(st, a, b);
  }

  /** A withdrawal of held shares pays the caller the full share of both reserves. */
  lemma {:induction false} RemoveMoves(st: State, who: Account, n: int)
    requires 0 < n <= Balance(st.lp, who) && n <= st.ts
    ensures var st2 := Remove(st, who, n); var a, b := st.ra - st2.ra, st.rb - st2.rb;
            && Moves(st, st2, who, a, b, -n) && st2.ts == st.ts - n
            && a * st.ts <= st.ra * n < (a + 1) * st.ts && b * st.ts <= st.rb * n < (b + 1) * st.ts
  {
    ShareIsFull(st.ra, n, st.ts);
    ShareIsFull(st.rb, n, st.ts);
  }

  /** The most the fee-adjusted product allows for an input. */
  predicate MostFor(rIn: nat, rOut: nat, x: nat, out: int) {
    var r := rIn * 1000 + x * 997;
    rIn * 1000 * rOut <= r * (rOut - out) && rIn * 1000 * rOut > r * (rOut - out - 1)
  }

  /** A covered swap that buys at least one unit takes its input from the caller and pays the
      most the product allows, in either direction. */
  lemma {:induction false} SwapMoves(st: State, who: Account, payA: bool, x: int)
    requires x > 0 && st.ts > 0 && st.ra > 0 && st.rb > 0
    requires x <= Balance(if payA then st.wa else st.wb, who)
    requires if payA then st.rb * x * 997 >= st.ra * 1000 + x * 997 else st.ra * x * 997 >= st.rb * 1000 + x * 997
    ensures var st2 := Swap(st, who, payA, x);
            && st2.ts == st.ts
            && if payA
               then var out := st.rb - st2.rb;
                    out > 0 && st2.ra == st.ra + x && MostFor(st.ra, st.rb, x, out) && Moves(st, st2, who, -x, out, 0)
               else var out := st.ra - st2.ra;
                    out > 0 && st2.rb == st.rb + x && MostFor(st.rb, st.ra, x, out) && Moves(st, st2, who, out, -x, 0)
  {
    if payA {
      OutputPositive(st.ra, st.rb, x);
      OutputIsMost(st.ra, st.rb, x);
    } else {
      OutputPositive(st.rb, st.ra, x);
      OutputIsMost(st.rb, st.ra, x);
    }
  }

  lemma {:induction false} OutputIsMost(rIn: nat, rOut: nat, x: nat)
    requires rIn > 0
    ensures MostFor(rIn, rOut, x, Output(rIn, rOut, x))
  {
    OutputIsFull(rIn, rOut, x);
  }

  lemma {:induction false} OutputPositive(rIn: nat, rOut: nat, x: nat)
    requires rIn > 0
    ensures Output(rIn, rOut, x) > 0 <==> rOut * x * 997 >= rIn * 1000 + x * 997
  {
    AtLeastOne(rOut * x * 997, rIn * 1000 + x * 997);
  }

  lemma {:induction false} AtLeastOne(n: nat, d: nat)
    requires d > 0
    ensures n / d > 0 <==> n >= d
  {
    Floor(n, d);
    if n / d > 0 { MulMono(1, n / d, d); }
  }

  /** Anything else is refused and changes nothing. */
  lemma {:induction false} Refused(st: State, who: Account, payA: bool, a: int, b: int)
    ensures Add(st, who, a, b) != st ==>
              0 < a <= Balance(st.wa, who) && 0 < b <= Balance(st.wb, who) && (st.ts > 0 ==> a * st.rb == b * st.ra)
    ensures Remove(st, who, a) != st ==> 0 < a <= Balance(st.lp, who)
    ensures Swap(st, who, payA, a) != st ==> 0 < a <= Balance(if payA then st.wa else st.wb, who) && st.ts > 0
    ensures Swap(st, who, payA, a) != st ==>
              if payA then st.rb * a * 997 >= st.ra * 1000 + a * 997 else st.ra * a * 997 >= st.rb * 1000 + a * 997
  {
    if a > 0 && st.ra > 0 && st.rb > 0 {
      OutputPositive(st.ra, st.rb, a);
      OutputPositive(st.rb, st.ra, a);
    }
  }

  // ---- the product per squared share ----

  /** The reserves' product per squared share has not fallen. */
  predicate NotDiluted(st: State, st2: State) {
    st.ra * st.rb * (st2.ts * st2.ts) <= st2.ra * st2.rb * (st.ts * st.ts)
  }

  /** If each reserve per share has not fallen, neither has their product. */
  lemma {:induction false} PerShare(a: nat, b: nat, t: nat, a2: nat, b2: nat, t2: nat)
    requires a * t2 <= a2 * t && b * t2 <= b2 * t
    ensures a * b * (t2 * t2) <= a2 * b2 * (t * t)
  {
    var x, y, x2, y2 := a * t2, b * t2, a2 * t, b2 * t;
    MulMono(x, x2, y);
    MulMono(y, y2, x2);
    assert x * y <= x2 * y2 by { MulComm(x2, y); MulComm(x2, y2); }
    Regroup(a, t2, b, t2);
    Regroup(a2, t, b2, t);
  }

  lemma {:induction false} Regroup(a: nat, s: nat, b: nat, t: nat)
    ensures a * s * (b * t) == a * b * (s * t)
  {}

  lemma {:induction false} RemovePerShare(r: nat, n: nat, ts: nat)
    requires 0 < n <= ts
    ensures r * (ts - n) <= (r - Share(r, n, ts)) * ts
  {}

  /** A swap's product does not fall: the fee and the floor stay in the pool. */
  lemma {:induction false} SwapProduct(rIn: nat, rOut: nat, x: nat)
    requires rIn > 0
    ensures rIn * rOut <= (rIn + x) * (rOut - Output(rIn, rOut, x))
  {}

  lemma {:induction false} AddPerShare(ra: nat, rb: nat, ts: nat, a: nat, b: nat, n: nat)
    requires ra > 0 && a * rb == b * ra && n * ra <= ts * a
    ensures ra * (ts + n) <= (ra + a) * ts && rb * (ts + n) <= (rb + b) * ts
  {}

  // ---- invariant and steps ----

  datatype Event =
    | AddLiquidity(who: Account, a: int, b: int)
    | RemoveLiquidity(who: Account, shares: int)
    | SwapExactIn(who: Account, payA: bool, x: int)

  function Next(st: State, e: Event): State {
    match e
    case AddLiquidity(who, a, b) => Add(st, who, a, b)
    case RemoveLiquidity(who, n) => Remove(st, who, n)
    case SwapExactIn(who, payA, x) => Swap(st, who, payA, x)
  }

  /** No reserves without shares, and none empty with them. */
  predicate Anchored(st: State) { (st.ts == 0 <==> st.ra == 0) && (st.ts == 0 <==> st.rb == 0) }

  /** Holdings add up to the supply, wallets and reserves to the minted totals. */
  ghost predicate Conserved(st: State, mintA: nat, mintB: nat) {
    Sum(st.lp) == st.ts && Sum(st.wa) + st.ra == mintA && Sum(st.wb) + st.rb == mintB
  }

  lemma {:induction false} AddKeeps(st: State, who: Account, a: int, b: int)
    requires Anchored(st)
    ensures Anchored(Add(st, who, a, b)) && NotDiluted(st, Add(st, who, a, b))
  {
    if CanAdd(st, who, a, b) {
      var n := Minted(st, a, b);
      if st.ts == 0 {
        PerShare(0, 0, 0, st.ra + a, st.rb + b, st.ts + n);
      } else {
        Floor(st.ts * a, st.ra);
        AddPerShare(st.ra, st.rb, st.ts, a, b, n);
        PerShare(st.ra, st.rb, st.ts, st.ra + a, st.rb + b, st.ts + n);
      }
    }
  }

  lemma {:induction false} RemoveKeeps(st: State, who: Account, n: int)
    requires Anchored(st)
    ensures Anchored(Remove(st, who, n)) && NotDiluted(st, Remove(st, who, n))
  {
    if CanRemove(st, who, n) {
      var a, b := Share(st.ra, n, st.ts), Share(st.rb, n, st.ts);
      RemovePerShare(st.ra, n, st.ts);
      RemovePerShare(st.rb, n, st.ts);
      PerShare(st.ra, st.rb, st.ts, st.ra - a, st.rb - b, st.ts - n);
      Exhausted(st.ra, n, st.ts);
      Exhausted(st.rb, n, st.ts);
    }
  }

  /** A share takes the whole reserve exactly when it is the whole supply. */
  lemma {:induction false} Exhausted(r: nat, n: nat, ts: nat)
    requires 0 < n <= ts && r > 0
    ensures r - Share(r, n, ts) == 0 <==> n == ts
  {
    RemovePerShare(r, n, ts);
    var left := r - Share(r, n, ts);
    if n < ts {
      assert r * (ts - n) > 0;
      assert left == 0 ==> left * ts == 0;
    } else {
      assert r * n == r * ts;
      WholeShare(r, ts);
    }
  }

  lemma {:induction false} WholeShare(r: nat, ts: nat)
    requires ts > 0
    ensures r * ts / ts == r
  {
    var q := r * ts / ts;
    var d := q - r;
    assert ts * q + r * ts % ts == r * ts;
    assert d * ts == q * ts - r * ts;
    assert d >= 1 ==> d * ts >= ts;
    assert d <= -1 ==> d * ts <= 0 - ts;
  }

  lemma {:induction false} SwapKeeps(st: State, who: Account, payA: bool, x: int)
    requires Anchored(st)
    ensures Anchored(Swap(st, who, payA, x)) && NotDiluted(st, Swap(st, who, payA, x))
  {
    if CanSwap(st, who, payA, x) {
      var st2 := Swap(st, who, payA, x);
      if payA { SwapProduct(st.ra, st.rb, x); } else { SwapProduct(st.rb, st.ra, x); }
      MulComm(st.ra, st.rb);
      MulComm(st2.ra, st2.rb);
      assert st.ra * st.rb <= st2.ra * st2.rb;
      MulMono(st.ra * st.rb, st2.ra * st2.rb, st.ts * st.ts);
      NonZero(st.ra, st.rb, st2.ra, st2.rb);
    }
  }

  lemma {:induction false} NonZero(a: nat, b: nat, a2: nat, b2: nat)
    requires a > 0 && b > 0 && a * b <= a2 * b2
    ensures a2 > 0 && b2 > 0
  {}

  lemma {:induction false} StepKeeps(st: State, e: Event)
    requires Anchored(st)
    ensures Anchored(Next(st, e)) && NotDiluted(st, Next(st, e))
  {
    match e
    case AddLiquidity(who, a, b) => AddKeeps(st, who, a, b);
    case RemoveLiquidity(who, n) => RemoveKeeps(st, who, n);
    case SwapExactIn(who, payA, x) => SwapKeeps(st, who, payA, x);
  }

  lemma {:induction false} StepConserves(st: State, e: Event, mintA: nat, mintB: nat)
    requires Conserved(st, mintA, mintB)
    ensures Conserved(Next(st, e), mintA, mintB)
  {
    var st2 := Next(st, e);
    SumSet(st.wa, e.who, Balance(st2.wa, e.who));
    SumSet(st.wb, e.who, Balance(st2.wb, e.who));
    SumSet(st.lp, e.who, Balance(st2.lp, e.who));
  }

  // ---- runs ----

  function Run(st: State, es: seq<Event>): State
    decreases |es|
  {
    if es == [] then st else Run(Next(st, es[0]), es[1..])
  }

  /** Conservation and anchoring over every run. */
  lemma {:induction false} RunKeeps(st: State, es: seq<Event>, mintA: nat, mintB: nat)
    requires Anchored(st) && Conserved(st, mintA, mintB)
    ensures Anchored(Run(st, es)) && Conserved(Run(st, es), mintA, mintB)
    decreases |es|
  {
    if es != [] {
      StepKeeps(st, es[0]);
      StepConserves(st, es[0], mintA, mintB);
      RunKeeps(Next(st, es[0]), es[1..], mintA, mintB);
    }
  }

  /** The pool holds shares throughout the run. */
  predicate Live(st: State, es: seq<Event>)
    decreases |es|
  {
    st.ts > 0 && (es == [] || Live(Next(st, es[0]), es[1..]))
  }

  /** Over every run that never empties the pool, the product per squared share does not fall. */
  lemma {:induction false} RunNotDiluted(st: State, es: seq<Event>)
    requires Anchored(st) && Live(st, es)
    ensures NotDiluted(st, Run(st, es))
    decreases |es|
  {
    if es != [] {
      StepKeeps(st, es[0]);
      RunNotDiluted(Next(st, es[0]), es[1..]);
      NotDilutedTrans(st, Next(st, es[0]), Run(st, es));
    }
  }

  lemma {:induction false} NotDilutedTrans(st: State, st1: State, st2: State)
    requires NotDiluted(st, st1) && NotDiluted(st1, st2) && st1.ts > 0
    ensures NotDiluted(st, st2)
  {}

  /** The state after initialisation: 2500 of each token in two wallets. */
  predicate Fresh(st: State) {
    && st.ra == 0 && st.rb == 0 && st.ts == 0 && st.lp == map[]
    && st.wa == map["alice.test.near" := 2000, "bob.test.near" := 500]
    && st.wb == map["alice.test.near" := 2000, "bob.test.near" := 500]
  }

  lemma {:induction false} MintedTotals(st: State, es: seq<Event>)
    requires Fresh(st)
    ensures Anchored(Run(st, es)) && Conserved(Run(st, es), 2500, 2500)
  {
    SumOfTwo(st.wa);
    SumOfTwo(st.wb);
    RunKeeps(st, es, 2500, 2500);
  }

  lemma {:induction false} SumOfTwo(m: map<Account, nat>)
    requires m == map["alice.test.near" := 2000, "bob.test.near" := 500]
    ensures Sum(m) == 2500
  {
    SumPick(m, "alice.test.near");
    var r := m - {"alice.test.near"};
    SumPick(r, "bob.test.near");
    assert r - {"bob.test.near"} == map[];
  }

  // ---- the contract ----

  /** The stored records as one value that every write replaces; `ok` is false where the
      original aborts. */
  class Market {
    var st: State

    constructor ()
      ensures Fresh(st)
    {
      st := State(0, 0, 0, map["alice.test.near" := 2000, "bob.test.near" := 500],
                  map["alice.test.near" := 2000, "bob.test.near" := 500], map[]);
    }

    method AddLiquidity(who: Account, a: int, b: int) returns (ok: bool)
      modifies this
      ensures ok == CanAdd(old(st), who, a, b) && st == Add(old(st), who, a, b)
    {
      var p := st;
      if a <= 0 || b <= 0 { return false; }
      if p.ts != 0 && (a * p.rb != b * p.ra || p.ra == 0) { return false; }
      var minted := Minted(p, a, b);
      if Balance(p.wa, who) < a || Balance(p.wb, who) < b { return false; }
      st := st.(wa := p.wa[who := Balance(p.wa, who) - a], wb := p.wb[who := Balance(p.wb, who) - b]);
      st := st.(ra := p.ra + a, rb := p.rb + b, ts := p.ts + minted);
      st := st.(lp := p.lp[who := Balance(p.lp, who) + minted]);
      return true;
    }

    method RemoveLiquidity(who: Account, n: int) returns (ok: bool)
      modifies this
      ensures ok == CanRemove(old(st), who, n) && st == Remove(old(st), who, n)
    {
      var p := st;
      if n <= 0 || n > Balance(p.lp, who) || n > p.ts { return false; }
      var a, b := Share(p.ra, n, p.ts), Share(p.rb, n, p.ts);
      st := st.(wa := p.wa[who := Balance(p.wa, who) + a], wb := p.wb[who := Balance(p.wb, who) + b]);
      st := st.(lp := p.lp[who := Balance(p.lp, who) - n]);
      st := st.(ra := p.ra - a, rb := p.rb - b, ts := p.ts - n);
      return true;
    }

    method SwapExactIn(who: Account, payA: bool, x: int) returns (ok: bool)
      modifies this
      ensures ok == CanSwap(old(st), who, payA, x) && st == Swap(old(st), who, payA, x)
    {
      var p := st;
      if x <= 0 || p.ts == 0 || p.ra == 0 || p.rb == 0 { return false; }
      var rIn, rOut := if payA then p.ra else p.rb, if payA then p.rb else p.ra;
      var out := Output(rIn, rOut, x);
      if out == 0 { return false; }
      if payA {
        if Balance(p.wa, who) < x { return false; }
        st := st.(wa := p.wa[who := Balance(p.wa, who) - x], wb := p.wb[who := Balance(p.wb, who) + out]);
        st := st.(ra := p.ra + x, rb := p.rb - out);
      } else {
        if Balance(p.wb, who) < x { return false; }
        st := st.(wa := p.wa[who := Balance(p.wa, who) + out], wb := p.wb[who := Balance(p.wb, who) - x]);
        st := st.(ra := p.ra - out, rb := p.rb + x);
      }
      return true;
    }
  }
}
