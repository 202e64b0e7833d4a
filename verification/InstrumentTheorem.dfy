/** What the pass promises about whole runs of a module. */
module InstrumentTheorem {
  import opened ModArith
  import opened Wrappers
  import opened Wasm
  import opened WasmTyping
  import opened Instrument

  /** The program itself, without the charge log. */
  function Unmetered(m: Module): Module { m.(metered := false) }

  // ---- the log does not influence the run ----

  lemma {:induction false} EraseCode(m: Module, f: Func, n: nat, c: Code, st: State)
    requires f.Defined?
    ensures Eval(m, f, n, c, st).r.Stuck? || Eval(Unmetered(m), f, n, c, st).r == Eval(m, f, n, c, st).r
    decreases n, 1, c, 2
  {
    if c.Cons? {
      var o := Exec(m, f, n, c.head, st);
      EraseOp(m, f, n, c.head, st);
      if o.r.Next? { EraseCode(m, f, n, c.tail, o.r.st); }
    }
  }

  lemma {:induction false} EraseTo(m: Module, f: Func, n: nat, c: Code, endAt: nat, st: State)
    requires f.Defined?
    ensures EvalTo(m, f, n, c, endAt, st).r.Stuck?
            || EvalTo(Unmetered(m), f, n, c, endAt, st).r == EvalTo(m, f, n, c, endAt, st).r
    decreases n, 1, c, 3
  {
    EraseCode(m, f, n, c, st);
  }

  lemma {:induction false} EraseOp(m: Module, f: Func, n: nat, i: Instr, st: State)
    requires f.Defined?
    ensures Exec(m, f, n, i, st).r.Stuck? || Exec(Unmetered(m), f, n, i, st).r == Exec(m, f, n, i, st).r
    decreases n, 1, i, 4
  {
    var s := st.stack;
    match i
    case Plain(_, p) => assert PlainStep(Unmetered(m), p, st) == PlainStep(m, p, st);
    case Br(_, _) =>
    case BrIf(_, _) =>
    case Return(_) =>
    case Call(_, g) => EraseCall(m, n, g, st);
    case ReturnCall(_, g) => EraseCall(m, n, g, st);
    case Block(_, bt, body, endAt) =>
      if Arity(m.types, bt).Some? && Arity(m.types, bt).value.0 <= |s| {
        EraseTo(m, f, n, body, endAt, st.(stack := Tops(s, Arity(m.types, bt).value.0)));
      }
    case Loop(_, _, _, _) => EraseLoop(m, f, n, i, st);
    case If(_, bt, body, endAt) =>
      if Arity(m.types, bt).Some? && Arity(m.types, bt).value.0 < |s| {
        EraseTo(m, f, n, body, endAt, st.(stack := Tops(Pop(s, 1), Arity(m.types, bt).value.0)));
      }
    case IfElse(_, bt, body, elseAt, els, endAt) =>
      if Arity(m.types, bt).Some? && Arity(m.types, bt).value.0 < |s| {
        var a := st.(stack := Tops(Pop(s, 1), Arity(m.types, bt).value.0));
        EraseTo(m, f, n, body, elseAt, a);
        EraseTo(m, f, n, els, endAt, a);
      }
  }

  lemma {:induction false} EraseLoop(m: Module, f: Func, n: nat, i: Instr, st: State)
    requires f.Defined? && i.Loop?
    ensures Exec(m, f, n, i, st).r.Stuck? || Exec(Unmetered(m), f, n, i, st).r == Exec(m, f, n, i, st).r
    decreases n, 1, i, 3
  {
    var s := st.stack;
    if Arity(m.types, i.bt).Some? && Arity(m.types, i.bt).value.0 <= |s| {
      var np := Arity(m.types, i.bt).value.0;
      var o := EvalTo(m, f, n, i.body, i.endAt, st.(stack := Tops(s, np)));
      EraseTo(m, f, n, i.body, i.endAt, st.(stack := Tops(s, np)));
      if o.r.Branch? && o.r.k == 0 && np <= |o.r.st.stack| && n > 0 {
        EraseOp(m, f, n - 1, i, o.r.st.(stack := Pop(s, np) + Tops(o.r.st.stack, np)));
      }
    }
  }

  lemma {:induction false} EraseCall(m: Module, n: nat, g: nat, st: State)
    ensures CallFn(m, n, g, st).r.Stuck? || CallFn(Unmetered(m), n, g, st).r == CallFn(m, n, g, st).r
    decreases n, 0
  {
    if g < |m.funcs| && m.funcs[g].nparams <= |st.stack| && m.funcs[g].Defined? && n > 0 {
      EraseFn(m, n - 1, m.funcs[g], Tops(st.stack, m.funcs[g].nparams), st.store);
    }
  }

  lemma {:induction false} EraseFn(m: Module, n: nat, fn: Func, args: seq<Value>, store: Store)
    requires fn.Defined?
    ensures RunFn(m, n, fn, args, store).r.Stuck?
            || RunFn(Unmetered(m), n, fn, args, store).r == RunFn(m, n, fn, args, store).r
    decreases n, 2
  {
    EraseTo(m, fn, n, fn.body, fn.endAt, State([], args + Zeros(fn.locals), store));
  }

  // ---- what a log needs ----

  /** Total gas of a log. */
  function GasSum(tr: seq<Event>): nat {
    if tr == [] then 0 else (if tr[0].Gas? then tr[0].n else 0) + GasSum(tr[1..])
  }

  /** The least stack budget under which every activation of a log fits: its peak depth. */
  function StackNeed(tr: seq<Event>): nat {
    if tr == [] then 0
    else
      var rest := StackNeed(tr[1..]);
      match tr[0]
      case Gas(_) => rest
      case Enter(n) => n + rest
      case Exit(n) => if rest <= n then 0 else rest - n
  }

  /** A log goes through exactly when the gas covers its sum and the stack its peak. */
  lemma {:induction false} ReplayFits(tr: seq<Event>, gas: nat, stk: nat)
    ensures Replay(tr, gas, stk).Left? <==> GasSum(tr) <= gas && StackNeed(tr) <= stk
    ensures Replay(tr, gas, stk).Left? ==> Replay(tr, gas, stk).gas == gas - GasSum(tr)
    ensures Replay(tr, gas, stk).gas <= gas
    decreases |tr|
  {
    if tr == [] { return; }
    match tr[0]
    case Gas(n) => if gas >= n { ReplayFits(tr[1..], gas - n, stk); }
    case Enter(n) => if stk >= n { ReplayFits(tr[1..], gas, stk - n); }
    case Exit(n) => ReplayFits(tr[1..], gas, stk + n);
  }

  // ---- the main theorem ----

  /** What an instrumented activation owes: the original's results and store, the gas global
      lowered by exactly the fees on the executed path and the stack global back at its
      entry value; or, when one of the budgets does not cover the path, a trap with both
      globals as the refused charge found them. */
  ghost predicate Preserved(g: nat, plain: Res, log: seq<Event>, r': Res, gas: Word64, stk: Word64) {
    if GasSum(log) <= gas && StackNeed(log) <= stk
    then
      && (plain.Next? ==> r'.Next? && r'.st.stack == plain.st.stack
                          && r'.st.store == LiftStore(plain.st.store, gas - GasSum(log), stk))
      && (plain.Trap? ==> r'.Trap? && r'.store.mem == plain.store.mem
                          && |r'.store.globals| == g + 2
                          && r'.store.globals[..g] == plain.store.globals
                          && r'.store.globals[g] == I64(gas - GasSum(log)))
      && (plain.Timeout? ==> r'.Timeout?)
      && !plain.Branch? && !plain.Ret? && !plain.Stuck?
    else
      Refused(g, r', Replay(log, gas, stk).gas, Replay(log, gas, stk).stk)
      && Replay(log, gas, stk).gas <= gas
  }

  /** For every validated module, every fee table, every fuel and every budget. */
  lemma {:induction false} InstrumentationPreserves(m: Module, m': Module, sig: Sig, h: nat, n: nat, args: seq<Value>,
                                                    store: Store, gas: Word64, stk: Word64)
    requires Instrumented(m, m') && Valid(m, sig) && h < |m.funcs| && m.funcs[h].Defined?
    requires HasTypes(args, sig.funcs[h].params) && HasTypes(store.globals, sig.globals)
    ensures m'.funcs[h + SHIFT].Defined?
    ensures Preserved(m.nglobals, RunFn(Unmetered(m), n, m.funcs[h], args, store).r,
                      RunFn(m, n, m.funcs[h], args, store).tr,
                      RunFn(m', n, m'.funcs[h + SHIFT], args, LiftStore(store, gas, stk)).r, gas, stk)
  {
    assert FuncOk(m, sig, m.funcs[h], sig.funcs[h]);
    FnTyped(m, sig, n, m.funcs[h], sig.funcs[h], args, store);
    UnstuckPreserves(m, m', h, n, args, store, gas, stk);
  }

  /** The same for any run that does not get stuck. */
  lemma {:induction false} UnstuckPreserves(m: Module, m': Module, h: nat, n: nat, args: seq<Value>, store: Store,
                                            gas: Word64, stk: Word64)
    requires Instrumented(m, m') && h < |m.funcs| && m.funcs[h].Defined?
    requires |args| == m.funcs[h].nparams && |store.globals| == m.nglobals
    requires !RunFn(m, n, m.funcs[h], args, store).r.Stuck?
    ensures m'.funcs[h + SHIFT].Defined?
    ensures Preserved(m.nglobals, RunFn(Unmetered(m), n, m.funcs[h], args, store).r,
                      RunFn(m, n, m.funcs[h], args, store).tr,
                      RunFn(m', n, m'.funcs[h + SHIFT], args, LiftStore(store, gas, stk)).r, gas, stk)
  {
    var fn, fn' := m.funcs[h], m'.funcs[h + SHIFT];
    assert InstrumentedFn(m'.types, m.nglobals, fn, fn');
    EraseFn(m, n, fn, args, store);
    SimFn(m, m', n, fn, fn', args, store, LiftStore(store, gas, stk), gas, stk);
    var o, plain := RunFn(m, n, fn, args, store), RunFn(Unmetered(m), n, fn, args, store).r;
    SimPreserves(m.nglobals, o, plain, RunFn(m', n, fn', args, LiftStore(store, gas, stk)).r, gas, stk);
  }

  /** The simulation, with the log's replay spelt out. */
  lemma {:induction false} SimPreserves(g: nat, o: Outcome, plain: Res, r': Res, gas: Word64, stk: Word64)
    requires FnSim(g, o, r', gas, stk) && plain == o.r && !o.r.Stuck?
    ensures Preserved(g, plain, o.tr, r', gas, stk)
  {
    ReplayFits(o.tr, gas, stk);
  }

  // ---- 64-bit fee arithmetic ----

  /** The mathematical price of an aggregate operator on `c` units. */
  function Price(fee: Fee, c: nat): nat { c * fee.linear + fee.constant }

  /** The in-line price is the mathematical one for every 32-bit length exactly when the
      longest length does not overflow. */
  lemma {:induction false} LinearFeeExact(fee: Fee)
    ensures (forall c: Word32 :: FeeOf(fee, [I32(c)]) == Some(Price(fee, c)))
            <==> (fee.linear == 0 || Price(fee, TWO32 - 1) < TWO64)
  {
    if fee.linear == 0 {
    } else if Price(fee, TWO32 - 1) < TWO64 {
      forall c: Word32 ensures FeeOf(fee, [I32(c)]) == Some(Price(fee, c)) {
        MulMono(c, TWO32 - 1, fee.linear);
      }
    } else {
      assert FeeOf(fee, [I32(TWO32 - 1)]) != Some(Price(fee, TWO32 - 1));
    }
  }

  /** The protocol's own fee table is inside that range. */
  lemma {:induction false} ProtocolFeeExact(c: Word32)
    ensures FeeOf(Fee(26328192, 822756), [I32(c)]) == Some(c * 822756 + 26328192)
  {}
}
