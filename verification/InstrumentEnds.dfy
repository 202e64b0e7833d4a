/** Metering ends runs: where every function and every loop iteration pays, gas bounds the
    calls and iterations an activation can make. */
module InstrumentEnds {
  import opened Wrappers
  import opened Wasm
  import opened WasmTyping
  import opened Instrument
  import opened InstrumentTheorem

  // ---- who pays ----

  /** A constant, positive charge stands before the operator at this offset. */
  ghost predicate Charged(ps: seq<Point>, at: nat) {
    exists k :: 0 <= k < |PointsAt(ps, at)| && CostsGas(PointsAt(ps, at)[k])
  }

  predicate CostsGas(p: Point) { p.fee.linear == 0 && p.fee.constant > 0 }

  /** The first operator of every loop body is charged. */
  ghost predicate CodePays(ps: seq<Point>, c: Code) {
    match c
    case Nil => true
    case Cons(i, rest) => OpPays(ps, i) && CodePays(ps, rest)
  }

  ghost predicate OpPays(ps: seq<Point>, i: Instr) {
    match i
    case Block(_, _, body, _) => CodePays(ps, body)
    case Loop(_, _, body, _) => CodePays(ps, body) && (body.Cons? ==> Charged(ps, body.head.at))
    case If(_, _, body, _) => CodePays(ps, body)
    case IfElse(_, _, body, _, els, _) => CodePays(ps, body) && CodePays(ps, els)
    case _ => true
  }

  ghost predicate FuncPays(f: Func) { f.Defined? ==> f.entryGas > 0 && CodePays(f.points, f.body) }

  /** Every function pays on entry, and every loop body on each iteration. */
  ghost predicate EveryonePays(m: Module) {
    m.metered && forall i :: 0 <= i < |m.funcs| ==> FuncPays(m.funcs[i])
  }

  // ---- what is paid ----

  lemma {:induction false} GasSumAppend(a: seq<Event>, b: seq<Event>)
    ensures GasSum(a + b) == GasSum(a) + GasSum(b)
    decreases |a|
  {
    if a == [] {
      assert a + b == b;
    } else {
      GasSumAppend(a[1..], b);
      assert (a + b)[1..] == a[1..] + b;
    }
  }

  lemma {:induction false} ChargePaid(qs: seq<Point>, stack: seq<Value>, k: nat)
    requires k < |qs| && CostsGas(qs[k]) && PayAll(qs, stack).Some?
    ensures GasSum(PayAll(qs, stack).value) > 0
    decreases |qs|
  {
    var n, rest := FeeOf(qs[0].fee, stack).value, PayAll(qs[1..], stack).value;
    GasSumAppend(if qs[0].fee == Fee(0, 0) then [] else [Gas(n)], rest);
    if k > 0 { ChargePaid(qs[1..], stack, k - 1); }
  }

  /** An iteration of a paying loop pays, unless it gets stuck at once. */
  lemma {:induction false} IterationPaid(m: Module, f: Func, n: nat, c: Code, endAt: nat, st: State)
    requires m.metered && f.Defined? && (c.Cons? ==> Charged(f.points, c.head.at))
    requires EvalTo(m, f, n, c, endAt, st).r.Branch?
    ensures GasSum(EvalTo(m, f, n, c, endAt, st).tr) > 0
  {
    var i := c.head;
    var ps := PointsAt(f.points, i.at);
    var k :| 0 <= k < |ps| && CostsGas(ps[k]);
    ChargePaid(ps, st.stack, k);
    FirstPaid(m, f, n, c, st);
  }

  /** The log of code starts with the charges before its first operator. */
  lemma {:induction false} FirstPaid(m: Module, f: Func, n: nat, c: Code, st: State)
    requires f.Defined? && c.Cons? && Pay(m, f, c.head.at, st.stack).Some?
    ensures GasSum(Eval(m, f, n, c, st).tr) >= GasSum(Pay(m, f, c.head.at, st.stack).value)
  {
    var tr, o := Pay(m, f, c.head.at, st.stack).value, Exec(m, f, n, c.head, st);
    GasSumAppend(tr, o.tr);
    if o.r.Next? { GasSumAppend(tr + o.tr, Eval(m, f, n, c.tail, o.r.st).tr); }
  }

  // ---- a run out of fuel has paid for all of it ----

  lemma {:induction false} TimeoutCode(m: Module, f: Func, n: nat, c: Code, st: State)
    requires EveryonePays(m) && f.Defined? && CodePays(f.points, c) && Eval(m, f, n, c, st).r.Timeout?
    ensures GasSum(Eval(m, f, n, c, st).tr) >= n
    decreases n, 1, c, 2
  {
    var tr, o := Pay(m, f, c.head.at, st.stack).value, Exec(m, f, n, c.head, st);
    GasSumAppend(tr, o.tr);
    if o.r.Next? {
      TimeoutCode(m, f, n, c.tail, o.r.st);
      GasSumAppend(tr + o.tr, Eval(m, f, n, c.tail, o.r.st).tr);
    } else {
      TimeoutOp(m, f, n, c.head, st);
    }
  }

  lemma {:induction false} TimeoutOp(m: Module, f: Func, n: nat, i: Instr, st: State)
    requires EveryonePays(m) && f.Defined? && OpPays(f.points, i) && Exec(m, f, n, i, st).r.Timeout?
    ensures GasSum(Exec(m, f, n, i, st).tr) >= n
    decreases n, 1, i, 4
  {
    var s := st.stack;
    match i
    case Call(_, g) => TimeoutCall(m, n, g, st);
    case ReturnCall(_, g) =>
      TimeoutCall(m, n, g, st);
      GasSumAppend(ExitEvents(m, f), CallFn(m, n, g, st).tr);
    case Block(_, bt, body, endAt) =>
      TimeoutCode(m, f, n, body, st.(stack := Tops(s, Arity(m.types, bt).value.0)));
    case Loop(_, bt, body, endAt) => TimeoutLoop(m, f, n, i, st);
    case If(_, bt, body, endAt) =>
      TimeoutCode(m, f, n, body, st.(stack := Tops(Pop(s, 1), Arity(m.types, bt).value.0)));
    case IfElse(_, bt, body, elseAt, els, endAt) =>
      var a := st.(stack := Tops(Pop(s, 1), Arity(m.types, bt).value.0));
      if Top(s).w != 0 { TimeoutCode(m, f, n, body, a); } else { TimeoutCode(m, f, n, els, a); }
    case _ =>
  }

  lemma {:induction false} TimeoutLoop(m: Module, f: Func, n: nat, i: Instr, st: State)
    requires EveryonePays(m) && f.Defined? && i.Loop? && OpPays(f.points, i) && Exec(m, f, n, i, st).r.Timeout?
    ensures GasSum(Exec(m, f, n, i, st).tr) >= n
    decreases n, 1, i, 3
  {
    var s, np := st.stack, Arity(m.types, i.bt).value.0;
    var st' := st.(stack := Tops(s, np));
    var o := EvalTo(m, f, n, i.body, i.endAt, st');
    if o.r.Timeout? {
      TimeoutCode(m, f, n, i.body, st');
    } else if n > 0 {
      var again := o.r.st.(stack := Pop(s, np) + Tops(o.r.st.stack, np));
      IterationPaid(m, f, n, i.body, i.endAt, st');
      TimeoutOp(m, f, n - 1, i, again);
      GasSumAppend(o.tr, Exec(m, f, n - 1, i, again).tr);
    }
  }

  lemma {:induction false} TimeoutCall(m: Module, n: nat, g: nat, st: State)
    requires EveryonePays(m) && CallFn(m, n, g, st).r.Timeout?
    ensures GasSum(CallFn(m, n, g, st).tr) >= n
    decreases n, 0
  {
    if n > 0 {
      var fn := m.funcs[g];
      assert FuncPays(fn);
      TimeoutFn(m, n - 1, fn, Tops(st.stack, fn.nparams), st.store);
    }
  }

  /** An activation that runs out of fuel has paid more gas than it had fuel. */
  lemma {:induction false} TimeoutFn(m: Module, n: nat, fn: Func, args: seq<Value>, store: Store)
    requires EveryonePays(m) && fn.Defined? && FuncPays(fn) && RunFn(m, n, fn, args, store).r.Timeout?
    ensures GasSum(RunFn(m, n, fn, args, store).tr) > n
    decreases n, 2
  {
    var st := State([], args + Zeros(fn.locals), store);
    TimeoutCode(m, fn, n, fn.body, st);
    GasSumAppend(EntryEvents(m, fn), EvalTo(m, fn, n, fn.body, fn.endAt, st).tr);
    GasSumAppend([Enter(fn.charge)], [Gas(fn.entryGas)]);
  }

  /** A loop whose only operator jumps back, uncharged, outlasts all fuel and pays nothing. */
  lemma {:induction false} FreeLoopNeverEnds(m: Module, f: Func, n: nat, i: Instr, st: State)
    requires f.Defined? && i.Loop? && i.bt == Empty && i.body.Cons? && i.body.head.Br? && i.body.head.k == 0
    requires PointsAt(f.points, i.body.head.at) == []
    ensures Exec(m, f, n, i, st) == Out(Timeout, [])
    decreases n
  {
    var st' := st.(stack := Tops(st.stack, 0));
    FreeJump(m, f, n, i.body, st');
    if n > 0 {
      assert Pop(st.stack, 0) + Tops(st'.stack, 0) == st.stack;
      FreeLoopNeverEnds(m, f, n - 1, i, st);
    }
  }

  lemma {:induction false} FreeJump(m: Module, f: Func, n: nat, c: Code, st: State)
    requires f.Defined? && c.Cons? && c.head.Br? && c.head.k == 0 && PointsAt(f.points, c.head.at) == []
    ensures Eval(m, f, n, c, st) == Out(Branch(0, st), [])
  {
    assert Pay(m, f, c.head.at, st.stack) == Some([]);
  }

  /** An instrumented activation of a module where everyone pays ends within as many calls
      and loop iterations as it has gas. */
  lemma {:induction false} MeteringEnds(m: Module, m': Module, sig: Sig, h: nat, n: nat, args: seq<Value>, store: Store,
                                        gas: Word64, stk: Word64)
    requires Instrumented(m, m') && Valid(m, sig) && h < |m.funcs| && m.funcs[h].Defined?
    requires HasTypes(args, sig.funcs[h].params) && HasTypes(store.globals, sig.globals)
    requires EveryonePays(m) && n >= gas
    ensures m'.funcs[h + SHIFT].Defined?
    ensures var r' := RunFn(m', n, m'.funcs[h + SHIFT], args, LiftStore(store, gas, stk)).r; r'.Next? || r'.Trap?
  {
    InstrumentationPreserves(m, m', sig, h, n, args, store, gas, stk);
    var fn := m.funcs[h];
    assert FuncPays(fn);
    assert FuncOk(m, sig, fn, sig.funcs[h]);
    FnTyped(m, sig, n, fn, sig.funcs[h], args, store);
    EraseFn(m, n, fn, args, store);
    if RunFn(m, n, fn, args, store).r.Timeout? { TimeoutFn(m, n, fn, args, store); }
  }
}
