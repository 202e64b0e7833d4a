/** The gas and stack pass on structured code: the inserted sequences, and the proof
    that an instrumented module runs the original program while its two appended
    globals replay the charge log of the run. */
module Instrument {
  import opened Wrappers
  import opened Wasm

  const REGULAR_OP_COST: nat := 822756
  const GAS_EXHAUSTED_FN: nat := 0
  const STACK_EXHAUSTED_FN: nat := 1
  const GAS_FN: nat := 2
  /** Number of prepended imports: the shift of every function index. */
  const SHIFT: nat := 3

  // ---- inserted code; `g` is the number of globals of the original module ----

  function P(p: PlainOp): Instr { Plain(0, p) }

  function GasCode(k: Word64, g: nat): Code {
    Cons(P(GlobalGet(g)), Cons(P(Const(I64(k))), Cons(P(Binary(LtU)), Cons(
      IfElse(0, Empty,
             Cons(P(Const(I64(k))), Cons(Call(0, GAS_FN), Cons(P(Unreachable), Nil))), 0,
             Cons(P(GlobalGet(g)), Cons(P(Const(I64(k))), Cons(P(Binary(Sub)), Cons(P(GlobalSet(g)), Nil)))), 0),
      Nil))))
  }

  /** `tmp` and `tmp + 1` are the two appended locals. */
  function LinearCode(fee: Fee, g: nat, tmp: nat): Code {
    Cons(P(LocalTee(tmp + 1)), Cons(P(ExtendU), Cons(P(Const(I64(fee.linear))), Cons(P(Binary(Mul)),
    Cons(P(Const(I64(fee.constant))), Cons(P(Binary(Add)), LinearTail(g, tmp)))))))
  }

  function LinearTail(g: nat, tmp: nat): Code {
    Cons(P(LocalTee(tmp)), Cons(P(GlobalGet(g)), Cons(P(Binary(GtU)), Cons(
      IfElse(0, Empty,
             Cons(P(LocalGet(tmp)), Cons(Call(0, GAS_FN), Cons(P(Unreachable), Nil))), 0,
             Cons(P(GlobalGet(g)), Cons(P(LocalGet(tmp)), Cons(P(Binary(Sub)), Cons(P(GlobalSet(g)), Nil)))), 0),
      Cons(P(LocalGet(tmp + 1)), Nil)))))
  }

  function StackCode(charge: Word64, g: nat): Code {
    Cons(P(GlobalGet(g + 1)), Cons(P(Const(I64(charge))), Cons(P(Binary(LtU)), Cons(
      IfElse(0, Empty,
             Cons(Call(0, STACK_EXHAUSTED_FN), Cons(P(Unreachable), Nil)), 0,
             Cons(P(GlobalGet(g + 1)),
                  Cons(P(Const(I64(charge))), Cons(P(Binary(Sub)), Cons(P(GlobalSet(g + 1)), Nil)))), 0),
      Nil))))
  }

  function UnstackCode(charge: Word64, g: nat): Code {
    Cons(P(GlobalGet(g + 1)), Cons(P(Const(I64(charge))), Cons(P(Binary(Add)), Cons(P(GlobalSet(g + 1)), Nil))))
  }

  function PointCode(fee: Fee, g: nat, tmp: nat): Code {
    if fee == Fee(0, 0) then Nil
    else if fee.linear == 0 then GasCode(fee.constant, g)
    else LinearCode(fee, g, tmp)
  }

  function ChargeCode(ps: seq<Point>, g: nat, tmp: nat): Code {
    if ps == [] then Nil else Append(PointCode(ps[0].fee, g, tmp), ChargeCode(ps[1..], g, tmp))
  }

  // ---- the transformation ----

  function TempIdx(f: Func): nat requires f.Defined? { f.nparams + |f.locals| }

  function ChargesAt(f: Func, g: nat, at: nat): Code
    requires f.Defined?
  {
    ChargeCode(PointsAt(f.points, at), g, TempIdx(f))
  }

  function InstrCode(f: Func, g: nat, c: Code): Code
    requires f.Defined?
    decreases c, 1
  {
    match c
    case Nil => Nil
    case Cons(i, rest) => Append(ChargesAt(f, g, i.at), Append(InstrOp(f, g, i), InstrCode(f, g, rest)))
  }

  function InstrTo(f: Func, g: nat, c: Code, endAt: nat): Code
    requires f.Defined?
    decreases c, 2
  {
    Append(InstrCode(f, g, c), ChargesAt(f, g, endAt))
  }

  function InstrOp(f: Func, g: nat, i: Instr): Code
    requires f.Defined?
    decreases i, 3
  {
    match i
    case Plain(_, p) => Cons(P(p), Nil)
    case Br(_, k) => Cons(Br(0, k), Nil)
    case BrIf(_, k) => Cons(BrIf(0, k), Nil)
    case Return(_) => Append(UnstackCode(f.charge, g), Cons(Return(0), Nil))
    case Call(_, h) => Cons(Call(0, h + SHIFT), Nil)
    case ReturnCall(_, h) => Append(UnstackCode(f.charge, g), Cons(ReturnCall(0, h + SHIFT), Nil))
    case Block(_, bt, body, endAt) => Cons(Block(0, bt, InstrTo(f, g, body, endAt), 0), Nil)
    case Loop(_, bt, body, endAt) => Cons(Loop(0, bt, InstrTo(f, g, body, endAt), 0), Nil)
    case If(_, bt, body, endAt) => Cons(If(0, bt, InstrTo(f, g, body, endAt), 0), Nil)
    case IfElse(_, bt, body, elseAt, els, endAt) =>
      Cons(IfElse(0, bt, InstrTo(f, g, body, elseAt), 0, InstrTo(f, g, els, endAt), 0), Nil)
  }

  function EntryCode(f: Func, g: nat): Code
    requires f.Defined?
  {
    Append(StackCode(f.charge, g), if f.entryGas == 0 then Nil else GasCode(f.entryGas, g))
  }

  /** The whole function: entry charges and body inside one block of type [] -> results,
      the release of the stack charge behind it. */
  function InstrFunc(f: Func, bt: BlockType, g: nat): Func
    requires f.Defined?
  {
    Defined(f.nparams, f.results, f.locals + [I64T, I32T],
            Cons(Block(0, bt, Append(EntryCode(f, g), InstrTo(f, g, f.body, f.endAt)), 0), UnstackCode(f.charge, g)),
            0, [], 0, 0)
  }

  ghost predicate InstrumentedFn(types: seq<FuncType>, g: nat, f: Func, f': Func) {
    match f
    case Host(_, _, _) => f' == f
    case Hook(_, _) => false
    case Defined(_, _, _, _, _, _, _, _) =>
      && f'.Defined? && f'.body.Cons? && f'.body.head.Block?
      && BlockSig(types, f'.body.head.bt) == Some(FuncType([], f.results))
      && f' == InstrFunc(f, f'.body.head.bt, g)
  }

  /** `m'` is an instrumented form of `m`. */
  ghost predicate Instrumented(m: Module, m': Module) {
    && m.metered && !m'.metered && m'.maxMem == m.maxMem && m'.host == m.host
    && m.types <= m'.types && m'.nglobals == m.nglobals + 2
    && |m'.funcs| == |m.funcs| + SHIFT
    && m'.funcs[GAS_EXHAUSTED_FN].Hook? && m'.funcs[GAS_EXHAUSTED_FN].nparams == 0
    && m'.funcs[STACK_EXHAUSTED_FN].Hook? && m'.funcs[STACK_EXHAUSTED_FN].nparams == 0
    && m'.funcs[GAS_FN].Hook? && m'.funcs[GAS_FN].nparams == 1
    && forall i :: 0 <= i < |m.funcs| ==> InstrumentedFn(m'.types, m.nglobals, m.funcs[i], m'.funcs[i + SHIFT])
  }

  /** Where a constant charge does not fit, the gas hook is called on the refused fee. */
  lemma {:induction false} HookSeesFee(m: Module, k: Word64, g: nat, st: State)
    ensures var arm := GasCode(k, g).tail.tail.tail.head.body;
            && arm.Cons? && arm.head.Plain? && arm.tail.Cons? && arm.tail.head == Call(0, GAS_FN)
            && PlainStep(m, arm.head.p, st) == Next(Push(st, I64(k)))
  {}

  /** Where a length-dependent charge does not fit, it is called on the price in the scratch
      local, which is the one compared with the gas left. */
  lemma {:induction false} HookSeesPrice(m: Module, g: nat, tmp: nat, st: State)
    requires tmp < |st.locals| && st.stack != []
    ensures var c := LinearTail(g, tmp); var arm := c.tail.tail.tail.head.body;
            && arm.Cons? && arm.head.Plain? && arm.tail.Cons? && arm.tail.head == Call(0, GAS_FN)
            && var kept := PlainStep(m, c.head.p, st);
               kept.Next? && PlainStep(m, arm.head.p, kept.st) == Next(Push(kept.st, Top(st.stack)))
  {}

  // ---- budgets ----

  datatype Budget = Left(gas: nat, stk: nat) | Exhausted(gas: nat, stk: nat)

  /** Runs a charge log against the two budgets, stopping at the first charge that
      does not fit. */
  function Replay(tr: seq<Event>, gas: nat, stk: nat): Budget {
    if tr == [] then Left(gas, stk)
    else
      match tr[0]
      case Gas(n) => if gas < n then Exhausted(gas, stk) else Replay(tr[1..], gas - n, stk)
      case Enter(n) => if stk < n then Exhausted(gas, stk) else Replay(tr[1..], gas, stk - n)
      case Exit(n) => Replay(tr[1..], gas, stk + n)
  }

  function Then(b: Budget, tr: seq<Event>): Budget {
    if b.Left? then Replay(tr, b.gas, b.stk) else b
  }

  lemma {:induction false} ReplayAppend(a: seq<Event>, b: seq<Event>, gas: nat, stk: nat)
    ensures Replay(a + b, gas, stk) == Then(Replay(a, gas, stk), b)
  {
    if a == [] {
      assert a + b == b;
    } else {
      assert (a + b)[1..] == a[1..] + b;
      match a[0]
      case Gas(n) => if gas >= n { ReplayAppend(a[1..], b, gas - n, stk); }
      case Enter(n) => if stk >= n { ReplayAppend(a[1..], b, gas, stk - n); }
      case Exit(n) => ReplayAppend(a[1..], b, gas, stk + n);
    }
  }

  // ---- the simulation relation ----

  function LiftStore(s: Store, gas: nat, stk: nat): Store
    requires gas < TWO64 && stk < TWO64
  {
    s.(globals := s.globals + [I64(gas), I64(stk)])
  }

  ghost predicate RelStore(g: nat, s: Store, s': Store, gas: nat, stk: nat) {
    |s.globals| == g && gas < TWO64 && stk < TWO64 && s' == LiftStore(s, gas, stk)
  }

  ghost predicate RelState(g: nat, tmp: nat, st: State, st': State, gas: nat, stk: nat) {
    && st'.stack == st.stack
    && |st.locals| == tmp && |st'.locals| == tmp + 2 && st'.locals[..tmp] == st.locals
    && RelStore(g, st.store, st'.store, gas, stk)
  }

  ghost predicate RelRes(g: nat, tmp: nat, r: Res, r': Res, gas: nat, stk: nat) {
    match r
    case Next(st) => r'.Next? && RelState(g, tmp, st, r'.st, gas, stk)
    case Branch(k, st) => r'.Branch? && r'.k == k && RelState(g, tmp, st, r'.st, gas, stk)
    case Ret(st) => r'.Ret? && RelState(g, tmp, st, r'.st, gas, stk)
    case Trap(s) => r'.Trap? && RelStore(g, s, r'.store, gas, stk)
    case Stuck => true
    case Timeout => r'.Timeout?
  }

  /** A trap whose store still shows both budgets as the failing charge found them. */
  ghost predicate Refused(g: nat, r': Res, gas: nat, stk: nat) {
    && r'.Trap? && |r'.store.globals| == g + 2 && gas < TWO64 && stk < TWO64
    && r'.store.globals[g..] == [I64(gas), I64(stk)]
  }

  /** How an instrumented result `r'` answers an original outcome `o` inside a function
      whose stack charge is `charge`. */
  ghost predicate Sim(g: nat, tmp: nat, charge: nat, o: Outcome, r': Res, gas: nat, stk: nat) {
    o.r.Stuck? ||
    match Replay(o.tr, gas, stk)
    case Exhausted(gas', stk') => Refused(g, r', gas', stk')
    case Left(gas', stk') =>
      && RelRes(g, tmp, o.r, r', gas', stk')
      && (o.r.Next? || o.r.Branch? ==> stk' == stk)
      && (o.r.Ret? ==> stk' == stk + charge)
  }

  // ---- running unmetered code ----

  function Run(m: Module, f: Func, n: nat, c: Code, st: State): Res
    requires f.Defined?
  {
    Eval(m, f, n, c, st).r
  }

  lemma {:induction false} RunPlain(m: Module, f: Func, n: nat, p: PlainOp, rest: Code, st: State)
    requires f.Defined? && !m.metered
    ensures Run(m, f, n, Cons(P(p), rest), st) ==
            var r := PlainStep(m, p, st); if r.Next? then Run(m, f, n, rest, r.st) else r
  {
    assert Exec(m, f, n, P(p), st) == Out(PlainStep(m, p, st), []);
    assert Pay(m, f, 0, st.stack) == Some([]);
  }

  lemma {:induction false} RunAppend(m: Module, f: Func, n: nat, a: Code, b: Code, st: State)
    requires f.Defined? && !m.metered
    ensures Run(m, f, n, Append(a, b), st) ==
            var r := Run(m, f, n, a, st); if r.Next? then Run(m, f, n, b, r.st) else r
    decreases a
  {
    match a
    case Nil =>
    case Cons(i, rest) =>
      var o := Exec(m, f, n, i, st);
      if o.r.Next? { RunAppend(m, f, n, rest, b, o.r.st); }
  }

  lemma {:induction false} RunOne(m: Module, f: Func, n: nat, i: Instr, st: State)
    requires f.Defined? && !m.metered
    ensures Run(m, f, n, Cons(i, Nil), st) == Exec(m, f, n, i, st).r
  {
    var o := Exec(m, f, n, i, st);
    assert Pay(m, f, i.at, st.stack) == Some([]);
    if o.r.Next? { assert Eval(m, f, n, Nil, o.r.st) == Out(o.r, []); }
  }

  ghost predicate Hooks(m: Module) {
    && !m.metered && |m.funcs| >= SHIFT
    && m.funcs[STACK_EXHAUSTED_FN].Hook? && m.funcs[STACK_EXHAUSTED_FN].nparams == 0
    && m.funcs[GAS_FN].Hook? && m.funcs[GAS_FN].nparams == 1
  }

  /** `global -= k` on a global that holds at least `k`. */
  lemma {:induction false} SubtractRuns(m: Module, f: Func, n: nat, gi: nat, op: PlainOp, k: Word64, st: State)
    requires f.Defined? && !m.metered
    requires gi < |st.store.globals| && st.store.globals[gi].I64? && k <= st.store.globals[gi].v
    requires PlainStep(m, op, Push(st, st.store.globals[gi])) == Next(Push(Push(st, st.store.globals[gi]), I64(k)))
    ensures Run(m, f, n, Cons(P(GlobalGet(gi)), Cons(P(op), Cons(P(Binary(Sub)), Cons(P(GlobalSet(gi)), Nil)))), st)
         == Next(st.(store := st.store.(globals := st.store.globals[gi := I64(st.store.globals[gi].v - k)])))
  {
    var c3 := Cons(P(GlobalSet(gi)), Nil);
    var c2 := Cons(P(Binary(Sub)), c3);
    var c1 := Cons(P(op), c2);
    var v := st.store.globals[gi];
    var s1 := Push(st, v);
    var s2 := Push(s1, I64(k));
    var s3 := Push(st, I64(v.v - k));
    RunPlain(m, f, n, GlobalGet(gi), c1, st);
    RunPlain(m, f, n, op, c2, s1);
    assert Pop(s2.stack, 2) == st.stack;
    assert PlainStep(m, Binary(Sub), s2) == Next(s3);
    RunPlain(m, f, n, Binary(Sub), c3, s2);
    assert Pop(s3.stack, 1) == st.stack;
    RunPlain(m, f, n, GlobalSet(gi), Nil, s3);
  }

  /** The shared shape of the checks: the comparison has left a flag, the failing arm
      ends in `unreachable`. */
  lemma {:induction false} CheckRuns(m: Module, f: Func, n: nat, bad: Code, good: Code, rest: Code, flag: bool,
                                     st: State)
    requires f.Defined? && !m.metered
    requires flag ==> Run(m, f, n, bad, st.(stack := [])) == Trap(st.store)
    requires !flag ==> Run(m, f, n, good, st.(stack := [])).Next? && Run(m, f, n, good, st.(stack := [])).st.stack == []
    ensures Run(m, f, n, Cons(IfElse(0, Empty, bad, 0, good, 0), rest), Push(st, Bool(flag)))
         == if flag then Trap(st.store)
            else Run(m, f, n, rest, Run(m, f, n, good, st.(stack := [])).st.(stack := st.stack))
  {
    var s := Push(st, Bool(flag));
    assert Pop(s.stack, 1) == st.stack;
    assert Tops(st.stack, 0) == [] && Pop(st.stack, 0) == st.stack;
    var i := IfElse(0, Empty, bad, 0, good, 0);
    var arm := EvalTo(m, f, n, if flag then bad else good, 0, st.(stack := []));
    assert s.(stack := Tops(st.stack, 0)) == st.(stack := []);
    assert Exec(m, f, n, i, s).r == LeaveBlock(st.stack, 0, arm.r);
    assert st.stack + [] == st.stack;
  }

  lemma {:induction false} HookRuns(m: Module, f: Func, n: nat, h: nat, v: seq<Value>, st: State)
    requires f.Defined? && Hooks(m)
    requires (h == STACK_EXHAUSTED_FN && v == []) || (h == GAS_FN && |v| == 1)
    ensures Run(m, f, n, Cons(Call(0, h), Cons(P(Unreachable), Nil)), st.(stack := v)) == Trap(st.store)
  {
    var s := st.(stack := v);
    var o := CallFn(m, n, h, s);
    assert Exec(m, f, n, Call(0, h), s) == o;
    if o.r.Next? { RunPlain(m, f, n, Unreachable, Nil, o.r.st); }
  }

  lemma {:induction false} GasRuns(m: Module, f: Func, n: nat, k: Word64, g: nat, st: State)
    requires f.Defined? && Hooks(m) && g < |st.store.globals| && st.store.globals[g].I64?
    ensures Run(m, f, n, GasCode(k, g), st) ==
            var gas := st.store.globals[g].v;
            if gas < k then Trap(st.store)
            else Next(st.(store := st.store.(globals := st.store.globals[g := I64(gas - k)])))
  {
    var gas := st.store.globals[g].v;
    var bad := Cons(P(Const(I64(k))), Cons(Call(0, GAS_FN), Cons(P(Unreachable), Nil)));
    var good := Cons(P(GlobalGet(g)), Cons(P(Const(I64(k))), Cons(P(Binary(Sub)), Cons(P(GlobalSet(g)), Nil))));
    var c3 := Cons(IfElse(0, Empty, bad, 0, good, 0), Nil);
    var s1 := Push(st, I64(gas));
    var s2 := Push(s1, I64(k));
    var s3 := Push(st, Bool(gas < k));
    RunPlain(m, f, n, GlobalGet(g), Cons(P(Const(I64(k))), Cons(P(Binary(LtU)), c3)), st);
    RunPlain(m, f, n, Const(I64(k)), Cons(P(Binary(LtU)), c3), s1);
    assert Pop(s2.stack, 2) == st.stack;
    assert PlainStep(m, Binary(LtU), s2) == Next(s3);
    RunPlain(m, f, n, Binary(LtU), c3, s2);
    var e := st.(stack := []);
    if gas < k {
      RunPlain(m, f, n, Const(I64(k)), Cons(Call(0, GAS_FN), Cons(P(Unreachable), Nil)), e);
      HookRuns(m, f, n, GAS_FN, [I64(k)], st);
      assert Push(e, I64(k)) == st.(stack := [I64(k)]);
    } else {
      SubtractRuns(m, f, n, g, Const(I64(k)), k, e);
    }
    CheckRuns(m, f, n, bad, good, Nil, gas < k, st);
  }

  lemma {:induction false} StackRuns(m: Module, f: Func, n: nat, k: Word64, g: nat, st: State)
    requires f.Defined? && Hooks(m) && g + 1 < |st.store.globals| && st.store.globals[g + 1].I64?
    ensures Run(m, f, n, StackCode(k, g), st) ==
            var stk := st.store.globals[g + 1].v;
            if stk < k then Trap(st.store)
            else Next(st.(store := st.store.(globals := st.store.globals[g + 1 := I64(stk - k)])))
  {
    var stk := st.store.globals[g + 1].v;
    var bad := Cons(Call(0, STACK_EXHAUSTED_FN), Cons(P(Unreachable), Nil));
    var good := Cons(P(GlobalGet(g + 1)), Cons(P(Const(I64(k))), Cons(P(Binary(Sub)), Cons(P(GlobalSet(g + 1)), Nil))));
    var c3 := Cons(IfElse(0, Empty, bad, 0, good, 0), Nil);
    var s1 := Push(st, I64(stk));
    var s2 := Push(s1, I64(k));
    var s3 := Push(st, Bool(stk < k));
    RunPlain(m, f, n, GlobalGet(g + 1), Cons(P(Const(I64(k))), Cons(P(Binary(LtU)), c3)), st);
    RunPlain(m, f, n, Const(I64(k)), Cons(P(Binary(LtU)), c3), s1);
    assert Pop(s2.stack, 2) == st.stack;
    assert PlainStep(m, Binary(LtU), s2) == Next(s3);
    RunPlain(m, f, n, Binary(LtU), c3, s2);
    if stk < k {
      HookRuns(m, f, n, STACK_EXHAUSTED_FN, [], st);
    } else {
      SubtractRuns(m, f, n, g + 1, Const(I64(k)), k, st.(stack := []));
    }
    CheckRuns(m, f, n, bad, good, Nil, stk < k, st);
  }

  lemma {:induction false} UnstackRuns(m: Module, f: Func, n: nat, k: Word64, g: nat, st: State)
    requires f.Defined? && !m.metered && g + 1 < |st.store.globals| && st.store.globals[g + 1].I64?
    ensures var stk: Word64 := (st.store.globals[g + 1].v + k) % TWO64;
            Run(m, f, n, UnstackCode(k, g), st)
            == Next(st.(store := st.store.(globals := st.store.globals[g + 1 := I64(stk)])))
  {
    var v := st.store.globals[g + 1].v;
    var stk: Word64 := (v + k) % TWO64;
    var s1 := Push(st, I64(v));
    var s2 := Push(s1, I64(k));
    var s3 := Push(st, I64(stk));
    var c3 := Cons(P(GlobalSet(g + 1)), Nil);
    RunPlain(m, f, n, GlobalGet(g + 1), Cons(P(Const(I64(k))), Cons(P(Binary(Add)), c3)), st);
    RunPlain(m, f, n, Const(I64(k)), Cons(P(Binary(Add)), c3), s1);
    assert Pop(s2.stack, 2) == st.stack;
    assert PlainStep(m, Binary(Add), s2) == Next(s3);
    RunPlain(m, f, n, Binary(Add), c3, s2);
    assert Pop(s3.stack, 1) == st.stack;
    RunPlain(m, f, n, GlobalSet(g + 1), Nil, s3);
  }

  /** The linear charge: prices the length operand on top of the stack and puts it back. */
  lemma {:induction false} LinearRuns(m: Module, f: Func, n: nat, fee: Fee, g: nat, tmp: nat, st: State)
    requires f.Defined? && Hooks(m) && g < |st.store.globals| && st.store.globals[g].I64?
    requires tmp + 1 < |st.locals| && |st.stack| > 0 && Top(st.stack).I32?
    ensures Run(m, f, n, LinearCode(fee, g, tmp), st) ==
            var gas := st.store.globals[g].v;
            var k: Word64 := (Top(st.stack).w * fee.linear + fee.constant) % TWO64;
            if gas < k then Trap(st.store)
            else Next(st.(locals := st.locals[tmp + 1 := Top(st.stack)][tmp := I64(k)],
                          store := st.store.(globals := st.store.globals[g := I64(gas - k)])))
  {
    var k: Word64 := (Top(st.stack).w * fee.linear + fee.constant) % TWO64;
    assert st.stack == Pop(st.stack, 1) + [Top(st.stack)];
    var b := LinearPrice(m, f, n, fee, tmp, LinearTail(g, tmp), st);
    LinearCharge(m, f, n, k, g, tmp, b);
  }

  /** The second half: the price `k` is on top of `b`, the length is in local `tmp + 1`. */
  lemma {:induction false} LinearCharge(m: Module, f: Func, n: nat, k: Word64, g: nat, tmp: nat, b: State)
    requires f.Defined? && Hooks(m) && g < |b.store.globals| && b.store.globals[g].I64? && tmp + 1 < |b.locals|
    ensures Run(m, f, n, LinearTail(g, tmp), Push(b, I64(k))) ==
            var gas := b.store.globals[g].v;
            if gas < k then Trap(b.store)
            else Next(Push(b.(locals := b.locals[tmp := I64(k)],
                              store := b.store.(globals := b.store.globals[g := I64(gas - k)])), b.locals[tmp + 1]))
  {
    var gas := b.store.globals[g].v;
    var bad := Cons(P(LocalGet(tmp)), Cons(Call(0, GAS_FN), Cons(P(Unreachable), Nil)));
    var good := Cons(P(GlobalGet(g)), Cons(P(LocalGet(tmp)), Cons(P(Binary(Sub)), Cons(P(GlobalSet(g)), Nil))));
    var c10 := Cons(P(LocalGet(tmp + 1)), Nil);
    var c9 := Cons(IfElse(0, Empty, bad, 0, good, 0), c10);
    var c8 := Cons(P(Binary(GtU)), c9);
    var c7 := Cons(P(GlobalGet(g)), c8);
    var e := b.(locals := b.locals[tmp := I64(k)]);
    RunPlain(m, f, n, LocalTee(tmp), c7, Push(b, I64(k)));
    RunPlain(m, f, n, GlobalGet(g), c8, Push(e, I64(k)));
    var s8 := Push(Push(e, I64(k)), I64(gas));
    assert Pop(s8.stack, 2) == e.stack;
    assert PlainStep(m, Binary(GtU), s8) == Next(Push(e, Bool(gas < k)));
    RunPlain(m, f, n, Binary(GtU), c9, s8);
    var e0 := e.(stack := []);
    if gas < k {
      RunPlain(m, f, n, LocalGet(tmp), Cons(Call(0, GAS_FN), Cons(P(Unreachable), Nil)), e0);
      HookRuns(m, f, n, GAS_FN, [I64(k)], e);
      assert Push(e0, I64(k)) == e.(stack := [I64(k)]);
    } else {
      SubtractRuns(m, f, n, g, LocalGet(tmp), k, e0);
    }
    CheckRuns(m, f, n, bad, good, c10, gas < k, e);
    if gas >= k {
      var e1 := e.(store := b.store.(globals := b.store.globals[g := I64(gas - k)]));
      RunPlain(m, f, n, LocalGet(tmp + 1), Nil, e1);
    }
  }

  /** Its first six operators: the length is kept in a local, the price is on the stack. */
  lemma {:induction false} LinearPrice(m: Module, f: Func, n: nat, fee: Fee, tmp: nat, rest: Code, st: State)
      returns (b: State)
    requires f.Defined? && !m.metered && tmp + 1 < |st.locals| && |st.stack| > 0 && Top(st.stack).I32?
    ensures b == st.(stack := Pop(st.stack, 1), locals := st.locals[tmp + 1 := Top(st.stack)])
    ensures Run(m, f, n, Cons(P(LocalTee(tmp + 1)), Cons(P(ExtendU), Cons(P(Const(I64(fee.linear))),
                         Cons(P(Binary(Mul)), Cons(P(Const(I64(fee.constant))), Cons(P(Binary(Add)), rest)))))), st)
         == Run(m, f, n, rest, Push(b, I64((Top(st.stack).w * fee.linear + fee.constant) % TWO64)))
  {
    var count := Top(st.stack);
    b := st.(stack := Pop(st.stack, 1), locals := st.locals[tmp + 1 := count]);
    var s1 := st.(locals := st.locals[tmp + 1 := count]);
    var c5 := Cons(P(Binary(Add)), rest);
    var c4 := Cons(P(Const(I64(fee.constant))), c5);
    var c3 := Cons(P(Binary(Mul)), c4);
    var c2 := Cons(P(Const(I64(fee.linear))), c3);
    var c1 := Cons(P(ExtendU), c2);
    RunPlain(m, f, n, LocalTee(tmp + 1), c1, st);
    assert PlainStep(m, ExtendU, s1) == Next(Push(b, I64(count.w)));
    RunPlain(m, f, n, ExtendU, c2, s1);
    RunPlain(m, f, n, Const(I64(fee.linear)), c3, Push(b, I64(count.w)));
    var s3 := Push(Push(b, I64(count.w)), I64(fee.linear));
    var prod: Word64 := (count.w * fee.linear) % TWO64;
    assert Pop(s3.stack, 2) == b.stack;
    assert PlainStep(m, Binary(Mul), s3) == Next(Push(b, I64(prod)));
    RunPlain(m, f, n, Binary(Mul), c4, s3);
    RunPlain(m, f, n, Const(I64(fee.constant)), c5, Push(b, I64(prod)));
    var s5 := Push(Push(b, I64(prod)), I64(fee.constant));
    var sum: Word64 := (prod + fee.constant) % TWO64;
    assert Pop(s5.stack, 2) == b.stack;
    assert PlainStep(m, Binary(Add), s5) == Next(Push(b, I64(sum)));
    RunPlain(m, f, n, Binary(Add), rest, s5);
    ModAdd(count.w * fee.linear, fee.constant);
  }

  lemma {:induction false} ModAdd(x: nat, y: nat)
    ensures (x % TWO64 + y) % TWO64 == (x + y) % TWO64
  {}

  // ---- charges ----

  lemma {:induction false} RelGlobals(g: nat, tmp: nat, st: State, st': State, gas: nat, stk: nat)
    requires RelState(g, tmp, st, st', gas, stk)
    ensures |st'.store.globals| == g + 2
    ensures st'.store.globals[g] == I64(gas) && st'.store.globals[g + 1] == I64(stk)
  {}

  /** A charge sequence before an operator acts as its log does. */
  lemma {:induction false} ChargesSim(m: Module, m': Module, f: Func, n: nat, ps: seq<Point>, tmp: nat,
                                      st: State, st': State, gas: nat, stk: nat)
    requires f.Defined? && Hooks(m') && RelState(m.nglobals, tmp, st, st', gas, stk)
    requires PayAll(ps, st.stack).Some?
    ensures var r' := Run(m', f, n, ChargeCode(ps, m.nglobals, tmp), st');
            match Replay(PayAll(ps, st.stack).value, gas, stk)
            case Left(gas', stk') => stk' == stk && RelRes(m.nglobals, tmp, Next(st), r', gas', stk)
            case Exhausted(gas', stk') => Refused(m.nglobals, r', gas', stk')
    decreases |ps|
  {
    var g := m.nglobals;
    RelGlobals(g, tmp, st, st', gas, stk);
    if ps == [] { return; }
    var fee := ps[0].fee;
    var k := FeeOf(fee, st.stack).value;
    var rest := PayAll(ps[1..], st.stack).value;
    RunAppend(m', f, n, PointCode(fee, g, tmp), ChargeCode(ps[1..], g, tmp), st');
    if fee == Fee(0, 0) {
      assert [] + rest == rest;
      ChargesSim(m, m', f, n, ps[1..], tmp, st, st', gas, stk);
    } else {
      assert ([Gas(k)] + rest)[1..] == rest;
      if fee.linear == 0 { GasRuns(m', f, n, k, g, st'); } else { LinearRuns(m', f, n, fee, g, tmp, st'); }
      if k <= gas {
        var st1 := Run(m', f, n, PointCode(fee, g, tmp), st').st;
        assert st1.store.globals == st.store.globals + [I64(gas - k), I64(stk)];
        assert st1.locals[..tmp] == st.locals;
        ChargesSim(m, m', f, n, ps[1..], tmp, st, st1, gas - k, stk);
      }
    }
  }

  // ---- plain operators and blocks ----

  lemma {:induction false} PlainSim(m: Module, m': Module, p: PlainOp, tmp: nat, st: State, st': State, gas: nat,
                                    stk: nat)
    requires m'.maxMem == m.maxMem && RelState(m.nglobals, tmp, st, st', gas, stk)
    ensures RelRes(m.nglobals, tmp, PlainStep(m, p, st), PlainStep(m', p, st'), gas, stk)
  {
    if p.LocalSet? || p.LocalTee? {
      if p.i < tmp && |st.stack| > 0 {
        assert st'.locals[p.i := Top(st.stack)][..tmp] == st.locals[p.i := Top(st.stack)];
      }
    } else if p.GlobalSet? {
      if p.i < m.nglobals && |st.stack| > 0 {
        assert st'.store.globals[p.i := Top(st.stack)]
            == st.store.globals[p.i := Top(st.stack)] + [I64(gas), I64(stk)];
      }
    }
  }

  lemma {:induction false} LeaveSim(g: nat, tmp: nat, below: seq<Value>, nres: nat, r: Res, r': Res, gas: nat, stk: nat)
    requires RelRes(g, tmp, r, r', gas, stk) && !r.Stuck?
    ensures RelRes(g, tmp, LeaveBlock(below, nres, r), LeaveBlock(below, nres, r'), gas, stk)
  {}

  /** Wrapping a related outcome in a block keeps the simulation. */
  lemma {:induction false} BlockSim(g: nat, tmp: nat, charge: nat, below: seq<Value>, nres: nat, o: Outcome, r': Res,
                                    gas: nat, stk: nat)
    requires Sim(g, tmp, charge, o, r', gas, stk)
    ensures Sim(g, tmp, charge, Out(LeaveBlock(below, nres, o.r), o.tr), LeaveBlock(below, nres, r'), gas, stk)
  {}

  lemma {:induction false} ArityExtends(m: Module, m': Module, bt: BlockType)
    requires m.types <= m'.types && Arity(m.types, bt).Some?
    ensures Arity(m'.types, bt) == Arity(m.types, bt)
  {}

  // ---- the simulation ----

  lemma {:induction false} SimCode(m: Module, m': Module, f: Func, f': Func, n: nat, c: Code, st: State, st': State,
                                   gas: nat, stk: nat)
    requires Instrumented(m, m') && f.Defined? && f'.Defined?
    requires RelState(m.nglobals, TempIdx(f), st, st', gas, stk) && stk + f.charge < TWO64
    ensures Sim(m.nglobals, TempIdx(f), f.charge, Eval(m, f, n, c, st),
                Run(m', f', n, InstrCode(f, m.nglobals, c), st'), gas, stk)
    decreases n, 1, c, 2
  {
    var g, tmp := m.nglobals, TempIdx(f);
    if c.Nil? { return; }
    var i, rest := c.head, c.tail;
    var ps := PointsAt(f.points, i.at);
    var pay := PayAll(ps, st.stack);
    if pay.None? { return; }
    var tr := pay.value;
    var o := Exec(m, f, n, i, st);
    if o.r.Stuck? { return; }
    var c1, c2, c3 := ChargesAt(f, g, i.at), InstrOp(f, g, i), InstrCode(f, g, rest);
    RunAppend(m', f', n, c1, Append(c2, c3), st');
    ChargesSim(m, m', f', n, ps, tmp, st, st', gas, stk);
    var b1 := Replay(tr, gas, stk);
    ReplayAppend(tr, o.tr, gas, stk);
    if o.r.Next? { ReplayAppend(tr + o.tr, Eval(m, f, n, rest, o.r.st).tr, gas, stk); }
    if b1.Exhausted? { return; }
    var st1 := Run(m', f', n, c1, st').st;
    RunAppend(m', f', n, c2, c3, st1);
    SimOp(m, m', f, f', n, i, st, st1, b1.gas, stk);
    var b2 := Replay(o.tr, b1.gas, stk);
    if o.r.Next? && b2.Left? {
      SimCode(m, m', f, f', n, rest, o.r.st, Run(m', f', n, c2, st1).st, b2.gas, stk);
    }
  }

  lemma {:induction false} SimTo(m: Module, m': Module, f: Func, f': Func, n: nat, c: Code, endAt: nat, st: State,
                                 st': State, gas: nat, stk: nat)
    requires Instrumented(m, m') && f.Defined? && f'.Defined?
    requires RelState(m.nglobals, TempIdx(f), st, st', gas, stk) && stk + f.charge < TWO64
    ensures Sim(m.nglobals, TempIdx(f), f.charge, EvalTo(m, f, n, c, endAt, st),
                EvalTo(m', f', n, InstrTo(f, m.nglobals, c, endAt), 0, st').r, gas, stk)
    decreases n, 1, c, 3
  {
    var g, tmp := m.nglobals, TempIdx(f);
    var o := Eval(m, f, n, c, st);
    SimCode(m, m', f, f', n, c, st, st', gas, stk);
    RunAppend(m', f', n, InstrCode(f, g, c), ChargesAt(f, g, endAt), st');
    assert EvalTo(m', f', n, InstrTo(f, g, c, endAt), 0, st').r == Run(m', f', n, InstrTo(f, g, c, endAt), st');
    var b := Replay(o.tr, gas, stk);
    if o.r.Next? && Pay(m, f, endAt, o.r.st.stack).Some? {
      var ps := PointsAt(f.points, endAt);
      ReplayAppend(o.tr, PayAll(ps, o.r.st.stack).value, gas, stk);
      if b.Left? {
        ChargesSim(m, m', f', n, ps, tmp, o.r.st, Run(m', f', n, InstrCode(f, g, c), st').st, b.gas, stk);
      }
    }
  }

  /** Releasing the charge, then an operator that ends the activation. */
  lemma {:induction false} UnstackThen(m: Module, m': Module, f: Func, f': Func, n: nat, i: Instr, st: State,
                                       st': State, gas: nat, stk: nat)
      returns (st1: State)
    requires Instrumented(m, m') && f.Defined? && f'.Defined?
    requires RelState(m.nglobals, TempIdx(f), st, st', gas, stk) && stk + f.charge < TWO64
    ensures RelState(m.nglobals, TempIdx(f), st, st1, gas, stk + f.charge)
    ensures Run(m', f', n, Append(UnstackCode(f.charge, m.nglobals), Cons(i, Nil)), st') == Exec(m', f', n, i, st1).r
    ensures Replay([Exit(f.charge)], gas, stk) == Left(gas, stk + f.charge)
  {
    var g := m.nglobals;
    RelGlobals(g, TempIdx(f), st, st', gas, stk);
    UnstackRuns(m', f', n, f.charge, g, st');
    RunAppend(m', f', n, UnstackCode(f.charge, g), Cons(i, Nil), st');
    st1 := st'.(store := st'.store.(globals := st'.store.globals[g + 1 := I64(stk + f.charge)]));
    assert st1.store.globals == st.store.globals + [I64(gas), I64(stk + f.charge)];
    RunOne(m', f', n, i, st1);
    assert [Exit(f.charge)][1..] == [];
  }

  lemma {:induction false} SimOp(m: Module, m': Module, f: Func, f': Func, n: nat, i: Instr, st: State, st': State,
                                 gas: nat, stk: nat)
    requires Instrumented(m, m') && f.Defined? && f'.Defined?
    requires RelState(m.nglobals, TempIdx(f), st, st', gas, stk) && stk + f.charge < TWO64
    ensures Sim(m.nglobals, TempIdx(f), f.charge, Exec(m, f, n, i, st),
                Run(m', f', n, InstrOp(f, m.nglobals, i), st'), gas, stk)
    decreases n, 1, i, 5
  {
    var g, tmp := m.nglobals, TempIdx(f);
    if i.Return? {
      var _ := UnstackThen(m, m', f, f', n, Return(0), st, st', gas, stk);
    } else if i.ReturnCall? {
      var o := CallFn(m, n, i.f, st);
      var st1 := UnstackThen(m, m', f, f', n, ReturnCall(0, i.f + SHIFT), st, st', gas, stk);
      ReplayAppend([Exit(f.charge)], o.tr, gas, stk);
      SimCall(m, m', n, i.f, tmp, st, st1, gas, stk + f.charge);
    } else {
      RunOne(m', f', n, InstrOp(f, g, i).head, st');
      SimInner(m, m', f, f', n, i, st, st', gas, stk);
    }
  }

  lemma {:induction false} SimInner(m: Module, m': Module, f: Func, f': Func, n: nat, i: Instr, st: State, st': State,
                                    gas: nat, stk: nat)
    requires Instrumented(m, m') && f.Defined? && f'.Defined? && !i.Return? && !i.ReturnCall?
    requires RelState(m.nglobals, TempIdx(f), st, st', gas, stk) && stk + f.charge < TWO64
    ensures Sim(m.nglobals, TempIdx(f), f.charge, Exec(m, f, n, i, st),
                Exec(m', f', n, InstrOp(f, m.nglobals, i).head, st').r, gas, stk)
    decreases n, 1, i, 4
  {
    var g, tmp, s := m.nglobals, TempIdx(f), st.stack;
    match i
    case Plain(_, p) => PlainSim(m, m', p, tmp, st, st', gas, stk);
    case Br(_, _) =>
    case BrIf(_, _) =>
    case Call(_, h) => SimCall(m, m', n, h, tmp, st, st', gas, stk);
    case Block(_, bt, body, endAt) =>
      if Arity(m.types, bt).Some? && Arity(m.types, bt).value.0 <= |s| {
        var (np, nr) := Arity(m.types, bt).value;
        ArityExtends(m, m', bt);
        var a, a' := st.(stack := Tops(s, np)), st'.(stack := Tops(s, np));
        SimTo(m, m', f, f', n, body, endAt, a, a', gas, stk);
        BlockSim(g, tmp, f.charge, Pop(s, np), nr, EvalTo(m, f, n, body, endAt, a),
                 EvalTo(m', f', n, InstrTo(f, g, body, endAt), 0, a').r, gas, stk);
      }
    case If(_, bt, body, endAt) =>
      if Arity(m.types, bt).Some? && Arity(m.types, bt).value.0 < |s| && Top(s).I32? {
        var (np, nr) := Arity(m.types, bt).value;
        ArityExtends(m, m', bt);
        var s1 := Pop(s, 1);
        var a, a' := st.(stack := Tops(s1, np)), st'.(stack := Tops(s1, np));
        if Top(s).w != 0 {
          SimTo(m, m', f, f', n, body, endAt, a, a', gas, stk);
          BlockSim(g, tmp, f.charge, Pop(s1, np), nr, EvalTo(m, f, n, body, endAt, a),
                   EvalTo(m', f', n, InstrTo(f, g, body, endAt), 0, a').r, gas, stk);
        }
      }
    case IfElse(_, bt, body, elseAt, els, endAt) =>
      if Arity(m.types, bt).Some? && Arity(m.types, bt).value.0 < |s| && Top(s).I32? {
        var (np, nr) := Arity(m.types, bt).value;
        ArityExtends(m, m', bt);
        var s1 := Pop(s, 1);
        var a, a' := st.(stack := Tops(s1, np)), st'.(stack := Tops(s1, np));
        var (arm, at) := if Top(s).w != 0 then (body, elseAt) else (els, endAt);
        SimTo(m, m', f, f', n, arm, at, a, a', gas, stk);
        BlockSim(g, tmp, f.charge, Pop(s1, np), nr, EvalTo(m, f, n, arm, at, a),
                 EvalTo(m', f', n, InstrTo(f, g, arm, at), 0, a').r, gas, stk);
      }
    case Loop(_, bt, body, endAt) =>
      SimLoop(m, m', f, f', n, i, st, st', gas, stk);
  }

  lemma {:induction false} SimLoop(m: Module, m': Module, f: Func, f': Func, n: nat, i: Instr, st: State, st': State,
                                   gas: nat, stk: nat)
    requires Instrumented(m, m') && f.Defined? && f'.Defined? && i.Loop?
    requires RelState(m.nglobals, TempIdx(f), st, st', gas, stk) && stk + f.charge < TWO64
    ensures Sim(m.nglobals, TempIdx(f), f.charge, Exec(m, f, n, i, st),
                Exec(m', f', n, InstrOp(f, m.nglobals, i).head, st').r, gas, stk)
    decreases n, 1, i, 3
  {
    var g, tmp, s := m.nglobals, TempIdx(f), st.stack;
    var i' := InstrOp(f, g, i).head;
    if Arity(m.types, i.bt).None? || Arity(m.types, i.bt).value.0 > |s| { return; }
    var (np, nr) := Arity(m.types, i.bt).value;
    ArityExtends(m, m', i.bt);
    var a, a' := st.(stack := Tops(s, np)), st'.(stack := Tops(s, np));
    SimTo(m, m', f, f', n, i.body, i.endAt, a, a', gas, stk);
    var o := EvalTo(m, f, n, i.body, i.endAt, a);
    var r' := EvalTo(m', f', n, InstrTo(f, g, i.body, i.endAt), 0, a').r;
    if o.r.Branch? && o.r.k == 0 {
      if np <= |o.r.st.stack| && n > 0 {
        var again := o.r.st.(stack := Pop(s, np) + Tops(o.r.st.stack, np));
        ReplayAppend(o.tr, Exec(m, f, n - 1, i, again).tr, gas, stk);
        var b := Replay(o.tr, gas, stk);
        if b.Left? {
          var again' := r'.st.(stack := Pop(s, np) + Tops(r'.st.stack, np));
          SimLoop(m, m', f, f', n - 1, i, again, again', b.gas, stk);
        }
      }
    } else {
      BlockSim(g, tmp, f.charge, Pop(s, np), nr, o, r', gas, stk);
    }
  }

  /** A call, seen by a caller with `tmp` locals, leaves the stack budget as it was. */
  lemma {:induction false} SimCall(m: Module, m': Module, n: nat, h: nat, tmp: nat, st: State, st': State, gas: nat,
                                   stk: nat)
    requires Instrumented(m, m') && RelState(m.nglobals, tmp, st, st', gas, stk)
    ensures Sim(m.nglobals, tmp, 0, CallFn(m, n, h, st), CallFn(m', n, h + SHIFT, st').r, gas, stk)
    ensures !CallFn(m, n, h, st).r.Branch? && !CallFn(m, n, h, st).r.Ret?
    decreases n, 0
  {
    if h >= |m.funcs| || m.funcs[h].nparams > |st.stack| { return; }
    var fn, fn' := m.funcs[h], m'.funcs[h + SHIFT];
    assert InstrumentedFn(m'.types, m.nglobals, fn, fn');
    if fn.Defined? && n > 0 {
      var args := Tops(st.stack, fn.nparams);
      SimFn(m, m', n - 1, fn, fn', args, st.store, st'.store, gas, stk);
    }
  }

  /** How an instrumented activation answers an original one: results and store agree,
      gas is what the log leaves, the stack budget is back at its entry value. */
  ghost predicate FnSim(g: nat, o: Outcome, r': Res, gas: nat, stk: nat) {
    && !o.r.Branch? && !o.r.Ret?
    && (o.r.Stuck? ||
        match Replay(o.tr, gas, stk)
        case Exhausted(gas', stk') => Refused(g, r', gas', stk')
        case Left(gas', stk') =>
          && (o.r.Next? ==> stk' == stk && r'.Next? && r'.st.stack == o.r.st.stack
                            && RelStore(g, o.r.st.store, r'.st.store, gas', stk))
          && (o.r.Trap? ==> r'.Trap? && RelStore(g, o.r.store, r'.store, gas', stk'))
          && (o.r.Timeout? ==> r'.Timeout?))
  }

  lemma {:induction false} SimFn(m: Module, m': Module, n: nat, fn: Func, fn': Func, args: seq<Value>, store: Store,
                                 store': Store, gas: nat, stk: nat)
    requires Instrumented(m, m') && fn.Defined? && InstrumentedFn(m'.types, m.nglobals, fn, fn')
    requires |args| == fn.nparams && RelStore(m.nglobals, store, store', gas, stk)
    ensures FnSim(m.nglobals, RunFn(m, n, fn, args, store), RunFn(m', n, fn', args, store').r, gas, stk)
    decreases n, 2
  {
    var g := m.nglobals;
    var st0, st0' := State([], args + Zeros(fn.locals), store), State([], args + Zeros(fn'.locals), store');
    assert st0'.locals[..TempIdx(fn)] == st0.locals;
    var b, rb := SimBody(m, m', n, fn, fn', st0, st0', gas, stk);
    RunOfBlock(m', fn, fn', n, g, args, store');
    SimFinish(m, m', fn, fn', n, EvalTo(m, fn, n, fn.body, fn.endAt, st0), rb, b, gas, stk);
  }

  /** Inside the wrapping block: the entry charges, then the body. */
  lemma {:induction false} SimBody(m: Module, m': Module, n: nat, fn: Func, fn': Func, st: State, st': State, gas: nat,
                                   stk: nat)
      returns (b: Budget, rb: Res)
    requires Instrumented(m, m') && fn.Defined? && fn'.Defined? && RelState(m.nglobals, TempIdx(fn), st, st', gas, stk)
    ensures rb == Run(m', fn', n, Append(EntryCode(fn, m.nglobals), InstrTo(fn, m.nglobals, fn.body, fn.endAt)), st')
    ensures b == Replay(EntryEvents(m, fn), gas, stk)
    ensures b.Left? ==> b.stk + fn.charge == stk
                        && Sim(m.nglobals, TempIdx(fn), fn.charge, EvalTo(m, fn, n, fn.body, fn.endAt, st), rb,
                               b.gas, b.stk)
    ensures b.Exhausted? ==> Refused(m.nglobals, rb, b.gas, b.stk)
    decreases n, 1, fn.body, 4
  {
    var g := m.nglobals;
    var body' := InstrTo(fn, g, fn.body, fn.endAt);
    RunAppend(m', fn', n, EntryCode(fn, g), body', st');
    var st1';
    b, st1' := SimEntry(m, m', fn, fn', n, st, st', gas, stk);
    rb := Run(m', fn', n, Append(EntryCode(fn, g), body'), st');
    if b.Left? {
      SimTo(m, m', fn, fn', n, fn.body, fn.endAt, st, st1', b.gas, b.stk);
      assert rb == EvalTo(m', fn', n, body', 0, st1').r;
    }
  }

  /** A whole activation of an instrumented function. */
  lemma {:induction false} RunOfBlock(m': Module, fn: Func, fn': Func, n: nat, g: nat, args: seq<Value>, store': Store)
    requires fn.Defined? && InstrumentedFn(m'.types, g, fn, fn') && !m'.metered
    ensures var st := State([], args + Zeros(fn'.locals), store');
            var c := Append(EntryCode(fn, g), InstrTo(fn, g, fn.body, fn.endAt));
            var q := LeaveBlock([], |fn.results|, Run(m', fn', n, c, st));
            var r' := if q.Next? then Run(m', fn', n, UnstackCode(fn.charge, g), q.st) else q;
            RunFn(m', n, fn', args, store').r == Finish(m', fn', Out(r', [])).r
  {
    ShapeOfRun(m', fn, fn', n, g, State([], args + Zeros(fn'.locals), store'));
  }

  lemma {:induction false} SimFinish(m: Module, m': Module, fn: Func, fn': Func, n: nat, ob: Outcome, rb: Res,
                                     b: Budget, gas: nat, stk: nat)
    requires Instrumented(m, m') && fn.Defined? && InstrumentedFn(m'.types, m.nglobals, fn, fn') && stk < TWO64
    requires b == Replay(EntryEvents(m, fn), gas, stk)
    requires b.Left? ==> b.stk + fn.charge == stk && Sim(m.nglobals, TempIdx(fn), fn.charge, ob, rb, b.gas, b.stk)
    requires b.Exhausted? ==> Refused(m.nglobals, rb, b.gas, b.stk)
    ensures var q := LeaveBlock([], |fn.results|, rb);
            var r' := if q.Next? then Run(m', fn', n, UnstackCode(fn.charge, m.nglobals), q.st) else q;
            FnSim(m.nglobals, Finish(m, fn, ob), Finish(m', fn', Out(r', [])).r, gas, stk)
  {
    var o := Finish(m, fn, ob);
    if o.r.Stuck? { return; }
    ReplayAppend(EntryEvents(m, fn), ob.tr, gas, stk);
    ReplayAppend(EntryEvents(m, fn) + ob.tr, [Exit(fn.charge)], gas, stk);
    if b.Exhausted? { return; }
    var b2 := Replay(ob.tr, b.gas, b.stk);
    OneExit(fn.charge, b2.gas, b2.stk);
    if b2.Left? && (ob.r.Next? || ob.r.Branch?) {
      LeaveSim(m.nglobals, TempIdx(fn), [], |fn.results|, ob.r, rb, b2.gas, b2.stk);
      SimRelease(m, m', fn, fn', n, ob.r, LeaveBlock([], |fn.results|, rb), b2.gas, b.stk);
    }
  }

  /** An instrumented body runs its block, then the release code. */
  lemma {:induction false} ShapeOfRun(m': Module, fn: Func, fn': Func, n: nat, g: nat, st: State)
    requires fn.Defined? && InstrumentedFn(m'.types, g, fn, fn') && !m'.metered && st.stack == []
    ensures EvalTo(m', fn', n, fn'.body, 0, st).r ==
            var c := Append(EntryCode(fn, g), InstrTo(fn, g, fn.body, fn.endAt));
            var q := LeaveBlock([], |fn.results|, Run(m', fn', n, c, st));
            if q.Next? then Run(m', fn', n, UnstackCode(fn.charge, g), q.st) else q
  {
    var blk := fn'.body.head;
    assert Tops(st.stack, 0) == [] && st.(stack := Tops(st.stack, 0)) == st && Pop(st.stack, 0) == [];
    var rb := Run(m', fn', n, blk.body, st);
    assert EvalTo(m', fn', n, blk.body, 0, st).r == rb;
    assert Exec(m', fn', n, blk, st).r == LeaveBlock([], |fn.results|, rb);
    RunAppend(m', fn', n, Cons(blk, Nil), UnstackCode(fn.charge, g), st);
    RunOne(m', fn', n, blk, st);
    assert Append(Cons(blk, Nil), UnstackCode(fn.charge, g)) == fn'.body;
    assert EvalTo(m', fn', n, fn'.body, 0, st).r == Run(m', fn', n, fn'.body, st);
  }

  lemma {:induction false} OneExit(k: nat, gas: nat, stk: nat)
    ensures Replay([Exit(k)], gas, stk) == Left(gas, stk + k)
  {}

  lemma {:induction false} OneGas(k: nat, gas: nat, stk: nat)
    ensures Replay([Gas(k)], gas, stk) == if gas < k then Exhausted(gas, stk) else Left(gas - k, stk)
  {}

  lemma {:induction false} SimEntry(m: Module, m': Module, fn: Func, fn': Func, n: nat, st: State, st': State, gas: nat,
                                    stk: nat)
      returns (b: Budget, st1: State)
    requires Instrumented(m, m') && fn.Defined? && fn'.Defined?
    requires RelState(m.nglobals, TempIdx(fn), st, st', gas, stk)
    ensures b == Replay(EntryEvents(m, fn), gas, stk)
    ensures b.Left? ==> Run(m', fn', n, EntryCode(fn, m.nglobals), st') == Next(st1)
    ensures b.Left? ==> RelState(m.nglobals, TempIdx(fn), st, st1, b.gas, b.stk) && b.stk + fn.charge == stk
    ensures b.Exhausted? ==> Refused(m.nglobals, Run(m', fn', n, EntryCode(fn, m.nglobals), st'), b.gas, b.stk)
  {
    var g := m.nglobals;
    b := Replay(EntryEvents(m, fn), gas, stk);
    st1 := st';
    RelGlobals(g, TempIdx(fn), st, st', gas, stk);
    StackRuns(m', fn', n, fn.charge, g, st');
    var rest := if fn.entryGas == 0 then Nil else GasCode(fn.entryGas, g);
    RunAppend(m', fn', n, StackCode(fn.charge, g), rest, st');
    var tail: seq<Event> := if fn.entryGas == 0 then [] else [Gas(fn.entryGas)];
    assert EntryEvents(m, fn) == [Enter(fn.charge)] + tail;
    assert ([Enter(fn.charge)] + tail)[1..] == tail;
    assert b == if stk < fn.charge then Exhausted(gas, stk) else Replay(tail, gas, stk - fn.charge);
    if fn.charge <= stk && fn.entryGas != 0 { OneGas(fn.entryGas, gas, stk - fn.charge); }
    if fn.charge <= stk {
      var s1 := st'.(store := st'.store.(globals := st'.store.globals[g + 1 := I64(stk - fn.charge)]));
      assert s1.store.globals == st.store.globals + [I64(gas), I64(stk - fn.charge)];
      if fn.entryGas != 0 { GasRuns(m', fn', n, fn.entryGas, g, s1); }
      if fn.entryGas <= gas {
        st1 := s1.(store := s1.store.(globals := s1.store.globals[g := I64(gas - fn.entryGas)]));
        assert st1.store.globals == st.store.globals + [I64(gas - fn.entryGas), I64(stk - fn.charge)];
        assert fn.entryGas == 0 ==> st1.store.globals == s1.store.globals;
      }
    }
  }

  /** Falling through or branching to the outermost label ends in the release code. */
  lemma {:induction false} SimRelease(m: Module, m': Module, fn: Func, fn': Func, n: nat, r: Res, r': Res, gas: nat,
                                      stk: nat)
    requires Instrumented(m, m') && fn.Defined? && fn'.Defined? && stk + fn.charge < TWO64
    requires RelRes(m.nglobals, TempIdx(fn), LeaveBlock([], |fn.results|, r), r', gas, stk) && r'.Next?
    requires LeaveBlock([], |fn.results|, r).Next?
    ensures var q := Run(m', fn', n, UnstackCode(fn.charge, m.nglobals), r'.st);
            q.Next? && q.st.stack == r'.st.stack
            && RelStore(m.nglobals, LeaveBlock([], |fn.results|, r).st.store, q.st.store, gas, stk + fn.charge)
  {
    var g := m.nglobals;
    var st := LeaveBlock([], |fn.results|, r).st;
    RelGlobals(g, TempIdx(fn), st, r'.st, gas, stk);
    UnstackRuns(m', fn', n, fn.charge, g, r'.st);
    assert r'.st.store.globals[g + 1 := I64(stk + fn.charge)] == st.store.globals + [I64(gas), I64(stk + fn.charge)];
  }
}
