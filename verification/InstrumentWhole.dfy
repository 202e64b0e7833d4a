/** The pass from end to end: a flat stream has one structured reading, so the code section
    the pass writes is an instrumented module, whose runs are what the theorem says. */
module InstrumentWhole {
  import opened Wrappers
  import opened Wasm
  import opened WasmTyping
  import opened Instrument
  import opened InstrumentTheorem
  import opened InstrumentTyped
  import Pass = InstrumentPass

  // ---- one stream, one reading ----

  /** Code without its offsets, which the written stream does not carry. */
  function Strip(c: Code): Code
    decreases c, 1
  {
    match c
    case Nil => Nil
    case Cons(i, rest) => Cons(StripOp(i), Strip(rest))
  }

  function StripOp(i: Instr): Instr
    decreases i, 2
  {
    match i
    case Plain(_, p) => Plain(0, p)
    case Br(_, k) => Br(0, k)
    case BrIf(_, k) => BrIf(0, k)
    case Return(_) => Return(0)
    case Call(_, f) => Call(0, f)
    case ReturnCall(_, f) => ReturnCall(0, f)
    case Block(_, bt, body, _) => Block(0, bt, Strip(body), 0)
    case Loop(_, bt, body, _) => Loop(0, bt, Strip(body), 0)
    case If(_, bt, body, _) => If(0, bt, Strip(body), 0)
    case IfElse(_, bt, body, _, els, _) => IfElse(0, bt, Strip(body), 0, Strip(els), 0)
  }

  predicate Closer(x: Pass.FlatOp) { x == Pass.FEnd || x == Pass.FElse }

  lemma {:induction false} FirstOp(i: Instr)
    ensures |Pass.OpOps(i)| > 0 && !Closer(Pass.OpOps(i)[0])
  {}

  /** Code up to its closing operator is determined by the stream, and so is what follows. */
  lemma {:induction false} OneReading(c: Code, x: Pass.FlatOp, s: seq<Pass.FlatOp>, d: Code, y: Pass.FlatOp,
                                      t: seq<Pass.FlatOp>)
    requires Closer(x) && Closer(y) && Pass.Ops(c) + ([x] + s) == Pass.Ops(d) + ([y] + t)
    ensures Strip(c) == Strip(d) && x == y && s == t
    decreases c, 1
  {
    if c.Nil? || d.Nil? {
      ClosedReading(c, x, s, d, y, t);
    } else {
      var u, w := Pass.Ops(c.tail) + ([x] + s), Pass.Ops(d.tail) + ([y] + t);
      assert Pass.Ops(c) + ([x] + s) == Pass.OpOps(c.head) + u;
      assert Pass.Ops(d) + ([y] + t) == Pass.OpOps(d.head) + w;
      OneOp(c.head, u, d.head, w);
      OneReading(c.tail, x, s, d.tail, y, t);
    }
  }

  /** A stream starts with its closing operator exactly when the code before it is empty. */
  lemma {:induction false} StreamHead(c: Code, x: Pass.FlatOp, s: seq<Pass.FlatOp>)
    requires Closer(x)
    ensures var l := Pass.Ops(c) + ([x] + s); |l| > 0 && (Closer(l[0]) <==> c.Nil?)
  {}

  lemma {:induction false} ClosedReading(c: Code, x: Pass.FlatOp, s: seq<Pass.FlatOp>, d: Code, y: Pass.FlatOp,
                                         t: seq<Pass.FlatOp>)
    requires Closer(x) && Closer(y) && Pass.Ops(c) + ([x] + s) == Pass.Ops(d) + ([y] + t) && (c.Nil? || d.Nil?)
    ensures c == d == Nil && x == y && s == t
  {
    StreamHead(c, x, s);
    StreamHead(d, y, t);
    var l, r := [x] + s, [y] + t;
    assert Pass.Ops(Nil) + l == l && Pass.Ops(Nil) + r == r;
    assert l[0] == x && r[0] == y && l[1..] == s && r[1..] == t;
  }

  lemma {:induction false} OneOp(i: Instr, u: seq<Pass.FlatOp>, j: Instr, w: seq<Pass.FlatOp>)
    requires Pass.OpOps(i) + u == Pass.OpOps(j) + w
    ensures StripOp(i) == StripOp(j) && u == w
    decreases i, 2
  {
    var l, r := Pass.OpOps(i) + u, Pass.OpOps(j) + w;
    FirstOp(i);
    FirstOp(j);
    assert l[0] == Pass.OpOps(i)[0] && r[0] == Pass.OpOps(j)[0];
    if i.Block? || i.Loop? {
      BodyRest(i, u);
      BodyRest(j, w);
      OneReading(i.body, Pass.FEnd, u, j.body, Pass.FEnd, w);
    } else if i.If? || i.IfElse? {
      OneIf(i, u, j, w);
    } else {
      assert l[1..] == u && r[1..] == w;
    }
  }

  /** What stands behind the first operator of a structured one. */
  lemma {:induction false} BodyRest(i: Instr, u: seq<Pass.FlatOp>)
    requires i.Block? || i.Loop? || i.If? || i.IfElse?
    ensures (Pass.OpOps(i) + u)[1..] == if i.IfElse?
            then Pass.Ops(i.body) + ([Pass.FElse] + (Pass.Ops(i.els) + ([Pass.FEnd] + u)))
            else Pass.Ops(i.body) + ([Pass.FEnd] + u)
  {}

  lemma {:induction false} OneIf(i: Instr, u: seq<Pass.FlatOp>, j: Instr, w: seq<Pass.FlatOp>)
    requires Pass.OpOps(i) + u == Pass.OpOps(j) + w && (i.If? || i.IfElse?) && (j.If? || j.IfElse?)
    requires Pass.OpOps(i)[0] == Pass.OpOps(j)[0]
    ensures StripOp(i) == StripOp(j) && u == w
    decreases i, 1
  {
    BodyRest(i, u);
    BodyRest(j, w);
    var x, y := if i.If? then Pass.FEnd else Pass.FElse, if j.If? then Pass.FEnd else Pass.FElse;
    var s := if i.If? then u else Pass.Ops(i.els) + ([Pass.FEnd] + u);
    var t := if j.If? then w else Pass.Ops(j.els) + ([Pass.FEnd] + w);
    OneReading(i.body, x, s, j.body, y, t);
    if i.IfElse? { OneReading(i.els, Pass.FEnd, u, j.els, Pass.FEnd, w); }
  }

  /** The operator stream of a function body has one structured reading, up to offsets. */
  lemma {:induction false} UniqueReading(c: Code, d: Code)
    requires Pass.Ops(c) + [Pass.FEnd] == Pass.Ops(d) + [Pass.FEnd]
    ensures Strip(c) == Strip(d)
  {
    assert [Pass.FEnd] + [] == [Pass.FEnd];
    OneReading(c, Pass.FEnd, [], d, Pass.FEnd, []);
  }

  // ---- inserted code carries no offsets ----

  lemma {:induction false} StripAppend(a: Code, b: Code)
    ensures Strip(Append(a, b)) == Append(Strip(a), Strip(b))
  {
    if a.Cons? { StripAppend(a.tail, b); }
  }

  lemma {:induction false} StripPlain4(a: PlainOp, b: PlainOp, c: PlainOp, rest: Code)
    requires Strip(rest) == rest
    ensures Strip(Cons(P(a), Cons(P(b), Cons(P(c), rest)))) == Cons(P(a), Cons(P(b), Cons(P(c), rest)))
  {
    assert Strip(Cons(P(c), rest)) == Cons(P(c), rest);
    assert Strip(Cons(P(b), Cons(P(c), rest))) == Cons(P(b), Cons(P(c), rest));
  }

  lemma {:induction false} StripCheck(bad: Code, good: Code, rest: Code)
    requires Strip(bad) == bad && Strip(good) == good && Strip(rest) == rest
    ensures var c := Cons(IfElse(0, Empty, bad, 0, good, 0), rest); Strip(c) == c
  {}

  lemma {:induction false} StripHook(h: nat)
    ensures var c := Cons(Call(0, h), Cons(P(Unreachable), Nil)); Strip(c) == c
  {}

  lemma {:induction false} StripSet(i: nat)
    ensures Strip(Cons(P(GlobalSet(i)), Nil)) == Cons(P(GlobalSet(i)), Nil)
  {}

  lemma {:induction false} StripGas(k: Word64, g: nat)
    ensures Strip(GasCode(k, g)) == GasCode(k, g)
  {
    var i := GasCode(k, g).tail.tail.tail.head;
    StripHook(GAS_FN);
    assert Strip(i.body) == i.body;
    StripSet(g);
    StripPlain4(GlobalGet(g), Const(I64(k)), Binary(Sub), Cons(P(GlobalSet(g)), Nil));
    assert Strip(Nil) == Nil;
    StripCheck(i.body, i.els, Nil);
    StripPlain4(GlobalGet(g), Const(I64(k)), Binary(LtU), Cons(i, Nil));
  }

  lemma {:induction false} StripLinear(fee: Fee, g: nat, tmp: nat)
    ensures Strip(LinearCode(fee, g, tmp)) == LinearCode(fee, g, tmp)
  {
    var i := LinearTail(g, tmp).tail.tail.tail.head;
    var c := Cons(P(LocalGet(tmp + 1)), Nil);
    StripHook(GAS_FN);
    assert Strip(i.body) == i.body;
    StripSet(g);
    StripPlain4(GlobalGet(g), LocalGet(tmp), Binary(Sub), Cons(P(GlobalSet(g)), Nil));
    assert Strip(Nil) == Nil;
    assert Strip(c) == c;
    StripCheck(i.body, i.els, c);
    StripPlain4(LocalTee(tmp), GlobalGet(g), Binary(GtU), Cons(i, c));
    StripPlain4(Binary(Mul), Const(I64(fee.constant)), Binary(Add), LinearTail(g, tmp));
    StripPlain4(LocalTee(tmp + 1), ExtendU, Const(I64(fee.linear)), LinearCode(fee, g, tmp).tail.tail.tail);
  }

  lemma {:induction false} StripStack(k: Word64, g: nat)
    ensures Strip(StackCode(k, g)) == StackCode(k, g) && Strip(UnstackCode(k, g)) == UnstackCode(k, g)
  {
    var i := StackCode(k, g).tail.tail.tail.head;
    StripHook(STACK_EXHAUSTED_FN);
    StripSet(g + 1);
    StripPlain4(GlobalGet(g + 1), Const(I64(k)), Binary(Sub), Cons(P(GlobalSet(g + 1)), Nil));
    StripPlain4(GlobalGet(g + 1), Const(I64(k)), Binary(Add), Cons(P(GlobalSet(g + 1)), Nil));
    assert Strip(Nil) == Nil;
    StripCheck(i.body, i.els, Nil);
    StripPlain4(GlobalGet(g + 1), Const(I64(k)), Binary(LtU), Cons(i, Nil));
  }

  lemma {:induction false} StripCharges(ps: seq<Point>, g: nat, tmp: nat)
    ensures Strip(ChargeCode(ps, g, tmp)) == ChargeCode(ps, g, tmp)
  {
    if ps != [] {
      var fee := ps[0].fee;
      StripAppend(PointCode(fee, g, tmp), ChargeCode(ps[1..], g, tmp));
      StripGas(fee.constant, g);
      StripLinear(fee, g, tmp);
      StripCharges(ps[1..], g, tmp);
    }
  }

  lemma {:induction false} StripInstrCode(f: Func, g: nat, c: Code)
    requires f.Defined?
    ensures Strip(InstrCode(f, g, c)) == InstrCode(f, g, c)
    decreases c, 1
  {
    if c.Cons? {
      var i, rest := c.head, c.tail;
      StripAppend(ChargesAt(f, g, i.at), Append(InstrOp(f, g, i), InstrCode(f, g, rest)));
      StripAppend(InstrOp(f, g, i), InstrCode(f, g, rest));
      StripCharges(PointsAt(f.points, i.at), g, TempIdx(f));
      StripInstrOp(f, g, i);
      StripInstrCode(f, g, rest);
    }
  }

  lemma {:induction false} StripInstrTo(f: Func, g: nat, c: Code, at: nat)
    requires f.Defined?
    ensures Strip(InstrTo(f, g, c, at)) == InstrTo(f, g, c, at)
    decreases c, 2
  {
    StripAppend(InstrCode(f, g, c), ChargesAt(f, g, at));
    StripInstrCode(f, g, c);
    StripCharges(PointsAt(f.points, at), g, TempIdx(f));
  }

  lemma {:induction false} StripInstrOp(f: Func, g: nat, i: Instr)
    requires f.Defined?
    ensures Strip(InstrOp(f, g, i)) == InstrOp(f, g, i)
    decreases i, 3
  {
    StripStack(f.charge, g);
    assert Strip(Nil) == Nil;
    match i
    case Return(_) => StripAppend(UnstackCode(f.charge, g), Cons(Return(0), Nil));
    case ReturnCall(_, h) => StripAppend(UnstackCode(f.charge, g), Cons(ReturnCall(0, h + SHIFT), Nil));
    case Block(_, _, body, endAt) => StripInstrTo(f, g, body, endAt);
    case Loop(_, _, body, endAt) => StripInstrTo(f, g, body, endAt);
    case If(_, _, body, endAt) => StripInstrTo(f, g, body, endAt);
    case IfElse(_, _, body, elseAt, els, endAt) =>
      StripInstrTo(f, g, body, elseAt);
      StripInstrTo(f, g, els, endAt);
    case _ =>
  }

  lemma {:induction false} StripInstrFunc(f: Func, bt: BlockType, g: nat)
    requires f.Defined?
    ensures Strip(InstrFunc(f, bt, g).body) == InstrFunc(f, bt, g).body
  {
    var tail := if f.entryGas == 0 then Nil else GasCode(f.entryGas, g);
    StripStack(f.charge, g);
    StripGas(f.entryGas, g);
    assert Strip(Nil) == Nil;
    StripAppend(StackCode(f.charge, g), tail);
    StripInstrTo(f, g, f.body, f.endAt);
    StripAppend(EntryCode(f, g), InstrTo(f, g, f.body, f.endAt));
  }

  // ---- the written module ----

  /** `f` is what a written function decodes to: its stream and locals, no offsets and no
      tables, with the parameters and results of its type. */
  ghost predicate Decodes(f: Func, nparams: nat, results: seq<ValType>, out: Pass.FlatFunc) {
    && f.Defined? && f.nparams == nparams && f.results == results && Strip(f.body) == f.body
    && Pass.FnOps(f) == out.ops && f.locals == Pass.Expand(out.decls)
    && f.endAt == 0 && f.points == [] && f.charge == 0 && f.entryGas == 0
  }

  lemma {:induction false} DecodesToInstr(f: Func, types: seq<FuncType>, bt: BlockType, g: nat, out: Pass.FlatFunc,
                                          f': Func)
    requires Pass.Emitted(f, types, bt, g, out) && Decodes(f', f.nparams, f.results, out)
    ensures InstrumentedFn(types, g, f, f')
  {
    var want := InstrFunc(f, bt, g);
    UniqueReading(f'.body, want.body);
    StripInstrFunc(f, bt, g);
    assert f' == want;
  }

  /** `m'` is what the pass writes for `m`, whose functions are `imports` imported ones and
      then one defined function per written body. */
  ghost predicate Written(m: Module, m': Module, imports: nat, types: seq<FuncType>, code: seq<Pass.FlatFunc>) {
    && m'.types == types && m'.nglobals == m.nglobals + 2 && !m'.metered && m'.maxMem == m.maxMem && m'.host == m.host
    && |m.funcs| == imports + |code| && |m'.funcs| == |m.funcs| + SHIFT
    && m'.funcs[GAS_EXHAUSTED_FN].Hook? && m'.funcs[GAS_EXHAUSTED_FN].nparams == 0
    && m'.funcs[STACK_EXHAUSTED_FN].Hook? && m'.funcs[STACK_EXHAUSTED_FN].nparams == 0
    && m'.funcs[GAS_FN].Hook? && m'.funcs[GAS_FN].nparams == 1
    && (forall i :: 0 <= i < imports ==> m.funcs[i].Host? && m'.funcs[i + SHIFT] == m.funcs[i])
    && forall i :: 0 <= i < |code| ==>
         m.funcs[imports + i].Defined?
         && Decodes(m'.funcs[imports + i + SHIFT], m.funcs[imports + i].nparams, m.funcs[imports + i].results, code[i])
  }

  /** The defined functions are structured readings of the bodies, with positive charges and
      aligned tables. */
  ghost predicate Source(m: Module, imports: nat, c: Pass.InstrumentContext, tis: seq<nat>, bodies: seq<Pass.Body>) {
    && m.metered && m.types == c.types && m.nglobals == c.globals && |m.funcs| == imports + |bodies|
    && forall i :: 0 <= i < |bodies| && i < |tis| && i < |c.analysis| ==>
         var f := m.funcs[imports + i];
         Pass.Reads(f, c.types, tis[i], bodies[i], c.analysis[i]) && f.charge > 0
         && Pass.Aligned(f.points, bodies[i].ops)
  }

  lemma {:induction false} WrittenIsInstrumented(m: Module, m': Module, imports: nat, types: seq<FuncType>,
                                                 bts: seq<BlockType>, code: seq<Pass.FlatFunc>)
    requires m.metered && m.types <= types && Written(m, m', imports, types, code) && |bts| == |code|
    requires forall i :: 0 <= i < |code| ==> Pass.Emitted(m.funcs[imports + i], types, bts[i], m.nglobals, code[i])
    ensures Instrumented(m, m')
  {
    forall i | 0 <= i < |m.funcs| ensures InstrumentedFn(types, m.nglobals, m.funcs[i], m'.funcs[i + SHIFT]) {
      if i >= imports {
        var k := i - imports;
        assert Pass.Emitted(m.funcs[imports + k], types, bts[k], m.nglobals, code[k]);
        assert Decodes(m'.funcs[imports + k + SHIFT], m.funcs[imports + k].nparams, m.funcs[imports + k].results,
                   code[k]);
        DecodesToInstr(m.funcs[i], types, bts[k], m.nglobals, code[k], m'.funcs[i + SHIFT]);
      }
    }
  }

  /** Three hooks, then every function, the defined ones in their emitted forms. */
  ghost function Assemble(m: Module, imports: nat, bts: seq<BlockType>, types: seq<FuncType>, aborts: bool): Module
    requires |m.funcs| == imports + |bts| && forall i :: imports <= i < |m.funcs| ==> m.funcs[i].Defined?
  {
    m.(types := types, nglobals := m.nglobals + 2, metered := false,
       funcs := [Hook(0, aborts), Hook(0, aborts), Hook(1, aborts)]
                + seq(|m.funcs|, i requires 0 <= i < |m.funcs| =>
                        if i >= imports then InstrFunc(m.funcs[i], bts[i - imports], m.nglobals) else m.funcs[i]))
  }

  /** The code section of an accepted module does decode, to the structured transformation. */
  lemma {:induction false} AssembleIsWritten(m: Module, imports: nat, types: seq<FuncType>, bts: seq<BlockType>,
                                             code: seq<Pass.FlatFunc>, aborts: bool)
    requires |m.funcs| == imports + |bts| && |bts| == |code|
    requires forall i :: 0 <= i < imports ==> m.funcs[i].Host?
    requires forall i :: imports <= i < |m.funcs| ==> m.funcs[i].Defined?
    requires forall i :: 0 <= i < |code| ==> Pass.Emitted(m.funcs[imports + i], types, bts[i], m.nglobals, code[i])
    ensures Written(m, Assemble(m, imports, bts, types, aborts), imports, types, code)
  {
    var m' := Assemble(m, imports, bts, types, aborts);
    forall i | 0 <= i < |code|
      ensures Decodes(m'.funcs[imports + i + SHIFT], m.funcs[imports + i].nparams, m.funcs[imports + i].results,
                  code[i])
    {
      var f := m.funcs[imports + i];
      assert m'.funcs[imports + i + SHIFT] == InstrFunc(f, bts[i], m.nglobals);
      assert Pass.Emitted(f, types, bts[i], m.nglobals, code[i]);
      StripInstrFunc(f, bts[i], m.nglobals);
    }
  }

  /** The whole pass: if it accepts the bodies of `m`, every module that decodes from what it
      writes is an instrumented form of `m`. */
  method InstrumentModule(c: Pass.InstrumentContext, tis: seq<nat>, bodies: seq<Pass.Body>, ghost m: Module,
                          imports: nat)
    returns (r: Pass.Result<()>)
    requires c.types <= c.typeSection && c.codeSection == [] && Source(m, imports, c, tis, bodies)
    modifies c
    ensures r.Ok? <==> |c.codeSection| == |bodies|
    ensures r.Ok? ==> forall m' :: Written(m, m', imports, c.typeSection, c.codeSection) ==> Instrumented(m, m')
  {
    var bts;
    r, bts := c.Run(tis, bodies, m.funcs[imports..]);
    forall m' | r.Ok? && Written(m, m', imports, c.typeSection, c.codeSection) ensures Instrumented(m, m') {
      WrittenIsInstrumented(m, m', imports, c.typeSection, bts, c.codeSection);
    }
  }

  /** From the written code section to the run-time claim: every activation of a function of
      the written module preserves the original's. */
  lemma {:induction false} WrittenPreserves(m: Module, m': Module, imports: nat, types: seq<FuncType>,
                                            bts: seq<BlockType>, code: seq<Pass.FlatFunc>,
                                            sig: Sig, h: nat, n: nat, args: seq<Value>, store: Store, gas: Word64,
                                            stk: Word64)
    requires m.metered && m.types <= types && Written(m, m', imports, types, code) && |bts| == |code|
    requires forall i :: 0 <= i < |code| ==> Pass.Emitted(m.funcs[imports + i], types, bts[i], m.nglobals, code[i])
    requires Valid(m, sig) && imports <= h < |m.funcs| && m.funcs[h].Defined?
    requires HasTypes(args, sig.funcs[h].params) && HasTypes(store.globals, sig.globals)
    ensures m'.funcs[h + SHIFT].Defined?
    ensures Preserved(m.nglobals, RunFn(Unmetered(m), n, m.funcs[h], args, store).r,
                      RunFn(m, n, m.funcs[h], args, store).tr,
                      RunFn(m', n, m'.funcs[h + SHIFT], args, LiftStore(store, gas, stk)).r, gas, stk)
  {
    WrittenIsInstrumented(m, m', imports, types, bts, code);
    InstrumentationPreserves(m, m', sig, h, n, args, store, gas, stk);
  }

  /** What is written for a validated module validates. */
  lemma {:induction false} WrittenValidates(m: Module, m': Module, imports: nat, types: seq<FuncType>,
                                            bts: seq<BlockType>, code: seq<Pass.FlatFunc>, sig: Sig)
    requires m.metered && m.types <= types && Written(m, m', imports, types, code) && |bts| == |code|
    requires forall i :: 0 <= i < |code| ==> Pass.Emitted(m.funcs[imports + i], types, bts[i], m.nglobals, code[i])
    requires Valid(m, sig)
    ensures Valid(m', MeteredSig(sig))
  {
    WrittenIsInstrumented(m, m', imports, types, bts, code);
    InstrumentedValid(m, m', sig);
  }
}
