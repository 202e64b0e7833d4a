/** The pass keeps modules valid: whatever it writes for a validated module validates, with
    three hooks in front, two budget globals and two scratch locals behind. */
module InstrumentTyped {
  import opened Wrappers
  import opened Wasm
  import opened WasmTyping
  import opened Instrument

  /** The types of the written module. */
  function MeteredSig(sig: Sig): Sig {
    Sig([FuncType([], []), FuncType([], []), FuncType([I64T], [])] + sig.funcs, sig.globals + [I64T, I64T])
  }

  /** `v'` is what instrumented code is checked against where its original is checked
      against `v`: hooks and budget globals in place, scratch locals at `tmp`. */
  predicate Widens(v: Env, v': Env, g: nat, tmp: nat) {
    && v.types <= v'.types && v'.points == [] && v'.results == v.results
    && |v'.funcs| == |v.funcs| + SHIFT && v'.funcs[SHIFT..] == v.funcs
    && v'.funcs[STACK_EXHAUSTED_FN] == FuncType([], []) && v'.funcs[GAS_FN] == FuncType([I64T], [])
    && g == |v.globals| && v'.globals == v.globals + [I64T, I64T]
    && tmp == |v.locals| && v'.locals == v.locals + [I64T, I32T]
  }

  // ---- checking code piece by piece ----

  lemma {:induction false} CheckAppend(v: Env, labels: seq<seq<ValType>>, a: Code, b: Code, ts: seq<ValType>)
    ensures Check(v, labels, Append(a, b), ts)
         == match Check(v, labels, a, ts)
            case Falls(ts') => Check(v, labels, b, ts')
            case other => other
    decreases a
  {
    if a.Cons? {
      var o := CheckOp(v, labels, a.head, ts);
      if o.Falls? { CheckAppend(v, labels, a.tail, b, o.ts); }
    }
  }

  /** One plain operator in front, where no table charges it. */
  lemma {:induction false} CheckStep(v: Env, labels: seq<seq<ValType>>, p: PlainOp, c: Code, ts: seq<ValType>,
                                     ts': seq<ValType>)
    requires v.points == [] && CheckPlain(v, p, ts) == Falls(ts')
    ensures Check(v, labels, Cons(P(p), c), ts) == Check(v, labels, c, ts')
  {}

  lemma {:induction false} PushTurn(ts: seq<ValType>, t: ValType)
    ensures Turn(ts, [], [t]) == Falls(ts + [t])
  {
    assert ts[..|ts|] == ts && ts[|ts|..] == [];
  }

  lemma {:induction false} PopTurn(ts: seq<ValType>, last: seq<ValType>, to: seq<ValType>)
    ensures Turn(ts + last, last, to) == Falls(ts + to)
  {
    assert (ts + last)[|ts|..] == last && (ts + last)[..|ts|] == ts;
  }

  lemma {:induction false} NilPlus(ts: seq<ValType>)
    ensures [] + ts == ts
  {}

  // ---- the inserted sequences ----

  /** Pushing a global and a constant and comparing them leaves a truth value. */
  lemma {:induction false} CompareChecks(v: Env, labels: seq<seq<ValType>>, i: nat, k: Word64, c: Code,
                                         ts: seq<ValType>)
    requires v.points == [] && i < |v.globals| && v.globals[i] == I64T
    ensures Check(v, labels, Cons(P(GlobalGet(i)), Cons(P(Const(I64(k))), Cons(P(Binary(LtU)), c))), ts)
         == Check(v, labels, c, ts + [I32T])
  {
    PushTurn(ts, I64T);
    PushTurn(ts + [I64T], I64T);
    assert ts + [I64T] + [I64T] == ts + [I64T, I64T];
    PopTurn(ts, [I64T, I64T], [I32T]);
    CheckStep(v, labels, Binary(LtU), c, ts + [I64T, I64T], ts + [I32T]);
    CheckStep(v, labels, Const(I64(k)), Cons(P(Binary(LtU)), c), ts + [I64T], ts + [I64T, I64T]);
    CheckStep(v, labels, GlobalGet(i), Cons(P(Const(I64(k))), Cons(P(Binary(LtU)), c)), ts, ts + [I64T]);
  }

  /** Updating a 64-bit global by a pushed 64-bit value keeps the stack. */
  lemma {:induction false} UpdateChecks(v: Env, labels: seq<seq<ValType>>, i: nat, p: PlainOp, b: BinOp,
                                        ts: seq<ValType>)
    requires v.points == [] && i < |v.globals| && v.globals[i] == I64T && (b.Add? || b.Sub?)
    requires CheckPlain(v, p, ts + [I64T]) == Falls(ts + [I64T] + [I64T])
    ensures Check(v, labels, Cons(P(GlobalGet(i)), Cons(P(p), Cons(P(Binary(b)), Cons(P(GlobalSet(i)), Nil)))), ts)
         == Falls(ts)
  {
    var last := Cons(P(GlobalSet(i)), Nil);
    PushTurn(ts, I64T);
    assert ts + [I64T] + [I64T] == ts + [I64T, I64T];
    PopTurn(ts, [I64T, I64T], [I64T]);
    PopTurn(ts, [I64T], []);
    assert ts + [] == ts;
    CheckStep(v, labels, GlobalSet(i), Nil, ts + [I64T], ts);
    CheckStep(v, labels, Binary(b), last, ts + [I64T, I64T], ts + [I64T]);
    CheckStep(v, labels, p, Cons(P(Binary(b)), last), ts + [I64T], ts + [I64T, I64T]);
    CheckStep(v, labels, GlobalGet(i), Cons(P(p), Cons(P(Binary(b)), last)), ts, ts + [I64T]);
  }

  /** A condition over an arm that calls a hook and stops, and one that keeps the stack. */
  lemma {:induction false} GuardChecks(v: Env, labels: seq<seq<ValType>>, i: Instr, c: Code, ts: seq<ValType>)
    requires v.points == [] && i.IfElse? && i.bt == Empty
    requires Check(v, [[]] + labels, i.body, []) == Never && Check(v, [[]] + labels, i.els, []) == Falls([])
    ensures Check(v, labels, Cons(i, c), ts + [I32T]) == Check(v, labels, c, ts)
  {
    PopTurn(ts, [I32T], []);
    assert ts + [] == ts;
    NilPlus([I32T]);
    var ft := FuncType([], []);
    assert BlockSig(v.types, i.bt) == Some(ft);
    var inner := [ft.results] + labels;
    assert inner == [[]] + labels;
    assert BodyOk(v, inner, i.body, i.elseAt, [], []) && BodyOk(v, inner, i.els, i.endAt, [], []);
    assert CheckOp(v, labels, i, ts + [I32T]) == Turn(ts + [I32T], ft.params + [I32T], ft.results);
  }

  /** Calling a hook on its argument and stopping. */
  lemma {:induction false} HookChecks(v: Env, labels: seq<seq<ValType>>, h: nat)
    requires v.points == [] && h < |v.funcs| && v.funcs[h].results == []
    ensures Check(v, labels, Cons(Call(0, h), Cons(P(Unreachable), Nil)), v.funcs[h].params) == Never
  {
    var ps := v.funcs[h].params;
    PopTurn([], ps, []);
    NilPlus(ps);
    NilPlus([]);
  }

  lemma {:induction false} GasChecks(v: Env, labels: seq<seq<ValType>>, k: Word64, g: nat, ts: seq<ValType>)
    requires v.points == [] && g < |v.globals| && v.globals[g] == I64T
    requires GAS_FN < |v.funcs| && v.funcs[GAS_FN] == FuncType([I64T], [])
    ensures Check(v, labels, GasCode(k, g), ts) == Falls(ts)
  {
    var i := GasCode(k, g).tail.tail.tail.head;
    var inner := [[]] + labels;
    PushTurn([], I64T);
    NilPlus([I64T]);
    HookChecks(v, inner, GAS_FN);
    CheckStep(v, inner, Const(I64(k)), Cons(Call(0, GAS_FN), Cons(P(Unreachable), Nil)), [], [I64T]);
    PushTurn([I64T], I64T);
    UpdateChecks(v, inner, g, Const(I64(k)), Sub, []);
    GuardChecks(v, labels, i, Nil, ts);
    CompareChecks(v, labels, g, k, Cons(i, Nil), ts);
  }

  lemma {:induction false} StackChecks(v: Env, labels: seq<seq<ValType>>, k: Word64, g: nat, ts: seq<ValType>)
    requires v.points == [] && g + 1 < |v.globals| && v.globals[g + 1] == I64T
    requires STACK_EXHAUSTED_FN < |v.funcs| && v.funcs[STACK_EXHAUSTED_FN] == FuncType([], [])
    ensures Check(v, labels, StackCode(k, g), ts) == Falls(ts) && Check(v, labels, UnstackCode(k, g), ts) == Falls(ts)
  {
    var i := StackCode(k, g).tail.tail.tail.head;
    var inner := [[]] + labels;
    HookChecks(v, inner, STACK_EXHAUSTED_FN);
    PushTurn([I64T], I64T);
    NilPlus([I64T]);
    UpdateChecks(v, inner, g + 1, Const(I64(k)), Sub, []);
    GuardChecks(v, labels, i, Nil, ts);
    CompareChecks(v, labels, g + 1, k, Cons(i, Nil), ts);
    PushTurn(ts + [I64T], I64T);
    UpdateChecks(v, labels, g + 1, Const(I64(k)), Add, ts);
  }

  /** Folding a constant into the 64-bit value on top. */
  lemma {:induction false} FoldChecks(v: Env, labels: seq<seq<ValType>>, k: Word64, b: BinOp, c: Code, ts: seq<ValType>)
    requires v.points == [] && (b.Add? || b.Mul?)
    ensures Check(v, labels, Cons(P(Const(I64(k))), Cons(P(Binary(b)), c)), ts + [I64T])
            == Check(v, labels, c, ts + [I64T])
  {
    PushTurn(ts + [I64T], I64T);
    assert ts + [I64T] + [I64T] == ts + [I64T, I64T];
    PopTurn(ts, [I64T, I64T], [I64T]);
    CheckStep(v, labels, Binary(b), c, ts + [I64T, I64T], ts + [I64T]);
    CheckStep(v, labels, Const(I64(k)), Cons(P(Binary(b)), c), ts + [I64T], ts + [I64T, I64T]);
  }

  /** Scratch locals in place: a 64-bit one, then a 32-bit one. */
  predicate Scratch(v: Env, tmp: nat) { tmp + 1 < |v.locals| && v.locals[tmp] == I64T && v.locals[tmp + 1] == I32T }

  /** The price is kept, compared with the gas left, and the length comes back. */
  lemma {:induction false} TailChecks(v: Env, labels: seq<seq<ValType>>, g: nat, tmp: nat, ts: seq<ValType>)
    requires v.points == [] && g < |v.globals| && v.globals[g] == I64T && Scratch(v, tmp)
    requires GAS_FN < |v.funcs| && v.funcs[GAS_FN] == FuncType([I64T], [])
    ensures Check(v, labels, LinearTail(g, tmp), ts + [I64T]) == Falls(ts + [I32T])
  {
    var inner := [[]] + labels;
    var last := Cons(P(LocalGet(tmp + 1)), Nil);
    var i := LinearTail(g, tmp).tail.tail.tail.head;
    PushTurn([], I64T);
    NilPlus([I64T]);
    HookChecks(v, inner, GAS_FN);
    CheckStep(v, inner, LocalGet(tmp), Cons(Call(0, GAS_FN), Cons(P(Unreachable), Nil)), [], [I64T]);
    PushTurn([I64T], I64T);
    UpdateChecks(v, inner, g, LocalGet(tmp), Sub, []);
    PushTurn(ts, I32T);
    CheckStep(v, labels, LocalGet(tmp + 1), Nil, ts, ts + [I32T]);
    GuardChecks(v, labels, i, last, ts);
    PopTurn(ts, [I64T], [I64T]);
    PushTurn(ts + [I64T], I64T);
    assert ts + [I64T] + [I64T] == ts + [I64T, I64T];
    PopTurn(ts, [I64T, I64T], [I32T]);
    CheckStep(v, labels, Binary(GtU), Cons(i, last), ts + [I64T, I64T], ts + [I32T]);
    CheckStep(v, labels, GlobalGet(g), Cons(P(Binary(GtU)), Cons(i, last)), ts + [I64T], ts + [I64T, I64T]);
    CheckStep(v, labels, LocalTee(tmp), Cons(P(GlobalGet(g)), Cons(P(Binary(GtU)), Cons(i, last))), ts + [I64T],
              ts + [I64T]);
  }

  lemma {:induction false} LinearChecks(v: Env, labels: seq<seq<ValType>>, fee: Fee, g: nat, tmp: nat, ts: seq<ValType>)
    requires v.points == [] && g < |v.globals| && v.globals[g] == I64T && Scratch(v, tmp)
    requires GAS_FN < |v.funcs| && v.funcs[GAS_FN] == FuncType([I64T], [])
    ensures Check(v, labels, LinearCode(fee, g, tmp), ts + [I32T]) == Falls(ts + [I32T])
  {
    var add := Cons(P(Const(I64(fee.constant))), Cons(P(Binary(Add)), LinearTail(g, tmp)));
    var mul := Cons(P(Const(I64(fee.linear))), Cons(P(Binary(Mul)), add));
    TailChecks(v, labels, g, tmp, ts);
    FoldChecks(v, labels, fee.constant, Add, LinearTail(g, tmp), ts);
    FoldChecks(v, labels, fee.linear, Mul, add, ts);
    PopTurn(ts, [I32T], [I64T]);
    PopTurn(ts, [I32T], [I32T]);
    CheckStep(v, labels, ExtendU, mul, ts + [I32T], ts + [I64T]);
    CheckStep(v, labels, LocalTee(tmp + 1), Cons(P(ExtendU), mul), ts + [I32T], ts + [I32T]);
  }

  /** A 32-bit value is on top. */
  predicate LengthOnTop(ts: seq<ValType>) { ts != [] && ts[|ts| - 1] == I32T }

  lemma {:induction false} ChargesCheck(v: Env, v': Env, labels: seq<seq<ValType>>, ps: seq<Point>, g: nat, tmp: nat,
                                        ts: seq<ValType>)
    requires Widens(v, v', g, tmp) && (Flat(ps) || LengthOnTop(ts))
    ensures Check(v', labels, ChargeCode(ps, g, tmp), ts) == Falls(ts)
    decreases ps
  {
    if ps != [] {
      var fee := ps[0].fee;
      ChargesCheck(v, v', labels, ps[1..], g, tmp, ts);
      GasChecks(v', labels, fee.constant, g, ts);
      if LengthOnTop(ts) {
        LinearChecks(v', labels, fee, g, tmp, ts[..|ts| - 1]);
        assert ts[..|ts| - 1] + [I32T] == ts;
      }
      CheckAppend(v', labels, PointCode(fee, g, tmp), ChargeCode(ps[1..], g, tmp), ts);
    }
  }

  // ---- the transformation ----

  /** A function's own environment and the one its instrumented form is checked in. */
  predicate Fits(f: Func, v: Env, v': Env, g: nat) {
    f.Defined? && v.points == f.points && Widens(v, v', g, TempIdx(f))
  }

  /** The instrumented code sits in one more block. */
  predicate Deeper(labels: seq<seq<ValType>>, labels': seq<seq<ValType>>) { labels <= labels' }

  /** Length-dependent charges stand where a length is on top. */
  lemma {:induction false} PointsFit(v: Env, labels: seq<seq<ValType>>, i: Instr, ts: seq<ValType>)
    requires !CheckOp(v, labels, i, ts).Bad?
    ensures Flat(PointsAt(v.points, i.at)) || LengthOnTop(ts)
  {
    if !Flat(PointsAt(v.points, i.at)) {
      var last := if i.p.MemoryGrow? then [I32T] else [I32T, I32T, I32T];
      assert EndsWith(ts, last);
      assert ts[|ts| - 1] == ts[|ts| - |last|..][|last| - 1];
    }
  }

  lemma {:induction false} CodeChecks(f: Func, v: Env, v': Env, g: nat, labels: seq<seq<ValType>>,
                                      labels': seq<seq<ValType>>, c: Code, ts: seq<ValType>)
    requires Fits(f, v, v', g) && Deeper(labels, labels') && !Check(v, labels, c, ts).Bad?
    ensures Check(v', labels', InstrCode(f, g, c), ts) == Check(v, labels, c, ts)
    decreases c, 1
  {
    if c.Cons? {
      var i, rest := c.head, InstrCode(f, g, c.tail);
      PointsFit(v, labels, i, ts);
      ChargesCheck(v, v', labels', PointsAt(f.points, i.at), g, TempIdx(f), ts);
      CheckAppend(v', labels', ChargesAt(f, g, i.at), Append(InstrOp(f, g, i), rest), ts);
      OpChecks(f, v, v', g, labels, labels', i, ts);
      CheckAppend(v', labels', InstrOp(f, g, i), rest, ts);
      var o := CheckOp(v, labels, i, ts);
      if o.Falls? { CodeChecks(f, v, v', g, labels, labels', c.tail, o.ts); }
    }
  }

  lemma {:induction false} BodyChecks(f: Func, v: Env, v': Env, g: nat, labels: seq<seq<ValType>>,
                                      labels': seq<seq<ValType>>, c: Code, endAt: nat, params: seq<ValType>,
                                      results: seq<ValType>)
    requires Fits(f, v, v', g) && Deeper(labels, labels') && BodyOk(v, labels, c, endAt, params, results)
    ensures BodyOk(v', labels', InstrTo(f, g, c, endAt), 0, params, results)
    decreases c, 2
  {
    CodeChecks(f, v, v', g, labels, labels', c, params);
    CheckAppend(v', labels', InstrCode(f, g, c), ChargesAt(f, g, endAt), params);
    ChargesCheck(v, v', labels', PointsAt(f.points, endAt), g, TempIdx(f), results);
  }

  /** A block type means the same among more types. */
  lemma {:induction false} SigExtends(v: Env, v': Env, bt: BlockType)
    requires v.types <= v'.types && BlockSig(v.types, bt).Some?
    ensures BlockSig(v'.types, bt) == BlockSig(v.types, bt)
  {}

  /** One operator that stands alone. */
  lemma {:induction false} CheckOne(v: Env, labels: seq<seq<ValType>>, i: Instr, ts: seq<ValType>)
    ensures Check(v, labels, Cons(i, Nil), ts) == CheckOp(v, labels, i, ts)
  {}

  lemma {:induction false} OpChecks(f: Func, v: Env, v': Env, g: nat, labels: seq<seq<ValType>>,
                                    labels': seq<seq<ValType>>, i: Instr, ts: seq<ValType>)
    requires Fits(f, v, v', g) && Deeper(labels, labels') && !CheckOp(v, labels, i, ts).Bad?
    ensures Check(v', labels', InstrOp(f, g, i), ts) == CheckOp(v, labels, i, ts)
    decreases i, 3
  {
    match i
    case Plain(_, p) =>
      PlainChecks(v, v', g, TempIdx(f), p, ts);
      CheckOne(v', labels', P(p), ts);
    case Br(_, k) => CheckOne(v', labels', Br(0, k), ts);
    case BrIf(_, k) => CheckOne(v', labels', BrIf(0, k), ts);
    case Return(_) =>
      StackChecks(v', labels', f.charge, g, ts);
      CheckAppend(v', labels', UnstackCode(f.charge, g), Cons(Return(0), Nil), ts);
      CheckOne(v', labels', Return(0), ts);
    case Call(_, h) =>
      CalleeShifts(v, v', g, TempIdx(f), h);
      CheckOne(v', labels', Call(0, h + SHIFT), ts);
    case ReturnCall(_, h) =>
      CalleeShifts(v, v', g, TempIdx(f), h);
      StackChecks(v', labels', f.charge, g, ts);
      CheckAppend(v', labels', UnstackCode(f.charge, g), Cons(ReturnCall(0, h + SHIFT), Nil), ts);
      CheckOne(v', labels', ReturnCall(0, h + SHIFT), ts);
    case Block(_, bt, body, endAt) =>
      SigExtends(v, v', bt);
      var ft := BlockSig(v.types, bt).value;
      BodyChecks(f, v, v', g, [ft.results] + labels, [ft.results] + labels', body, endAt, ft.params, ft.results);
      CheckOne(v', labels', Block(0, bt, InstrTo(f, g, body, endAt), 0), ts);
    case Loop(_, bt, body, endAt) =>
      SigExtends(v, v', bt);
      var ft := BlockSig(v.types, bt).value;
      BodyChecks(f, v, v', g, [ft.params] + labels, [ft.params] + labels', body, endAt, ft.params, ft.results);
      CheckOne(v', labels', Loop(0, bt, InstrTo(f, g, body, endAt), 0), ts);
    case If(_, bt, body, endAt) =>
      SigExtends(v, v', bt);
      var ft := BlockSig(v.types, bt).value;
      BodyChecks(f, v, v', g, [ft.results] + labels, [ft.results] + labels', body, endAt, ft.params, ft.results);
      CheckOne(v', labels', If(0, bt, InstrTo(f, g, body, endAt), 0), ts);
    case IfElse(_, bt, body, elseAt, els, endAt) =>
      SigExtends(v, v', bt);
      var ft := BlockSig(v.types, bt).value;
      BodyChecks(f, v, v', g, [ft.results] + labels, [ft.results] + labels', body, elseAt, ft.params, ft.results);
      BodyChecks(f, v, v', g, [ft.results] + labels, [ft.results] + labels', els, endAt, ft.params, ft.results);
      CheckOne(v', labels', IfElse(0, bt, InstrTo(f, g, body, elseAt), 0, InstrTo(f, g, els, endAt), 0), ts);
  }

  lemma {:induction false} PlainChecks(v: Env, v': Env, g: nat, tmp: nat, p: PlainOp, ts: seq<ValType>)
    requires Widens(v, v', g, tmp) && !CheckPlain(v, p, ts).Bad?
    ensures CheckPlain(v', p, ts) == CheckPlain(v, p, ts)
  {
    assert forall i :: 0 <= i < |v.locals| ==> v'.locals[i] == v.locals[i];
    assert forall i :: 0 <= i < |v.globals| ==> v'.globals[i] == v.globals[i];
    match p
    case LocalGet(i) => assert i < |v.locals|;
    case LocalSet(i) => assert i < |v.locals|;
    case LocalTee(i) => assert i < |v.locals|;
    case GlobalGet(i) => assert i < |v.globals|;
    case GlobalSet(i) => assert i < |v.globals|;
    case _ =>
  }

  lemma {:induction false} CalleeShifts(v: Env, v': Env, g: nat, tmp: nat, h: nat)
    requires Widens(v, v', g, tmp) && h < |v.funcs|
    ensures h + SHIFT < |v'.funcs| && v'.funcs[h + SHIFT] == v.funcs[h]
  {
    assert v'.funcs[SHIFT..][h] == v'.funcs[h + SHIFT];
  }

  // ---- whole functions and modules ----

  /** The instrumented function validates with the original's type. */
  lemma {:induction false} FuncChecks(m: Module, m': Module, sig: Sig, f: Func, f': Func, ft: FuncType)
    requires Instrumented(m, m') && |sig.funcs| == |m.funcs| && |sig.globals| == m.nglobals
    requires FuncOk(m, sig, f, ft) && f.Defined? && InstrumentedFn(m'.types, m.nglobals, f, f')
    ensures FuncOk(m', MeteredSig(sig), f', ft)
  {
    var g, bt := m.nglobals, f'.body.head.bt;
    var v, v' := EnvOf(m, sig, f, ft), EnvOf(m', MeteredSig(sig), f', ft);
    var results := ft.results;
    var outer, inner := [results], [results] + [results];
    assert MeteredSig(sig).funcs[SHIFT..] == sig.funcs;
    assert v'.locals == v.locals + [I64T, I32T];
    assert Widens(v, v', g, TempIdx(f));
    BodyChecks(f, v, v', g, outer, inner, f.body, f.endAt, [], results);
    EntryChecks(v', inner, f, g);
    var entry, body := EntryCode(f, g), InstrTo(f, g, f.body, f.endAt);
    CheckAppend(v', inner, entry, body, []);
    WrapChecks(v', bt, Append(entry, body), f.charge, g, results);
  }

  lemma {:induction false} EntryChecks(v: Env, labels: seq<seq<ValType>>, f: Func, g: nat)
    requires f.Defined? && v.points == [] && g + 1 < |v.globals| && v.globals[g] == I64T && v.globals[g + 1] == I64T
    requires GAS_FN < |v.funcs| && v.funcs[GAS_FN] == FuncType([I64T], [])
    requires v.funcs[STACK_EXHAUSTED_FN] == FuncType([], [])
    ensures Check(v, labels, EntryCode(f, g), []) == Falls([])
  {
    StackChecks(v, labels, f.charge, g, []);
    GasChecks(v, labels, f.entryGas, g, []);
    CheckAppend(v, labels, StackCode(f.charge, g), if f.entryGas == 0 then Nil else GasCode(f.entryGas, g), []);
  }

  /** The wrapping block and the release behind it leave the results of the block's type. */
  lemma {:induction false} WrapChecks(v: Env, bt: BlockType, c: Code, k: Word64, g: nat, results: seq<ValType>)
    requires v.points == [] && g + 1 < |v.globals| && v.globals[g + 1] == I64T
    requires STACK_EXHAUSTED_FN < |v.funcs| && v.funcs[STACK_EXHAUSTED_FN] == FuncType([], [])
    requires BlockSig(v.types, bt) == Some(FuncType([], results))
    requires BodyOk(v, [results] + [results], c, 0, [], results)
    ensures BodyOk(v, [results], Cons(Block(0, bt, c, 0), UnstackCode(k, g)), 0, [], results)
  {
    var blk := Block(0, bt, c, 0);
    PopTurn([], [], results);
    NilPlus(results);
    NilPlus([]);
    assert CheckOp(v, [results], blk, []) == Falls(results);
    StackChecks(v, [results], k, g, results);
  }

  /** Whatever the pass makes of a validated module validates. */
  lemma {:induction false} InstrumentedValid(m: Module, m': Module, sig: Sig)
    requires Instrumented(m, m') && Valid(m, sig)
    ensures Valid(m', MeteredSig(sig))
  {
    var sig' := MeteredSig(sig);
    forall i | 0 <= i < |m'.funcs| ensures FuncOk(m', sig', m'.funcs[i], sig'.funcs[i]) {
      if i >= SHIFT {
        var h := i - SHIFT;
        assert sig'.funcs[i] == sig.funcs[h];
        assert FuncOk(m, sig, m.funcs[h], sig.funcs[h]);
        assert InstrumentedFn(m'.types, m.nglobals, m.funcs[h], m'.funcs[h + SHIFT]);
        if m.funcs[h].Defined? { FuncChecks(m, m', sig, m.funcs[h], m'.funcs[i], sig.funcs[h]); }
      }
    }
  }
}
