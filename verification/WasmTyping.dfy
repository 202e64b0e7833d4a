/** Validation of the structured subset (section 3.4 of the WebAssembly Core Specification 2.0), and its
    soundness: a metered run of a validated module never gets stuck. */
module WasmTyping {
  import opened Wrappers
  import opened Wasm

  function TypeOf(v: Value): ValType { if v.I32? then I32T else I64T }

  predicate HasTypes(vs: seq<Value>, ts: seq<ValType>) {
    |vs| == |ts| && forall i :: 0 <= i < |vs| ==> TypeOf(vs[i]) == ts[i]
  }

  // ---- the judgement ----

  /** What the body of one function is checked against. */
  datatype Env = Env(types: seq<FuncType>, funcs: seq<FuncType>, globals: seq<ValType>,
                     points: seq<Point>, locals: seq<ValType>, results: seq<ValType>)

  /** How code ends: with operands of these types on the stack, by a jump or trap, or not
      validated.  What stands behind a jump is never reached and not examined. */
  datatype Flow = Falls(ts: seq<ValType>) | Never | Bad

  predicate EndsWith(ts: seq<ValType>, last: seq<ValType>) {
    |last| <= |ts| && ts[|ts| - |last|..] == last
  }

  /** Operands `from` are replaced by `to`. */
  function Turn(ts: seq<ValType>, from: seq<ValType>, to: seq<ValType>): Flow {
    if EndsWith(ts, from) then Falls(ts[..|ts| - |from|] + to) else Bad
  }

  function CheckPlain(v: Env, p: PlainOp, ts: seq<ValType>): Flow {
    match p
    case Const(c) => Turn(ts, [], [TypeOf(c)])
    case LocalGet(i) => if i < |v.locals| then Turn(ts, [], [v.locals[i]]) else Bad
    case LocalSet(i) => if i < |v.locals| then Turn(ts, [v.locals[i]], []) else Bad
    case LocalTee(i) => if i < |v.locals| then Turn(ts, [v.locals[i]], [v.locals[i]]) else Bad
    case GlobalGet(i) => if i < |v.globals| then Turn(ts, [], [v.globals[i]]) else Bad
    case GlobalSet(i) => if i < |v.globals| then Turn(ts, [v.globals[i]], []) else Bad
    case Drop => if ts != [] then Falls(ts[..|ts| - 1]) else Bad
    case Binary(b) => Turn(ts, [I64T, I64T], [if b.LtU? || b.GtU? then I32T else I64T])
    case ExtendU => Turn(ts, [I32T], [I64T])
    case Unreachable => Never
    case MemoryGrow => Turn(ts, [I32T], [I32T])
    case MemoryFill => Turn(ts, [I32T, I32T, I32T], [])
  }

  /** The points at an offset all charge constants. */
  predicate Flat(ps: seq<Point>) { forall i :: 0 <= i < |ps| ==> ps[i].fee.linear == 0 }

  /** Length-dependent charges stand only before operators with a length operand. */
  predicate PointsOk(v: Env, i: Instr) {
    Flat(PointsAt(v.points, i.at)) || (i.Plain? && (i.p.MemoryGrow? || i.p.MemoryFill?))
  }

  predicate Closes(flow: Flow, ts: seq<ValType>) { flow == Never || flow == Falls(ts) }

  function Check(v: Env, labels: seq<seq<ValType>>, c: Code, ts: seq<ValType>): Flow
    decreases c, 1
  {
    match c
    case Nil => Falls(ts)
    case Cons(i, rest) =>
      match CheckOp(v, labels, i, ts)
      case Falls(ts') => Check(v, labels, rest, ts')
      case other => other
  }

  /** A body from `params` to `results`, with its closing operator at `endAt`. */
  predicate BodyOk(v: Env, labels: seq<seq<ValType>>, c: Code, endAt: nat, params: seq<ValType>, results: seq<ValType>)
    decreases c, 2
  {
    Closes(Check(v, labels, c, params), results) && Flat(PointsAt(v.points, endAt))
  }

  function CheckOp(v: Env, labels: seq<seq<ValType>>, i: Instr, ts: seq<ValType>): Flow
    decreases i, 3
  {
    if !PointsOk(v, i) then Bad
    else
      match i
      case Plain(_, p) => CheckPlain(v, p, ts)
      case Br(_, k) => if k < |labels| && EndsWith(ts, labels[k]) then Never else Bad
      case BrIf(_, k) =>
        if EndsWith(ts, [I32T]) && k < |labels| && EndsWith(ts[..|ts| - 1], labels[k])
        then Falls(ts[..|ts| - 1]) else Bad
      case Return(_) => if EndsWith(ts, v.results) then Never else Bad
      case Call(_, g) => if g < |v.funcs| then Turn(ts, v.funcs[g].params, v.funcs[g].results) else Bad
      case ReturnCall(_, g) =>
        if g < |v.funcs| && EndsWith(ts, v.funcs[g].params) && v.funcs[g].results == v.results then Never else Bad
      case Block(_, bt, body, endAt) =>
        (match BlockSig(v.types, bt)
         case None => Bad
         case Some(ft) =>
           if BodyOk(v, [ft.results] + labels, body, endAt, ft.params, ft.results)
           then Turn(ts, ft.params, ft.results) else Bad)
      case Loop(_, bt, body, endAt) =>
        (match BlockSig(v.types, bt)
         case None => Bad
         case Some(ft) =>
           if BodyOk(v, [ft.params] + labels, body, endAt, ft.params, ft.results)
           then Turn(ts, ft.params, ft.results) else Bad)
      case If(_, bt, body, endAt) =>
        (match BlockSig(v.types, bt)
         case None => Bad
         case Some(ft) =>
           if ft.params == ft.results && BodyOk(v, [ft.results] + labels, body, endAt, ft.params, ft.results)
           then Turn(ts, ft.params + [I32T], ft.results) else Bad)
      case IfElse(_, bt, body, elseAt, els, endAt) =>
        (match BlockSig(v.types, bt)
         case None => Bad
         case Some(ft) =>
           if BodyOk(v, [ft.results] + labels, body, elseAt, ft.params, ft.results)
              && BodyOk(v, [ft.results] + labels, els, endAt, ft.params, ft.results)
           then Turn(ts, ft.params + [I32T], ft.results) else Bad)
  }

  /** Function types and global types of a module. */
  datatype Sig = Sig(funcs: seq<FuncType>, globals: seq<ValType>)

  function EnvOf(m: Module, sig: Sig, f: Func, ft: FuncType): Env
    requires f.Defined?
  {
    Env(m.types, sig.funcs, sig.globals, f.points, ft.params + f.locals, ft.results)
  }

  /** Imported functions return results of their types. */
  ghost predicate HostOk(m: Module, id: nat, ft: FuncType) {
    forall args, mem :: HasTypes(args, ft.params) && m.host(id, args, mem).HostRet?
      ==> HasTypes(m.host(id, args, mem).values, ft.results)
  }

  ghost predicate FuncOk(m: Module, sig: Sig, f: Func, ft: FuncType) {
    && |ft.params| == f.nparams
    && match f
       case Host(id, _, nresults) => |ft.results| == nresults && HostOk(m, id, ft)
       case Hook(_, _) => ft.results == []
       case Defined(_, results, _, body, endAt, _, _, _) =>
         ft.results == results && BodyOk(EnvOf(m, sig, f, ft), [ft.results], body, endAt, [], ft.results)
  }

  /** The module validates with these types. */
  ghost predicate Valid(m: Module, sig: Sig) {
    && |sig.funcs| == |m.funcs| && |sig.globals| == m.nglobals
    && forall i :: 0 <= i < |m.funcs| ==> FuncOk(m, sig, m.funcs[i], sig.funcs[i])
  }

  // ---- typed states ----

  predicate StateOk(v: Env, ts: seq<ValType>, st: State) {
    HasTypes(st.stack, ts) && HasTypes(st.locals, v.locals) && HasTypes(st.store.globals, v.globals)
  }

  /** The top of the stack has these types. */
  predicate TopsOk(v: Env, ts: seq<ValType>, st: State) {
    && |ts| <= |st.stack| && HasTypes(Tops(st.stack, |ts|), ts)
    && HasTypes(st.locals, v.locals) && HasTypes(st.store.globals, v.globals)
  }

  predicate ResOk(v: Env, labels: seq<seq<ValType>>, flow: Flow, r: Res) {
    match r
    case Next(st) => flow.Falls? && StateOk(v, flow.ts, st)
    case Branch(k, st) => k < |labels| && TopsOk(v, labels[k], st)
    case Ret(st) => TopsOk(v, v.results, st)
    case Trap(_) => true
    case Stuck => false
    case Timeout => true
  }

  lemma {:induction false} Split(vs: seq<Value>, ts: seq<ValType>, last: seq<ValType>)
    requires HasTypes(vs, ts) && EndsWith(ts, last)
    ensures HasTypes(Pop(vs, |last|), ts[..|ts| - |last|]) && HasTypes(Tops(vs, |last|), last)
  {}

  lemma {:induction false} Join(a: seq<Value>, s: seq<ValType>, b: seq<Value>, t: seq<ValType>)
    requires HasTypes(a, s) && HasTypes(b, t)
    ensures HasTypes(a + b, s + t)
  {}

  lemma {:induction false} PlainTyped(m: Module, v: Env, p: PlainOp, ts: seq<ValType>, st: State)
    requires StateOk(v, ts, st) && !CheckPlain(v, p, ts).Bad?
    ensures var r := PlainStep(m, p, st);
            r.Trap? || (r.Next? && CheckPlain(v, p, ts).Falls? && StateOk(v, CheckPlain(v, p, ts).ts, r.st))
  {
    match p
    case LocalGet(_) => VariableTyped(m, v, p, ts, st);
    case LocalSet(_) => VariableTyped(m, v, p, ts, st);
    case LocalTee(_) => VariableTyped(m, v, p, ts, st);
    case GlobalGet(_) => VariableTyped(m, v, p, ts, st);
    case GlobalSet(_) => VariableTyped(m, v, p, ts, st);
    case _ => OperatorTyped(m, v, p, ts, st);
  }

  predicate Variable(p: PlainOp) { p.LocalGet? || p.LocalSet? || p.LocalTee? || p.GlobalGet? || p.GlobalSet? }

  lemma {:induction false} VariableTyped(m: Module, v: Env, p: PlainOp, ts: seq<ValType>, st: State)
    requires StateOk(v, ts, st) && CheckPlain(v, p, ts).Falls? && Variable(p)
    ensures var r := PlainStep(m, p, st); r.Next? && StateOk(v, CheckPlain(v, p, ts).ts, r.st)
  {
    match p
    case LocalGet(i) => PushTyped(st.stack, ts, st.locals[i], v.locals[i]);
    case LocalSet(_) => LocalTyped(m, v, p, ts, st);
    case LocalTee(_) => LocalTyped(m, v, p, ts, st);
    case GlobalGet(i) => PushTyped(st.stack, ts, st.store.globals[i], v.globals[i]);
    case GlobalSet(_) => GlobalTyped(m, v, p, ts, st);
  }

  lemma {:induction false} LocalTyped(m: Module, v: Env, p: PlainOp, ts: seq<ValType>, st: State)
    requires StateOk(v, ts, st) && CheckPlain(v, p, ts).Falls? && (p.LocalSet? || p.LocalTee?)
    ensures var r := PlainStep(m, p, st); r.Next? && StateOk(v, CheckPlain(v, p, ts).ts, r.st)
  {
    OneOperand(st.stack, ts, v.locals[p.i]);
    SetTyped(st.locals, v.locals, p.i, Top(st.stack));
  }

  lemma {:induction false} GlobalTyped(m: Module, v: Env, p: PlainOp, ts: seq<ValType>, st: State)
    requires StateOk(v, ts, st) && CheckPlain(v, p, ts).Falls? && p.GlobalSet?
    ensures var r := PlainStep(m, p, st); r.Next? && StateOk(v, CheckPlain(v, p, ts).ts, r.st)
  {
    OneOperand(st.stack, ts, v.globals[p.i]);
    SetTyped(st.store.globals, v.globals, p.i, Top(st.stack));
  }

  lemma {:induction false} OperatorTyped(m: Module, v: Env, p: PlainOp, ts: seq<ValType>, st: State)
    requires StateOk(v, ts, st) && !CheckPlain(v, p, ts).Bad? && !Variable(p)
    ensures var r := PlainStep(m, p, st);
            r.Trap? || (r.Next? && CheckPlain(v, p, ts).Falls? && StateOk(v, CheckPlain(v, p, ts).ts, r.st))
  {
    var s, n := st.stack, |ts| - 1;
    match p
    case Const(c) => PushTyped(s, ts, c, TypeOf(c));
    case Drop => Drop1(s, ts);
    case Binary(b) =>
      TwoOperands(s, ts, I64T, I64T);
      PushTyped(Pop(s, 2), ts[..n - 1], BinVal(b, s[n - 1].v, s[n].v), if b.LtU? || b.GtU? then I32T else I64T);
    case ExtendU =>
      OneOperand(s, ts, I32T);
      PushTyped(Pop(s, 1), ts[..n], I64(s[n].w), I64T);
    case MemoryGrow => MemoryTyped(m, v, p, ts, st);
    case MemoryFill => MemoryTyped(m, v, p, ts, st);
    case Unreachable =>
  }

  lemma {:induction false} MemoryTyped(m: Module, v: Env, p: PlainOp, ts: seq<ValType>, st: State)
    requires StateOk(v, ts, st) && !CheckPlain(v, p, ts).Bad? && (p.MemoryGrow? || p.MemoryFill?)
    ensures var r := PlainStep(m, p, st);
            r.Trap? || (r.Next? && CheckPlain(v, p, ts).Falls? && StateOk(v, CheckPlain(v, p, ts).ts, r.st))
  {
    var s, n := st.stack, |ts| - 1;
    if p.MemoryGrow? {
      OneOperand(s, ts, I32T);
      PushTyped(Pop(s, 1), ts[..n], Top(PlainStep(m, p, st).st.stack), I32T);
    } else {
      ThreeOperands(s, ts);
    }
  }

  lemma {:induction false} PushTyped(s: seq<Value>, ts: seq<ValType>, x: Value, t: ValType)
    requires HasTypes(s, ts) && TypeOf(x) == t
    ensures HasTypes(s + [x], ts + [t]) && HasTypes(s + [x], ts[..|ts|] + [t])
  {
    assert ts[..|ts|] == ts;
  }

  lemma {:induction false} SetTyped(s: seq<Value>, ts: seq<ValType>, i: nat, x: Value)
    requires HasTypes(s, ts) && i < |s| && TypeOf(x) == ts[i]
    ensures HasTypes(s[i := x], ts)
  {}

  lemma {:induction false} Drop1(s: seq<Value>, ts: seq<ValType>)
    requires HasTypes(s, ts) && ts != []
    ensures HasTypes(Pop(s, 1), ts[..|ts| - 1])
  {}

  lemma {:induction false} OneOperand(s: seq<Value>, ts: seq<ValType>, t: ValType)
    requires HasTypes(s, ts) && EndsWith(ts, [t])
    ensures |s| > 0 && TypeOf(Top(s)) == t && HasTypes(Pop(s, 1), ts[..|ts| - 1])
    ensures ts[..|ts| - 1] + [t] == ts && ts[..|ts| - 1] + [] == ts[..|ts| - 1]
  {
    assert ts[|ts| - 1] == ts[|ts| - 1..][0];
    Drop1(s, ts);
  }

  lemma {:induction false} TwoOperands(s: seq<Value>, ts: seq<ValType>, t: ValType, u: ValType)
    requires HasTypes(s, ts) && EndsWith(ts, [t, u])
    ensures |s| > 1 && TypeOf(s[|s| - 2]) == t && TypeOf(Top(s)) == u && HasTypes(Pop(s, 2), ts[..|ts| - 2])
  {
    assert ts[|ts| - 2] == ts[|ts| - 2..][0] && ts[|ts| - 1] == ts[|ts| - 2..][1];
  }

  /** `memory.fill` takes an address, a byte and a length. */
  lemma {:induction false} ThreeOperands(s: seq<Value>, ts: seq<ValType>)
    requires HasTypes(s, ts) && EndsWith(ts, [I32T, I32T, I32T])
    ensures |s| > 2 && s[|s| - 3].I32? && s[|s| - 2].I32? && Top(s).I32?
    ensures HasTypes(Pop(s, 3), ts[..|ts| - 3]) && ts[..|ts| - 3] + [] == ts[..|ts| - 3]
  {
    assert ts[|ts| - 3] == ts[|ts| - 3..][0] && ts[|ts| - 2] == ts[|ts| - 3..][1] && ts[|ts| - 1] == ts[|ts| - 3..][2];
  }

  lemma {:induction false} PayTyped(ps: seq<Point>, stack: seq<Value>)
    requires Flat(ps) || (|stack| > 0 && Top(stack).I32?)
    ensures PayAll(ps, stack).Some?
  {
    if ps != [] { PayTyped(ps[1..], stack); }
  }

  // ---- soundness ----

  /** The charges before a validated operator can be priced. */
  lemma {:induction false} ChargeTyped(m: Module, v: Env, labels: seq<seq<ValType>>, f: Func, i: Instr,
                                       ts: seq<ValType>, st: State)
    requires f.Defined? && v.points == f.points && StateOk(v, ts, st) && !CheckOp(v, labels, i, ts).Bad?
    ensures Pay(m, f, i.at, st.stack).Some?
  {
    var ps := PointsAt(f.points, i.at);
    if !Flat(ps) {
      var n := |ts| - 1;
      assert EndsWith(ts, if i.p.MemoryGrow? then [I32T] else [I32T, I32T, I32T]);
      assert ts[n] == I32T by {
        if i.p.MemoryFill? { assert ts[n] == ts[|ts| - 3..][2]; } else { assert ts[n] == ts[|ts| - 1..][0]; }
      }
      assert TypeOf(st.stack[n]) == ts[n];
    }
    PayTyped(ps, st.stack);
  }

  lemma {:induction false} CodeTyped(m: Module, sig: Sig, f: Func, ft: FuncType, labels: seq<seq<ValType>>, n: nat,
                                     c: Code, ts: seq<ValType>, st: State)
    requires Valid(m, sig) && f.Defined? && StateOk(EnvOf(m, sig, f, ft), ts, st)
    requires !Check(EnvOf(m, sig, f, ft), labels, c, ts).Bad?
    ensures ResOk(EnvOf(m, sig, f, ft), labels, Check(EnvOf(m, sig, f, ft), labels, c, ts), Eval(m, f, n, c, st).r)
    decreases n, 1, c, 2
  {
    var v := EnvOf(m, sig, f, ft);
    if c.Nil? { return; }
    var i := c.head;
    ChargeTyped(m, v, labels, f, i, ts, st);
    OpTyped(m, sig, f, ft, labels, n, i, ts, st);
    var o := Exec(m, f, n, i, st);
    if o.r.Next? { CodeTyped(m, sig, f, ft, labels, n, c.tail, CheckOp(v, labels, i, ts).ts, o.r.st); }
  }

  lemma {:induction false} BodyTyped(m: Module, sig: Sig, f: Func, ft: FuncType, labels: seq<seq<ValType>>, n: nat,
                                     c: Code, endAt: nat, params: seq<ValType>, results: seq<ValType>, st: State)
    requires Valid(m, sig) && f.Defined? && StateOk(EnvOf(m, sig, f, ft), params, st)
    requires BodyOk(EnvOf(m, sig, f, ft), labels, c, endAt, params, results)
    ensures ResOk(EnvOf(m, sig, f, ft), labels, Falls(results), EvalTo(m, f, n, c, endAt, st).r)
    decreases n, 1, c, 3
  {
    CodeTyped(m, sig, f, ft, labels, n, c, params, st);
    var o := Eval(m, f, n, c, st);
    if o.r.Next? { PayTyped(PointsAt(f.points, endAt), o.r.st.stack); }
  }

  /** A block puts its results back onto what was below its parameters. */
  lemma {:induction false} LeaveTyped(v: Env, labels: seq<seq<ValType>>, top: seq<ValType>, results: seq<ValType>,
                                      below: seq<Value>, ts: seq<ValType>, r: Res)
    requires ResOk(v, [top] + labels, Falls(results), r) && HasTypes(below, ts)
    requires top == results || !(r.Branch? && r.k == 0)
    ensures ResOk(v, labels, Falls(ts + results), LeaveBlock(below, |results|, r))
  {}

  lemma {:induction false} OpTyped(m: Module, sig: Sig, f: Func, ft: FuncType, labels: seq<seq<ValType>>, n: nat,
                                   i: Instr, ts: seq<ValType>, st: State)
    requires Valid(m, sig) && f.Defined? && StateOk(EnvOf(m, sig, f, ft), ts, st)
    requires !CheckOp(EnvOf(m, sig, f, ft), labels, i, ts).Bad?
    ensures ResOk(EnvOf(m, sig, f, ft), labels, CheckOp(EnvOf(m, sig, f, ft), labels, i, ts), Exec(m, f, n, i, st).r)
    decreases n, 1, i, 4
  {
    var v := EnvOf(m, sig, f, ft);
    match i
    case Plain(_, p) => PlainTyped(m, v, p, ts, st);
    case Br(_, k) => Split(st.stack, ts, labels[k]);
    case BrIf(_, k) => BrIfTyped(m, v, labels, f, n, i, ts, st);
    case Return(_) => Split(st.stack, ts, v.results);
    case Call(_, g) => CallTyped(m, sig, n, g, ts, st);
    case ReturnCall(_, g) =>
      CallTyped(m, sig, n, g, ts, st);
      TailTyped(sig.funcs[g].results, ts[..|ts| - |sig.funcs[g].params|], CallFn(m, n, g, st).r);
    case Block(_, bt, body, endAt) =>
      var b := BlockSig(v.types, bt).value;
      Split(st.stack, ts, b.params);
      var a := st.(stack := Tops(st.stack, |b.params|));
      BodyTyped(m, sig, f, ft, [b.results] + labels, n, body, endAt, b.params, b.results, a);
      LeaveTyped(v, labels, b.results, b.results, Pop(st.stack, |b.params|), ts[..|ts| - |b.params|],
                 EvalTo(m, f, n, body, endAt, a).r);
    case Loop(_, _, _, _) => LoopTyped(m, sig, f, ft, labels, n, i, ts, st);
    case If(_, _, _, _) => IfTyped(m, sig, f, ft, labels, n, i, ts, st);
    case IfElse(_, _, _, _, _, _) => IfTyped(m, sig, f, ft, labels, n, i, ts, st);
  }

  lemma {:induction false} BrIfTyped(m: Module, v: Env, labels: seq<seq<ValType>>, f: Func, n: nat, i: Instr,
                                     ts: seq<ValType>, st: State)
    requires f.Defined? && i.BrIf? && StateOk(v, ts, st) && !CheckOp(v, labels, i, ts).Bad?
    ensures ResOk(v, labels, CheckOp(v, labels, i, ts), Exec(m, f, n, i, st).r)
  {
    Split(st.stack, ts, [I32T]);
    assert TypeOf(Tops(st.stack, 1)[0]) == I32T && Tops(st.stack, 1)[0] == Top(st.stack);
    Split(Pop(st.stack, 1), ts[..|ts| - 1], labels[i.k]);
  }

  lemma {:induction false} TailTyped(results: seq<ValType>, ts: seq<ValType>, r: Res)
    requires r.Next? ==> HasTypes(r.st.stack, ts + results)
    ensures r.Next? ==> |results| <= |r.st.stack| && HasTypes(Tops(r.st.stack, |results|), results)
  {}

  /** One iteration of a loop, and what follows it. */
  lemma {:induction false} LoopRuns(m: Module, f: Func, n: nat, i: Instr, st: State, b: FuncType)
    requires f.Defined? && i.Loop? && BlockSig(m.types, i.bt) == Some(b) && |b.params| <= |st.stack|
    ensures var np := |b.params|;
            var r := EvalTo(m, f, n, i.body, i.endAt, st.(stack := Tops(st.stack, np))).r;
            Exec(m, f, n, i, st).r ==
            if r.Branch? && r.k == 0 then
              if np > |r.st.stack| then Stuck else if n == 0 then Timeout
              else Exec(m, f, n - 1, i, r.st.(stack := Pop(st.stack, np) + Tops(r.st.stack, np))).r
            else LeaveBlock(Pop(st.stack, np), |b.results|, r)
  {
    assert Arity(m.types, i.bt) == Some((|b.params|, |b.results|));
  }

  lemma {:induction false} Whole(ts: seq<ValType>, last: seq<ValType>)
    requires EndsWith(ts, last)
    ensures ts[..|ts| - |last|] + last == ts
  {}

  lemma {:induction false} LoopTyped(m: Module, sig: Sig, f: Func, ft: FuncType, labels: seq<seq<ValType>>, n: nat,
                                     i: Instr, ts: seq<ValType>, st: State)
    requires Valid(m, sig) && f.Defined? && i.Loop? && StateOk(EnvOf(m, sig, f, ft), ts, st)
    requires !CheckOp(EnvOf(m, sig, f, ft), labels, i, ts).Bad?
    ensures ResOk(EnvOf(m, sig, f, ft), labels, CheckOp(EnvOf(m, sig, f, ft), labels, i, ts), Exec(m, f, n, i, st).r)
    decreases n, 1, i, 3
  {
    var v := EnvOf(m, sig, f, ft);
    var b := BlockSig(v.types, i.bt).value;
    Split(st.stack, ts, b.params);
    var below, a := Pop(st.stack, |b.params|), st.(stack := Tops(st.stack, |b.params|));
    var base := ts[..|ts| - |b.params|];
    BodyTyped(m, sig, f, ft, [b.params] + labels, n, i.body, i.endAt, b.params, b.results, a);
    var r := EvalTo(m, f, n, i.body, i.endAt, a).r;
    LoopRuns(m, f, n, i, st, b);
    assert CheckOp(v, labels, i, ts) == Falls(base + b.results);
    if r.Branch? && r.k == 0 {
      if n > 0 {
        var top := Tops(r.st.stack, |b.params|);
        Join(below, base, top, b.params);
        Whole(ts, b.params);
        LoopTyped(m, sig, f, ft, labels, n - 1, i, ts, r.st.(stack := below + top));
      }
    } else {
      LeaveTyped(v, labels, b.params, b.results, below, base, r);
    }
  }

  /** The outcome of the taken arm of an `if`. */
  function Arm(m: Module, f: Func, n: nat, i: Instr, taken: bool, a: State): Res
    requires f.Defined? && (i.If? || i.IfElse?)
  {
    if taken then EvalTo(m, f, n, i.body, if i.If? then i.endAt else i.elseAt, a).r
    else if i.IfElse? then EvalTo(m, f, n, i.els, i.endAt, a).r
    else Next(a)
  }

  lemma {:induction false} IfRuns(m: Module, f: Func, n: nat, i: Instr, st: State, b: FuncType)
    requires f.Defined? && (i.If? || i.IfElse?) && BlockSig(m.types, i.bt) == Some(b)
    requires |b.params| < |st.stack| && Top(st.stack).I32?
    ensures var s := Pop(st.stack, 1);
            Exec(m, f, n, i, st).r
            == LeaveBlock(Pop(s, |b.params|), |b.results|,
                          Arm(m, f, n, i, Top(st.stack).w != 0, st.(stack := Tops(s, |b.params|))))
  {
    assert Arity(m.types, i.bt) == Some((|b.params|, |b.results|));
  }

  lemma {:induction false} IfTyped(m: Module, sig: Sig, f: Func, ft: FuncType, labels: seq<seq<ValType>>, n: nat,
                                   i: Instr, ts: seq<ValType>, st: State)
    requires Valid(m, sig) && f.Defined? && (i.If? || i.IfElse?) && StateOk(EnvOf(m, sig, f, ft), ts, st)
    requires !CheckOp(EnvOf(m, sig, f, ft), labels, i, ts).Bad?
    ensures ResOk(EnvOf(m, sig, f, ft), labels, CheckOp(EnvOf(m, sig, f, ft), labels, i, ts), Exec(m, f, n, i, st).r)
    decreases n, 1, i, 3
  {
    var v := EnvOf(m, sig, f, ft);
    var b := BlockSig(v.types, i.bt).value;
    var s, below, base := Condition(st.stack, ts, b.params);
    var a, taken := st.(stack := Tops(s, |b.params|)), Top(st.stack).w != 0;
    IfRuns(m, f, n, i, st, b);
    assert CheckOp(v, labels, i, ts) == Falls(base + b.results);
    if taken {
      BodyTyped(m, sig, f, ft, [b.results] + labels, n, i.body,
                if i.If? then i.endAt else i.elseAt, b.params, b.results, a);
    } else if i.IfElse? {
      BodyTyped(m, sig, f, ft, [b.results] + labels, n, i.els, i.endAt, b.params, b.results, a);
    }
    LeaveTyped(v, labels, b.results, b.results, below, base, Arm(m, f, n, i, taken, a));
  }

  /** The condition on top of a block's parameters. */
  lemma {:induction false} Condition(stack: seq<Value>, ts: seq<ValType>, params: seq<ValType>)
      returns (s: seq<Value>, below: seq<Value>, base: seq<ValType>)
    requires HasTypes(stack, ts) && EndsWith(ts, params + [I32T])
    ensures |params| < |stack| && Top(stack).I32? && s == Pop(stack, 1)
    ensures below == Pop(s, |params|) && base == ts[..|ts| - |params| - 1] && HasTypes(below, base)
    ensures HasTypes(Tops(s, |params|), params)
  {
    var k := |ts| - |params| - 1;
    assert ts[k..][|params|] == I32T;
    assert TypeOf(stack[|ts| - 1]) == ts[|ts| - 1];
    s := Pop(stack, 1);
    assert ts[..|ts| - 1][k..] == params by { assert ts[k..][..|params|] == params; }
    Split(s, ts[..|ts| - 1], params);
    below, base := Pop(s, |params|), ts[..k];
    assert ts[..|ts| - 1][..k] == ts[..k];
  }

  /** A call replaces arguments by results and leaves everything else as typed. */
  lemma {:induction false} CallTyped(m: Module, sig: Sig, n: nat, g: nat, ts: seq<ValType>, st: State)
    requires Valid(m, sig) && g < |m.funcs| && HasTypes(st.stack, ts) && HasTypes(st.store.globals, sig.globals)
    requires EndsWith(ts, sig.funcs[g].params)
    ensures var r := CallFn(m, n, g, st).r; var ft := sig.funcs[g];
            r.Trap? || r.Timeout?
            || (r.Next? && HasTypes(r.st.stack, ts[..|ts| - |ft.params|] + ft.results) && r.st.locals == st.locals
                && HasTypes(r.st.store.globals, sig.globals))
    decreases n, 0
  {
    var fn, ft := m.funcs[g], sig.funcs[g];
    assert FuncOk(m, sig, fn, ft);
    Split(st.stack, ts, ft.params);
    var args, below, base := Tops(st.stack, fn.nparams), Pop(st.stack, fn.nparams), ts[..|ts| - |ft.params|];
    match fn
    case Hook(_, _) => Join(below, base, [], []);
    case Host(id, _, _) =>
      var h := m.host(id, args, st.store.mem);
      if h.HostRet? { Join(below, base, h.values, ft.results); }
    case Defined(_, _, _, _, _, _, _, _) =>
      if n > 0 {
        FnTyped(m, sig, n - 1, fn, ft, args, st.store);
        var o := RunFn(m, n - 1, fn, args, st.store);
        if o.r.Next? { Join(below, base, o.r.st.stack, ft.results); }
      }
  }

  /** A validated function on arguments of its types returns results of its types, traps or
      runs out of fuel. */
  lemma {:induction false} FnTyped(m: Module, sig: Sig, n: nat, fn: Func, ft: FuncType, args: seq<Value>, store: Store)
    requires Valid(m, sig) && fn.Defined? && FuncOk(m, sig, fn, ft)
    requires HasTypes(args, ft.params) && HasTypes(store.globals, sig.globals)
    ensures var r := RunFn(m, n, fn, args, store).r;
            r.Trap? || r.Timeout?
            || (r.Next? && HasTypes(r.st.stack, ft.results) && HasTypes(r.st.store.globals, sig.globals))
    decreases n, 2
  {
    var st := State([], args + Zeros(fn.locals), store);
    assert HasTypes(Zeros(fn.locals), fn.locals);
    Join(args, ft.params, Zeros(fn.locals), fn.locals);
    BodyTyped(m, sig, fn, ft, [ft.results], n, fn.body, fn.endAt, [], ft.results, st);
  }
}
