/** The structured WebAssembly subset that the gas and stack pass works on, with a
    fuel-indexed interpreter.  Fuel is spent only on loop back-edges and on calls of
    defined functions, so the same fuel drives a program and its instrumented form.
    The interpreter also logs, when the module is metered, the charges that the
    analysis tables attach to the operators it passes. */
module Wasm {
  import opened Wrappers

  const TWO32: nat := 0x1_0000_0000
  const TWO64: nat := 0x1_0000_0000_0000_0000

  type Word32 = x: nat | x < TWO32
  type Word64 = x: nat | x < TWO64

  datatype ValType = I32T | I64T
  datatype Value = I32(w: Word32) | I64(v: Word64)
  datatype FuncType = FuncType(params: seq<ValType>, results: seq<ValType>)
  datatype BlockType = Empty | Result(t: ValType) | TypeIdx(i: nat)

  datatype BinOp = Add | Sub | Mul | LtU | GtU

  /** Operators without control flow. */
  datatype PlainOp =
    | Const(c: Value)
    | LocalGet(i: nat) | LocalSet(i: nat) | LocalTee(i: nat)
    | GlobalGet(i: nat) | GlobalSet(i: nat)
    | Drop | Binary(b: BinOp) | ExtendU | Unreachable
    | MemoryGrow | MemoryFill

  /** One operator, tagged with its byte offset; a structured operator also holds the
      offsets of its `else` and `end`. */
  datatype Instr =
    | Plain(at: nat, p: PlainOp)
    | Br(at: nat, k: nat)
    | BrIf(at: nat, k: nat)
    | Return(at: nat)
    | Call(at: nat, f: nat)
    | ReturnCall(at: nat, f: nat)
    | Block(at: nat, bt: BlockType, body: Code, endAt: nat)
    | Loop(at: nat, bt: BlockType, body: Code, endAt: nat)
    | If(at: nat, bt: BlockType, body: Code, endAt: nat)
    | IfElse(at: nat, bt: BlockType, body: Code, elseAt: nat, els: Code, endAt: nat)

  datatype Code = Nil | Cons(head: Instr, tail: Code)

  function Append(a: Code, b: Code): Code {
    match a
    case Nil => b
    case Cons(i, rest) => Cons(i, Append(rest, b))
  }

  // ---- analysis tables ----

  datatype Fee = Fee(constant: Word64, linear: Word64)

  datatype Kind =
    | Pure | ControlFlow | Dead
    | TableInit | TableFill | TableCopy | TableGrow
    | MemInit | MemFill | MemCopy | MemGrow

  predicate Aggregate(k: Kind) {
    k in {TableInit, TableFill, TableCopy, TableGrow, MemInit, MemFill, MemCopy, MemGrow}
  }

  /** A charge point: `Dead` marks an unreachable operator, which is not charged. */
  datatype Point = Point(at: nat, fee: Fee, kind: Kind)

  /** The points charged before the operator at offset `at`, in table order. */
  function PointsAt(points: seq<Point>, at: nat): seq<Point> {
    if points == [] then []
    else (if points[0].at == at && points[0].kind != Dead then [points[0]] else []) + PointsAt(points[1..], at)
  }

  // ---- modules ----

  datatype HostResult = HostRet(values: seq<Value>, mem: seq<nat>) | HostTrap

  /** `Host` is an imported function with an arbitrary meaning on arguments and memory.
      `Hook` is an exhaustion hook of the embedder: it returns nothing, or aborts. */
  datatype Func =
    | Host(id: nat, nparams: nat, nresults: nat)
    | Hook(nparams: nat, aborts: bool)
    | Defined(nparams: nat, results: seq<ValType>, locals: seq<ValType>, body: Code, endAt: nat,
              points: seq<Point>, charge: Word64, entryGas: Word64)

  datatype Module = Module(
    types: seq<FuncType>, funcs: seq<Func>, nglobals: nat, maxMem: nat, metered: bool,
    host: (nat, seq<Value>, seq<nat>) -> HostResult)

  // ---- run-time states ----

  datatype Store = Store(globals: seq<Value>, mem: seq<nat>)

  /** The top of the operand stack is the last element. */
  datatype State = State(stack: seq<Value>, locals: seq<Value>, store: Store)

  /** `Stuck` is a state that validation excludes; `Timeout` is exhausted fuel. */
  datatype Res =
    | Next(st: State)
    | Branch(k: nat, st: State)
    | Ret(st: State)
    | Trap(store: Store)
    | Stuck
    | Timeout

  datatype Event = Gas(n: nat) | Enter(n: nat) | Exit(n: nat)

  datatype Outcome = Out(r: Res, tr: seq<Event>)

  function Top(s: seq<Value>): Value requires |s| > 0 { s[|s| - 1] }

  function Pop(s: seq<Value>, n: nat): seq<Value> requires n <= |s| { s[..|s| - n] }

  function Tops(s: seq<Value>, n: nat): seq<Value> requires n <= |s| { s[|s| - n..] }

  function Zero(t: ValType): Value { if t == I32T then I32(0) else I64(0) }

  function Zeros(ts: seq<ValType>): (r: seq<Value>)
    ensures |r| == |ts|
  {
    seq(|ts|, i requires 0 <= i < |ts| => Zero(ts[i]))
  }

  /** The type of a block type; None for a bad type index. */
  function BlockSig(types: seq<FuncType>, bt: BlockType): Option<FuncType> {
    match bt
    case Empty => Some(FuncType([], []))
    case Result(t) => Some(FuncType([], [t]))
    case TypeIdx(i) => if i < |types| then Some(types[i]) else None
  }

  /** Its parameter and result counts, which is all that a run depends on. */
  function Arity(types: seq<FuncType>, bt: BlockType): Option<(nat, nat)> {
    match BlockSig(types, bt)
    case Some(ft) => Some((|ft.params|, |ft.results|))
    case None => None
  }

  // ---- plain operators ----

  function Bool(b: bool): Value { I32(if b then 1 else 0) }

  function BinVal(b: BinOp, x: nat, y: nat): Value {
    match b
    case Add => I64((x + y) % TWO64)
    case Sub => I64((x - y) % TWO64)
    case Mul => I64((x * y) % TWO64)
    case LtU => Bool(x < y)
    case GtU => Bool(x > y)
  }

  function Push(st: State, v: Value): State { st.(stack := st.stack + [v]) }

  function PlainStep(m: Module, p: PlainOp, st: State): Res {
    var s := st.stack;
    match p
    case Const(c) => Next(Push(st, c))
    case LocalGet(i) => if i < |st.locals| then Next(Push(st, st.locals[i])) else Stuck
    case LocalSet(i) =>
      if i < |st.locals| && |s| > 0 then Next(st.(stack := Pop(s, 1), locals := st.locals[i := Top(s)])) else Stuck
    case LocalTee(i) =>
      if i < |st.locals| && |s| > 0 then Next(st.(locals := st.locals[i := Top(s)])) else Stuck
    case GlobalGet(i) =>
      if i < |st.store.globals| then Next(Push(st, st.store.globals[i])) else Stuck
    case GlobalSet(i) =>
      if i < |st.store.globals| && |s| > 0
      then Next(st.(stack := Pop(s, 1), store := st.store.(globals := st.store.globals[i := Top(s)])))
      else Stuck
    case Drop => if |s| > 0 then Next(st.(stack := Pop(s, 1))) else Stuck
    case Binary(b) =>
      if |s| > 1 && s[|s| - 2].I64? && Top(s).I64?
      then Next(Push(st.(stack := Pop(s, 2)), BinVal(b, s[|s| - 2].v, Top(s).v))) else Stuck
    case ExtendU =>
      if |s| > 0 && Top(s).I32? then Next(Push(st.(stack := Pop(s, 1)), I64(Top(s).w))) else Stuck
    case Unreachable => Trap(st.store)
    case MemoryGrow =>
      if |s| > 0 && Top(s).I32?
      then
        var size := |st.store.mem| + Top(s).w * 65536;
        if size <= m.maxMem
        then Next(Push(st.(stack := Pop(s, 1),
                           store := st.store.(mem := st.store.mem + seq(Top(s).w * 65536, _ => 0))),
                       I32((|st.store.mem| / 65536) % TWO32)))
        else Next(Push(st.(stack := Pop(s, 1)), I32(0xFFFF_FFFF)))
      else Stuck
    case MemoryFill =>
      if |s| > 2 && s[|s| - 3].I32? && s[|s| - 2].I32? && Top(s).I32?
      then
        var d, b, n := s[|s| - 3].w, s[|s| - 2].w % 256, Top(s).w;
        if d + n <= |st.store.mem|
        then Next(st.(stack := Pop(s, 3),
                      store := st.store.(mem := st.store.mem[..d] + seq(n, _ => b) + st.store.mem[d + n..])))
        else Trap(st.store)
      else Stuck
  }

  // ---- charges ----

  /** The fee of a point at a given operand stack: the length operand of an aggregate
      operator is on top, and the sum is taken in 64-bit arithmetic. */
  function FeeOf(fee: Fee, stack: seq<Value>): Option<nat> {
    if fee.linear == 0 then Some(fee.constant)
    else if |stack| > 0 && Top(stack).I32? then Some((Top(stack).w * fee.linear + fee.constant) % TWO64)
    else None
  }

  function PayAll(ps: seq<Point>, stack: seq<Value>): Option<seq<Event>> {
    if ps == [] then Some([])
    else
      match (FeeOf(ps[0].fee, stack), PayAll(ps[1..], stack))
      case (Some(n), Some(rest)) => Some((if ps[0].fee == Fee(0, 0) then [] else [Gas(n)]) + rest)
      case _ => None
  }

  function Pay(m: Module, f: Func, at: nat, stack: seq<Value>): Option<seq<Event>>
    requires f.Defined?
  {
    if m.metered then PayAll(PointsAt(f.points, at), stack) else Some([])
  }

  function EntryEvents(m: Module, f: Func): seq<Event>
    requires f.Defined?
  {
    if m.metered then [Enter(f.charge)] + (if f.entryGas == 0 then [] else [Gas(f.entryGas)]) else []
  }

  function ExitEvents(m: Module, f: Func): seq<Event>
    requires f.Defined?
  {
    if m.metered then [Exit(f.charge)] else []
  }

  // ---- the interpreter ----

  /** What the end of a block with `nres` results makes of the body's outcome. */
  function LeaveBlock(below: seq<Value>, nres: nat, r: Res): Res {
    match r
    case Next(s) => if |s.stack| == nres then Next(s.(stack := below + s.stack)) else Stuck
    case Branch(k, s) =>
      if k > 0 then Branch(k - 1, s)
      else if nres <= |s.stack| then Next(s.(stack := below + Tops(s.stack, nres)))
      else Stuck
    case _ => r
  }

  function Eval(m: Module, f: Func, n: nat, c: Code, st: State): Outcome
    requires f.Defined?
    decreases n, 1, c, 2
  {
    match c
    case Nil => Out(Next(st), [])
    case Cons(i, rest) =>
      match Pay(m, f, i.at, st.stack)
      case None => Out(Stuck, [])
      case Some(tr) =>
        var o := Exec(m, f, n, i, st);
        if o.r.Next?
        then var o2 := Eval(m, f, n, rest, o.r.st); Out(o2.r, tr + o.tr + o2.tr)
        else Out(o.r, tr + o.tr)
  }

  /** A body, then the charges that stand before its closing `end` (or `else`). */
  function EvalTo(m: Module, f: Func, n: nat, c: Code, endAt: nat, st: State): Outcome
    requires f.Defined?
    decreases n, 1, c, 3
  {
    var o := Eval(m, f, n, c, st);
    if o.r.Next?
    then
      match Pay(m, f, endAt, o.r.st.stack)
      case None => Out(Stuck, [])
      case Some(tr) => Out(o.r, o.tr + tr)
    else o
  }

  function Exec(m: Module, f: Func, n: nat, i: Instr, st: State): Outcome
    requires f.Defined?
    decreases n, 1, i, 4
  {
    var s := st.stack;
    match i
    case Plain(_, p) => Out(PlainStep(m, p, st), [])
    case Br(_, k) => Out(Branch(k, st), [])
    case BrIf(_, k) =>
      if |s| > 0 && Top(s).I32?
      then
        var st' := st.(stack := Pop(s, 1));
        Out(if Top(s).w != 0 then Branch(k, st') else Next(st'), [])
      else Out(Stuck, [])
    case Return(_) => Out(Ret(st), ExitEvents(m, f))
    case Call(_, g) => CallFn(m, n, g, st)
    case ReturnCall(_, g) =>
      var o := CallFn(m, n, g, st);
      Out(if o.r.Next? then Ret(o.r.st) else o.r, ExitEvents(m, f) + o.tr)
    case Block(_, bt, body, endAt) =>
      (match Arity(m.types, bt)
       case Some((np, nr)) =>
         if np <= |s|
         then
           var o := EvalTo(m, f, n, body, endAt, st.(stack := Tops(s, np)));
           Out(LeaveBlock(Pop(s, np), nr, o.r), o.tr)
         else Out(Stuck, [])
       case None => Out(Stuck, []))
    case Loop(_, bt, body, endAt) =>
      (match Arity(m.types, bt)
       case Some((np, nr)) =>
         if np <= |s|
         then
           var o := EvalTo(m, f, n, body, endAt, st.(stack := Tops(s, np)));
           if o.r.Branch? && o.r.k == 0
           then
             if np > |o.r.st.stack| then Out(Stuck, o.tr)
             else if n == 0 then Out(Timeout, o.tr)
             else
               var again := o.r.st.(stack := Pop(s, np) + Tops(o.r.st.stack, np));
               var o2 := Exec(m, f, n - 1, i, again);
               Out(o2.r, o.tr + o2.tr)
           else Out(LeaveBlock(Pop(s, np), nr, o.r), o.tr)
         else Out(Stuck, [])
       case None => Out(Stuck, []))
    case If(_, bt, body, endAt) =>
      (match Arity(m.types, bt)
       case Some((np, nr)) =>
         if np < |s| && Top(s).I32?
         then
           var s' := Pop(s, 1);
           if Top(s).w != 0
           then
             var o := EvalTo(m, f, n, body, endAt, st.(stack := Tops(s', np)));
             Out(LeaveBlock(Pop(s', np), nr, o.r), o.tr)
           else Out(LeaveBlock(Pop(s', np), nr, Next(st.(stack := Tops(s', np)))), [])
         else Out(Stuck, [])
       case None => Out(Stuck, []))
    case IfElse(_, bt, body, elseAt, els, endAt) =>
      (match Arity(m.types, bt)
       case Some((np, nr)) =>
         if np < |s| && Top(s).I32?
         then
           var s' := Pop(s, 1);
           var o := if Top(s).w != 0
                    then EvalTo(m, f, n, body, elseAt, st.(stack := Tops(s', np)))
                    else EvalTo(m, f, n, els, endAt, st.(stack := Tops(s', np)));
           Out(LeaveBlock(Pop(s', np), nr, o.r), o.tr)
         else Out(Stuck, [])
       case None => Out(Stuck, []))
  }

  /** A call: arguments come off the caller's stack, results go onto it; the caller's
      locals are untouched. */
  function CallFn(m: Module, n: nat, g: nat, st: State): Outcome
    decreases n, 0
  {
    if g >= |m.funcs| || m.funcs[g].nparams > |st.stack| then Out(Stuck, [])
    else
      var fn := m.funcs[g];
      var args, below := Tops(st.stack, fn.nparams), Pop(st.stack, fn.nparams);
      match fn
      case Hook(_, aborts) => Out(if aborts then Trap(st.store) else Next(st.(stack := below)), [])
      case Host(id, _, nres) =>
        (match m.host(id, args, st.store.mem)
         case HostTrap => Out(Trap(st.store), [])
         case HostRet(vs, mem) =>
           if |vs| == nres
           then Out(Next(st.(stack := below + vs, store := st.store.(mem := mem))), [])
           else Out(Stuck, []))
      case Defined(_, _, _, _, _, _, _, _) =>
        if n == 0 then Out(Timeout, [])
        else
          var o := RunFn(m, n - 1, fn, args, st.store);
          Out(if o.r.Next? then Next(st.(stack := below + o.r.st.stack, store := o.r.st.store)) else o.r, o.tr)
  }

  /** What an activation makes of its body's outcome. */
  function Finish(m: Module, fn: Func, o: Outcome): Outcome
    requires fn.Defined?
  {
    var tr := EntryEvents(m, fn) + o.tr;
    match o.r
    case Next(s) =>
      if |s.stack| == |fn.results| then Out(o.r, tr + ExitEvents(m, fn)) else Out(Stuck, tr)
    case Branch(k, s) =>
      if k == 0 && |fn.results| <= |s.stack|
      then Out(Next(s.(stack := Tops(s.stack, |fn.results|))), tr + ExitEvents(m, fn))
      else Out(Stuck, tr)
    case Ret(s) =>
      if |fn.results| <= |s.stack| then Out(Next(s.(stack := Tops(s.stack, |fn.results|))), tr) else Out(Stuck, tr)
    case _ => Out(o.r, tr)
  }

  /** A whole activation of a defined function. */
  function RunFn(m: Module, n: nat, fn: Func, args: seq<Value>, store: Store): Outcome
    requires fn.Defined?
    decreases n, 2
  {
    Finish(m, fn, EvalTo(m, fn, n, fn.body, fn.endAt, State([], args + Zeros(fn.locals), store)))
  }
}
