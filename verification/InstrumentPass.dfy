/** The pass as it is written: one walk over the flat operator stream of each body with
    a second cursor in the offset-sorted charge table.  Its output is the flattening of
    the structured transformation of module Instrument. */
module InstrumentPass {
  import opened Wrappers
  import opened Wasm
  import opened Instrument

  const U32_MAX: nat := 0xFFFF_FFFF
  const U64_MAX: nat := 0xFFFF_FFFF_FFFF_FFFF

  datatype FlatOp =
    | FPlain(p: PlainOp)
    | FBlock(bt: BlockType) | FLoop(bt: BlockType) | FIf(bt: BlockType) | FElse | FEnd
    | FBr(k: nat) | FBrIf(k: nat) | FReturn | FCall(f: nat) | FReturnCall(f: nat)

  datatype Located = Loc(op: FlatOp, at: nat)

  datatype Error =
    | MissingAnalysis | InsufficientFunctionTypes | InvalidTypeIndex
    | TooManyLocals | Misconfigured | RemapOverflow

  datatype Result<T> = Ok(value: T) | Err(error: Error)

  // ---- structured code as an operator stream ----

  function Flatten(c: Code): seq<Located>
    decreases c, 1
  {
    match c
    case Nil => []
    case Cons(i, rest) => FlattenOp(i) + Flatten(rest)
  }

  function FlattenOp(i: Instr): seq<Located>
    decreases i, 2
  {
    match i
    case Plain(at, p) => [Loc(FPlain(p), at)]
    case Br(at, k) => [Loc(FBr(k), at)]
    case BrIf(at, k) => [Loc(FBrIf(k), at)]
    case Return(at) => [Loc(FReturn, at)]
    case Call(at, f) => [Loc(FCall(f), at)]
    case ReturnCall(at, f) => [Loc(FReturnCall(f), at)]
    case Block(at, bt, body, endAt) => [Loc(FBlock(bt), at)] + Flatten(body) + [Loc(FEnd, endAt)]
    case Loop(at, bt, body, endAt) => [Loc(FLoop(bt), at)] + Flatten(body) + [Loc(FEnd, endAt)]
    case If(at, bt, body, endAt) => [Loc(FIf(bt), at)] + Flatten(body) + [Loc(FEnd, endAt)]
    case IfElse(at, bt, body, elseAt, els, endAt) =>
      [Loc(FIf(bt), at)] + Flatten(body) + [Loc(FElse, elseAt)] + Flatten(els) + [Loc(FEnd, endAt)]
  }

  /** The operators of a code, without offsets. */
  function Ops(c: Code): seq<FlatOp>
    decreases c, 1
  {
    match c
    case Nil => []
    case Cons(i, rest) => OpOps(i) + Ops(rest)
  }

  function OpOps(i: Instr): seq<FlatOp>
    decreases i, 2
  {
    match i
    case Plain(_, p) => [FPlain(p)]
    case Br(_, k) => [FBr(k)]
    case BrIf(_, k) => [FBrIf(k)]
    case Return(_) => [FReturn]
    case Call(_, f) => [FCall(f)]
    case ReturnCall(_, f) => [FReturnCall(f)]
    case Block(_, bt, body, _) => [FBlock(bt)] + Ops(body) + [FEnd]
    case Loop(_, bt, body, _) => [FLoop(bt)] + Ops(body) + [FEnd]
    case If(_, bt, body, _) => [FIf(bt)] + Ops(body) + [FEnd]
    case IfElse(_, bt, body, _, els, _) => [FIf(bt)] + Ops(body) + [FElse] + Ops(els) + [FEnd]
  }

  /** A function body in the binary: its operators and the closing `end`. */
  function FnOps(f: Func): seq<FlatOp> requires f.Defined? { Ops(f.body) + [FEnd] }

  function BodyStream(f: Func): seq<Located> requires f.Defined? { Flatten(f.body) + [Loc(FEnd, f.endAt)] }

  lemma {:induction false} OpsAppend(a: Code, b: Code)
    ensures Ops(Append(a, b)) == Ops(a) + Ops(b)
  {
    if a.Cons? {
      OpsAppend(a.tail, b);
      SeqAssoc(OpOps(a.head), Ops(a.tail), Ops(b));
    }
  }

  // ---- what the instruction sink receives ----

  function GasOps(k: Word64, g: nat): seq<FlatOp> {
    [FPlain(GlobalGet(g)), FPlain(Const(I64(k))), FPlain(Binary(LtU)), FIf(Empty),
     FPlain(Const(I64(k))), FCall(GAS_FN), FPlain(Unreachable), FElse,
     FPlain(GlobalGet(g)), FPlain(Const(I64(k))), FPlain(Binary(Sub)), FPlain(GlobalSet(g)), FEnd]
  }

  function LinearOps(fee: Fee, g: nat, tmp: nat): seq<FlatOp> {
    [FPlain(LocalTee(tmp + 1)), FPlain(ExtendU), FPlain(Const(I64(fee.linear))), FPlain(Binary(Mul)),
     FPlain(Const(I64(fee.constant))), FPlain(Binary(Add)), FPlain(LocalTee(tmp)), FPlain(GlobalGet(g)),
     FPlain(Binary(GtU)), FIf(Empty), FPlain(LocalGet(tmp)), FCall(GAS_FN), FPlain(Unreachable), FElse,
     FPlain(GlobalGet(g)), FPlain(LocalGet(tmp)), FPlain(Binary(Sub)), FPlain(GlobalSet(g)), FEnd,
     FPlain(LocalGet(tmp + 1))]
  }

  function StackOps(charge: Word64, g: nat): seq<FlatOp> {
    [FPlain(GlobalGet(g + 1)), FPlain(Const(I64(charge))), FPlain(Binary(LtU)), FIf(Empty),
     FCall(STACK_EXHAUSTED_FN), FPlain(Unreachable), FElse,
     FPlain(GlobalGet(g + 1)), FPlain(Const(I64(charge))), FPlain(Binary(Sub)), FPlain(GlobalSet(g + 1)), FEnd]
  }

  function UnstackOps(charge: Word64, g: nat): seq<FlatOp> {
    [FPlain(GlobalGet(g + 1)), FPlain(Const(I64(charge))), FPlain(Binary(Add)), FPlain(GlobalSet(g + 1))]
  }

  /** The charge emitter: a linear fee is accepted on aggregate operators only. */
  function EmitGas(kind: Kind, fee: Fee, g: nat, tmp: nat): Result<seq<FlatOp>> {
    if fee == Fee(0, 0) then Ok([])
    else if fee.linear == 0 then Ok(GasOps(fee.constant, g))
    else if !Aggregate(kind) then Err(Misconfigured)
    else if tmp + 1 > U32_MAX then Err(TooManyLocals)
    else Ok(LinearOps(fee, g, tmp))
  }

  function Remap(f: nat): Result<nat> { if f + SHIFT > U32_MAX then Err(RemapOverflow) else Ok(f + SHIFT) }

  function EmitOp(op: FlatOp, last: bool, charge: Word64, g: nat): Result<seq<FlatOp>> {
    match op
    case FCall(f) => (match Remap(f) case Ok(h) => Ok([FCall(h)]) case Err(e) => Err(e))
    case FReturnCall(f) =>
      (match Remap(f) case Ok(h) => Ok(UnstackOps(charge, g) + [FReturnCall(h)]) case Err(e) => Err(e))
    case FReturn => Ok(UnstackOps(charge, g) + [FReturn])
    case FEnd => if last then Ok([FEnd] + UnstackOps(charge, g) + [FEnd]) else Ok([FEnd])
    case _ => Ok([op])
  }

  function Cat(a: Result<seq<FlatOp>>, b: Result<seq<FlatOp>>): Result<seq<FlatOp>> {
    match a
    case Err(e) => a
    case Ok(x) => (match b case Err(e) => b case Ok(y) => Ok(x + y))
  }

  lemma {:induction false} CatAssoc(a: Result<seq<FlatOp>>, b: Result<seq<FlatOp>>, c: Result<seq<FlatOp>>)
    ensures Cat(Cat(a, b), c) == Cat(a, Cat(b, c))
  {
    if a.Ok? && b.Ok? && c.Ok? { assert (a.value + b.value) + c.value == a.value + (b.value + c.value); }
  }

  /** The fixed inputs of one body. */
  datatype Env = Env(points: seq<Point>, charge: Word64, g: nat, tmp: nat)

  /** What the two cursors still have to emit from operator `i` and charge point `j`. */
  function Rest(v: Env, ops: seq<Located>, i: nat, j: nat): Result<seq<FlatOp>>
    requires i <= |ops| && j <= |v.points|
    decreases |ops| - i, |v.points| - j
  {
    if i == |ops| then Ok([])
    else if j < |v.points| && v.points[j].at == ops[i].at
    then Cat(EmitPoint(v, v.points[j]), Rest(v, ops, i, j + 1))
    else Cat(EmitOp(ops[i].op, i == |ops| - 1, v.charge, v.g), Rest(v, ops, i + 1, j))
  }

  function EmitPoint(v: Env, p: Point): Result<seq<FlatOp>> {
    if p.kind == Dead then Ok([]) else EmitGas(p.kind, p.fee, v.g, v.tmp)
  }

  // ---- with aligned tables each operator gets its own charges ----

  function EmitPoints(v: Env, ps: seq<Point>): Result<seq<FlatOp>> {
    if ps == [] then Ok([]) else Cat(EmitPoint(v, ps[0]), EmitPoints(v, ps[1..]))
  }

  function EmitAt(v: Env, o: Located, last: bool): Result<seq<FlatOp>> {
    Cat(EmitPoints(v, PointsAt(v.points, o.at)), EmitOp(o.op, last, v.charge, v.g))
  }

  function EmitFrom(v: Env, ops: seq<Located>, i: nat): Result<seq<FlatOp>>
    requires i <= |ops|
    decreases |ops| - i
  {
    if i == |ops| then Ok([]) else Cat(EmitAt(v, ops[i], i == |ops| - 1), EmitFrom(v, ops, i + 1))
  }

  ghost predicate Ascending(ops: seq<Located>) {
    forall i, j :: 0 <= i < j < |ops| ==> ops[i].at < ops[j].at
  }

  ghost predicate SortedPoints(points: seq<Point>) {
    forall i, j :: 0 <= i < j < |points| ==> points[i].at <= points[j].at
  }

  ghost predicate OffsetFrom(ops: seq<Located>, i: nat, at: nat) {
    exists k :: i <= k < |ops| && ops[k].at == at
  }

  /** The analysis gives a sorted table whose offsets are offsets of operators. */
  ghost predicate Aligned(points: seq<Point>, ops: seq<Located>) {
    Ascending(ops) && SortedPoints(points)
    && forall j :: 0 <= j < |points| ==> OffsetFrom(ops, 0, points[j].at)
  }

  lemma {:induction false} PointsAtNone(points: seq<Point>, at: nat)
    requires forall j :: 0 <= j < |points| ==> points[j].at != at
    ensures PointsAt(points, at) == []
  {
    if points != [] { PointsAtNone(points[1..], at); }
  }

  lemma {:induction false} PointsAtSuffix(points: seq<Point>, j: nat, at: nat)
    requires j <= |points| && forall k :: 0 <= k < j ==> points[k].at != at
    ensures PointsAt(points, at) == PointsAt(points[j..], at)
    decreases j
  {
    if j > 0 {
      PointsAtSuffix(points[1..], j - 1, at);
      assert points[1..][j - 1..] == points[j..];
    }
  }

  lemma {:induction false} Align(v: Env, ops: seq<Located>, i: nat, j: nat)
    requires Ascending(ops) && SortedPoints(v.points) && i < |ops| && j <= |v.points|
    requires forall k :: 0 <= k < j ==> v.points[k].at <= ops[i].at
    requires forall k :: j <= k < |v.points| ==> OffsetFrom(ops, i, v.points[k].at)
    ensures Rest(v, ops, i, j) ==
            Cat(EmitPoints(v, PointsAt(v.points[j..], ops[i].at)),
                Cat(EmitOp(ops[i].op, i == |ops| - 1, v.charge, v.g), EmitFrom(v, ops, i + 1)))
    decreases |ops| - i, |v.points| - j
  {
    var at := ops[i].at;
    var here := EmitOp(ops[i].op, i == |ops| - 1, v.charge, v.g);
    if j < |v.points| && v.points[j].at == at {
      Align(v, ops, i, j + 1);
      var p := v.points[j];
      assert v.points[j..][1..] == v.points[j + 1..];
      var ps := PointsAt(v.points[j + 1..], at);
      CatAssoc(EmitPoint(v, p), EmitPoints(v, ps), Cat(here, EmitFrom(v, ops, i + 1)));
      if p.kind != Dead {
        assert ([p] + ps)[1..] == ps;
      } else {
        assert [] + ps == ps;
        CatUnit(Rest(v, ops, i, j + 1));
      }
    } else {
      forall k | j <= k < |v.points| ensures v.points[k].at > at && OffsetFrom(ops, i + 1, v.points[k].at) {
        NextOffset(v, ops, i, j, k);
      }
      PointsAtNone(v.points[j..], at);
      CatUnit(Cat(here, EmitFrom(v, ops, i + 1)));
      if i + 1 < |ops| {
        Align(v, ops, i + 1, j);
        PointsAtSuffix(v.points, j, ops[i + 1].at);
        CatAssoc(EmitPoints(v, PointsAt(v.points, ops[i + 1].at)),
                 EmitOp(ops[i + 1].op, i + 1 == |ops| - 1, v.charge, v.g), EmitFrom(v, ops, i + 2));
      }
    }
  }

  lemma {:induction false} CatUnit(a: Result<seq<FlatOp>>)
    ensures Cat(Ok([]), a) == a && Cat(a, Ok([])) == a
  {
    if a.Ok? { assert [] + a.value == a.value && a.value + [] == a.value; }
  }

  // ---- the emitted stream is the flattened transformation ----

  function EmitMid(v: Env, ops: seq<Located>): Result<seq<FlatOp>> {
    if ops == [] then Ok([]) else Cat(EmitAt(v, ops[0], false), EmitMid(v, ops[1..]))
  }

  lemma {:induction false} EmitMidCat(v: Env, a: seq<Located>, b: seq<Located>)
    ensures EmitMid(v, a + b) == Cat(EmitMid(v, a), EmitMid(v, b))
  {
    if a == [] {
      assert a + b == b;
      CatUnit(EmitMid(v, b));
    } else {
      EmitMidCat(v, a[1..], b);
      assert (a + b)[1..] == a[1..] + b;
      CatAssoc(EmitAt(v, a[0], false), EmitMid(v, a[1..]), EmitMid(v, b));
    }
  }

  lemma {:induction false} EmitMidOne(v: Env, o: Located)
    ensures EmitMid(v, [o]) == EmitAt(v, o, false)
  {
    assert [o][1..] == [];
    CatUnit(EmitAt(v, o, false));
  }

  lemma {:induction false} EmitFromMid(v: Env, ops: seq<Located>, i: nat)
    requires i < |ops|
    ensures EmitFrom(v, ops, i) == Cat(EmitMid(v, ops[i..|ops| - 1]), EmitAt(v, ops[|ops| - 1], true))
    decreases |ops| - i
  {
    if i == |ops| - 1 {
      CatUnit(EmitAt(v, ops[i], true));
    } else {
      EmitFromMid(v, ops, i + 1);
      assert ops[i..|ops| - 1][1..] == ops[i + 1..|ops| - 1];
      CatAssoc(EmitAt(v, ops[i], false), EmitMid(v, ops[i + 1..|ops| - 1]), EmitAt(v, ops[|ops| - 1], true));
    }
  }

  function EnvOf(f: Func, g: nat): Env requires f.Defined? { Env(f.points, f.charge, g, TempIdx(f)) }

  lemma {:induction false} OpsPlain(p: PlainOp, c: Code)
    ensures Ops(Cons(P(p), c)) == [FPlain(p)] + Ops(c)
  {}

  lemma {:induction false} OpsOne(i: Instr)
    ensures Ops(Cons(i, Nil)) == OpOps(i)
  {}

  /** The `if` of a check: a failing arm that calls hook `h` behind `arg`, and `good`. */
  lemma {:induction false} CheckIsFlat(arg: seq<FlatOp>, bad: Code, h: nat, good: Code, rest: Code)
    requires Ops(bad) == arg + [FCall(h), FPlain(Unreachable)]
    ensures Ops(Cons(IfElse(0, Empty, bad, 0, good, 0), rest))
         == [FIf(Empty)] + arg + [FCall(h), FPlain(Unreachable), FElse] + Ops(good) + [FEnd] + Ops(rest)
  {
    var i := IfElse(0, Empty, bad, 0, good, 0);
    assert OpOps(i) == [FIf(Empty)] + Ops(bad) + [FElse] + Ops(good) + [FEnd];
  }

  lemma {:induction false} HookIsFlat(h: nat)
    ensures Ops(Cons(Call(0, h), Cons(P(Unreachable), Nil))) == [FCall(h), FPlain(Unreachable)]
  {}

  lemma {:induction false} FourPlain(a: PlainOp, b: PlainOp, c: PlainOp, d: PlainOp)
    ensures Ops(Cons(P(a), Cons(P(b), Cons(P(c), Cons(P(d), Nil))))) == [FPlain(a), FPlain(b), FPlain(c), FPlain(d)]
  {
    OpsPlain(a, Cons(P(b), Cons(P(c), Cons(P(d), Nil))));
    OpsPlain(b, Cons(P(c), Cons(P(d), Nil)));
    OpsPlain(c, Cons(P(d), Nil));
    OpsOne(P(d));
  }

  lemma {:induction false} GasIsFlat(k: Word64, g: nat)
    ensures Ops(GasCode(k, g)) == GasOps(k, g)
  {
    var i := GasCode(k, g).tail.tail.tail.head;
    HookIsFlat(GAS_FN);
    OpsPlain(Const(I64(k)), Cons(Call(0, GAS_FN), Cons(P(Unreachable), Nil)));
    FourPlain(GlobalGet(g), Const(I64(k)), Binary(Sub), GlobalSet(g));
    CheckIsFlat([FPlain(Const(I64(k)))], i.body, GAS_FN, i.els, Nil);
    CompareIsFlat(g, k, Cons(i, Nil));
    assert Ops(Nil) == [];
  }

  lemma {:induction false} TailIsFlat(g: nat, tmp: nat)
    ensures Ops(LinearTail(g, tmp)) ==
      [FPlain(LocalTee(tmp)), FPlain(GlobalGet(g)), FPlain(Binary(GtU)), FIf(Empty),
       FPlain(LocalGet(tmp)), FCall(GAS_FN), FPlain(Unreachable), FElse,
       FPlain(GlobalGet(g)), FPlain(LocalGet(tmp)), FPlain(Binary(Sub)), FPlain(GlobalSet(g)), FEnd,
       FPlain(LocalGet(tmp + 1))]
  {
    var i := LinearTail(g, tmp).tail.tail.tail.head;
    var c := Cons(i, Cons(P(LocalGet(tmp + 1)), Nil));
    HookIsFlat(GAS_FN);
    OpsPlain(LocalGet(tmp), Cons(Call(0, GAS_FN), Cons(P(Unreachable), Nil)));
    FourPlain(GlobalGet(g), LocalGet(tmp), Binary(Sub), GlobalSet(g));
    CheckIsFlat([FPlain(LocalGet(tmp))], i.body, GAS_FN, i.els, Cons(P(LocalGet(tmp + 1)), Nil));
    OpsOne(P(LocalGet(tmp + 1)));
    OpsPlain(Binary(GtU), c);
    OpsPlain(GlobalGet(g), Cons(P(Binary(GtU)), c));
    OpsPlain(LocalTee(tmp), Cons(P(GlobalGet(g)), Cons(P(Binary(GtU)), c)));
  }

  lemma {:induction false} LinearIsFlat(fee: Fee, g: nat, tmp: nat)
    ensures Ops(LinearCode(fee, g, tmp)) == LinearOps(fee, g, tmp)
  {
    var t := LinearTail(g, tmp);
    var c5 := Cons(P(Binary(Add)), t);
    var c4 := Cons(P(Const(I64(fee.constant))), c5);
    var c3 := Cons(P(Binary(Mul)), c4);
    var c2 := Cons(P(Const(I64(fee.linear))), c3);
    TailIsFlat(g, tmp);
    OpsPlain(Binary(Add), t);
    OpsPlain(Const(I64(fee.constant)), c5);
    OpsPlain(Binary(Mul), c4);
    OpsPlain(Const(I64(fee.linear)), c3);
    OpsPlain(ExtendU, c2);
    OpsPlain(LocalTee(tmp + 1), Cons(P(ExtendU), c2));
  }

  lemma {:induction false} StackIsFlat(k: Word64, g: nat)
    ensures Ops(StackCode(k, g)) == StackOps(k, g)
  {
    var i := StackCode(k, g).tail.tail.tail.head;
    HookIsFlat(STACK_EXHAUSTED_FN);
    FourPlain(GlobalGet(g + 1), Const(I64(k)), Binary(Sub), GlobalSet(g + 1));
    assert [] + [FCall(STACK_EXHAUSTED_FN), FPlain(Unreachable)] == [FCall(STACK_EXHAUSTED_FN), FPlain(Unreachable)];
    CheckIsFlat([], i.body, STACK_EXHAUSTED_FN, i.els, Nil);
    CompareIsFlat(g + 1, k, Cons(i, Nil));
    assert Ops(Nil) == [];
  }

  /** A global compared with a constant, and what follows. */
  lemma {:induction false} CompareIsFlat(i: nat, k: Word64, c: Code)
    ensures Ops(Cons(P(GlobalGet(i)), Cons(P(Const(I64(k))), Cons(P(Binary(LtU)), c))))
         == [FPlain(GlobalGet(i)), FPlain(Const(I64(k))), FPlain(Binary(LtU))] + Ops(c)
  {
    OpsPlain(Binary(LtU), c);
    OpsPlain(Const(I64(k)), Cons(P(Binary(LtU)), c));
    OpsPlain(GlobalGet(i), Cons(P(Const(I64(k))), Cons(P(Binary(LtU)), c)));
  }

  lemma {:induction false} UnstackIsFlat(k: Word64, g: nat)
    ensures Ops(UnstackCode(k, g)) == UnstackOps(k, g)
  {
    FourPlain(GlobalGet(g + 1), Const(I64(k)), Binary(Add), GlobalSet(g + 1));
  }

  lemma {:induction false} PointsAreFlat(v: Env, ps: seq<Point>)
    requires EmitPoints(v, ps).Ok? && forall p :: p in ps ==> p.kind != Dead
    ensures EmitPoints(v, ps).value == Ops(ChargeCode(ps, v.g, v.tmp))
    decreases |ps|
  {
    if ps != [] {
      PointsAreFlat(v, ps[1..]);
      var fee := ps[0].fee;
      OpsAppend(PointCode(fee, v.g, v.tmp), ChargeCode(ps[1..], v.g, v.tmp));
      if fee.linear == 0 { GasIsFlat(fee.constant, v.g); } else { LinearIsFlat(fee, v.g, v.tmp); }
    }
  }

  lemma {:induction false} PointsAtLive(points: seq<Point>, at: nat)
    ensures forall p :: p in PointsAt(points, at) ==> p.kind != Dead
  {
    if points != [] { PointsAtLive(points[1..], at); }
  }

  lemma {:induction false} ChargesAreFlat(f: Func, g: nat, o: Located, last: bool)
    requires f.Defined? && EmitAt(EnvOf(f, g), o, last).Ok?
    ensures EmitOp(o.op, last, f.charge, g).Ok?
    ensures EmitAt(EnvOf(f, g), o, last).value == Ops(ChargesAt(f, g, o.at)) + EmitOp(o.op, last, f.charge, g).value
  {
    PointsAtLive(f.points, o.at);
    PointsAreFlat(EnvOf(f, g), PointsAt(f.points, o.at));
  }

  lemma {:induction false} CodeIsFlat(f: Func, g: nat, c: Code)
    requires f.Defined? && EmitMid(EnvOf(f, g), Flatten(c)).Ok?
    ensures EmitMid(EnvOf(f, g), Flatten(c)).value == Ops(InstrCode(f, g, c))
    decreases c, 1
  {
    if c.Cons? {
      var i, rest := c.head, c.tail;
      var v := EnvOf(f, g);
      var x, y, z := ChargesAt(f, g, i.at), InstrOp(f, g, i), InstrCode(f, g, rest);
      EmitMidCat(v, FlattenOp(i), Flatten(rest));
      OpIsFlat(f, g, i);
      CodeIsFlat(f, g, rest);
      OpsAppend(x, Append(y, z));
      OpsAppend(y, z);
      SeqAssoc(Ops(x), Ops(y), Ops(z));
    }
  }

  lemma {:induction false} SeqAssoc<T>(a: seq<T>, b: seq<T>, c: seq<T>)
    ensures (a + b) + c == a + (b + c)
  {}

  /** A body closed by `close` (an `end` or `else` at offset `at`). */
  lemma {:induction false} ToIsFlat(f: Func, g: nat, c: Code, close: FlatOp, at: nat)
    requires f.Defined? && (close == FEnd || close == FElse)
    requires EmitMid(EnvOf(f, g), Flatten(c) + [Loc(close, at)]).Ok?
    ensures EmitMid(EnvOf(f, g), Flatten(c) + [Loc(close, at)]).value == Ops(InstrTo(f, g, c, at)) + [close]
    decreases c, 2
  {
    var v := EnvOf(f, g);
    EmitMidCat(v, Flatten(c), [Loc(close, at)]);
    EmitMidOne(v, Loc(close, at));
    CodeIsFlat(f, g, c);
    ChargesAreFlat(f, g, Loc(close, at), false);
    OpsAppend(InstrCode(f, g, c), ChargesAt(f, g, at));
    SeqAssoc(Ops(InstrCode(f, g, c)), Ops(ChargesAt(f, g, at)), [close]);
  }

  lemma {:induction false} OpIsFlat(f: Func, g: nat, i: Instr)
    requires f.Defined? && EmitMid(EnvOf(f, g), FlattenOp(i)).Ok?
    ensures EmitMid(EnvOf(f, g), FlattenOp(i)).value == Ops(ChargesAt(f, g, i.at)) + Ops(InstrOp(f, g, i))
    decreases i, 4
  {
    if i.Block? || i.Loop? || i.If? {
      BlockIsFlat(f, g, i);
    } else if i.IfElse? {
      IfElseIsFlat(f, g, i);
    } else {
      SimpleIsFlat(f, g, i);
    }
  }

  lemma {:induction false} BlockIsFlat(f: Func, g: nat, i: Instr)
    requires f.Defined? && EmitMid(EnvOf(f, g), FlattenOp(i)).Ok? && (i.Block? || i.Loop? || i.If?)
    ensures EmitMid(EnvOf(f, g), FlattenOp(i)).value == Ops(ChargesAt(f, g, i.at)) + Ops(InstrOp(f, g, i))
    decreases i, 3
  {
    var v := EnvOf(f, g);
    var head := FlattenOp(i)[0];
    var tail := Flatten(i.body) + [Loc(FEnd, i.endAt)];
    assert FlattenOp(i) == [head] + tail;
    EmitMidCat(v, [head], tail);
    EmitMidOne(v, head);
    ChargesAreFlat(f, g, head, false);
    ToIsFlat(f, g, i.body, FEnd, i.endAt);
    OpsOne(InstrOp(f, g, i).head);
    var body' := Ops(InstrTo(f, g, i.body, i.endAt));
    assert Ops(InstrOp(f, g, i)) == [head.op] + body' + [FEnd];
    SeqAssoc([head.op], body', [FEnd]);
    SeqAssoc(Ops(ChargesAt(f, g, i.at)), [head.op], body' + [FEnd]);
  }

  lemma {:induction false} IfElseIsFlat(f: Func, g: nat, i: Instr)
    requires f.Defined? && EmitMid(EnvOf(f, g), FlattenOp(i)).Ok? && i.IfElse?
    ensures EmitMid(EnvOf(f, g), FlattenOp(i)).value == Ops(ChargesAt(f, g, i.at)) + Ops(InstrOp(f, g, i))
    decreases i, 3
  {
    var v := EnvOf(f, g);
    var head := Loc(FIf(i.bt), i.at);
    var thn, els := Flatten(i.body) + [Loc(FElse, i.elseAt)], Flatten(i.els) + [Loc(FEnd, i.endAt)];
    assert FlattenOp(i) == [head] + (thn + els);
    EmitMidCat(v, [head], thn + els);
    EmitMidCat(v, thn, els);
    EmitMidOne(v, head);
    ChargesAreFlat(f, g, head, false);
    ToIsFlat(f, g, i.body, FElse, i.elseAt);
    ToIsFlat(f, g, i.els, FEnd, i.endAt);
    OpsOne(InstrOp(f, g, i).head);
    var a, b := Ops(InstrTo(f, g, i.body, i.elseAt)), Ops(InstrTo(f, g, i.els, i.endAt));
    var c := Ops(ChargesAt(f, g, i.at));
    IfElseAssoc(c, head.op, a, FElse, b, FEnd);
  }

  lemma {:induction false} IfElseAssoc<T>(c: seq<T>, h: T, a: seq<T>, x: T, b: seq<T>, y: T)
    ensures (c + [h]) + ((a + [x]) + (b + [y])) == c + ([h] + a + [x] + b + [y])
  {}

  lemma {:induction false} SimpleIsFlat(f: Func, g: nat, i: Instr)
    requires f.Defined? && !i.Block? && !i.Loop? && !i.If? && !i.IfElse?
    requires EmitMid(EnvOf(f, g), FlattenOp(i)).Ok?
    ensures EmitMid(EnvOf(f, g), FlattenOp(i)).value == Ops(ChargesAt(f, g, i.at)) + Ops(InstrOp(f, g, i))
  {
    var head := FlattenOp(i)[0];
    EmitMidOne(EnvOf(f, g), head);
    ChargesAreFlat(f, g, head, false);
    if i.Return? || i.ReturnCall? {
      UnstackIsFlat(f.charge, g);
      var fin := if i.Return? then Return(0) else ReturnCall(0, i.f + SHIFT);
      OpsAppend(UnstackCode(f.charge, g), Cons(fin, Nil));
      OpsOne(fin);
      assert OpOps(fin) == [if i.Return? then FReturn else FReturnCall(i.f + SHIFT)];
    } else {
      OpsOne(InstrOp(f, g, i).head);
      assert OpOps(InstrOp(f, g, i).head) == EmitOp(head.op, false, f.charge, g).value;
    }
  }

  // ---- one function ----

  /** ceil(frame / 8) regular operators, saturating. */
  function EntryGas(frame: Word64): Word64 {
    if frame + 7 > U64_MAX || (frame + 7) / 8 * REGULAR_OP_COST > U64_MAX then U64_MAX
    else (frame + 7) / 8 * REGULAR_OP_COST
  }

  /** Operand stack plus frame; an overflowing sum becomes zero. */
  function StackCharge(operands: Word64, frame: Word64): Word64 {
    if operands + frame > U64_MAX then 0 else operands + frame
  }

  function Prologue(bt: BlockType, charge: Word64, entryGas: Word64, g: nat): seq<FlatOp> {
    if charge > 0
    then [FBlock(bt)] + StackOps(charge, g) + (if entryGas == 0 then [] else GasOps(entryGas, g))
    else [FCall(STACK_EXHAUSTED_FN), FPlain(Unreachable), FEnd]
  }

  /** With aligned tables the two cursors emit the flattened body, its closing block
      `end`, the release of the charge, and the function's `end`. */
  lemma {:induction false} BodyIsFlat(f: Func, g: nat)
    requires f.Defined? && Aligned(f.points, BodyStream(f)) && Rest(EnvOf(f, g), BodyStream(f), 0, 0).Ok?
    ensures Rest(EnvOf(f, g), BodyStream(f), 0, 0).value
         == Ops(InstrTo(f, g, f.body, f.endAt)) + [FEnd] + UnstackOps(f.charge, g) + [FEnd]
  {
    var v, ops := EnvOf(f, g), BodyStream(f);
    Align(v, ops, 0, 0);
    assert v.points[0..] == v.points;
    CatAssoc(EmitPoints(v, PointsAt(v.points, ops[0].at)), EmitOp(ops[0].op, 0 == |ops| - 1, v.charge, v.g),
        EmitFrom(v, ops, 1));
    assert Rest(v, ops, 0, 0) == EmitFrom(v, ops, 0);
    EmitFromMid(v, ops, 0);
    assert ops[0..|ops| - 1] == Flatten(f.body);
    CodeIsFlat(f, g, f.body);
    ChargesAreFlat(f, g, Loc(FEnd, f.endAt), true);
    OpsAppend(InstrCode(f, g, f.body), ChargesAt(f, g, f.endAt));
    var tail := [FEnd] + UnstackOps(f.charge, g) + [FEnd];
    SeqAssoc(Ops(InstrCode(f, g, f.body)), Ops(ChargesAt(f, g, f.endAt)), tail);
    CloseAssoc([], Ops(InstrTo(f, g, f.body, f.endAt)), UnstackOps(f.charge, g), FEnd);
  }

  lemma {:induction false} CloseAssoc<T>(e: seq<T>, b: seq<T>, u: seq<T>, x: T)
    ensures b + ([x] + u + [x]) == b + [x] + u + [x]
    ensures e + (b + [x] + u + [x]) == (e + b) + [x] + u + [x]
  {}

  /** With aligned tables and a positive charge, the emitted function is the flattened
      structured one. */
  lemma {:induction false} PassIsFlat(f: Func, bt: BlockType, g: nat)
    requires f.Defined? && f.charge > 0 && Aligned(f.points, BodyStream(f))
    requires Rest(EnvOf(f, g), BodyStream(f), 0, 0).Ok?
    ensures Prologue(bt, f.charge, f.entryGas, g) + Rest(EnvOf(f, g), BodyStream(f), 0, 0).value
         == FnOps(InstrFunc(f, bt, g))
  {
    BodyIsFlat(f, g);
    var entry, body := EntryCode(f, g), InstrTo(f, g, f.body, f.endAt);
    StackIsFlat(f.charge, g);
    if f.entryGas != 0 { GasIsFlat(f.entryGas, g); }
    OpsAppend(StackCode(f.charge, g), if f.entryGas == 0 then Nil else GasCode(f.entryGas, g));
    assert Ops(Nil) == [];
    assert [FBlock(bt)] + Ops(entry) == Prologue(bt, f.charge, f.entryGas, g);
    OpsAppend(entry, body);
    UnstackIsFlat(f.charge, g);
    var blk := Block(0, bt, Append(entry, body), 0);
    assert Ops(Cons(blk, UnstackCode(f.charge, g))) == OpOps(blk) + UnstackOps(f.charge, g);
    SeqAssoc([FBlock(bt)], Ops(entry), Ops(body));
    CloseAssoc([FBlock(bt)] + Ops(entry), Ops(body), UnstackOps(f.charge, g), FEnd);
  }

  lemma {:induction false} HeadOp(i: Instr)
    ensures |OpOps(i)| > 0 && OpOps(i)[0] != FEnd
    ensures i.Plain? || i.Call? || OpOps(i)[0].FPlain? == OpOps(i)[0].FCall? == false
  {}

  lemma {:induction false} EmitsSomething(v: Env, ops: seq<Located>, i: nat, j: nat)
    requires i < |ops| && j <= |v.points| && Rest(v, ops, i, j).Ok?
    ensures |Rest(v, ops, i, j).value| > 0
    decreases |ops| - i, |v.points| - j
  {
    if j < |v.points| && v.points[j].at == ops[i].at { EmitsSomething(v, ops, i, j + 1); }
  }

  /** An overflowing charge makes the pass close the function and then go on emitting:
      the output is the operator stream of no function body.  So a non-empty body comes
      out well-formed exactly when its charge is positive (see PassIsFlat). */
  lemma {:induction false} ZeroChargeIsMalformed(v: Env, ops: seq<Located>, bt: BlockType, entryGas: Word64, f: Func)
    requires f.Defined? && v.charge == 0 && ops != [] && Rest(v, ops, 0, 0).Ok?
    ensures Prologue(bt, v.charge, entryGas, v.g) + Rest(v, ops, 0, 0).value != FnOps(f)
  {
    var out := Prologue(bt, v.charge, entryGas, v.g) + Rest(v, ops, 0, 0).value;
    EmitsSomething(v, ops, 0, 0);
    assert out[0] == FCall(STACK_EXHAUSTED_FN) && out[1] == FPlain(Unreachable) && out[2] == FEnd;
    if |FnOps(f)| >= 3 && FnOps(f)[..3] == out[..3] { EarlyEnd(f); }
  }

  /** An `end` behind two operators without a block closes the function. */
  lemma {:induction false} EarlyEnd(f: Func)
    requires f.Defined? && |FnOps(f)| >= 3
    requires FnOps(f)[0].FCall? && FnOps(f)[1].FPlain? && FnOps(f)[2] == FEnd
    ensures |FnOps(f)| == 3
  {
    var c := f.body;
    assert c.Cons?;
    HeadOp(c.head);
    assert FnOps(f)[0] == OpOps(c.head)[0];
    assert FnOps(f)[1..] == Ops(c.tail) + [FEnd];
    var t := c.tail;
    assert t.Cons?;
    HeadOp(t.head);
    assert (Ops(t) + [FEnd])[0] == OpOps(t.head)[0];
    assert FnOps(f)[2..] == Ops(t.tail) + [FEnd];
    NoLeadingEnd(t.tail);
    assert FnOps(f)[2..][0] == FEnd;
  }

  lemma {:induction false} NoLeadingEnd(c: Code)
    ensures c.Cons? ==> (Ops(c) + [FEnd])[0] != FEnd
  {}

  // ---- the imperative pass ----

  /** The operator loop: the inner loop drains the charge points at the operator's offset. */
  method EmitBody(v: Env, ops: seq<Located>) returns (r: Result<seq<FlatOp>>)
    ensures r == Rest(v, ops, 0, 0)
  {
    var sink: seq<FlatOp> := [];
    var i, j := 0, 0;
    CatUnit(Rest(v, ops, 0, 0));
    while i < |ops|
      invariant 0 <= i <= |ops| && 0 <= j <= |v.points|
      invariant Rest(v, ops, 0, 0) == Cat(Ok(sink), Rest(v, ops, i, j))
    {
      while j < |v.points| && v.points[j].at == ops[i].at
        invariant 0 <= j <= |v.points|
        invariant Rest(v, ops, 0, 0) == Cat(Ok(sink), Rest(v, ops, i, j))
        decreases |v.points| - j
      {
        var e := EmitPoint(v, v.points[j]);
        CatAssoc(Ok(sink), e, Rest(v, ops, i, j + 1));
        if e.Err? { return e; }
        sink := sink + e.value;
        j := j + 1;
      }
      var e := EmitOp(ops[i].op, i == |ops| - 1, v.charge, v.g);
      CatAssoc(Ok(sink), e, Rest(v, ops, i + 1, j));
      if e.Err? { return e; }
      sink := sink + e.value;
      i := i + 1;
    }
    CatUnit(Ok(sink));
    return Ok(sink);
  }

  /** Run-length local declarations. */
  datatype Decl = Decl(n: nat, t: ValType)

  function Expand(ds: seq<Decl>): seq<ValType> {
    if ds == [] then [] else seq(ds[0].n, _ => ds[0].t) + Expand(ds[1..])
  }

  lemma {:induction false} ExpandAppend(a: seq<Decl>, b: seq<Decl>)
    ensures Expand(a + b) == Expand(a) + Expand(b)
  {
    if a == [] {
      assert a + b == b;
    } else {
      ExpandAppend(a[1..], b);
      assert (a + b)[1..] == a[1..] + b;
      SeqAssoc(seq(a[0].n, _ => a[0].t), Expand(a[1..]), Expand(b));
    }
  }

  datatype Analysis = Analysis(points: seq<Point>, operands: Word64, frame: Word64)
  datatype Body = Body(decls: seq<Decl>, ops: seq<Located>)
  datatype FlatFunc = FlatFunc(decls: seq<Decl>, ops: seq<FlatOp>)

  /** `f` is the structured reading of a body of type `ti` and its analysis. */
  ghost predicate Reads(f: Func, types: seq<FuncType>, ti: nat, b: Body, an: Analysis) {
    && f.Defined? && ti < |types|
    && f.nparams == |types[ti].params| && f.results == types[ti].results
    && f.locals == Expand(b.decls) && b.ops == BodyStream(f)
    && f.points == an.points && f.charge == StackCharge(an.operands, an.frame) && f.entryGas == EntryGas(an.frame)
  }

  // ---- when the pass accepts a body ----

  /** Parameters and declared locals are counted in 32 bits, declaration by declaration. */
  predicate LocalsFit(n: nat, ds: seq<Decl>) { ds == [] || n + |Expand(ds)| <= U32_MAX }

  /** The declared locals, all runs together. */
  function Declared(ds: seq<Decl>): nat { if ds == [] then 0 else ds[0].n + Declared(ds[1..]) }

  /** They fit as long as parameters and declared locals together are below 2^32. */
  lemma {:induction false} LocalsFitIff(n: nat, ds: seq<Decl>)
    requires n <= U32_MAX
    ensures |Expand(ds)| == Declared(ds)
    ensures LocalsFit(n, ds) <==> n + Declared(ds) <= 0xFFFF_FFFF
  {
    if ds != [] { ExpandLength(ds); }
  }

  lemma {:induction false} ExpandLength(ds: seq<Decl>)
    ensures |Expand(ds)| == Declared(ds)
  {
    if ds != [] { ExpandLength(ds[1..]); }
  }

  function EnvAt(types: seq<FuncType>, ti: nat, b: Body, an: Analysis, g: nat): Env
    requires ti < |types|
  {
    Env(an.points, StackCharge(an.operands, an.frame), g, |types[ti].params| + |Expand(b.decls)|)
  }

  /** Acceptance of body number `k`, or the first error. */
  function Verdict(types: seq<FuncType>, analysis: seq<Analysis>, g: nat, k: nat, ti: nat, b: Body): Result<()> {
    if ti >= |types| then Err(InvalidTypeIndex)
    else if !LocalsFit(|types[ti].params|, b.decls) then Err(TooManyLocals)
    else if k >= |analysis| then Err(MissingAnalysis)
    else match Rest(EnvAt(types, ti, b, analysis[k], g), b.ops, 0, 0) case Ok(_) => Ok(()) case Err(e) => Err(e)
  }

  /** A length-dependent charge sits on an aggregate operator and finds its two locals. */
  predicate PointFits(tmp: nat, p: Point) {
    p.kind == Dead || p.fee.linear == 0 || (Aggregate(p.kind) && tmp + 1 <= U32_MAX)
  }

  /** A called function's index leaves room for the shift. */
  predicate IndexFits(op: FlatOp) { op.FCall? || op.FReturnCall? ==> op.f + SHIFT <= U32_MAX }

  lemma {:induction false} EmitFits(v: Env, p: Point, op: FlatOp, last: bool)
    ensures EmitPoint(v, p).Ok? <==> PointFits(v.tmp, p)
    ensures EmitOp(op, last, v.charge, v.g).Ok? <==> IndexFits(op)
  {
  }

  ghost predicate AllFit(v: Env, ops: seq<Located>, i: nat, j: nat) {
    && (forall k :: i <= k < |ops| ==> IndexFits(ops[k].op))
    && (forall k :: j <= k < |v.points| ==> PointFits(v.tmp, v.points[k]))
  }

  /** With a sorted table whose offsets are operators', the two cursors get through exactly
      when every charge and every index fits. */
  lemma {:induction false} RestOkIff(v: Env, ops: seq<Located>, i: nat, j: nat)
    requires Ascending(ops) && SortedPoints(v.points) && i <= |ops| && j <= |v.points|
    requires forall k :: j <= k < |v.points| ==> OffsetFrom(ops, i, v.points[k].at)
    ensures Rest(v, ops, i, j).Ok? <==> AllFit(v, ops, i, j)
    decreases |ops| - i, |v.points| - j
  {
    if i == |ops| {
    } else if j < |v.points| && v.points[j].at == ops[i].at {
      EmitFits(v, v.points[j], ops[i].op, false);
      RestOkIff(v, ops, i, j + 1);
    } else {
      forall k | j <= k < |v.points| ensures OffsetFrom(ops, i + 1, v.points[k].at) {
        NextOffset(v, ops, i, j, k);
      }
      if j < |v.points| {
        EmitFits(v, v.points[j], ops[i].op, i == |ops| - 1);
      } else {
        OpFits(v, ops[i].op, i == |ops| - 1);
      }
      RestOkIff(v, ops, i + 1, j);
    }
  }

  lemma {:induction false} OpFits(v: Env, op: FlatOp, last: bool)
    ensures EmitOp(op, last, v.charge, v.g).Ok? <==> IndexFits(op)
  {
  }

  /** Once the cursor's point is not at the operator, no later point is. */
  lemma {:induction false} NextOffset(v: Env, ops: seq<Located>, i: nat, j: nat, k: nat)
    requires Ascending(ops) && SortedPoints(v.points) && i < |ops| && j <= k < |v.points| && v.points[j].at != ops[i].at
    requires OffsetFrom(ops, i, v.points[j].at) && OffsetFrom(ops, i, v.points[k].at)
    ensures OffsetFrom(ops, i + 1, v.points[k].at) && v.points[k].at > ops[i].at
  {}

  /** A body is accepted exactly when its type exists, its locals fit, it has an analysis,
      and every charge and index fits. */
  lemma {:induction false} AcceptedIff(types: seq<FuncType>, analysis: seq<Analysis>, g: nat, k: nat, ti: nat, b: Body)
    requires k < |analysis| ==> Aligned(analysis[k].points, b.ops)
    ensures Verdict(types, analysis, g, k, ti, b).Ok? <==>
            && ti < |types| && LocalsFit(|types[ti].params|, b.decls) && k < |analysis|
            && AllFit(EnvAt(types, ti, b, analysis[k], g), b.ops, 0, 0)
  {
    if ti < |types| && k < |analysis| { RestOkIff(EnvAt(types, ti, b, analysis[k], g), b.ops, 0, 0); }
  }

  /** What the pass owes for one body: the flattened transformation of any structured
      reading of it, in a block whose type has no parameters and the function's results. */
  ghost predicate Emitted(f: Func, types: seq<FuncType>, bt: BlockType, g: nat, out: FlatFunc) {
    && f.Defined? && BlockSig(types, bt) == Some(FuncType([], f.results))
    && out.ops == FnOps(InstrFunc(f, bt, g))
    && Expand(out.decls) == InstrFunc(f, bt, g).locals
  }

  class InstrumentContext {
    const analysis: seq<Analysis>
    const globals: nat
    const types: seq<FuncType>
    var typeSection: seq<FuncType>
    var codeSection: seq<FlatFunc>

    /** The two hook types are appended behind the original ones. */
    constructor (types: seq<FuncType>, globals: nat, analysis: seq<Analysis>)
      ensures this.types == types && this.globals == globals && this.analysis == analysis
      ensures typeSection == types + [FuncType([], []), FuncType([I64T], [])] && codeSection == []
    {
      this.types, this.globals, this.analysis := types, globals, analysis;
      typeSection, codeSection := types + [FuncType([], []), FuncType([I64T], [])], [];
    }

    /** The type of the wrapping block; more than one result next to parameters needs a
        new entry in the type section. */
    method WrapType(typeIdx: nat) returns (bt: BlockType)
      requires typeIdx < |types| && types <= typeSection
      modifies this`typeSection
      ensures typeSection == old(typeSection)
              || typeSection == old(typeSection) + [FuncType([], types[typeIdx].results)]
      ensures BlockSig(typeSection, bt) == Some(FuncType([], types[typeIdx].results))
    {
      var ft := types[typeIdx];
      if |ft.results| == 0 {
        bt := Empty;
      } else if |ft.results| == 1 {
        bt := BlockType.Result(ft.results[0]);
        assert ft.results == [ft.results[0]];
      } else if |ft.params| == 0 {
        bt := TypeIdx(typeIdx);
        assert typeSection[typeIdx] == ft && ft.params == [];
      } else {
        bt := TypeIdx(|typeSection|);
        typeSection := typeSection + [FuncType([], ft.results)];
      }
    }

    method CountLocals(n: nat, ds: seq<Decl>) returns (r: Result<nat>)
      ensures r == if LocalsFit(n, ds) then Ok(n + |Expand(ds)|) else Err(TooManyLocals)
    {
      var li := n;
      for k := 0 to |ds|
        invariant li == n + |Expand(ds[..k])| && LocalsFit(n, ds[..k])
      {
        assert ds == ds[..k + 1] + ds[k + 1..] && ds[..k + 1] == ds[..k] + [ds[k]];
        ExpandAppend(ds[..k + 1], ds[k + 1..]);
        ExpandAppend(ds[..k], [ds[k]]);
        assert [ds[k]][1..] == [];
        assert Expand([ds[k]]) == seq(ds[k].n, _ => ds[k].t);
        li := li + ds[k].n;
        if li > U32_MAX { return Err(TooManyLocals); }
      }
      assert ds[..|ds|] == ds;
      return Ok(li);
    }

    method TransformCode(ti: nat, b: Body) returns (r: Result<BlockType>)
      requires types <= typeSection
      modifies this`typeSection, this`codeSection
      ensures old(typeSection) <= typeSection
      ensures r.Ok? <==> Verdict(types, analysis, globals, |old(codeSection)|, ti, b).Ok?
      ensures r.Err? ==> codeSection == old(codeSection)
                         && r.error == Verdict(types, analysis, globals, |old(codeSection)|, ti, b).error
      ensures r.Ok? ==> |codeSection| == |old(codeSection)| + 1 && codeSection[..|old(codeSection)|] == old(codeSection)
      ensures r.Ok? ==>
                forall f :: Reads(f, types, ti, b, analysis[|old(codeSection)|]) && f.charge > 0
                       && Aligned(f.points, b.ops)
                  ==> Emitted(f, typeSection, r.value, globals, codeSection[|old(codeSection)|])
    {
      if ti >= |types| { return Err(InvalidTypeIndex); }
      var li := CountLocals(|types[ti].params|, b.decls);
      if li.Err? { return Err(li.error); }
      if |codeSection| >= |analysis| { return Err(MissingAnalysis); }
      var an := analysis[|codeSection|];
      var bt := WrapType(ti);
      var charge := StackCharge(an.operands, an.frame);
      var v := Env(an.points, charge, globals, li.value);
      var body := EmitBody(v, b.ops);
      if body.Err? { return Err(body.error); }
      var decls := b.decls + [Decl(1, I64T), Decl(1, I32T)];
      var out := FlatFunc(decls, Prologue(bt, charge, EntryGas(an.frame), globals) + body.value);
      codeSection := codeSection + [out];
      forall f | Reads(f, types, ti, b, an) && f.charge > 0 && Aligned(f.points, b.ops)
        ensures Emitted(f, typeSection, bt, globals, out)
      {
        EmitsReading(f, types, typeSection, ti, b, an, bt, globals, out);
      }
      return Ok(bt);
    }

    /** The code section, body by body, each with the next type of the function section. On
        an error the code section holds the bodies before the one at fault. */
    method Run(tis: seq<nat>, bodies: seq<Body>, ghost funcs: seq<Func>) returns (r: Result<()>, bts: seq<BlockType>)
      requires types <= typeSection && codeSection == [] && |funcs| == |bodies|
      modifies this`typeSection, this`codeSection
      ensures types <= typeSection && |codeSection| <= |bodies| && |codeSection| <= |tis|
      ensures forall i :: 0 <= i < |codeSection| ==> Verdict(types, analysis, globals, i, tis[i], bodies[i]).Ok?
      ensures r.Ok? <==> |codeSection| == |bodies|
      ensures r.Err? ==> var k := |codeSection|;
                         if k == |tis| then r.error == InsufficientFunctionTypes
                         else Verdict(types, analysis, globals, k, tis[k], bodies[k]) == r
      ensures r.Ok? ==> |bts| == |bodies| <= |analysis|
      ensures r.Ok? ==> forall i :: 0 <= i < |bodies| && Reads(funcs[i], types, tis[i], bodies[i], analysis[i])
                                    && funcs[i].charge > 0 && Aligned(funcs[i].points, bodies[i].ops)
                          ==> Emitted(funcs[i], typeSection, bts[i], globals, codeSection[i])
    {
      bts := [];
      for k := 0 to |bodies|
        invariant types <= typeSection
        invariant |codeSection| == |bts| == k && k <= |analysis| && k <= |tis|
        invariant forall i :: 0 <= i < k ==> Verdict(types, analysis, globals, i, tis[i], bodies[i]).Ok?
        invariant forall i :: 0 <= i < k && Reads(funcs[i], types, tis[i], bodies[i], analysis[i])
                              && funcs[i].charge > 0 && Aligned(funcs[i].points, bodies[i].ops)
                    ==> Emitted(funcs[i], typeSection, bts[i], globals, codeSection[i])
      {
        if k >= |tis| { return Err(InsufficientFunctionTypes), bts; }
        ghost var before, cs := typeSection, codeSection;
        var t := TransformCode(tis[k], bodies[k]);
        if t.Err? { return Err(t.error), bts; }
        forall i | 0 <= i < k && Emitted(funcs[i], before, bts[i], globals, cs[i])
          ensures Emitted(funcs[i], typeSection, bts[i], globals, codeSection[i])
        {
          assert codeSection[i] == cs[i];
        }
        bts := bts + [t.value];
      }
      return Ok(()), bts;
    }
  }

  /** The written function is the flattened transformation of any reading of its body. */
  lemma {:induction false} EmitsReading(f: Func, types: seq<FuncType>, types': seq<FuncType>, ti: nat, b: Body,
                                        an: Analysis, bt: BlockType, g: nat, out: FlatFunc)
    requires Reads(f, types, ti, b, an) && f.charge > 0 && Aligned(f.points, b.ops)
    requires BlockSig(types', bt) == Some(FuncType([], types[ti].results))
    requires Rest(EnvAt(types, ti, b, an, g), b.ops, 0, 0).Ok?
    requires out.decls == b.decls + [Decl(1, I64T), Decl(1, I32T)]
    requires out.ops == Prologue(bt, f.charge, f.entryGas, g) + Rest(EnvAt(types, ti, b, an, g), b.ops, 0, 0).value
    ensures Emitted(f, types', bt, g, out)
  {
    assert EnvAt(types, ti, b, an, g) == EnvOf(f, g);
    EmitsFlat(f, bt, g, out);
    ExpandAppend(b.decls, [Decl(1, I64T), Decl(1, I32T)]);
    TempDecls();
  }

  lemma {:induction false} EmitsFlat(f: Func, bt: BlockType, g: nat, out: FlatFunc)
    requires f.Defined? && f.charge > 0 && Aligned(f.points, BodyStream(f))
    requires Rest(EnvOf(f, g), BodyStream(f), 0, 0).Ok?
    requires out.ops == Prologue(bt, f.charge, f.entryGas, g) + Rest(EnvOf(f, g), BodyStream(f), 0, 0).value
    ensures out.ops == FnOps(InstrFunc(f, bt, g))
  {
    PassIsFlat(f, bt, g);
  }

  lemma {:induction false} TempDecls()
    ensures Expand([Decl(1, I64T), Decl(1, I32T)]) == [I64T, I32T]
  {}

  /** The analysis configuration counts at least 64 bytes per frame, so a charge that
      does not overflow is positive; it is then the exact sum. */
  lemma {:induction false} ChargePositive(operands: Word64, frame: Word64)
    requires frame >= 64
    ensures StackCharge(operands, frame) > 0 <==> operands + frame <= U64_MAX
    ensures StackCharge(operands, frame) == if operands + frame <= U64_MAX then operands + frame else 0
  {}

  /** A frame costs one regular operator per eight bytes begun, up to the largest price. */
  lemma {:induction false} FramePrice(frame: Word64, units: nat)
    requires 8 * units >= frame && (units > 0 ==> 8 * (units - 1) < frame)
    ensures frame <= U64_MAX - 7 && units * 822756 <= U64_MAX ==> EntryGas(frame) == units * 822756
    ensures frame > U64_MAX - 7 || units * 822756 > U64_MAX ==> EntryGas(frame) == U64_MAX
  {
    assert frame <= U64_MAX - 7 ==> (frame + 7) / 8 == units;
  }
}
