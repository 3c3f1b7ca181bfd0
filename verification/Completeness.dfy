/** The converse of soundness: if the code of a function comes to its Return, evaluation of the call
    is defined. So compiled code returns exactly what evaluation says, and exactly when. */
module Completeness {
  import opened Avm
  import opened Machine
  import opened TupleTrees
  import opened Virtual
  import opened Mini
  import opened Codegen
  import opened CodegenShape
  import opened Runs
  import opened CodegenCorrect
  import opened CodegenSound
  import opened CodegenModule

  // ----- what the type checker promises -----

  /** Whether an expression has a value. */
  predicate Valued(ctx: Ctx, e: Expr) {
    match e
    case If(_, b, orElse) => orElse.Some? && BlockValued(ctx, b)
    case CodeBlock(b) => BlockValued(ctx, b)
    case Call(f, _) => f in ctx.funcs && ctx.funcs[f].block.ret.Some?
    case _ => true
  }

  predicate BlockValued(ctx: Ctx, b: Block) {
    b.ret.Some? && Valued(ctx, b.ret.value)
  }

  /** Operands have values, calls have as many arguments as parameters, and the branches of an if agree. */
  predicate TypedExpr(ctx: Ctx, e: Expr)
    decreases e, 1
  {
    match e
    case Not(a) => TypedExpr(ctx, a) && Valued(ctx, a)
    case Binary(_, a, b) => TypedExpr(ctx, a) && Valued(ctx, a) && TypedExpr(ctx, b) && Valued(ctx, b)
    case ShortcutAnd(a, b) => TypedExpr(ctx, a) && Valued(ctx, a) && TypedExpr(ctx, b) && Valued(ctx, b)
    case ShortcutOr(a, b) => TypedExpr(ctx, a) && Valued(ctx, a) && TypedExpr(ctx, b) && Valued(ctx, b)
    case If(c, b, orElse) =>
      && TypedExpr(ctx, c) && Valued(ctx, c) && TypedBlock(ctx, b)
      && (if orElse.Some? then TypedBlock(ctx, orElse.value) && BlockValued(ctx, orElse.value) == BlockValued(ctx, b)
          else !BlockValued(ctx, b))
    case CodeBlock(b) => TypedBlock(ctx, b)
    case Call(f, args) => f in ctx.funcs && |args| == |ctx.funcs[f].args| && TypedArgs(ctx, args)
    case StructInit(fields) => |fields| <= USIZE_LIMIT && TypedArgs(ctx, fields)
    case DotRef(a, _, _) => TypedExpr(ctx, a) && Valued(ctx, a)
    case StructMod(a, _, _, b) => TypedExpr(ctx, a) && Valued(ctx, a) && TypedExpr(ctx, b) && Valued(ctx, b)
    case _ => true
  }

  predicate TypedArgs(ctx: Ctx, es: seq<Expr>)
    decreases es, 0
  {
    es != [] ==> TypedExpr(ctx, es[0]) && Valued(ctx, es[0]) && TypedArgs(ctx, es[1..])
  }

  predicate TypedBlock(ctx: Ctx, b: Block)
    decreases b, 1
  {
    TypedStmts(ctx, b.body) && (b.ret.Some? ==> TypedExpr(ctx, b.ret.value))
  }

  predicate TypedStmts(ctx: Ctx, body: seq<Stmt>)
    decreases body, 0
  {
    body != [] ==> TypedStmt(ctx, body[0]) && TypedStmts(ctx, body[1..])
  }

  predicate TypedStmt(ctx: Ctx, x: Stmt)
    decreases x, 1
  {
    match x
    case Let(_, e) => TypedExpr(ctx, e) && Valued(ctx, e)
    case AssignLocal(_, e) => TypedExpr(ctx, e) && Valued(ctx, e)
    case AssignGlobal(_, e) => TypedExpr(ctx, e) && Valued(ctx, e)
    case While(c, body) => TypedExpr(ctx, c) && Valued(ctx, c) && TypedStmts(ctx, body)
    case ExprStmt(e, pushes) => TypedExpr(ctx, e) && Valued(ctx, e) == pushes
  }

  predicate TypedFunc(ctx: Ctx, f: Func) {
    TypedBlock(ctx, f.block) && (f.block.ret.Some? ==> Valued(ctx, f.block.ret.value))
  }

  ghost predicate Typed(ctx: Ctx) {
    forall f {:trigger TypedFunc(ctx, ctx.funcs[f])} :: f in ctx.funcs ==> TypedFunc(ctx, ctx.funcs[f])
  }

  // ----- runs that come to an end -----

  /** At a Return with nowhere to go. */
  predicate AtEnd(p: Prog, c: Config<VState>) {
    c.pc < |p.code| && p.code[c.pc].op.Return? && p.step(c).None?
  }

  ghost predicate Finishes(p: Prog, n: nat, c: Config<VState>) {
    Steps(p, n, c).Some? && AtEnd(p, Steps(p, n, c).value)
  }

  lemma {:induction false} FinishFrom(p: Prog, n: nat, k: nat, c: Config<VState>)
    requires Finishes(p, n, c) && Steps(p, k, c).Some?
    ensures k <= n && Finishes(p, n - k, Steps(p, k, c).value)
    decreases k
  {
    if k > 0 { FinishFrom(p, n - 1, k - 1, p.step(c).value); }
  }

  /** A run that ends goes on ending wherever it has come to. */
  lemma FinishAfter(p: Prog, n: nat, pc: nat, s: VState, pc': nat, s': VState) returns (m: nat)
    requires Finishes(p, n, Config(pc, s)) && Go(p, pc, s, pc', s')
    ensures m <= n && Finishes(p, m, Config(pc', s')) && (pc != pc' || s != s' ==> m < n)
  {
    var k: nat :| Steps(p, k, Config(pc, s)) == Some(Config(pc', s'));
    FinishFrom(p, n, k, Config(pc, s));
    m := n - k;
  }

  /** It does not meet a fault. */
  lemma NoFault(p: Prog, n: nat, pc: nat, insn: Instr, frame: nat, s: VState)
    requires Runnable(p) && Finishes(p, n, Config(pc, s)) && IsAt(p, pc, insn, frame) && !insn.op.Return?
    ensures !VExec(p.isa, p.numGlobals, frame, insn, s).Fault?
  {
    assert Looking(Config(pc, s));
  }

  // ----- operators -----

  lemma IsZeroDone(p: Prog, ctx: Ctx, n: nat, pc: nat, frame: nat, x: Value, s: VState)
    requires Runnable(p) && p.isa == ctx.isa && IsAt(p, pc, Plain(IsZero, ctx.loc), frame)
    requires Finishes(p, n, Config(pc, s.(stack := Push(x, s.stack))))
    ensures Negation(ctx, Some(x)).Some?
  {
    NoFault(p, n, pc, Plain(IsZero, ctx.loc), frame, s.(stack := Push(x, s.stack)));
  }

  lemma DataDone(p: Prog, n: nat, pc: nat, op: AvmOp, loc: nat, frame: nat, s: VState)
    requires Runnable(p) && IsAt(p, pc, Plain(op, loc), frame) && IsData(op) && Finishes(p, n, Config(pc, s))
    ensures ExecData(p.isa, op, loc, s.stack).Some?
  {
    NoFault(p, n, pc, Plain(op, loc), frame, s);
  }

  lemma RawIsData(ctx: Ctx, op: BinaryOp, x: Value, y: Value, st: Stack)
    ensures IsData(OpcodeOf(op))
    ensures ExecData(ctx.isa, OpcodeOf(op), ctx.loc, Push(x, Push(y, st))).Some? ==> RawApply(ctx, op, x, y).Some?
  {
    assert OpcodeOf(op).Bin? || OpcodeOf(op) == AvmOp.Equal;
  }

  lemma RawDone(p: Prog, ctx: Ctx, n: nat, pc: nat, frame: nat, op: BinaryOp, x: Value, y: Value, s: VState)
    requires Runnable(p) && p.isa == ctx.isa && IsAt(p, pc, Plain(OpcodeOf(op), ctx.loc), frame)
    requires Finishes(p, n, Config(pc, s.(stack := Push(x, Push(y, s.stack)))))
    ensures RawApply(ctx, op, x, y).Some?
  {
    RawIsData(ctx, op, x, y, s.stack);
    DataDone(p, n, pc, OpcodeOf(op), ctx.loc, frame, s.(stack := Push(x, Push(y, s.stack))));
  }

  lemma OpDone(p: Prog, ctx: Ctx, n: nat, pc: nat, frame: nat, op: BinaryOp, x: Value, y: Value, s: VState)
    requires Runnable(p) && p.isa == ctx.isa && Placed(p, pc, OpCode(op, ctx.loc), frame)
    requires Finishes(p, n, Config(pc, s.(stack := Push(x, Push(y, s.stack)))))
    ensures Apply(ctx, op, x, y).Some?
  {
    PlacedAt(p, pc, OpCode(op, ctx.loc), frame, 0);
    RawDone(p, ctx, n, pc, frame, op, x, y, s);
    ApplyIsRaw(ctx, op, x, y);
    if Negates(op) {
      var raw := RawApply(ctx, op, x, y).value;
      RawRuns(p, ctx, pc, frame, op, x, y, s);
      var m := FinishAfter(p, n, pc, s.(stack := Push(x, Push(y, s.stack))), pc + 1, s.(stack := Push(raw, s.stack)));
      PlacedAt(p, pc, OpCode(op, ctx.loc), frame, 1);
      IsZeroDone(p, ctx, m, pc + 1, frame, raw, s);
    }
  }

  // ----- expressions -----

  /** A run that ends, in a function, where the machine is where the evaluator is. */
  ghost predicate Ending(w: World, v: View, n: nat, fuel: nat, s: Store, pc: nat, L: seq<Value>, st: Stack,
                         below: VAux) {
    && Typed(w.ctx) && n <= fuel && Ready(w, v, s, L, 0)
    && Finishes(w.p, n, Config(pc, At(st, L, below, s.globals)))
  }

  /** What is known after it. */
  ghost predicate Done(w: World, e: Expr, v: View, fuel: nat, s: Store)
    requires |s.locals| == |v.names|
  {
    var r := EvalExpr(w.ctx, fuel, e, v.names, s);
    r.Some? && (r.value.v.Some? <==> Valued(w.ctx, e))
  }

  lemma {:induction false} ExprDone(w: World, e: Expr, v: View, next: nat, n: nat, fuel: nat, s: Store, pc: nat,
                                    L: seq<Value>, st: Stack, below: VAux, g: Gen)
    requires TypedExpr(w.ctx, e) && CompileExpr(e, v.n, v.env, next, w.ctx.loc) == Ok(g) && Placed(w.p, pc, g.code, |L|)
    requires Ending(w, v, n, fuel, s, pc, L, st, below) && g.slots <= |L|
    ensures Done(w, e, v, fuel, s)
    decreases n, e, 3
  {
    match e
    case Const(_) =>
    case Local(_) =>
    case GlobalRef(_) => GlobalDone(w, e, v, next, n, fuel, s, pc, L, st, below, g);
    case Not(_) => NotDone(w, e, v, next, n, fuel, s, pc, L, st, below, g);
    case DotRef(_, _, _) => DotDone(w, e, v, next, n, fuel, s, pc, L, st, below, g);
    case Binary(_, _, _) => BinaryDone(w, e, v, next, n, fuel, s, pc, L, st, below, g);
    case StructMod(_, _, _, _) => ModDone(w, e, v, next, n, fuel, s, pc, L, st, below, g);
    case ShortcutAnd(_, _) => ShortcutDone(w, e, v, next, n, fuel, s, pc, L, st, below, g);
    case ShortcutOr(_, _) => ShortcutDone(w, e, v, next, n, fuel, s, pc, L, st, below, g);
    case If(_, _, _) => IfDone(w, e, v, next, n, fuel, s, pc, L, st, below, g);
    case CodeBlock(b) => BlockDone(w, b, v, next, n, fuel, s, pc, L, st, below, g);
    case Call(_, _) => CallDone(w, e, v, next, n, fuel, s, pc, L, st, below, g);
    case StructInit(_) => StructDone(w, e, v, next, n, fuel, s, pc, L, st, below, g);
  }

  /** The value of an expression, and the run after its code. */
  lemma {:induction false} ExprThen(w: World, e: Expr, v: View, next: nat, n: nat, fuel: nat, s: Store, pc: nat,
                                    L: seq<Value>, st: Stack, below: VAux, g: Gen)
    returns (r: Ev, L': seq<Value>, m: nat)
    requires TypedExpr(w.ctx, e) && CompileExpr(e, v.n, v.env, next, w.ctx.loc) == Ok(g) && Placed(w.p, pc, g.code, |L|)
    requires Ending(w, v, n, fuel, s, pc, L, st, below) && g.slots <= |L|
    ensures EvalExpr(w.ctx, fuel, e, v.names, s) == Some(r) && (r.v.Some? <==> Valued(w.ctx, e))
    ensures Untouched(v, L, L') && |L'| == |L| && m <= n
    ensures Ending(w, v, m, fuel, r.s, pc + |g.code|, L', PushOpt(r.v, st), below)
    decreases n, e, 4
  {
    ExprDone(w, e, v, next, n, fuel, s, pc, L, st, below, g);
    r := EvalExpr(w.ctx, fuel, e, v.names, s).value;
    L' := ExprSound(w, e, v, next, fuel, s, pc, L, st, below, g, r);
    m := FinishAfter(w.p, n, pc, At(st, L, below, s.globals),
                     pc + |g.code|, At(PushOpt(r.v, st), L', below, r.s.globals));
  }

  lemma GlobalDone(w: World, e: Expr, v: View, next: nat, n: nat, fuel: nat, s: Store, pc: nat, L: seq<Value>,
                   st: Stack, below: VAux, g: Gen)
    requires e.GlobalRef? && CompileExpr(e, v.n, v.env, next, w.ctx.loc) == Ok(g) && Placed(w.p, pc, g.code, |L|)
    requires Ending(w, v, n, fuel, s, pc, L, st, below) && g.slots <= |L|
    ensures Done(w, e, v, fuel, s)
  {
    PlacedAt(w.p, pc, g.code, |L|, 0);
    NoFault(w.p, n, pc, Instr(GetGlobalVar(e.idx), None, w.ctx.loc), |L|, At(st, L, below, s.globals));
  }

  lemma {:induction false} NotDone(w: World, e: Expr, v: View, next: nat, n: nat, fuel: nat, s: Store, pc: nat,
                                   L: seq<Value>, st: Stack, below: VAux, g: Gen)
    requires e.Not?
    requires TypedExpr(w.ctx, e) && CompileExpr(e, v.n, v.env, next, w.ctx.loc) == Ok(g) && Placed(w.p, pc, g.code, |L|)
    requires Ending(w, v, n, fuel, s, pc, L, st, below) && g.slots <= |L|
    ensures Done(w, e, v, fuel, s)
    decreases n, e, 2
  {
    var a, last := CompileExpr(e.e, v.n, v.env, next, w.ctx.loc).value, [Plain(IsZero, w.ctx.loc)];
    Split(w.p, pc, a.code, last, |L|);
    PlacedAt(w.p, pc + |a.code|, last, |L|, 0);
    var x := NegatedDone(w, e.e, v, next, n, fuel, s, pc, L, st, below, a);
  }

  lemma {:induction false} NegatedDone(w: World, e: Expr, v: View, next: nat, n: nat, fuel: nat, s: Store, pc: nat,
                                       L: seq<Value>, st: Stack, below: VAux, g: Gen) returns (x: Ev)
    requires TypedExpr(w.ctx, e) && Valued(w.ctx, e) && CompileExpr(e, v.n, v.env, next, w.ctx.loc) == Ok(g)
    requires Placed(w.p, pc, g.code, |L|) && IsAt(w.p, pc + |g.code|, Plain(IsZero, w.ctx.loc), |L|)
    requires Ending(w, v, n, fuel, s, pc, L, st, below) && g.slots <= |L|
    ensures EvalExpr(w.ctx, fuel, e, v.names, s) == Some(x) && Negation(w.ctx, x.v).Some?
    decreases n, e, 5
  {
    var L', m;
    x, L', m := ExprThen(w, e, v, next, n, fuel, s, pc, L, st, below, g);
    TestDone(w, v, m, fuel, pc + |g.code|, |L|, L', st, below, x);
  }

  lemma TestDone(w: World, v: View, n: nat, fuel: nat, pc: nat, frame: nat, L: seq<Value>, st: Stack, below: VAux,
                 x: Ev)
    requires Ending(w, v, n, fuel, x.s, pc, L, PushOpt(x.v, st), below) && x.v.Some?
    requires IsAt(w.p, pc, Plain(IsZero, w.ctx.loc), frame)
    ensures Negation(w.ctx, x.v).Some?
  {
    IsZeroDone(w.p, w.ctx, n, pc, frame, x.v.value, At(st, L, below, x.s.globals));
  }

  lemma {:induction false} DotDone(w: World, e: Expr, v: View, next: nat, n: nat, fuel: nat, s: Store, pc: nat,
                                   L: seq<Value>, st: Stack, below: VAux, g: Gen)
    requires e.DotRef?
    requires TypedExpr(w.ctx, e) && CompileExpr(e, v.n, v.env, next, w.ctx.loc) == Ok(g) && Placed(w.p, pc, g.code, |L|)
    requires Ending(w, v, n, fuel, s, pc, L, st, below) && g.slots <= |L|
    ensures Done(w, e, v, fuel, s)
    decreases n, e, 2
  {
    var a, last := CompileExpr(e.e, v.n, v.env, next, w.ctx.loc).value, [Slot(TupleGet(e.size), e.slot, w.ctx.loc)];
    Split(w.p, pc, a.code, last, |L|);
    PlacedAt(w.p, pc + |a.code|, last, |L|, 0);
    var x := FieldDone(w, e.e, e.slot, e.size, v, next, n, fuel, s, pc, L, st, below, a);
    DotEval(w, e, v, fuel, s, x);
  }

  lemma {:induction false} FieldDone(w: World, e: Expr, slot: nat, size: nat, v: View, next: nat, n: nat, fuel: nat,
                                     s: Store, pc: nat, L: seq<Value>, st: Stack, below: VAux, g: Gen) returns (x: Ev)
    requires TypedExpr(w.ctx, e) && Valued(w.ctx, e) && CompileExpr(e, v.n, v.env, next, w.ctx.loc) == Ok(g)
    requires Placed(w.p, pc, g.code, |L|) && IsAt(w.p, pc + |g.code|, Slot(TupleGet(size), slot, w.ctx.loc), |L|)
    requires Ending(w, v, n, fuel, s, pc, L, st, below) && g.slots <= |L|
    ensures EvalExpr(w.ctx, fuel, e, v.names, s) == Some(x) && x.v.Some? && HasField(x.v.value, slot, size)
    decreases n, e, 5
  {
    var L', m;
    x, L', m := ExprThen(w, e, v, next, n, fuel, s, pc, L, st, below, g);
    AccessDone(w, slot, size, v, m, fuel, pc + |g.code|, |L|, L', st, below, x);
  }

  lemma AccessDone(w: World, slot: nat, size: nat, v: View, n: nat, fuel: nat, pc: nat, frame: nat, L: seq<Value>,
                   st: Stack, below: VAux, x: Ev)
    requires Ending(w, v, n, fuel, x.s, pc, L, PushOpt(x.v, st), below) && x.v.Some?
    requires IsAt(w.p, pc, Slot(TupleGet(size), slot, w.ctx.loc), frame)
    ensures HasField(x.v.value, slot, size)
  {
    GetDone(w.p, n, pc, size, slot, w.ctx.loc, frame, x.v.value, At(st, L, below, x.s.globals));
  }

  predicate HasField(x: Value, slot: nat, size: nat) {
    slot < size && slot < USIZE_LIMIT && Flatten(TreeOf(size, false), x).Some?
  }

  lemma DotEval(w: World, e: Expr, v: View, fuel: nat, s: Store, x: Ev)
    requires e.DotRef? && |s.locals| == |v.names| && EvalExpr(w.ctx, fuel, e.e, v.names, s) == Some(x) && x.v.Some?
    requires HasField(x.v.value, e.slot, e.size)
    ensures Done(w, e, v, fuel, s)
  {
  }

  lemma GetDone(p: Prog, n: nat, pc: nat, size: nat, slot: nat, loc: nat, frame: nat, x: Value, s: VState)
    requires Runnable(p) && IsAt(p, pc, Slot(TupleGet(size), slot, loc), frame)
    requires Finishes(p, n, Config(pc, s.(stack := Push(x, s.stack))))
    ensures HasField(x, slot, size)
  {
    NoFault(p, n, pc, Slot(TupleGet(size), slot, loc), frame, s.(stack := Push(x, s.stack)));
  }

  lemma SetDone(p: Prog, n: nat, pc: nat, size: nat, slot: nat, loc: nat, frame: nat, x: Value, y: Value, s: VState)
    requires Runnable(p) && IsAt(p, pc, Slot(TupleSet(size), slot, loc), frame)
    requires Finishes(p, n, Config(pc, s.(stack := Push(x, Push(y, s.stack)))))
    ensures HasField(x, slot, size)
  {
    NoFault(p, n, pc, Slot(TupleSet(size), slot, loc), frame, s.(stack := Push(x, Push(y, s.stack))));
  }

  lemma {:induction false} BinaryDone(w: World, e: Expr, v: View, next: nat, n: nat, fuel: nat, s: Store, pc: nat,
                                      L: seq<Value>, st: Stack, below: VAux, g: Gen)
    requires e.Binary?
    requires TypedExpr(w.ctx, e) && CompileExpr(e, v.n, v.env, next, w.ctx.loc) == Ok(g) && Placed(w.p, pc, g.code, |L|)
    requires Ending(w, v, n, fuel, s, pc, L, st, below) && g.slots <= |L|
    ensures Done(w, e, v, fuel, s)
    decreases n, e, 2
  {
    var gy, gx := BinaryParts(w, e, v, next, pc, |L|, g);
    var y, x := BinaryRun(w, e, v, next, n, fuel, s, pc, L, st, below, gy, gx);
    BinaryEval(w, e, v, fuel, s, y, x);
  }

  lemma {:induction false} BinaryRun(w: World, e: Expr, v: View, next: nat, n: nat, fuel: nat, s: Store, pc: nat,
                                     L: seq<Value>, st: Stack, below: VAux, gy: Gen, gx: Gen) returns (y: Ev, x: Ev)
    requires e.Binary? && BinaryAt(w, e, v, next, pc, |L|, gy, gx) && Ending(w, v, n, fuel, s, pc, L, st, below)
    requires TypedExpr(w.ctx, e.left) && Valued(w.ctx, e.left) && TypedExpr(w.ctx, e.right) && Valued(w.ctx, e.right)
    ensures EvalExpr(w.ctx, fuel, e.right, v.names, s) == Some(y) && y.v.Some? && |y.s.locals| == |v.names|
    ensures EvalExpr(w.ctx, fuel, e.left, v.names, y.s) == Some(x) && x.v.Some?
    ensures Apply(w.ctx, e.op, x.v.value, y.v.value).Some?
    decreases n, e, 1
  {
    var L1, m;
    y, L1, m := ExprThen(w, e.right, v, next, n, fuel, s, pc, L, st, below, gy);
    x := LeftDone(w, e.left, e.op, v, gy.next, m, fuel, y.s, pc + |gy.code|, |L|, L1, y.v.value, st, below, gx);
  }

  /** The left operand, after the right one, and the operator. */
  lemma {:induction false} LeftDone(w: World, e: Expr, op: BinaryOp, v: View, next: nat, n: nat, fuel: nat, s: Store,
                                    pc: nat, frame: nat, L: seq<Value>, y: Value, st: Stack, below: VAux, g: Gen)
    returns (x: Ev)
    requires TypedExpr(w.ctx, e) && Valued(w.ctx, e) && CompileExpr(e, v.n, v.env, next, w.ctx.loc) == Ok(g)
    requires Placed(w.p, pc, g.code, frame) && Placed(w.p, pc + |g.code|, OpCode(op, w.ctx.loc), frame)
    requires Ending(w, v, n, fuel, s, pc, L, Push(y, st), below) && g.slots <= frame == |L|
    ensures EvalExpr(w.ctx, fuel, e, v.names, s) == Some(x) && x.v.Some? && Apply(w.ctx, op, x.v.value, y).Some?
    decreases n, e, 5
  {
    var L', m;
    x, L', m := ExprThen(w, e, v, next, n, fuel, s, pc, L, Push(y, st), below, g);
    OperatorDone(w, op, v, m, fuel, pc + |g.code|, frame, L', y, st, below, x);
  }

  lemma OperatorDone(w: World, op: BinaryOp, v: View, n: nat, fuel: nat, pc: nat, frame: nat, L: seq<Value>, y: Value,
                     st: Stack, below: VAux, x: Ev)
    requires Ending(w, v, n, fuel, x.s, pc, L, PushOpt(x.v, Push(y, st)), below) && x.v.Some?
    requires Placed(w.p, pc, OpCode(op, w.ctx.loc), frame)
    ensures Apply(w.ctx, op, x.v.value, y).Some?
  {
    OpDone(w.p, w.ctx, n, pc, frame, op, x.v.value, y, At(st, L, below, x.s.globals));
  }

  lemma BinaryEval(w: World, e: Expr, v: View, fuel: nat, s: Store, y: Ev, x: Ev)
    requires e.Binary? && |s.locals| == |v.names| && EvalExpr(w.ctx, fuel, e.right, v.names, s) == Some(y) && y.v.Some?
    requires |y.s.locals| == |v.names| && EvalExpr(w.ctx, fuel, e.left, v.names, y.s) == Some(x) && x.v.Some?
    requires Apply(w.ctx, e.op, x.v.value, y.v.value).Some?
    ensures Done(w, e, v, fuel, s)
  {
  }

  lemma {:induction false} ModDone(w: World, e: Expr, v: View, next: nat, n: nat, fuel: nat, s: Store, pc: nat,
                                   L: seq<Value>, st: Stack, below: VAux, g: Gen)
    requires e.StructMod?
    requires TypedExpr(w.ctx, e) && CompileExpr(e, v.n, v.env, next, w.ctx.loc) == Ok(g) && Placed(w.p, pc, g.code, |L|)
    requires Ending(w, v, n, fuel, s, pc, L, st, below) && g.slots <= |L|
    ensures Done(w, e, v, fuel, s)
    decreases n, e, 2
  {
    var gy, gx := ModParts(w, e, v, next, pc, |L|, g);
    var y, x := ModRun(w, e, v, next, n, fuel, s, pc, L, st, below, gy, gx);
    ModEval(w, e, v, fuel, s, y, x);
  }

  lemma {:induction false} ModRun(w: World, e: Expr, v: View, next: nat, n: nat, fuel: nat, s: Store, pc: nat,
                                  L: seq<Value>, st: Stack, below: VAux, gy: Gen, gx: Gen) returns (y: Ev, x: Ev)
    requires e.StructMod? && ModAt(w, e, v, next, pc, |L|, gy, gx) && Ending(w, v, n, fuel, s, pc, L, st, below)
    requires TypedExpr(w.ctx, e.e) && Valued(w.ctx, e.e) && TypedExpr(w.ctx, e.value) && Valued(w.ctx, e.value)
    ensures EvalExpr(w.ctx, fuel, e.value, v.names, s) == Some(y) && y.v.Some? && |y.s.locals| == |v.names|
    ensures EvalExpr(w.ctx, fuel, e.e, v.names, y.s) == Some(x) && x.v.Some? && HasField(x.v.value, e.slot, e.size)
    decreases n, e, 1
  {
    var L1, m;
    y, L1, m := ExprThen(w, e.value, v, next, n, fuel, s, pc, L, st, below, gy);
    x := StrucDone(w, e.e, e.slot, e.size, v, gy.next, m, fuel, pc + |gy.code|, |L|, L1, st, below, gx, y);
  }

  /** The struct, after the new field, and the update. */
  lemma {:induction false} StrucDone(w: World, e: Expr, slot: nat, size: nat, v: View, next: nat, n: nat, fuel: nat,
                                     pc: nat, frame: nat, L: seq<Value>, st: Stack, below: VAux, g: Gen, y: Ev)
    returns (x: Ev)
    requires TypedExpr(w.ctx, e) && Valued(w.ctx, e) && CompileExpr(e, v.n, v.env, next, w.ctx.loc) == Ok(g)
    requires Placed(w.p, pc, g.code, frame) && IsAt(w.p, pc + |g.code|, Slot(TupleSet(size), slot, w.ctx.loc), frame)
    requires y.v.Some? && Ending(w, v, n, fuel, y.s, pc, L, PushOpt(y.v, st), below) && g.slots <= frame == |L|
    ensures EvalExpr(w.ctx, fuel, e, v.names, y.s) == Some(x) && x.v.Some?
    ensures HasField(x.v.value, slot, size)
    decreases n, e, 5
  {
    var L', m;
    x, L', m := ExprThen(w, e, v, next, n, fuel, y.s, pc, L, PushOpt(y.v, st), below, g);
    UpdateDone(w, slot, size, v, m, fuel, pc + |g.code|, frame, L', st, below, y, x);
  }

  lemma UpdateDone(w: World, slot: nat, size: nat, v: View, n: nat, fuel: nat, pc: nat, frame: nat, L: seq<Value>,
                   st: Stack, below: VAux, y: Ev, x: Ev)
    requires Ending(w, v, n, fuel, x.s, pc, L, PushOpt(x.v, PushOpt(y.v, st)), below) && x.v.Some? && y.v.Some?
    requires IsAt(w.p, pc, Slot(TupleSet(size), slot, w.ctx.loc), frame)
    ensures HasField(x.v.value, slot, size)
  {
    SetDone(w.p, n, pc, size, slot, w.ctx.loc, frame, x.v.value, y.v.value, At(st, L, below, x.s.globals));
  }

  lemma ModEval(w: World, e: Expr, v: View, fuel: nat, s: Store, y: Ev, x: Ev)
    requires e.StructMod? && |s.locals| == |v.names|
    requires EvalExpr(w.ctx, fuel, e.value, v.names, s) == Some(y) && y.v.Some?
    requires |y.s.locals| == |v.names| && EvalExpr(w.ctx, fuel, e.e, v.names, y.s) == Some(x) && x.v.Some?
    requires HasField(x.v.value, e.slot, e.size)
    ensures Done(w, e, v, fuel, s)
  {
  }

  /** The test of a short-circuit operator does not fault. */
  lemma ShortcutTested(p: Prog, ctx: Ctx, n: nat, pc: nat, frame: nat, isAnd: bool, lab: Label, x: Value, s: VState)
    requires Runnable(p) && p.isa == ctx.isa && Placed(p, pc, ShortcutTest(isAnd, lab, ctx.loc), frame)
    requires Finishes(p, n, Config(pc, s.(stack := Push(x, s.stack))))
    ensures x.Int? && (isAnd ==> Negation(ctx, Some(x)).Some?)
  {
    var test, s0 := ShortcutTest(isAnd, lab, ctx.loc), s.(stack := Push(x, s.stack));
    PlacedAt(p, pc, test, frame, 0);
    PlacedAt(p, pc, test, frame, 1);
    DoDup(p, pc, ctx.loc, frame, x, s);
    var m := FinishAfter(p, n, pc, s0, pc + 1, s.(stack := Push(x, s0.stack)));
    NoFault(p, m, pc + 1, test[1], frame, s.(stack := Push(x, s0.stack)));
  }

  lemma {:induction false} ShortcutDone(w: World, e: Expr, v: View, next: nat, n: nat, fuel: nat, s: Store, pc: nat,
                                        L: seq<Value>, st: Stack, below: VAux, g: Gen)
    requires e.ShortcutAnd? || e.ShortcutOr?
    requires TypedExpr(w.ctx, e) && CompileExpr(e, v.n, v.env, next, w.ctx.loc) == Ok(g) && Placed(w.p, pc, g.code, |L|)
    requires Ending(w, v, n, fuel, s, pc, L, st, below) && g.slots <= |L|
    ensures Done(w, e, v, fuel, s)
    decreases n, e, 2
  {
    var gx, gy := ShortcutParts(w, e, v, next, pc, |L|, g);
    var x := ShortcutRun(w, e, v, next, n, fuel, s, pc, L, st, below, gx, gy);
    ShortcutEval(w, e, v, fuel, s, x);
  }

  lemma {:induction false} ShortcutRun(w: World, e: Expr, v: View, next: nat, n: nat, fuel: nat, s: Store, pc: nat,
                                       L: seq<Value>, st: Stack, below: VAux, gx: Gen, gy: Gen) returns (x: Ev)
    requires (e.ShortcutAnd? || e.ShortcutOr?) && ShortcutAt(w, e, v, next, pc, |L|, gx, gy)
    requires TypedExpr(w.ctx, e.left) && Valued(w.ctx, e.left) && TypedExpr(w.ctx, e.right)
    requires Ending(w, v, n, fuel, s, pc, L, st, below)
    ensures EvalExpr(w.ctx, fuel, e.left, v.names, s) == Some(x) && |x.s.locals| == |v.names| && x.v.Some?
    ensures x.v.value.Int? && (e.ShortcutAnd? ==> Negation(w.ctx, x.v).Some?)
    ensures GoesRight(e.ShortcutAnd?, x.v.value) ==> Done(w, e.right, v, fuel, x.s)
    decreases n, e, 1
  {
    var L1, m;
    x, L1, m := ExprThen(w, e.left, v, next, n, fuel, s, pc, L, st, below, gx);
    RightDone(w, e.right, e.ShortcutAnd?, Anon(gx.next), v, gx.next + 1, m, fuel, pc + |gx.code|, |L|, L1, st, below,
              gy, x);
  }

  /** Whether the right operand of a short-circuit operator is evaluated. */
  predicate GoesRight(isAnd: bool, x: Value) { x.Int? && isAnd != (x.n == 0) }

  lemma {:induction false} RightDone(w: World, e: Expr, isAnd: bool, lab: Label, v: View, next: nat, n: nat, fuel: nat,
                                     pc: nat, frame: nat, L: seq<Value>, st: Stack, below: VAux, g: Gen, x: Ev)
    requires TypedExpr(w.ctx, e) && CompileExpr(e, v.n, v.env, next, w.ctx.loc) == Ok(g) && x.v.Some?
    requires var test := ShortcutTest(isAnd, lab, w.ctx.loc);
             && Placed(w.p, pc, test, frame) && Placed(w.p, pc + |test|, g.code, frame)
             && IsAt(w.p, pc + |test| + |g.code|, Mark(lab, w.ctx.loc), frame)
    requires Ending(w, v, n, fuel, x.s, pc, L, PushOpt(x.v, st), below) && g.slots <= frame == |L|
    ensures x.v.value.Int? && (isAnd ==> Negation(w.ctx, x.v).Some?)
    ensures GoesRight(isAnd, x.v.value) ==> Done(w, e, v, fuel, x.s)
    decreases n, e, 4
  {
    var size, here := |ShortcutTest(isAnd, lab, w.ctx.loc)|, At(st, L, below, x.s.globals);
    ShortcutTested(w.p, w.ctx, n, pc, frame, isAnd, lab, x.v.value, here);
    if GoesRight(isAnd, x.v.value) {
      var m := RightStarts(w.p, w.ctx, n, pc, frame, isAnd, lab, x.v.value.n, here, pc + size + |g.code|);
      ExprDone(w, e, v, next, m, fuel, x.s, pc + size, L, st, below, g);
    }
  }

  lemma RightStarts(p: Prog, ctx: Ctx, n: nat, pc: nat, frame: nat, isAnd: bool, lab: Label, k: nat, s: VState, t: nat)
    returns (m: nat)
    requires Runnable(p) && p.isa == ctx.isa && Placed(p, pc, ShortcutTest(isAnd, lab, ctx.loc), frame)
    requires t < |p.code| && p.code[t].op == LabelOp(lab) && GoesRight(isAnd, Int(k))
    requires isAnd ==> Negation(ctx, Some(Int(k))).Some?
    requires Finishes(p, n, Config(pc, s.(stack := Push(Int(k), s.stack))))
    ensures m <= n && Finishes(p, m, Config(pc + |ShortcutTest(isAnd, lab, ctx.loc)|, s))
  {
    ShortcutRuns(p, ctx, pc, frame, isAnd, lab, k, s, t);
    m := FinishAfter(p, n, pc, s.(stack := Push(Int(k), s.stack)), pc + |ShortcutTest(isAnd, lab, ctx.loc)|, s);
  }

  lemma ShortcutEval(w: World, e: Expr, v: View, fuel: nat, s: Store, x: Ev)
    requires (e.ShortcutAnd? || e.ShortcutOr?) && TypedExpr(w.ctx, e) && |s.locals| == |v.names|
    requires EvalExpr(w.ctx, fuel, e.left, v.names, s) == Some(x) && |x.s.locals| == |v.names| && x.v.Some?
    requires x.v.value.Int? && (e.ShortcutAnd? ==> Negation(w.ctx, x.v).Some?)
    requires GoesRight(e.ShortcutAnd?, x.v.value) ==> Done(w, e.right, v, fuel, x.s)
    ensures Done(w, e, v, fuel, s)
  {
  }

  lemma {:induction false} IfDone(w: World, e: Expr, v: View, next: nat, n: nat, fuel: nat, s: Store, pc: nat,
                                  L: seq<Value>, st: Stack, below: VAux, g: Gen)
    requires e.If?
    requires TypedExpr(w.ctx, e) && CompileExpr(e, v.n, v.env, next, w.ctx.loc) == Ok(g) && Placed(w.p, pc, g.code, |L|)
    requires Ending(w, v, n, fuel, s, pc, L, st, below) && g.slots <= |L|
    ensures Done(w, e, v, fuel, s)
    decreases n, e, 2
  {
    var gc, gb, ge := IfParts(w, e, v, next, pc, |L|, g);
    var c, L1, m := ExprThen(w, e.cond, v, next, n, fuel, s, pc, L, st, below, gc);
    BranchDone(w, e, v, next, m, fuel, pc, |L|, L1, st, below, gc, gb, ge, c);
  }

  lemma {:induction false} BranchDone(w: World, e: Expr, v: View, next: nat, n: nat, fuel: nat, pc: nat, frame: nat,
                                      L: seq<Value>, st: Stack, below: VAux, gc: Gen, gb: Gen, ge: Gen, c: Ev)
    requires e.If? && TypedExpr(w.ctx, e) && IfAt(w, e, v, next, pc, frame, gc, gb, ge) && frame == |L| && c.v.Some?
    requires Ending(w, v, n, fuel, c.s, pc + |gc.code|, L, PushOpt(c.v, st), below)
    ensures Negation(w.ctx, c.v).Some? && c.v.value.Int?
    ensures c.v.value.n != 0 ==> BlockIsDone(w, e.block, v, fuel, c.s)
    ensures c.v.value.n == 0 && e.orElse.Some? ==> BlockIsDone(w, e.orElse.value, v, fuel, c.s)
    decreases n, e, 1
  {
    var loc, after, pc1 := w.ctx.loc, Anon(gc.next), pc + |gc.code|;
    var pc3 := pc1 + 2 + |gb.code| + |SkipCode(e.orElse.Some?, Anon(gc.next + 1), loc)|;
    var m := TestThen(w.p, w.ctx, n, pc1, frame, after, c.v.value, At(st, L, below, c.s.globals), pc3);
    if c.v.value.n != 0 {
      BranchTaken(w, e.block, v, gc.next + 2, m, fuel, c.s, pc1 + 2, frame, L, st, below, gb);
    } else if e.orElse.Some? {
      var m2 := LabelThen(w.p, m, pc3, after, loc, frame, At(st, L, below, c.s.globals));
      BranchTaken(w, e.orElse.value, v, gb.next, m2, fuel, c.s, pc3 + 1, frame, L, st, below, ge);
    }
  }

  lemma {:induction false} BranchTaken(w: World, b: Block, v: View, next: nat, n: nat, fuel: nat, s: Store, pc: nat,
                                       frame: nat, L: seq<Value>, st: Stack, below: VAux, g: Gen)
    requires TypedBlock(w.ctx, b) && CompileBlock(b, v.n, v.env, next, w.ctx.loc) == Ok(g)
             && Placed(w.p, pc, g.code, frame)
    requires Ending(w, v, n, fuel, s, pc, L, st, below) && g.slots <= frame == |L|
    ensures BlockIsDone(w, b, v, fuel, s)
    decreases n, b, 4
  {
    BlockDone(w, b, v, next, n, fuel, s, pc, L, st, below, g);
  }

  lemma TestThen(p: Prog, ctx: Ctx, n: nat, pc: nat, frame: nat, after: Label, x: Value, s: VState, t: nat)
    returns (m: nat)
    requires Runnable(p) && p.isa == ctx.isa && Placed(p, pc, TestCode(after, ctx.loc), frame)
    requires t < |p.code| && p.code[t].op == LabelOp(after)
    requires Finishes(p, n, Config(pc, s.(stack := Push(x, s.stack))))
    ensures x.Int? && Negation(ctx, Some(x)).Some? && m <= n
    ensures Finishes(p, m, Config(if x.n == 0 then t else pc + 2, s))
  {
    PlacedAt(p, pc, TestCode(after, ctx.loc), frame, 0);
    IsZeroDone(p, ctx, n, pc, frame, x, s);
    TestRuns(p, ctx, pc, frame, after, x.n, s, t);
    m := FinishAfter(p, n, pc, s.(stack := Push(x, s.stack)), if x.n == 0 then t else pc + 2, s);
  }

  lemma LabelThen(p: Prog, n: nat, pc: nat, l: Label, loc: nat, frame: nat, s: VState) returns (m: nat)
    requires Runnable(p) && IsAt(p, pc, Mark(l, loc), frame) && Finishes(p, n, Config(pc, s))
    ensures m < n && Finishes(p, m, Config(pc + 1, s))
  {
    DoLabel(p, pc, l, loc, frame, s);
    m := FinishAfter(p, n, pc, s, pc + 1, s);
  }

  // ----- blocks and statements -----

  ghost predicate BlockIsDone(w: World, b: Block, v: View, fuel: nat, s: Store)
    requires |s.locals| == |v.names|
  {
    var r := EvalBlock(w.ctx, fuel, b, v.names, s);
    r.Some? && (r.value.v.Some? <==> BlockValued(w.ctx, b))
  }

  lemma {:induction false} BlockDone(w: World, b: Block, v: View, next: nat, n: nat, fuel: nat, s: Store, pc: nat,
                                     L: seq<Value>, st: Stack, below: VAux, g: Gen)
    requires TypedBlock(w.ctx, b) && CompileBlock(b, v.n, v.env, next, w.ctx.loc) == Ok(g)
             && Placed(w.p, pc, g.code, |L|)
    requires Ending(w, v, n, fuel, s, pc, L, st, below) && g.slots <= |L|
    ensures BlockIsDone(w, b, v, fuel, s)
    decreases n, b, 3
  {
    var gs := CompileStmts(b.body, v.n, v.env, next + 1, w.ctx.loc).value;
    if b.ret.None? {
      BlockParts(w, gs.code, next, pc, |L|);
      StmtsDone(w, b.body, v, next + 1, n, fuel, s, pc, L, st, below, gs);
    } else {
      var gr := CompileExpr(b.ret.value, gs.slots, gs.env, gs.next, w.ctx.loc).value;
      BlockParts(w, gs.code + gr.code, next, pc, |L|);
      BodyDone(w, b, v, next + 1, n, fuel, s, pc, L, st, below, gs, gr);
    }
  }

  /** Statements and then a result. */
  lemma {:induction false} BodyDone(w: World, b: Block, v: View, next: nat, n: nat, fuel: nat, s: Store, pc: nat,
                                    L: seq<Value>, st: Stack, below: VAux, gs: StmtGen, gr: Gen)
    requires TypedBlock(w.ctx, b) && b.ret.Some? && CompileStmts(b.body, v.n, v.env, next, w.ctx.loc) == Ok(gs)
    requires CompileExpr(b.ret.value, gs.slots, gs.env, gs.next, w.ctx.loc) == Ok(gr)
    requires Placed(w.p, pc, gs.code + gr.code, |L|)
    requires Ending(w, v, n, fuel, s, pc, L, st, below) && Max(gr.slots, gs.slots) <= |L|
    ensures BlockIsDone(w, b, v, fuel, s)
    decreases n, b, 2
  {
    Split(w.p, pc, gs.code, gr.code, |L|);
    var t, d, L1, m := StmtsThen(w, b.body, v, next, n, fuel, s, pc, L, st, below, gs);
    ResultDone(w, b.ret.value, d, gs.slots, gs.env, gs.next, m, fuel, t, pc + |gs.code|, |L|, L1, st, below, gr);
    BodyEval(w, b, v, d, fuel, s, t);
  }

  lemma {:induction false} ResultDone(w: World, e: Expr, d: View, slots: nat, env: Slots, next: nat, n: nat, fuel: nat,
                                      s: Store, pc: nat, frame: nat, L: seq<Value>, st: Stack, below: VAux, g: Gen)
    requires TypedExpr(w.ctx, e) && CompileExpr(e, slots, env, next, w.ctx.loc) == Ok(g) && d.n == slots && d.env == env
    requires Placed(w.p, pc, g.code, frame) && Ending(w, d, n, fuel, s, pc, L, st, below) && g.slots <= frame == |L|
    ensures Done(w, e, d, fuel, s)
    decreases n, e, 4
  {
    ExprDone(w, e, d, next, n, fuel, s, pc, L, st, below, g);
  }

  lemma BodyEval(w: World, b: Block, v: View, d: View, fuel: nat, s: Store, t: Store)
    requires b.ret.Some? && |s.locals| == |v.names| && EvalStmts(w.ctx, fuel, b.body, v.names, s) == Some(t)
    requires d.names == v.names + Declared(b.body) && |t.locals| == |d.names| && Done(w, b.ret.value, d, fuel, t)
    ensures BlockIsDone(w, b, v, fuel, s)
  {
  }

  lemma {:induction false} StmtsThen(w: World, body: seq<Stmt>, v: View, next: nat, n: nat, fuel: nat, s: Store,
                                     pc: nat, L: seq<Value>, st: Stack, below: VAux, g: StmtGen)
    returns (t: Store, d: View, L': seq<Value>, m: nat)
    requires TypedStmts(w.ctx, body) && CompileStmts(body, v.n, v.env, next, w.ctx.loc) == Ok(g)
    requires Placed(w.p, pc, g.code, |L|) && Ending(w, v, n, fuel, s, pc, L, st, below) && g.slots <= |L|
    ensures EvalStmts(w.ctx, fuel, body, v.names, s) == Some(t) && m <= n
    ensures d.names == v.names + Declared(body) && d.env == g.env && d.n == g.slots
    ensures |L'| == |L| && Ending(w, d, m, fuel, t, pc + |g.code|, L', st, below)
    decreases n, body, 4
  {
    StmtsDone(w, body, v, next, n, fuel, s, pc, L, st, below, g);
    t := EvalStmts(w.ctx, fuel, body, v.names, s).value;
    d, L' := StmtsSound(w, body, v, next, fuel, s, pc, L, st, below, g, t);
    m := FinishAfter(w.p, n, pc, At(st, L, below, s.globals), pc + |g.code|, At(st, L', below, t.globals));
  }

  lemma {:induction false} StmtsDone(w: World, body: seq<Stmt>, v: View, next: nat, n: nat, fuel: nat, s: Store,
                                     pc: nat, L: seq<Value>, st: Stack, below: VAux, g: StmtGen)
    requires TypedStmts(w.ctx, body) && CompileStmts(body, v.n, v.env, next, w.ctx.loc) == Ok(g)
    requires Placed(w.p, pc, g.code, |L|) && Ending(w, v, n, fuel, s, pc, L, st, below) && g.slots <= |L|
    ensures EvalStmts(w.ctx, fuel, body, v.names, s).Some?
    decreases n, body, 3
  {
    if body != [] {
      var g1, g2 := StmtsParts(body, v, next, w.ctx.loc, g);
      Split(w.p, pc, g1.code, g2.code, |L|);
      StmtDone(w, body[0], v, next, n, fuel, s, pc, L, st, below, g1);
      var t1 := EvalStmt(w.ctx, fuel, body[0], v.names, s).value;
      var d1, L1 := StmtSound(w, body[0], v, next, fuel, s, pc, L, st, below, g1, t1);
      var m := FinishAfter(w.p, n, pc, At(st, L, below, s.globals), pc + |g1.code|, At(st, L1, below, t1.globals));
      StmtsDone(w, body[1..], d1, g1.next, m, fuel, t1, pc + |g1.code|, L1, st, below, g2);
    }
  }

  lemma {:induction false} StmtDone(w: World, x: Stmt, v: View, next: nat, n: nat, fuel: nat, s: Store, pc: nat,
                                    L: seq<Value>, st: Stack, below: VAux, g: StmtGen)
    requires TypedStmt(w.ctx, x) && CompileStmt(x, v.n, v.env, next, w.ctx.loc) == Ok(g)
    requires Placed(w.p, pc, g.code, |L|) && Ending(w, v, n, fuel, s, pc, L, st, below) && g.slots <= |L|
    ensures EvalStmt(w.ctx, fuel, x, v.names, s).Some?
    decreases n, x, 3
  {
    if x.While? {
      WhileDone(w, x, v, next, n, fuel, s, pc, L, st, below, g);
    } else {
      PlainDone(w, x, v, next, n, fuel, s, pc, L, st, below, g);
    }
  }

  /** A statement that is not a loop. */
  lemma {:induction false} PlainDone(w: World, x: Stmt, v: View, next: nat, n: nat, fuel: nat, s: Store, pc: nat,
                                     L: seq<Value>, st: Stack, below: VAux, g: StmtGen)
    requires !x.While? && TypedStmt(w.ctx, x) && CompileStmt(x, v.n, v.env, next, w.ctx.loc) == Ok(g)
    requires Placed(w.p, pc, g.code, |L|) && Ending(w, v, n, fuel, s, pc, L, st, below) && g.slots <= |L|
    ensures EvalStmt(w.ctx, fuel, x, v.names, s).Some?
    decreases n, x, 2
  {
    var ge := PlainParts(w, x, v, next, pc, |L|, g);
    var r := StoredDone(w, x.e, if x.AssignGlobal? then Some(x.idx) else None, v, next, n, fuel, s, pc, L, st, below,
                        ge);
    PlainEval(w, x, v, fuel, s, r);
  }

  /** The expression of a statement, and the global it may be assigned to. */
  lemma {:induction false} StoredDone(w: World, e: Expr, idx: Option<nat>, v: View, next: nat, n: nat, fuel: nat,
                                      s: Store, pc: nat, L: seq<Value>, st: Stack, below: VAux, g: Gen) returns (r: Ev)
    requires TypedExpr(w.ctx, e) && CompileExpr(e, v.n, v.env, next, w.ctx.loc) == Ok(g) && Placed(w.p, pc, g.code, |L|)
    requires idx.Some? ==> IsAt(w.p, pc + |g.code|, Instr(SetGlobalVar(idx.value), None, w.ctx.loc), |L|)
    requires Ending(w, v, n, fuel, s, pc, L, st, below) && g.slots <= |L|
    ensures EvalExpr(w.ctx, fuel, e, v.names, s) == Some(r) && (r.v.Some? <==> Valued(w.ctx, e))
    ensures idx.Some? ==> idx.value < |r.s.globals|
    decreases n, e, 5
  {
    var L', m;
    r, L', m := ExprThen(w, e, v, next, n, fuel, s, pc, L, st, below, g);
    if idx.Some? { AssignDone(w, idx.value, v, m, fuel, pc + |g.code|, |L|, L', PushOpt(r.v, st), below, r.s); }
  }

  lemma AssignDone(w: World, idx: nat, v: View, n: nat, fuel: nat, pc: nat, frame: nat, L: seq<Value>, st: Stack,
                   below: VAux, s: Store)
    requires Ending(w, v, n, fuel, s, pc, L, st, below)
             && IsAt(w.p, pc, Instr(SetGlobalVar(idx), None, w.ctx.loc), frame)
    ensures idx < |s.globals|
  {
    NoFault(w.p, n, pc, Instr(SetGlobalVar(idx), None, w.ctx.loc), frame, At(st, L, below, s.globals));
  }

  lemma PlainParts(w: World, x: Stmt, v: View, next: nat, pc: nat, frame: nat, g: StmtGen) returns (ge: Gen)
    requires !x.While? && CompileStmt(x, v.n, v.env, next, w.ctx.loc) == Ok(g) && Placed(w.p, pc, g.code, frame)
    ensures CompileExpr(x.e, v.n, v.env, next, w.ctx.loc) == Ok(ge) && ge.slots <= g.slots
    ensures Placed(w.p, pc, ge.code, frame) && (x.AssignLocal? ==> x.name in v.env)
    ensures x.AssignGlobal? ==> IsAt(w.p, pc + |ge.code|, Instr(SetGlobalVar(x.idx), None, w.ctx.loc), frame)
  {
    ge := CompileExpr(x.e, v.n, v.env, next, w.ctx.loc).value;
    var last := CodegenSound.Ending(x, v, w.ctx.loc);
    Split(w.p, pc, ge.code, last, frame);
    if x.AssignGlobal? { PlacedAt(w.p, pc + |ge.code|, last, frame, 0); }
  }

  lemma PlainEval(w: World, x: Stmt, v: View, fuel: nat, s: Store, r: Ev)
    requires !x.While? && TypedStmt(w.ctx, x) && Consistent(v) && |s.locals| == |v.names|
    requires EvalExpr(w.ctx, fuel, x.e, v.names, s) == Some(r) && (r.v.Some? <==> Valued(w.ctx, x.e))
    requires (x.AssignLocal? ==> x.name in v.env) && (x.AssignGlobal? ==> x.idx < |r.s.globals|)
    ensures EvalStmt(w.ctx, fuel, x, v.names, s).Some?
  {
  }

  // ----- loops -----

  lemma {:induction false} WhileDone(w: World, x: Stmt, v: View, next: nat, n: nat, fuel: nat, s: Store, pc: nat,
                                     L: seq<Value>, st: Stack, below: VAux, g: StmtGen)
    requires x.While? && TypedStmt(w.ctx, x) && CompileStmt(x, v.n, v.env, next, w.ctx.loc) == Ok(g)
    requires Placed(w.p, pc, g.code, |L|) && Ending(w, v, n, fuel, s, pc, L, st, below) && g.slots <= |L|
    ensures EvalWhile(w.ctx, fuel, x, v.names, s).Some?
    decreases n, x, 2
  {
    var gb, gc := LoopParts(w, x, v, next, pc, |L|, g);
    var pc1, L1 := pc + 4 + |gb.code|, L[v.n := LabelVal(Anon(next))];
    HeadRuns(w.p, pc, Anon(next), Anon(next + 1), v.n, w.ctx.loc, pc1, st, L, below, s.globals);
    assert Holds(v, s.locals, L1);
    var m := FinishAfter(w.p, n, pc, At(st, L, below, s.globals), pc1, At(st, L1, below, s.globals));
    LoopDone(w, x, v, next, m, fuel, s, pc, |L|, L1, st, below, gb, gc);
  }

  ghost predicate LoopIsDone(w: World, x: Stmt, v: View, fuel: nat, s: Store) {
    x.While? && |s.locals| == |v.names| && EvalWhile(w.ctx, fuel, x, v.names, s).Some?
  }

  lemma {:induction false} LoopDone(w: World, x: Stmt, v: View, next: nat, n: nat, fuel: nat, s: Store, pc: nat,
                                    frame: nat, L: seq<Value>, st: Stack, below: VAux, gb: StmtGen, gc: Gen)
    requires x.While? && TypedStmt(w.ctx, x) && LoopAt(w, x, v, next, pc, frame, gb, gc) && frame == |L|
    requires L[v.n] == LabelVal(Anon(next)) && Ending(w, v, n, fuel, s, pc + 4 + |gb.code|, L, st, below)
    ensures LoopIsDone(w, x, v, fuel, s)
    decreases n, x, 1
  {
    var again, t, L1, m := LoopStep(w, x, v, next, n, fuel, s, pc, frame, L, st, below, gb, gc);
    if again { AgainDone(w, x, v, next, m, fuel - 1, t, pc, frame, L1, st, below, gb, gc); }
  }

  /** The condition decides whether there is a round, and everything hangs on that. */
  lemma {:induction false} LoopStep(w: World, x: Stmt, v: View, next: nat, n: nat, fuel: nat, s: Store, pc: nat,
                                    frame: nat, L: seq<Value>, st: Stack, below: VAux, gb: StmtGen, gc: Gen)
    returns (again: bool, t: Store, L1: seq<Value>, m: nat)
    requires x.While? && TypedStmt(w.ctx, x) && LoopAt(w, x, v, next, pc, frame, gb, gc) && frame == |L|
    requires L[v.n] == LabelVal(Anon(next)) && Ending(w, v, n, fuel, s, pc + 4 + |gb.code|, L, st, below)
    ensures |L1| == |L| && L1[v.n] == L[v.n] && m < n && fuel > 0
    ensures again ==> Ending(w, v, m, fuel - 1, t, pc + 4, L1, st, below)
    ensures (again ==> RoundIsDone(w, x, v, fuel - 1, t)) ==> LoopIsDone(w, x, v, fuel, s)
    decreases n, x, 0
  {
    var c;
    c, L1, m := CondThen(w, x.cond, v, gb.slots, gb.next, n, fuel - 1, s, pc, pc + 4 + |gb.code|, frame, Anon(next),
                         Anon(next + 1), L, st, below, gc);
    again, t := c.v.value.n != 0, c.s;
    LoopEval(w, x, v, fuel, s, c);
  }

  lemma LoopEval(w: World, x: Stmt, v: View, fuel: nat, s: Store, c: Ev)
    requires x.While? && |s.locals| == |v.names| && fuel > 0
    requires EvalExpr(w.ctx, fuel - 1, x.cond, v.names, s) == Some(c) && |c.s.locals| == |v.names| && Truth(c.v).Some?
    ensures (c.v.value.n != 0 ==> RoundIsDone(w, x, v, fuel - 1, c.s)) ==> LoopIsDone(w, x, v, fuel, s)
  {
  }

  ghost predicate RoundIsDone(w: World, x: Stmt, v: View, fuel: nat, s: Store) {
    && x.While? && |s.locals| == |v.names|
    && var b := EvalStmts(w.ctx, fuel, x.body, v.names, s);
       b.Some? && LoopIsDone(w, x, v, fuel, Leave(b.value, |v.names|))
  }

  /** One more round, and what follows it. */
  lemma {:induction false} AgainDone(w: World, x: Stmt, v: View, next: nat, n: nat, fuel: nat, s: Store, pc: nat,
                                     frame: nat, L: seq<Value>, st: Stack, below: VAux, gb: StmtGen, gc: Gen)
    requires x.While? && TypedStmt(w.ctx, x) && LoopAt(w, x, v, next, pc, frame, gb, gc) && frame == |L|
             && L[v.n] == LabelVal(Anon(next))
    requires Ending(w, v, n, fuel, s, pc + 4, L, st, below)
    ensures RoundIsDone(w, x, v, fuel, s)
    decreases n, x, 2
  {
    var b, L2, m := RoundThen(w, x, v, next, n, fuel, s, pc, frame, L, st, below, gb, gc);
    LoopDone(w, x, v, next, m, fuel, Leave(b, |v.names|), pc, frame, L2, st, below, gb, gc);
  }

  /** The condition of a loop, which takes at least one step. */
  lemma {:induction false} CondThen(w: World, e: Expr, v: View, slots: nat, next: nat, n: nat, fuel: nat, s: Store,
                                    pc: nat, pc1: nat, frame: nat, top: Label, cond: Label, L: seq<Value>, st: Stack,
                                    below: VAux,
                                    g: Gen) returns (c: Ev, L1: seq<Value>, m: nat)
    requires TypedExpr(w.ctx, e) && Valued(w.ctx, e) && CompileExpr(e, slots, v.env, next, w.ctx.loc) == Ok(g)
    requires v.n < slots <= g.slots <= frame == |L| && Ending(w, v, n, fuel + 1, s, pc1, L, st, below)
    requires IsAt(w.p, pc1, Mark(cond, w.ctx.loc), frame) && Placed(w.p, pc1 + 1, g.code, frame)
    requires Placed(w.p, pc1 + 1 + |g.code|, LoopTail(v.n, w.ctx.loc), frame) && L[v.n] == LabelVal(top)
    requires Placed(w.p, pc, LoopHead(top, cond, v.n, w.ctx.loc), frame)
    ensures EvalExpr(w.ctx, fuel, e, v.names, s) == Some(c) && Truth(c.v).Some? && m < n
    ensures |L1| == |L| && L1[v.n] == L[v.n]
    ensures c.v.value.n != 0 ==> Ending(w, v, m, fuel, c.s, pc + 4, L1, st, below)
    decreases n, e, 7
  {
    var m1;
    c, L1, m1 := CondRun(w, e, v, slots, next, n, fuel, s, pc1, cond, frame, L, st, below, g);
    m := CondDecides(w, v, m1, fuel, pc, pc1 + 1 + |g.code|, frame, top, cond, L1, st, below, c);
  }

  /** The label of the condition and its value, with the slots of the body in use. */
  lemma {:induction false} CondRun(w: World, e: Expr, v: View, slots: nat, next: nat, n: nat, fuel: nat, s: Store,
                                   pc: nat, l: Label, frame: nat, L: seq<Value>, st: Stack, below: VAux, g: Gen)
    returns (c: Ev, L1: seq<Value>, m: nat)
    requires TypedExpr(w.ctx, e) && Valued(w.ctx, e) && CompileExpr(e, slots, v.env, next, w.ctx.loc) == Ok(g)
    requires IsAt(w.p, pc, Mark(l, w.ctx.loc), frame) && Placed(w.p, pc + 1, g.code, frame)
    requires v.n < slots <= g.slots <= frame == |L| && Ending(w, v, n, fuel + 1, s, pc, L, st, below)
    ensures EvalExpr(w.ctx, fuel, e, v.names, s) == Some(c) && c.v.Some? && m < n && |L1| == |L| && L1[v.n] == L[v.n]
    ensures Ending(w, v, m, fuel, c.s, pc + 1 + |g.code|, L1, PushOpt(c.v, st), below)
    decreases n, e, 6
  {
    var vc := View(v.names, v.slots, v.env, slots);
    var m1 := CondStarts(w, v, vc, n, fuel, s, pc, l, L, st, below);
    c, L1, m := ExprThen(w, e, vc, next, m1, fuel, s, pc + 1, L, st, below, g);
    CondEnds(w, v, vc, m, fuel, c.s, pc + 1 + |g.code|, L, L1, PushOpt(c.v, st), below);
  }

  lemma CondStarts(w: World, v: View, vc: View, n: nat, fuel: nat, s: Store, pc: nat, l: Label, L: seq<Value>,
                   st: Stack, below: VAux) returns (m: nat)
    requires Ending(w, v, n, fuel + 1, s, pc, L, st, below) && IsAt(w.p, pc, Mark(l, w.ctx.loc), |L|)
    requires vc == View(v.names, v.slots, v.env, vc.n) && v.n <= vc.n <= |L|
    ensures m < n && Ending(w, vc, m, fuel, s, pc + 1, L, st, below)
  {
    ViewWiden(v, vc.n, s.locals, L);
    m := LabelThen(w.p, n, pc, l, w.ctx.loc, |L|, At(st, L, below, s.globals));
  }

  lemma CondEnds(w: World, v: View, vc: View, n: nat, fuel: nat, s: Store, pc: nat, L: seq<Value>, L1: seq<Value>,
                 st: Stack, below: VAux)
    requires Ending(w, vc, n, fuel, s, pc, L1, st, below) && Untouched(vc, L, L1) && Consistent(v)
    requires vc == View(v.names, v.slots, v.env, vc.n) && v.n < vc.n
    ensures Ending(w, v, n, fuel, s, pc, L1, st, below) && L1[v.n] == L[v.n]
  {
    HiddenKept(v, vc, L, L1);
  }

  /** The end of the loop, at which the condition decides. */
  lemma CondDecides(w: World, v: View, n: nat, fuel: nat, pc: nat, pc2: nat, frame: nat, top: Label, cond: Label,
                    L: seq<Value>, st: Stack, below: VAux, c: Ev) returns (m: nat)
    requires Ending(w, v, n, fuel, c.s, pc2, L, PushOpt(c.v, st), below) && c.v.Some? && v.n < frame == |L|
    requires Placed(w.p, pc2, LoopTail(v.n, w.ctx.loc), frame) && L[v.n] == LabelVal(top)
    requires Placed(w.p, pc, LoopHead(top, cond, v.n, w.ctx.loc), frame)
    ensures c.v.value.Int? && m <= n
    ensures c.v.value.n != 0 ==> Ending(w, v, m, fuel, c.s, pc + 4, L, st, below)
  {
    m := TailThen(w.p, n, pc2, v.n, top, cond, w.ctx.loc, c.v.value, pc, st, L, below, c.s.globals);
  }

  lemma TailThen(p: Prog, n: nat, pc2: nat, slot: nat, top: Label, cond: Label, loc: nat, c: Value, pc: nat, st: Stack,
                 L: seq<Value>, below: VAux, gl: seq<Value>) returns (m: nat)
    requires Runnable(p) && Placed(p, pc2, LoopTail(slot, loc), |L|) && slot < |L| <= USIZE_LIMIT
    requires L[slot] == LabelVal(top) && Placed(p, pc, LoopHead(top, cond, slot, loc), |L|)
    requires Finishes(p, n, Config(pc2, At(Push(c, st), L, below, gl)))
    ensures c.Int? && m <= n && Finishes(p, m, Config(if c.n != 0 then pc + 4 else pc2 + 2, At(st, L, below, gl)))
  {
    TailTested(p, n, pc2, slot, loc, c, st, L, below, gl);
    TailRuns(p, pc2, slot, top, cond, loc, c.n, pc, st, L, below, gl);
    m := FinishAfter(p, n, pc2, At(Push(c, st), L, below, gl), if c.n != 0 then pc + 4 else pc2 + 2,
                     At(st, L, below, gl));
  }

  lemma TailTested(p: Prog, n: nat, pc: nat, slot: nat, loc: nat, c: Value, st: Stack, L: seq<Value>, below: VAux,
                   gl: seq<Value>)
    requires Runnable(p) && Placed(p, pc, LoopTail(slot, loc), |L|) && slot < |L| <= USIZE_LIMIT
    requires Finishes(p, n, Config(pc, At(Push(c, st), L, below, gl)))
    ensures c.Int?
  {
    var tail := LoopTail(slot, loc);
    PlacedAt(p, pc, tail, |L|, 0);
    PlacedAt(p, pc, tail, |L|, 1);
    DoGetLocal(p, pc, slot, loc, Push(c, st), L, below, gl);
    var m := FinishAfter(p, n, pc, At(Push(c, st), L, below, gl), pc + 1, At(Push(L[slot], Push(c, st)), L, below, gl));
    NoFault(p, m, pc + 1, Plain(Cjump, loc), |L|, At(Push(L[slot], Push(c, st)), L, below, gl));
  }

  lemma {:induction false} RoundThen(w: World, x: Stmt, v: View, next: nat, n: nat, fuel: nat, s: Store, pc: nat,
                                     frame: nat, L: seq<Value>, st: Stack, below: VAux, gb: StmtGen, gc: Gen)
    returns (b: Store, L2: seq<Value>, m: nat)
    requires x.While? && TypedStmt(w.ctx, x) && LoopAt(w, x, v, next, pc, frame, gb, gc) && frame == |L|
    requires Ending(w, v, n, fuel, s, pc + 4, L, st, below)
    ensures EvalStmts(w.ctx, fuel, x.body, v.names, s) == Some(b) && m <= n
    ensures |L2| == |L| && L2[v.n] == L[v.n]
    ensures Ending(w, v, m, fuel, Leave(b, |v.names|), pc + 4 + |gb.code|, L2, st, below)
    decreases n, x, 0
  {
    var vb := View(v.names, v.slots, v.env, v.n + 1);
    ViewWiden(v, v.n + 1, s.locals, L);
    StmtsDone(w, x.body, vb, next + 2, n, fuel, s, pc + 4, L, st, below, gb);
    b := EvalStmts(w.ctx, fuel, x.body, v.names, s).value;
    L2 := RoundSound(w, x, v, next, fuel, s, pc, L, st, below, gb, gc, b);
    m := FinishAfter(w.p, n, pc + 4, At(st, L, below, s.globals), pc + 4 + |gb.code|, At(st, L2, below, b.globals));
  }

  // ----- arguments, structs and calls -----

  lemma {:induction false} ArgsDone(w: World, es: seq<Expr>, v: View, next: nat, n: nat, fuel: nat, s: Store, pc: nat,
                                    L: seq<Value>, st: Stack, below: VAux, g: Gen)
    requires TypedArgs(w.ctx, es) && CompileArgs(es, v.n, v.env, next, w.ctx.loc) == Ok(g)
             && Placed(w.p, pc, g.code, |L|)
    requires Ending(w, v, n, fuel, s, pc, L, st, below) && g.slots <= |L|
    ensures EvalArgs(w.ctx, fuel, es, v.names, s).Some?
    decreases n, es, 3
  {
    if es != [] {
      var gs, gx := ArgsParts(w, es, v, next, pc, |L|, g);
      var xs, L1, m := ArgsThen(w, es[1..], v, next, n, fuel, s, pc, L, st, below, gs);
      ExprDone(w, es[0], v, gs.next, m, fuel, xs.s, pc + |gs.code|, L1, PushAll(xs.vs, st), below, gx);
    }
  }

  lemma {:induction false} ArgsThen(w: World, es: seq<Expr>, v: View, next: nat, n: nat, fuel: nat, s: Store, pc: nat,
                                    L: seq<Value>, st: Stack, below: VAux, g: Gen)
    returns (xs: Evs, L': seq<Value>, m: nat)
    requires TypedArgs(w.ctx, es) && CompileArgs(es, v.n, v.env, next, w.ctx.loc) == Ok(g)
             && Placed(w.p, pc, g.code, |L|)
    requires Ending(w, v, n, fuel, s, pc, L, st, below) && g.slots <= |L|
    ensures EvalArgs(w.ctx, fuel, es, v.names, s) == Some(xs) && m <= n
    ensures |L'| == |L| && Ending(w, v, m, fuel, xs.s, pc + |g.code|, L', PushAll(xs.vs, st), below)
    decreases n, es, 4
  {
    ArgsDone(w, es, v, next, n, fuel, s, pc, L, st, below, g);
    xs := EvalArgs(w.ctx, fuel, es, v.names, s).value;
    L' := ArgsSound(w, es, v, next, fuel, s, pc, L, st, below, g, xs);
    m := FinishAfter(w.p, n, pc, At(st, L, below, s.globals),
                     pc + |g.code|, At(PushAll(xs.vs, st), L', below, xs.s.globals));
  }

  lemma {:induction false} StructDone(w: World, e: Expr, v: View, next: nat, n: nat, fuel: nat, s: Store, pc: nat,
                                      L: seq<Value>, st: Stack, below: VAux, g: Gen)
    requires e.StructInit?
    requires TypedExpr(w.ctx, e) && CompileExpr(e, v.n, v.env, next, w.ctx.loc) == Ok(g) && Placed(w.p, pc, g.code, |L|)
    requires Ending(w, v, n, fuel, s, pc, L, st, below) && g.slots <= |L|
    ensures Done(w, e, v, fuel, s)
    decreases n, e, 2
  {
    var gs := CompileArgs(e.fields, v.n, v.env, next, w.ctx.loc).value;
    Split(w.p, pc, gs.code, StructCode(|e.fields|, w.ctx.loc), |L|);
    ArgsDone(w, e.fields, v, next, n, fuel, s, pc, L, st, below, gs);
  }

  lemma {:induction false} CallDone(w: World, e: Expr, v: View, next: nat, n: nat, fuel: nat, s: Store, pc: nat,
                                    L: seq<Value>, st: Stack, below: VAux, g: Gen)
    requires e.Call?
    requires TypedExpr(w.ctx, e) && CompileExpr(e, v.n, v.env, next, w.ctx.loc) == Ok(g) && Placed(w.p, pc, g.code, |L|)
    requires Ending(w, v, n, fuel, s, pc, L, st, below) && g.slots <= |L|
    ensures Done(w, e, v, fuel, s)
    decreases n, e, 2
  {
    var gs, ret, f := CompileArgs(e.args, v.n, v.env, next + 1, w.ctx.loc).value, Anon(next), e.func;
    Split(w.p, pc, gs.code, CallCode(ret, f, w.ctx.loc), |L|);
    var xs, L', m := ArgsThen(w, e.args, v, next + 1, n, fuel, s, pc, L, st, below, gs);
    var here := At(PushAll(xs.vs, st), L', below, xs.s.globals);
    CallJumps(w, f, pc + |gs.code|, ret, |L|, here);
    var there := here.(stack := Push(LabelVal(ret), here.stack));
    assert there.stack != here.stack by { Longer(LabelVal(ret), here.stack); }
    var m2 := FinishAfter(w.p, m, pc + |gs.code|, here, w.sites[f].pos, there);
    CalleeDone(w, f, m2, fuel - 1, xs.vs, xs.s.globals, LabelVal(ret), st, here.aux);
  }

  lemma {:induction false} Longer(v: Value, st: Stack)
    ensures Push(v, st) != st
    decreases st
  {
    if st.Push? { Longer(st.top, st.rest); }
  }

  lemma {:induction false} CalleeDone(w: World, f: nat, n: nat, fuel: nat, args: seq<Value>, gl: seq<Value>, ret: Value,
                                      st: Stack, aux: VAux)
    requires Whole(w) && Typed(w.ctx) && f in w.ctx.funcs && |gl| == w.p.numGlobals && n <= fuel
    requires |args| == |w.ctx.funcs[f].args|
    requires Finishes(w.p, n, Config(w.sites[f].pos, VState(Push(ret, PushAll(args, st)), aux, Globals(gl))))
    ensures var r := EvalCall(w.ctx, fuel, w.ctx.funcs[f], args, gl);
            r.Some? && (r.value.v.Some? <==> w.ctx.funcs[f].block.ret.Some?)
    decreases n, w.ctx.funcs[f].block, 5
  {
    var pos, s0 := w.sites[f].pos, VState(Push(ret, PushAll(args, st)), aux, Globals(gl));
    BodyPlaced(w, f);
    EnterFunc(w, f, args, s0, ret, st);
    var g := CompileBody(w.ctx.funcs[f], w.sites[f].next, w.ctx.loc).value;
    var L, below := args + Nones(g.slots - |args|), AVal(ret, aux);
    var m := FinishAfter(w.p, n, pos, s0, pos + 2, At(st, L, below, gl));
    FuncDone(w, f, m, fuel, args, gl, L, st, below, g);
  }

  /** The body of a function, in its frame. */
  lemma {:induction false} FuncDone(w: World, f: nat, n: nat, fuel: nat, args: seq<Value>, gl: seq<Value>,
                                    L: seq<Value>, st: Stack, below: VAux, g: Gen)
    requires Whole(w) && Typed(w.ctx) && f in w.ctx.funcs && |gl| == w.p.numGlobals && n <= fuel
    requires |args| == |w.ctx.funcs[f].args| && CompileBody(w.ctx.funcs[f], w.sites[f].next, w.ctx.loc) == Ok(g)
    requires |args| <= g.slots && L == args + Nones(g.slots - |args|)
             && Placed(w.p, w.sites[f].pos + 2, g.code, g.slots)
    requires Finishes(w.p, n, Config(w.sites[f].pos + 2, At(st, L, below, gl)))
    ensures var r := EvalCall(w.ctx, fuel, w.ctx.funcs[f], args, gl);
            r.Some? && (r.value.v.Some? <==> w.ctx.funcs[f].block.ret.Some?)
    decreases n, w.ctx.funcs[f].block, 4
  {
    var fn, pos, next := w.ctx.funcs[f], w.sites[f].pos, w.sites[f].next;
    var v, s := ArgView(fn.args), Store(args, gl);
    ArgViewConsistent(fn.args);
    assert FuncSited(w, f);
    assert TypedFunc(w.ctx, fn);
    assert Holds(v, args, L);
    var gs := CompileStmts(fn.block.body, v.n, v.env, next, w.ctx.loc).value;
    if fn.block.ret.None? {
      StmtsDone(w, fn.block.body, v, next, n, fuel, s, pos + 2, L, st, below, gs);
    } else {
      var gr := CompileExpr(fn.block.ret.value, gs.slots, gs.env, gs.next, w.ctx.loc).value;
      BodyDone(w, fn.block, v, next, n, fuel, s, pos + 2, L, st, below, gs, gr);
    }
  }

  // ----- returning -----

  /** An aux stack on top of another. */
  function Onto(x: VAux, base: VAux): VAux {
    match x
    case ANil => base
    case AVal(v, y) => AVal(v, Onto(y, base))
    case AFrame(locals, y) => AFrame(locals, Onto(y, base))
  }

  function Height(x: VAux): nat {
    match x
    case ANil => 0
    case AVal(_, y) => Height(y) + 1
    case AFrame(_, y) => Height(y) + 1
  }

  lemma {:induction false} OntoHeight(x: VAux, base: VAux)
    ensures Height(Onto(x, base)) == Height(x) + Height(base)
  {
    match x
    case ANil =>
    case AVal(_, y) => OntoHeight(y, base);
    case AFrame(_, y) => OntoHeight(y, base);
  }

  /** At the bottom is a frame. */
  predicate Framed(x: VAux) {
    match x
    case ANil => false
    case AVal(_, y) => Framed(y)
    case AFrame(_, y) => y.ANil? || Framed(y)
  }

  function StateOnto(s: VState, base: VAux): VState { s.(aux := Onto(s.aux, base)) }

  function OutcomeOnto(o: Outcome<VState>, base: VAux): Outcome<VState> {
    match o
    case Next(s) => Next(StateOnto(s, base))
    case Goto(v, s) => Goto(v, StateOnto(s, base))
    case Stop(s) => Stop(StateOnto(s, base))
    case Fault => Fault
  }

  /** The return of the frame at the bottom. */
  predicate OwnReturn(insn: Instr, x: VAux) { insn.op.Return? && x.AFrame? && x.below.ANil? }

  lemma AvmOnto(isa: Isa, numGlobals: nat, op: AvmOp, loc: nat, st: Stack, s: VState, base: VAux)
    requires Framed(s.aux)
    ensures var o := VExecAvm(isa, numGlobals, op, loc, st, s);
            VExecAvm(isa, numGlobals, op, loc, st, StateOnto(s, base)) == OutcomeOnto(o, base)
            && (o.Next? || o.Goto? ==> Framed(o.s.aux))
  {
  }

  /** Nothing else looks below the bottom frame. */
  lemma ExecOnto(isa: Isa, numGlobals: nat, frame: nat, insn: Instr, s: VState, base: VAux)
    requires Framed(s.aux) && !OwnReturn(insn, s.aux)
    ensures var o := VExec(isa, numGlobals, frame, insn, s);
            VExec(isa, numGlobals, frame, insn, StateOnto(s, base)) == OutcomeOnto(o, base)
            && (o.Next? || o.Goto? ==> Framed(o.s.aux))
  {
    if insn.op.AVM? {
      AvmOnto(isa, numGlobals, insn.op.op, insn.loc, PushImm(insn.imm, s.stack), s, base);
    } else if insn.op.Return? && s.aux.AFrame? {
      assert Framed(s.aux.below) && Onto(s.aux, base).below == Onto(s.aux.below, base);
    } else if insn.op.MakeFrame? && s.stack.Push? {
      assert Framed(AVal(s.stack.top, s.aux))
             && Onto(AVal(s.stack.top, s.aux), base) == AVal(s.stack.top, Onto(s.aux, base));
    }
  }

  lemma StepOnto(p: Prog, c: Config<VState>, base: VAux)
    requires Runnable(p) && Framed(c.s.aux) && (c.pc < |p.code| ==> !OwnReturn(p.code[c.pc], c.s.aux))
    ensures var d := p.step(c);
            p.step(Config(c.pc, StateOnto(c.s, base)))
            == (if d.Some? then Some(Config(d.value.pc, StateOnto(d.value.s, base))) else None)
            && (d.Some? ==> Framed(d.value.s.aux))
  {
    assert Looking(c) && Looking(Config(c.pc, StateOnto(c.s, base)));
    if c.pc < |p.code| {
      ExecOnto(p.isa, p.numGlobals, FrameAt(p.code, INITIAL_FRAME, c.pc), p.code[c.pc], c.s, base);
    }
  }

  /** A run from inside a frame that leaves what is below it comes to the return of that frame. */
  lemma {:induction false} LeavesByReturn(p: Prog, n: nat, c: Config<VState>, ret: Value, aux: VAux) returns (m: nat)
    requires Runnable(p) && Framed(c.s.aux)
    requires var d := Steps(p, n, Config(c.pc, StateOnto(c.s, AVal(ret, aux)))); d.Some? && d.value.s.aux == aux
    ensures m <= n && Finishes(p, m, c)
    decreases n
  {
    if c.pc < |p.code| && OwnReturn(p.code[c.pc], c.s.aux) {
      assert Looking(c);
      m := 0;
    } else {
      OntoHeight(c.s.aux, AVal(ret, aux));
      StepOnto(p, c, AVal(ret, aux));
      var m' := LeavesByReturn(p, n - 1, p.step(c).value, ret, aux);
      m := m' + 1;
    }
  }

  /** A call of function f, with a return label and the arguments on the stack, comes to that label
      with the aux stack as it was. */
  ghost predicate Returns(w: World, f: nat, args: seq<Value>, gl: seq<Value>, ret: Label, t: nat, st: Stack, aux: VAux)
    requires f in w.sites
  {
    exists n: nat, s: VState {:trigger ReturnsIn(w, f, args, gl, ret, t, st, aux, n, s)} ::
      ReturnsIn(w, f, args, gl, ret, t, st, aux, n, s)
  }

  /** The call comes there in state s after n > 0 steps. */
  ghost predicate ReturnsIn(w: World, f: nat, args: seq<Value>, gl: seq<Value>, ret: Label, t: nat, st: Stack,
                            aux: VAux, n: nat, s: VState)
    requires f in w.sites
  {
    && n > 0 && s.aux == aux
    && Steps(w.p, n, Config(w.sites[f].pos, VState(Push(LabelVal(ret), PushAll(args, st)), aux, Globals(gl))))
       == Some(Config(t, s))
  }

  lemma StepNext(p: Prog, pc: nat, insn: Instr, s: VState, s': VState)
    requires Runnable(p) && pc < |p.code| && p.code[pc] == insn
    requires VExec(p.isa, p.numGlobals, FrameAt(p.code, INITIAL_FRAME, pc), insn, s) == Next(s')
    ensures p.step(Config(pc, s)) == Some(Config(pc + 1, s'))
  {
    assert Looking(Config(pc, s));
  }

  /** A function starts with its label and its frame, two steps. */
  lemma EnterSteps(w: World, f: nat, args: seq<Value>, s: VState, ret: Value, st: Stack, g: Gen)
    requires Whole(w) && f in w.ctx.funcs && s.stack == Push(ret, PushAll(args, st)) && |args| == |w.ctx.funcs[f].args|
    requires CompileBody(w.ctx.funcs[f], w.sites[f].next, w.ctx.loc) == Ok(g)
    ensures var pos, c := w.sites[f].pos, Config(w.sites[f].pos, s);
            && pos + 1 < |w.p.code| && w.p.code[pos + 1].op.MakeFrame? && |args| <= g.slots
            && w.p.step(c) == Some(Config(pos + 1, s))
            && w.p.step(Config(pos + 1, s))
               == Some(Config(pos + 2, VState(st, AFrame(args + Nones(g.slots - |args|), AVal(ret, s.aux)), s.reg)))
  {
    var pos, insn := w.sites[f].pos, Instr(MakeFrame(|args|, g.slots, true), None, w.ctx.loc);
    BodyGood(w.ctx.funcs[f], w.sites[f].next, w.ctx.loc);
    SitedAt(w, f, 0);
    SitedAt(w, f, 1);
    assert FuncSited(w, f);
    TakePushed(args, st);
    StepNext(w.p, pos, Instr(LabelOp(Label.Func(f)), None, w.ctx.loc), s, s);
    StepNext(w.p, pos + 1, insn, s, VState(st, AFrame(args + Nones(g.slots - |args|), AVal(ret, s.aux)), s.reg));
  }

  lemma TwoSteps(p: Prog, n: nat, c: Config<VState>, c1: Config<VState>, c2: Config<VState>)
    requires n >= 2 && p.step(c) == Some(c1) && p.step(c1) == Some(c2)
    ensures Steps(p, n, c) == Steps(p, n - 2, c2)
  {
    assert Steps(p, n, c) == Steps(p, n - 1, c1) == Steps(p, n - 2, c2);
  }

  lemma ReturnedIsDone(w: World, f: nat, args: seq<Value>, gl: seq<Value>, ret: Label, t: nat, st: Stack, aux: VAux,
                       n: nat, s: VState)
    requires Whole(w) && Typed(w.ctx) && f in w.ctx.funcs && |gl| == w.p.numGlobals
             && |args| == |w.ctx.funcs[f].args|
    requires t < |w.p.code| && w.p.code[t].op == LabelOp(ret) && ReturnsIn(w, f, args, gl, ret, t, st, aux, n, s)
    ensures EvalCall(w.ctx, n, w.ctx.funcs[f], args, gl).Some?
  {
    var pos, s0 := w.sites[f].pos, VState(Push(LabelVal(ret), PushAll(args, st)), aux, Globals(gl));
    BodyPlaced(w, f);
    var g := CompileBody(w.ctx.funcs[f], w.sites[f].next, w.ctx.loc).value;
    EnterSteps(w, f, args, s0, LabelVal(ret), st, g);
    var L := args + Nones(g.slots - |args|);
    assert Steps(w.p, 0, Config(pos + 1, s0)) == Some(Config(pos + 1, s0));
    assert Steps(w.p, 1, Config(pos, s0)) == Some(Config(pos + 1, s0));
    TwoSteps(w.p, n, Config(pos, s0), Config(pos + 1, s0), Config(pos + 2, At(st, L, AVal(LabelVal(ret), aux), gl)));
    assert Onto(ANil, AVal(LabelVal(ret), aux)) == AVal(LabelVal(ret), aux);
    assert StateOnto(At(st, L, ANil, gl), AVal(LabelVal(ret), aux)) == At(st, L, AVal(LabelVal(ret), aux), gl);
    var m := LeavesByReturn(w.p, n - 2, Config(pos + 2, At(st, L, ANil, gl)), LabelVal(ret), aux);
    FuncDone(w, f, m, n, args, gl, L, st, ANil, g);
  }

  lemma DoneReturns(w: World, f: nat, fuel: nat, args: seq<Value>, gl: seq<Value>, ret: Label, t: nat, st: Stack,
                    aux: VAux, r: Ev) returns (n: nat)
    requires Whole(w) && f in w.ctx.funcs && |gl| == w.p.numGlobals
    requires t < |w.p.code| && w.p.code[t].op == LabelOp(ret)
    requires EvalCall(w.ctx, fuel, w.ctx.funcs[f], args, gl) == Some(r)
    ensures ReturnsIn(w, f, args, gl, ret, t, st, aux, n, VState(PushOpt(r.v, st), aux, Globals(r.s.globals)))
  {
    var pos, s0 := w.sites[f].pos, VState(Push(LabelVal(ret), PushAll(args, st)), aux, Globals(gl));
    BodyPlaced(w, f);
    var g := CompileBody(w.ctx.funcs[f], w.sites[f].next, w.ctx.loc).value;
    EnterSteps(w, f, args, s0, LabelVal(ret), st, g);
    var L, below := args + Nones(g.slots - |args|), AVal(LabelVal(ret), aux);
    var L' := CalleeBody(w, f, fuel, args, gl, L, st, below);
    var there := VState(PushOpt(r.v, st), aux, Globals(r.s.globals));
    DoReturn(w.p, pos + 2 + |g.code|, w.ctx.loc, g.slots, ret, PushOpt(r.v, st), L', aux, Globals(r.s.globals), t);
    GoOn(w.p, pos + 2, At(st, L, below, gl), pos + 2 + |g.code|, At(PushOpt(r.v, st), L', below, r.s.globals), t,
         there);
    var m: nat :| Steps(w.p, m, Config(pos + 2, At(st, L, below, gl))) == Some(Config(t, there));
    n := m + 2;
    TwoSteps(w.p, n, Config(pos, s0), Config(pos + 1, s0), Config(pos + 2, At(st, L, below, gl)));
  }

  /** A call that the type checker accepts returns exactly when its evaluation is defined: compiled
      code and evaluation fail, or run forever, on the same arguments and globals. */
  lemma ReturnsExactly(w: World, f: nat, args: seq<Value>, gl: seq<Value>, ret: Label, t: nat, st: Stack, aux: VAux)
    requires Whole(w) && Typed(w.ctx) && f in w.ctx.funcs && |gl| == w.p.numGlobals
             && |args| == |w.ctx.funcs[f].args|
    requires t < |w.p.code| && w.p.code[t].op == LabelOp(ret)
    ensures Returns(w, f, args, gl, ret, t, st, aux)
            <==> exists fuel: nat :: EvalCall(w.ctx, fuel, w.ctx.funcs[f], args, gl).Some?
  {
    if Returns(w, f, args, gl, ret, t, st, aux) {
      var n: nat, s :| ReturnsIn(w, f, args, gl, ret, t, st, aux, n, s);
      ReturnedIsDone(w, f, args, gl, ret, t, st, aux, n, s);
    }
    if exists fuel: nat :: EvalCall(w.ctx, fuel, w.ctx.funcs[f], args, gl).Some? {
      var fuel: nat :| EvalCall(w.ctx, fuel, w.ctx.funcs[f], args, gl).Some?;
      var n := DoneReturns(w, f, fuel, args, gl, ret, t, st, aux,
                           EvalCall(w.ctx, fuel, w.ctx.funcs[f], args, gl).value);
    }
  }

  /** So for every function of a module. */
  lemma ModuleReturnsExactly(fs: seq<Func>, isa: Isa, loc: nat, f: nat, args: seq<Value>, gl: seq<Value>, ret: Label,
                             t: nat, st: Stack, aux: VAux)
    requires isa.symbolic && DistinctNames(fs) && CompileModule(fs, 0, loc).Ok?
    requires CompileModule(fs, 0, loc).value.slots <= USIZE_LIMIT && f in FuncMap(fs)
             && |args| == |FuncMap(fs)[f].args|
    requires Typed(Ctx(isa, FuncMap(fs), loc))
    requires var code := CompileModule(fs, 0, loc).value.code; t < |code| && code[t].op == LabelOp(ret)
    ensures var w := ModuleWorld(fs, isa, |gl|, loc);
            f in w.sites && (Returns(w, f, args, gl, ret, t, st, aux)
                             <==> exists fuel: nat :: EvalCall(w.ctx, fuel, FuncMap(fs)[f], args, gl).Some?)
  {
    ModuleIsWhole(fs, isa, |gl|, loc);
    ReturnsExactly(ModuleWorld(fs, isa, |gl|, loc), f, args, gl, ret, t, st, aux);
  }
}
