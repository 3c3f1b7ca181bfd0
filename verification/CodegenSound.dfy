/** The induction behind the correctness of code generation, over expressions, blocks, statements,
    loop iterations and calls. */
module CodegenSound {
  import opened Avm
  import opened Machine
  import opened TupleTrees
  import opened Virtual
  import opened Mini
  import opened Codegen
  import opened CodegenShape
  import opened Runs
  import opened CodegenCorrect

  /** The machine is where the evaluator is: locals in their slots, globals in the register, and room
      for the slots the code uses. */
  ghost predicate Ready(w: World, v: View, s: Store, L: seq<Value>, slots: nat) {
    && Whole(w) && Consistent(v) && Holds(v, s.locals, L)
    && |s.globals| == w.p.numGlobals && slots <= |L| <= USIZE_LIMIT
  }

  /** The code of the given size at pc takes the machine to the result r. */
  ghost predicate Computes(w: World, v: View, pc: nat, size: nat, L: seq<Value>, st: Stack, below: VAux, gl: seq<Value>,
                           r: Ev, L': seq<Value>) {
    && Holds(v, r.s.locals, L') && Untouched(v, L, L') && |r.s.globals| == w.p.numGlobals
    && Go(w.p, pc, At(st, L, below, gl), pc + size, At(PushOpt(r.v, st), L', below, r.s.globals))
  }

  /** The same for statements, which leave a view d with their declarations. */
  ghost predicate Executes(w: World, v: View, d: View, pc: nat, size: nat, L: seq<Value>, st: Stack, below: VAux,
                           gl: seq<Value>, s: Store, L': seq<Value>) {
    && Consistent(d) && Extends(v, d) && Holds(d, s.locals, L') && Untouched(v, L, L') && |s.globals| == w.p.numGlobals
    && Go(w.p, pc, At(st, L, below, gl), pc + size, At(st, L', below, s.globals))
  }

  /** One computation after another, the second with more on the stack. */
  lemma Chain(w: World, v: View, pc: nat, a: nat, b: nat, size: nat, L: seq<Value>, st: Stack, below: VAux,
              gl: seq<Value>, r: Ev, L1: seq<Value>, s2: VState, L2: seq<Value>)
    requires size == a + b
    requires Computes(w, v, pc, a, L, st, below, gl, r, L1) && Untouched(v, L1, L2)
    requires Go(w.p, pc + a, At(PushOpt(r.v, st), L1, below, r.s.globals), pc + a + b, s2)
    ensures Untouched(v, L, L2) && Go(w.p, pc, At(st, L, below, gl), pc + size, s2)
  {
    UntouchedTwice(v, L, L1, L2);
    GoOn(w.p, pc, At(st, L, below, gl), pc + a, At(PushOpt(r.v, st), L1, below, r.s.globals), pc + a + b, s2);
  }

  /** Instructions after a computation that only change the data stack. */
  lemma Finish(w: World, v: View, pc: nat, a: nat, b: nat, size: nat, L: seq<Value>, st: Stack, below: VAux,
               gl: seq<Value>, r: Ev, L': seq<Value>, r': Ev)
    requires size == a + b
    requires Computes(w, v, pc, a, L, st, below, gl, r, L') && r'.s == r.s
    requires Go(w.p, pc + a, At(PushOpt(r.v, st), L', below, r.s.globals), pc + a + b,
                At(PushOpt(r'.v, st), L', below, r.s.globals))
    ensures Computes(w, v, pc, size, L, st, below, gl, r', L')
  {
    GoOn(w.p, pc, At(st, L, below, gl), pc + a, At(PushOpt(r.v, st), L', below, r.s.globals),
         pc + a + b, At(PushOpt(r'.v, st), L', below, r.s.globals));
  }

  // ----- expressions -----

  lemma {:induction false} ExprSound(w: World, e: Expr, v: View, next: nat, fuel: nat, s: Store,
                                     pc: nat, L: seq<Value>, st: Stack, below: VAux, g: Gen, r: Ev)
    returns (L': seq<Value>)
    requires CompileExpr(e, v.n, v.env, next, w.ctx.loc) == Ok(g) && Placed(w.p, pc, g.code, |L|)
    requires Ready(w, v, s, L, g.slots) && EvalExpr(w.ctx, fuel, e, v.names, s) == Some(r)
    ensures Computes(w, v, pc, |g.code|, L, st, below, s.globals, r, L')
    decreases fuel, e, 3
  {
    match e
    case Const(_) => L' := LeafSound(w, e, v, next, fuel, s, pc, L, st, below, g, r);
    case Local(_) => L' := LeafSound(w, e, v, next, fuel, s, pc, L, st, below, g, r);
    case GlobalRef(_) => L' := LeafSound(w, e, v, next, fuel, s, pc, L, st, below, g, r);
    case Not(_) => L' := NotSound(w, e, v, next, fuel, s, pc, L, st, below, g, r);
    case DotRef(_, _, _) => L' := DotSound(w, e, v, next, fuel, s, pc, L, st, below, g, r);
    case Binary(_, _, _) => L' := BinarySound(w, e, v, next, fuel, s, pc, L, st, below, g, r);
    case ShortcutAnd(_, _) => L' := ShortcutSound(w, e, v, next, fuel, s, pc, L, st, below, g, r);
    case ShortcutOr(_, _) => L' := ShortcutSound(w, e, v, next, fuel, s, pc, L, st, below, g, r);
    case If(_, _, _) => L' := IfSound(w, e, v, next, fuel, s, pc, L, st, below, g, r);
    case CodeBlock(b) => L' := BlockSound(w, b, v, next, fuel, s, pc, L, st, below, g, r);
    case Call(_, _) => L' := CallSound(w, e, v, next, fuel, s, pc, L, st, below, g, r);
    case StructInit(_) => L' := StructSound(w, e, v, next, fuel, s, pc, L, st, below, g, r);
    case StructMod(_, _, _, _) => L' := ModSound(w, e, v, next, fuel, s, pc, L, st, below, g, r);
  }

  lemma LeafSound(w: World, e: Expr, v: View, next: nat, fuel: nat, s: Store,
                  pc: nat, L: seq<Value>, st: Stack, below: VAux, g: Gen, r: Ev) returns (L': seq<Value>)
    requires e.Const? || e.Local? || e.GlobalRef?
    requires CompileExpr(e, v.n, v.env, next, w.ctx.loc) == Ok(g) && Placed(w.p, pc, g.code, |L|)
    requires Ready(w, v, s, L, g.slots) && EvalExpr(w.ctx, fuel, e, v.names, s) == Some(r)
    ensures Computes(w, v, pc, |g.code|, L, st, below, s.globals, r, L')
  {
    L' := L;
    PlacedAt(w.p, pc, g.code, |L|, 0);
    if e.Const? {
      DoPush(w.p, pc, e.v, w.ctx.loc, |L|, At(st, L, below, s.globals));
    } else if e.Local? {
      var k := Last(v.names, e.name).value;
      assert v.env[e.name] == SlotOf(v, e.name) == v.slots[k];
      DoGetLocal(w.p, pc, v.slots[k], w.ctx.loc, st, L, below, s.globals);
    } else {
      DoGetGlobal(w.p, pc, e.idx, w.ctx.loc, st, L, below, s.globals);
    }
  }

  lemma {:induction false} NotSound(w: World, e: Expr, v: View, next: nat, fuel: nat, s: Store,
                                    pc: nat, L: seq<Value>, st: Stack, below: VAux, g: Gen, r: Ev)
    returns (L': seq<Value>)
    requires e.Not? && CompileExpr(e, v.n, v.env, next, w.ctx.loc) == Ok(g) && Placed(w.p, pc, g.code, |L|)
    requires Ready(w, v, s, L, g.slots) && EvalExpr(w.ctx, fuel, e, v.names, s) == Some(r)
    ensures Computes(w, v, pc, |g.code|, L, st, below, s.globals, r, L')
    decreases fuel, e, 0
  {
    var a, more := CompileExpr(e.e, v.n, v.env, next, w.ctx.loc).value, [Plain(IsZero, w.ctx.loc)];
    Split(w.p, pc, a.code, more, |L|);
    PlacedAt(w.p, pc + |a.code|, more, |L|, 0);
    var x := EvalExpr(w.ctx, fuel, e.e, v.names, s).value;
    L' := ExprSound(w, e.e, v, next, fuel, s, pc, L, st, below, a, x);
    IsZeroRuns(w.p, w.ctx, pc + |a.code|, |L|, x.v.value, At(st, L', below, x.s.globals));
    Finish(w, v, pc, |a.code|, 1, |g.code|, L, st, below, s.globals, x, L', r);
  }

  lemma {:induction false} DotSound(w: World, e: Expr, v: View, next: nat, fuel: nat, s: Store,
                                    pc: nat, L: seq<Value>, st: Stack, below: VAux, g: Gen, r: Ev)
    returns (L': seq<Value>)
    requires e.DotRef? && CompileExpr(e, v.n, v.env, next, w.ctx.loc) == Ok(g) && Placed(w.p, pc, g.code, |L|)
    requires Ready(w, v, s, L, g.slots) && EvalExpr(w.ctx, fuel, e, v.names, s) == Some(r)
    ensures Computes(w, v, pc, |g.code|, L, st, below, s.globals, r, L')
    decreases fuel, e, 0
  {
    var a := DotParts(w, e, v, next, pc, |L|, g);
    var x := DotValues(w, e, v, fuel, s, r);
    L' := ExprSound(w, e.e, v, next, fuel, s, pc, L, st, below, a, x);
    DotJoin(w, v, pc, |a.code|, |g.code|, e.slot, e.size, L, L', st, below, s.globals, x, r);
  }

  lemma DotParts(w: World, e: Expr, v: View, next: nat, pc: nat, frame: nat, g: Gen) returns (a: Gen)
    requires e.DotRef? && CompileExpr(e, v.n, v.env, next, w.ctx.loc) == Ok(g) && Placed(w.p, pc, g.code, frame)
    ensures CompileExpr(e.e, v.n, v.env, next, w.ctx.loc) == Ok(a) && a.slots <= g.slots && |g.code| == |a.code| + 1
    ensures Placed(w.p, pc, a.code, frame) && IsAt(w.p, pc + |a.code|, Slot(TupleGet(e.size), e.slot, w.ctx.loc), frame)
  {
    a := CompileExpr(e.e, v.n, v.env, next, w.ctx.loc).value;
    var more := [Slot(TupleGet(e.size), e.slot, w.ctx.loc)];
    Split(w.p, pc, a.code, more, frame);
    PlacedAt(w.p, pc + |a.code|, more, frame, 0);
  }

  /** The value of a field. */
  function FieldOf(x: Value, slot: nat, size: nat): Option<Value> {
    var fields := Flatten(TreeOf(size, false), x);
    if fields.Some? && slot < size && slot < USIZE_LIMIT then Some(fields.value[slot]) else None
  }

  lemma DotValues(w: World, e: Expr, v: View, fuel: nat, s: Store, r: Ev) returns (x: Ev)
    requires e.DotRef? && |s.locals| == |v.names| && EvalExpr(w.ctx, fuel, e, v.names, s) == Some(r)
    ensures EvalExpr(w.ctx, fuel, e.e, v.names, s) == Some(x) && x.v.Some?
    ensures r.v.Some? && FieldOf(x.v.value, e.slot, e.size) == r.v && r.s == x.s
  {
    assert EvalStruct(w.ctx, fuel, e, v.names, s) == Some(r);
    x := EvalExpr(w.ctx, fuel, e.e, v.names, s).value;
  }

  lemma DotJoin(w: World, v: View, pc: nat, a: nat, size: nat, slot: nat, fields: nat, L: seq<Value>, L': seq<Value>,
                st: Stack, below: VAux, gl: seq<Value>, x: Ev, r: Ev)
    requires Runnable(w.p) && x.v.Some? && r.v.Some? && r.s == x.s && FieldOf(x.v.value, slot, fields) == r.v
    requires Computes(w, v, pc, a, L, st, below, gl, x, L') && size == a + 1
    requires IsAt(w.p, pc + a, Slot(TupleGet(fields), slot, w.ctx.loc), |L|)
    ensures Computes(w, v, pc, size, L, st, below, gl, r, L')
  {
    DoTupleGet(w.p, pc + a, fields, slot, w.ctx.loc, |L|, Flatten(TreeOf(fields, false), x.v.value).value,
               x.v.value, At(st, L', below, x.s.globals));
    Finish(w, v, pc, a, 1, size, L, st, below, gl, x, L', r);
  }

  lemma {:induction false} BinarySound(w: World, e: Expr, v: View, next: nat, fuel: nat, s: Store,
                                       pc: nat, L: seq<Value>, st: Stack, below: VAux, g: Gen, r: Ev)
    returns (L': seq<Value>)
    requires e.Binary? && CompileExpr(e, v.n, v.env, next, w.ctx.loc) == Ok(g) && Placed(w.p, pc, g.code, |L|)
    requires Ready(w, v, s, L, g.slots) && EvalExpr(w.ctx, fuel, e, v.names, s) == Some(r)
    ensures Computes(w, v, pc, |g.code|, L, st, below, s.globals, r, L')
    decreases fuel, e, 1
  {
    var gy, gx := BinaryParts(w, e, v, next, pc, |L|, g);
    var y, x := BinaryValues(w, e, v, fuel, s, r);
    L' := OperandsSound(w, e, v, next, fuel, s, pc, |g.code|, L, st, below, gy, gx, y, x, r);
  }

  lemma {:induction false} OperandsSound(w: World, e: Expr, v: View, next: nat, fuel: nat, s: Store, pc: nat, size: nat,
                                         L: seq<Value>, st: Stack, below: VAux, gy: Gen, gx: Gen, y: Ev, x: Ev, r: Ev)
    returns (L': seq<Value>)
    requires e.Binary? && BinaryAt(w, e, v, next, pc, |L|, gy, gx)
             && size == |gy.code| + |gx.code| + |OpCode(e.op, w.ctx.loc)|
    requires Ready(w, v, s, L, 0) && EvalExpr(w.ctx, fuel, e.right, v.names, s) == Some(y)
             && |y.s.locals| == |v.names| && EvalExpr(w.ctx, fuel, e.left, v.names, y.s) == Some(x)
    requires y.v.Some? && x.v.Some? && r.v.Some? && Apply(w.ctx, e.op, x.v.value, y.v.value) == r.v && r.s == x.s
    ensures Computes(w, v, pc, size, L, st, below, s.globals, r, L')
    decreases fuel, e, 0
  {
    var L1 := ExprSound(w, e.right, v, next, fuel, s, pc, L, st, below, gy, y);
    L' := BinaryRest(w, e.left, e.op, v, gy.next, fuel, s.globals, pc, |gy.code|, size, L, L1, st, below, gx, y, x, r);
  }

  lemma BinaryValues(w: World, e: Expr, v: View, fuel: nat, s: Store, r: Ev) returns (y: Ev, x: Ev)
    requires e.Binary? && |s.locals| == |v.names| && EvalExpr(w.ctx, fuel, e, v.names, s) == Some(r)
    ensures EvalExpr(w.ctx, fuel, e.right, v.names, s) == Some(y) && |y.s.locals| == |v.names|
    ensures EvalExpr(w.ctx, fuel, e.left, v.names, y.s) == Some(x)
    ensures y.v.Some? && x.v.Some? && r.v.Some? && Apply(w.ctx, e.op, x.v.value, y.v.value) == r.v && r.s == x.s
  {
    y := EvalExpr(w.ctx, fuel, e.right, v.names, s).value;
    x := EvalExpr(w.ctx, fuel, e.left, v.names, y.s).value;
  }

  /** The code of a binary operator and where its parts stand. */
  ghost predicate BinaryAt(w: World, e: Expr, v: View, next: nat, pc: nat, frame: nat, gy: Gen, gx: Gen)
    requires e.Binary?
  {
    && CompileExpr(e.right, v.n, v.env, next, w.ctx.loc) == Ok(gy)
    && CompileExpr(e.left, v.n, v.env, gy.next, w.ctx.loc) == Ok(gx)
    && gy.slots <= frame && gx.slots <= frame && Placed(w.p, pc, gy.code, frame)
    && Placed(w.p, pc + |gy.code|, gx.code, frame)
    && Placed(w.p, pc + |gy.code| + |gx.code|, OpCode(e.op, w.ctx.loc), frame)
  }

  lemma BinaryParts(w: World, e: Expr, v: View, next: nat, pc: nat, frame: nat, g: Gen) returns (gy: Gen, gx: Gen)
    requires e.Binary? && CompileExpr(e, v.n, v.env, next, w.ctx.loc) == Ok(g) && g.slots <= frame
             && Placed(w.p, pc, g.code, frame)
    ensures BinaryAt(w, e, v, next, pc, frame, gy, gx) && |g.code| == |gy.code| + |gx.code| + |OpCode(e.op, w.ctx.loc)|
  {
    gy := CompileExpr(e.right, v.n, v.env, next, w.ctx.loc).value;
    gx := CompileExpr(e.left, v.n, v.env, gy.next, w.ctx.loc).value;
    Split(w.p, pc, gy.code + gx.code, OpCode(e.op, w.ctx.loc), frame);
    Split(w.p, pc, gy.code, gx.code, frame);
    assert pc + |gy.code + gx.code| == pc + |gy.code| + |gx.code|;
  }

  /** One expression after another, with the value of that one on the stack. */
  lemma {:induction false} Second(w: World, e: Expr, v: View, next: nat, fuel: nat, gl: seq<Value>, pc: nat, a: nat,
                                  L: seq<Value>, L1: seq<Value>, st: Stack, below: VAux, g: Gen, y: Ev, x: Ev)
    returns (L2: seq<Value>)
    requires CompileExpr(e, v.n, v.env, next, w.ctx.loc) == Ok(g) && Placed(w.p, pc + a, g.code, |L|)
    requires Whole(w) && Consistent(v) && g.slots <= |L| <= USIZE_LIMIT
    requires |y.s.locals| == |v.names| && EvalExpr(w.ctx, fuel, e, v.names, y.s) == Some(x)
    requires Computes(w, v, pc, a, L, st, below, gl, y, L1)
    ensures Computes(w, v, pc + a, |g.code|, L1, PushOpt(y.v, st), below, y.s.globals, x, L2)
    decreases fuel, e, 4
  {
    L2 := ExprSound(w, e, v, next, fuel, y.s, pc + a, L1, PushOpt(y.v, st), below, g, x);
  }

  /** The left operand, after the right one, and the operator. */
  lemma {:induction false} BinaryRest(w: World, e: Expr, op: BinaryOp, v: View, next: nat, fuel: nat, gl: seq<Value>,
                                      pc: nat, a: nat, size: nat, L: seq<Value>, L1: seq<Value>, st: Stack, below: VAux,
                                      g: Gen, y: Ev, x: Ev, r: Ev)
    returns (L': seq<Value>)
    requires CompileExpr(e, v.n, v.env, next, w.ctx.loc) == Ok(g) && Placed(w.p, pc + a, g.code, |L|)
    requires Placed(w.p, pc + a + |g.code|, OpCode(op, w.ctx.loc), |L|)
    requires size == a + |g.code| + |OpCode(op, w.ctx.loc)|
    requires Whole(w) && Consistent(v) && g.slots <= |L| <= USIZE_LIMIT
    requires |y.s.locals| == |v.names| && EvalExpr(w.ctx, fuel, e, v.names, y.s) == Some(x)
    requires y.v.Some? && x.v.Some? && r.v.Some? && Apply(w.ctx, op, x.v.value, y.v.value) == r.v && r.s == x.s
    requires Computes(w, v, pc, a, L, st, below, gl, y, L1)
    ensures Computes(w, v, pc, size, L, st, below, gl, r, L')
    decreases fuel, e, 5
  {
    L' := Second(w, e, v, next, fuel, gl, pc, a, L, L1, st, below, g, y, x);
    BinaryJoin(w, v, pc, a, |g.code|, size, op, L, L1, L', st, below, gl, y, x, r);
  }

  lemma BinaryJoin(w: World, v: View, pc: nat, a: nat, b: nat, size: nat, op: BinaryOp, L: seq<Value>, L1: seq<Value>,
                   L2: seq<Value>, st: Stack, below: VAux, gl: seq<Value>, y: Ev, x: Ev, r: Ev)
    requires Runnable(w.p) && w.p.isa == w.ctx.isa && y.v.Some? && x.v.Some? && r.v.Some? && r.s == x.s
    requires Apply(w.ctx, op, x.v.value, y.v.value) == r.v
    requires Computes(w, v, pc, a, L, st, below, gl, y, L1)
    requires Computes(w, v, pc + a, b, L1, PushOpt(y.v, st), below, y.s.globals, x, L2)
    requires Placed(w.p, pc + a + b, OpCode(op, w.ctx.loc), |L|)
    requires size == a + b + |OpCode(op, w.ctx.loc)|
    ensures Computes(w, v, pc, size, L, st, below, gl, r, L2)
  {
    var c, st1 := |OpCode(op, w.ctx.loc)|, PushOpt(y.v, st);
    var there := At(PushOpt(r.v, st), L2, below, r.s.globals);
    OpRunsAt(w, pc + a + b, |L|, op, x.v, y.v, r.v, st, L2, below, x.s.globals);
    GoOn(w.p, pc + a, At(st1, L1, below, y.s.globals), pc + a + b, At(PushOpt(x.v, st1), L2, below, x.s.globals),
         pc + a + b + c, there);
    Chain(w, v, pc, a, b + c, size, L, st, below, gl, y, L1, there, L2);
  }

  lemma OpRunsAt(w: World, pc: nat, frame: nat, op: BinaryOp, x: Option<Value>, y: Option<Value>, r: Option<Value>,
                 st: Stack, L: seq<Value>, below: VAux, gl: seq<Value>)
    requires Runnable(w.p) && w.p.isa == w.ctx.isa && Placed(w.p, pc, OpCode(op, w.ctx.loc), frame)
    requires x.Some? && y.Some? && r.Some? && Apply(w.ctx, op, x.value, y.value) == r
    ensures Go(w.p, pc, At(PushOpt(x, PushOpt(y, st)), L, below, gl), pc + |OpCode(op, w.ctx.loc)|,
               At(PushOpt(r, st), L, below, gl))
  {
    OpRuns(w.p, w.ctx, pc, frame, op, x.value, y.value, r.value, At(st, L, below, gl));
  }

  /** Putting a field into a struct: the same tree that built it. */
  lemma {:induction false} ModSound(w: World, e: Expr, v: View, next: nat, fuel: nat, s: Store,
                                    pc: nat, L: seq<Value>, st: Stack, below: VAux, g: Gen, r: Ev)
    returns (L': seq<Value>)
    requires e.StructMod? && CompileExpr(e, v.n, v.env, next, w.ctx.loc) == Ok(g) && Placed(w.p, pc, g.code, |L|)
    requires Ready(w, v, s, L, g.slots) && EvalExpr(w.ctx, fuel, e, v.names, s) == Some(r)
    ensures Computes(w, v, pc, |g.code|, L, st, below, s.globals, r, L')
    decreases fuel, e, 1
  {
    var gy, gx := ModParts(w, e, v, next, pc, |L|, g);
    var y, x := ModValues(w, e, v, fuel, s, r);
    L' := FieldSound(w, e, v, next, fuel, s, pc, |g.code|, L, st, below, gy, gx, y, x, r);
  }

  lemma {:induction false} FieldSound(w: World, e: Expr, v: View, next: nat, fuel: nat, s: Store, pc: nat, size: nat,
                                      L: seq<Value>, st: Stack, below: VAux, gy: Gen, gx: Gen, y: Ev, x: Ev, r: Ev)
    returns (L': seq<Value>)
    requires e.StructMod? && ModAt(w, e, v, next, pc, |L|, gy, gx) && size == |gy.code| + |gx.code| + 1
    requires Ready(w, v, s, L, 0) && EvalExpr(w.ctx, fuel, e.value, v.names, s) == Some(y)
             && |y.s.locals| == |v.names| && EvalExpr(w.ctx, fuel, e.e, v.names, y.s) == Some(x)
    requires y.v.Some? && x.v.Some? && r.v.Some? && WithField(x.v.value, e.slot, e.size, y.v.value) == r.v
             && r.s == x.s
    ensures Computes(w, v, pc, size, L, st, below, s.globals, r, L')
    decreases fuel, e, 0
  {
    var L1 := ExprSound(w, e.value, v, next, fuel, s, pc, L, st, below, gy, y);
    L' := ModRest(w, e.e, e.slot, e.size, v, gy.next, fuel, s.globals, pc, |gy.code|, size, L, L1, st, below, gx, y, x,
                  r);
  }

  lemma ModValues(w: World, e: Expr, v: View, fuel: nat, s: Store, r: Ev) returns (y: Ev, x: Ev)
    requires e.StructMod? && |s.locals| == |v.names| && EvalExpr(w.ctx, fuel, e, v.names, s) == Some(r)
    ensures EvalExpr(w.ctx, fuel, e.value, v.names, s) == Some(y) && |y.s.locals| == |v.names|
    ensures EvalExpr(w.ctx, fuel, e.e, v.names, y.s) == Some(x)
    ensures y.v.Some? && x.v.Some? && r.v.Some? && WithField(x.v.value, e.slot, e.size, y.v.value) == r.v && r.s == x.s
  {
    y := EvalExpr(w.ctx, fuel, e.value, v.names, s).value;
    x := EvalExpr(w.ctx, fuel, e.e, v.names, y.s).value;
  }

  ghost predicate ModAt(w: World, e: Expr, v: View, next: nat, pc: nat, frame: nat, gy: Gen, gx: Gen)
    requires e.StructMod?
  {
    && CompileExpr(e.value, v.n, v.env, next, w.ctx.loc) == Ok(gy)
    && CompileExpr(e.e, v.n, v.env, gy.next, w.ctx.loc) == Ok(gx)
    && gy.slots <= frame && gx.slots <= frame && Placed(w.p, pc, gy.code, frame)
    && Placed(w.p, pc + |gy.code|, gx.code, frame)
    && IsAt(w.p, pc + |gy.code| + |gx.code|, Slot(TupleSet(e.size), e.slot, w.ctx.loc), frame)
  }

  lemma ModParts(w: World, e: Expr, v: View, next: nat, pc: nat, frame: nat, g: Gen) returns (gy: Gen, gx: Gen)
    requires e.StructMod? && CompileExpr(e, v.n, v.env, next, w.ctx.loc) == Ok(g) && g.slots <= frame
             && Placed(w.p, pc, g.code, frame)
    ensures ModAt(w, e, v, next, pc, frame, gy, gx) && |g.code| == |gy.code| + |gx.code| + 1
  {
    gy := CompileExpr(e.value, v.n, v.env, next, w.ctx.loc).value;
    gx := CompileExpr(e.e, v.n, v.env, gy.next, w.ctx.loc).value;
    var last := [Slot(TupleSet(e.size), e.slot, w.ctx.loc)];
    Split(w.p, pc, gy.code + gx.code, last, frame);
    Split(w.p, pc, gy.code, gx.code, frame);
    PlacedAt(w.p, pc + |gy.code + gx.code|, last, frame, 0);
    assert pc + |gy.code + gx.code| == pc + |gy.code| + |gx.code|;
  }

  /** The struct, after the new field, and the update. */
  lemma {:induction false} ModRest(w: World, e: Expr, slot: nat, fields: nat, v: View, next: nat, fuel: nat,
                                   gl: seq<Value>, pc: nat, a: nat, size: nat, L: seq<Value>, L1: seq<Value>, st: Stack,
                                   below: VAux, g: Gen, y: Ev, x: Ev, r: Ev)
    returns (L': seq<Value>)
    requires CompileExpr(e, v.n, v.env, next, w.ctx.loc) == Ok(g) && Placed(w.p, pc + a, g.code, |L|)
    requires IsAt(w.p, pc + a + |g.code|, Slot(TupleSet(fields), slot, w.ctx.loc), |L|) && size == a + |g.code| + 1
    requires Whole(w) && Consistent(v) && g.slots <= |L| <= USIZE_LIMIT
    requires |y.s.locals| == |v.names| && EvalExpr(w.ctx, fuel, e, v.names, y.s) == Some(x)
    requires y.v.Some? && x.v.Some? && r.v.Some? && WithField(x.v.value, slot, fields, y.v.value) == r.v && r.s == x.s
    requires Computes(w, v, pc, a, L, st, below, gl, y, L1)
    ensures Computes(w, v, pc, size, L, st, below, gl, r, L')
    decreases fuel, e, 5
  {
    L' := Second(w, e, v, next, fuel, gl, pc, a, L, L1, st, below, g, y, x);
    ModJoin(w, v, pc, a, |g.code|, size, slot, fields, L, L1, L', st, below, gl, y, x, r);
  }

  lemma ModJoin(w: World, v: View, pc: nat, a: nat, b: nat, size: nat, slot: nat, fields: nat, L: seq<Value>,
                L1: seq<Value>, L2: seq<Value>, st: Stack, below: VAux, gl: seq<Value>, y: Ev, x: Ev, r: Ev)
    requires Runnable(w.p) && y.v.Some? && x.v.Some? && r.v.Some? && r.s == x.s
    requires WithField(x.v.value, slot, fields, y.v.value) == r.v
    requires Computes(w, v, pc, a, L, st, below, gl, y, L1)
    requires Computes(w, v, pc + a, b, L1, PushOpt(y.v, st), below, y.s.globals, x, L2)
    requires IsAt(w.p, pc + a + b, Slot(TupleSet(fields), slot, w.ctx.loc), |L|) && size == a + b + 1
    ensures Computes(w, v, pc, size, L, st, below, gl, r, L2)
  {
    var st1, there := PushOpt(y.v, st), At(PushOpt(r.v, st), L2, below, r.s.globals);
    SetFieldRuns(w.p, pc + a + b, fields, slot, w.ctx.loc, |L|, x.v.value, y.v.value, r.v.value,
                 At(st, L2, below, x.s.globals));
    GoOn(w.p, pc + a, At(st1, L1, below, y.s.globals), pc + a + b, At(PushOpt(x.v, st1), L2, below, x.s.globals),
         pc + a + b + 1, there);
    Chain(w, v, pc, a, b + 1, size, L, st, below, gl, y, L1, there, L2);
  }

  lemma SetFieldRuns(p: Prog, pc: nat, size: nat, slot: nat, loc: nat, frame: nat, struc: Value, x: Value, r: Value,
                     s: VState)
    requires Runnable(p) && IsAt(p, pc, Slot(TupleSet(size), slot, loc), frame)
             && WithField(struc, slot, size, x) == Some(r)
    ensures Go(p, pc, s.(stack := Push(struc, Push(x, s.stack))), pc + 1, s.(stack := Push(r, s.stack)))
  {
    DoTupleSet(p, pc, size, slot, loc, frame, Flatten(TreeOf(size, false), struc).value, x, s);
  }

  /** Arguments end up on the stack with the first on top. */
  lemma {:induction false} ArgsSound(w: World, es: seq<Expr>, v: View, next: nat, fuel: nat, s: Store,
                                     pc: nat, L: seq<Value>, st: Stack, below: VAux, g: Gen, r: Evs)
    returns (L': seq<Value>)
    requires CompileArgs(es, v.n, v.env, next, w.ctx.loc) == Ok(g) && Placed(w.p, pc, g.code, |L|)
    requires Ready(w, v, s, L, g.slots) && EvalArgs(w.ctx, fuel, es, v.names, s) == Some(r)
    ensures && Holds(v, r.s.locals, L') && Untouched(v, L, L') && |r.s.globals| == w.p.numGlobals
            && Go(w.p, pc, At(st, L, below, s.globals), pc + |g.code|, At(PushAll(r.vs, st), L', below, r.s.globals))
    decreases fuel, es, 0
  {
    if es == [] {
      L' := ArgsNone(w, v, next, fuel, s, pc, L, st, below, g, r);
    } else {
      var gs, gx := ArgsParts(w, es, v, next, pc, |L|, g);
      var xs, x := ArgsValues(w, es, v, fuel, s, st, r);
      var L1 := ArgsSound(w, es[1..], v, next, fuel, s, pc, L, st, below, gs, xs);
      L' := ArgsRest(w, es[0], v, gs.next, fuel, s.globals, pc, |gs.code|, |g.code|, L, L1, st, below, gx, xs, x, r);
    }
  }

  lemma ArgsNone(w: World, v: View, next: nat, fuel: nat, s: Store, pc: nat, L: seq<Value>, st: Stack, below: VAux,
                 g: Gen, r: Evs) returns (L': seq<Value>)
    requires CompileArgs([], v.n, v.env, next, w.ctx.loc) == Ok(g)
    requires Ready(w, v, s, L, g.slots) && EvalArgs(w.ctx, fuel, [], v.names, s) == Some(r)
    ensures Holds(v, r.s.locals, L') && Untouched(v, L, L') && |r.s.globals| == w.p.numGlobals
    ensures Go(w.p, pc, At(st, L, below, s.globals), pc + |g.code|, At(PushAll(r.vs, st), L', below, r.s.globals))
  {
    L' := L;
    Stay(w.p, pc, At(st, L, below, s.globals));
  }

  lemma {:induction false} ArgsRest(w: World, e: Expr, v: View, next: nat, fuel: nat, gl: seq<Value>, pc: nat, a: nat,
                                    size: nat, L: seq<Value>, L1: seq<Value>, st: Stack, below: VAux, g: Gen, xs: Evs,
                                    x: Ev, r: Evs)
    returns (L': seq<Value>)
    requires CompileExpr(e, v.n, v.env, next, w.ctx.loc) == Ok(g) && Placed(w.p, pc + a, g.code, |L|)
             && size == a + |g.code|
    requires Whole(w) && Consistent(v) && g.slots <= |L| <= USIZE_LIMIT && Holds(v, xs.s.locals, L1)
    requires |xs.s.globals| == w.p.numGlobals
    requires |xs.s.locals| == |v.names| && EvalExpr(w.ctx, fuel, e, v.names, xs.s) == Some(x)
    requires Untouched(v, L, L1) && r.s == x.s && PushAll(r.vs, st) == PushOpt(x.v, PushAll(xs.vs, st))
    requires Go(w.p, pc, At(st, L, below, gl), pc + a, At(PushAll(xs.vs, st), L1, below, xs.s.globals))
    ensures Holds(v, r.s.locals, L') && Untouched(v, L, L') && |r.s.globals| == w.p.numGlobals
    ensures Go(w.p, pc, At(st, L, below, gl), pc + size, At(PushAll(r.vs, st), L', below, r.s.globals))
    decreases fuel, e, 4
  {
    L' := ExprSound(w, e, v, next, fuel, xs.s, pc + a, L1, PushAll(xs.vs, st), below, g, x);
    ArgsJoin(w, v, pc, a, |g.code|, size, L, L1, L', st, below, gl, xs, x, r);
  }

  lemma ArgsJoin(w: World, v: View, pc: nat, a: nat, b: nat, size: nat, L: seq<Value>, L1: seq<Value>, L2: seq<Value>,
                 st: Stack, below: VAux, gl: seq<Value>, xs: Evs, x: Ev, r: Evs)
    requires size == a + b && Untouched(v, L, L1) && r.s == x.s && PushAll(r.vs, st) == PushOpt(x.v, PushAll(xs.vs, st))
    requires Go(w.p, pc, At(st, L, below, gl), pc + a, At(PushAll(xs.vs, st), L1, below, xs.s.globals))
    requires Computes(w, v, pc + a, b, L1, PushAll(xs.vs, st), below, xs.s.globals, x, L2)
    ensures Holds(v, r.s.locals, L2) && Untouched(v, L, L2) && |r.s.globals| == w.p.numGlobals
    ensures Go(w.p, pc, At(st, L, below, gl), pc + size, At(PushAll(r.vs, st), L2, below, r.s.globals))
  {
    UntouchedTwice(v, L, L1, L2);
    GoOn(w.p, pc, At(st, L, below, gl), pc + a, At(PushAll(xs.vs, st), L1, below, xs.s.globals),
         pc + a + b, At(PushOpt(x.v, PushAll(xs.vs, st)), L2, below, x.s.globals));
  }

  lemma ArgsParts(w: World, es: seq<Expr>, v: View, next: nat, pc: nat, frame: nat, g: Gen) returns (gs: Gen, gx: Gen)
    requires es != [] && CompileArgs(es, v.n, v.env, next, w.ctx.loc) == Ok(g) && Placed(w.p, pc, g.code, frame)
    ensures CompileArgs(es[1..], v.n, v.env, next, w.ctx.loc) == Ok(gs)
            && CompileExpr(es[0], v.n, v.env, gs.next, w.ctx.loc) == Ok(gx)
    ensures Placed(w.p, pc, gs.code, frame) && Placed(w.p, pc + |gs.code|, gx.code, frame)
    ensures |g.code| == |gs.code| + |gx.code| && gs.slots <= g.slots && gx.slots <= g.slots
  {
    gs := CompileArgs(es[1..], v.n, v.env, next, w.ctx.loc).value;
    gx := CompileExpr(es[0], v.n, v.env, gs.next, w.ctx.loc).value;
    Split(w.p, pc, gs.code, gx.code, frame);
  }

  lemma ArgsValues(w: World, es: seq<Expr>, v: View, fuel: nat, s: Store, st: Stack, r: Evs) returns (xs: Evs, x: Ev)
    requires es != [] && |s.locals| == |v.names| && EvalArgs(w.ctx, fuel, es, v.names, s) == Some(r)
    ensures EvalArgs(w.ctx, fuel, es[1..], v.names, s) == Some(xs) && |xs.s.locals| == |v.names|
    ensures EvalExpr(w.ctx, fuel, es[0], v.names, xs.s) == Some(x) && x.v.Some? && r.s == x.s
    ensures PushAll(r.vs, st) == PushOpt(x.v, PushAll(xs.vs, st))
  {
    xs := EvalArgs(w.ctx, fuel, es[1..], v.names, s).value;
    x := EvalExpr(w.ctx, fuel, es[0], v.names, xs.s).value;
    assert r.vs[1..] == xs.vs;
  }

  lemma {:induction false} StructSound(w: World, e: Expr, v: View, next: nat, fuel: nat, s: Store,
                                       pc: nat, L: seq<Value>, st: Stack, below: VAux, g: Gen, r: Ev)
    returns (L': seq<Value>)
    requires e.StructInit? && CompileExpr(e, v.n, v.env, next, w.ctx.loc) == Ok(g) && Placed(w.p, pc, g.code, |L|)
    requires Ready(w, v, s, L, g.slots) && EvalExpr(w.ctx, fuel, e, v.names, s) == Some(r)
    ensures Computes(w, v, pc, |g.code|, L, st, below, s.globals, r, L')
    decreases fuel, e, 0
  {
    var gs, xs := StructParts(w, e, v, next, fuel, s, pc, |L|, g, r);
    L' := ArgsSound(w, e.fields, v, next, fuel, s, pc, L, st, below, gs, xs);
    StructJoin(w.p, pc, |gs.code|, |g.code|, |L|, xs.vs, w.ctx.loc, At(st, L, below, s.globals),
               At(st, L', below, xs.s.globals));
  }

  lemma StructParts(w: World, e: Expr, v: View, next: nat, fuel: nat, s: Store, pc: nat, frame: nat, g: Gen, r: Ev)
    returns (gs: Gen, xs: Evs)
    requires e.StructInit? && CompileExpr(e, v.n, v.env, next, w.ctx.loc) == Ok(g) && Placed(w.p, pc, g.code, frame)
    requires |s.locals| == |v.names| && EvalExpr(w.ctx, fuel, e, v.names, s) == Some(r)
    ensures CompileArgs(e.fields, v.n, v.env, next, w.ctx.loc) == Ok(gs)
            && EvalArgs(w.ctx, fuel, e.fields, v.names, s) == Some(xs)
    ensures gs.slots <= g.slots && Placed(w.p, pc, gs.code, frame)
    ensures Placed(w.p, pc + |gs.code|, StructCode(|xs.vs|, w.ctx.loc), frame)
    ensures |g.code| == |gs.code| + |StructCode(|xs.vs|, w.ctx.loc)|
    ensures |xs.vs| <= USIZE_LIMIT && r.v == Some(ValueFromFieldList(xs.vs)) && r.s == xs.s
  {
    gs, xs := CompileArgs(e.fields, v.n, v.env, next, w.ctx.loc).value,
        EvalArgs(w.ctx, fuel, e.fields, v.names, s).value;
    Split(w.p, pc, gs.code, StructCode(|e.fields|, w.ctx.loc), frame);
  }

  lemma StructJoin(p: Prog, pc: nat, a: nat, size: nat, frame: nat, vals: seq<Value>, loc: nat, s0: VState, s: VState)
    requires Runnable(p) && |vals| <= USIZE_LIMIT && Placed(p, pc + a, StructCode(|vals|, loc), frame)
    requires Go(p, pc, s0, pc + a, s.(stack := PushAll(vals, s.stack)))
    requires size == a + |StructCode(|vals|, loc)|
    ensures Go(p, pc, s0, pc + size, s.(stack := Push(ValueFromFieldList(vals), s.stack)))
  {
    StructRuns(p, pc + a, frame, vals, loc, s);
    GoOn(p, pc, s0, pc + a, s.(stack := PushAll(vals, s.stack)),
         pc + a + |StructCode(|vals|, loc)|, s.(stack := Push(ValueFromFieldList(vals), s.stack)));
  }

  lemma {:induction false} ShortcutSound(w: World, e: Expr, v: View, next: nat, fuel: nat, s: Store,
                                         pc: nat, L: seq<Value>, st: Stack, below: VAux, g: Gen, r: Ev)
    returns (L': seq<Value>)
    requires (e.ShortcutAnd? || e.ShortcutOr?) && CompileExpr(e, v.n, v.env, next, w.ctx.loc) == Ok(g)
             && Placed(w.p, pc, g.code, |L|)
    requires Ready(w, v, s, L, g.slots) && EvalExpr(w.ctx, fuel, e, v.names, s) == Some(r)
    ensures Computes(w, v, pc, |g.code|, L, st, below, s.globals, r, L')
    decreases fuel, e, 1
  {
    var gx, gy := ShortcutParts(w, e, v, next, pc, |L|, g);
    var x := ShortcutValues(w, e, v, fuel, s, r);
    var L1 := ExprSound(w, e.left, v, next, fuel, s, pc, L, st, below, gx, x);
    L' := ShortcutRest(w, e, v, next, fuel, s, pc, |g.code|, L, L1, st, below, gx, gy, x, r);
  }

  /** The code of a short-circuit operator and where its parts stand. */
  ghost predicate ShortcutAt(w: World, e: Expr, v: View, next: nat, pc: nat, frame: nat, gx: Gen, gy: Gen)
    requires e.ShortcutAnd? || e.ShortcutOr?
  {
    var test := ShortcutTest(e.ShortcutAnd?, Anon(gx.next), w.ctx.loc);
    && CompileExpr(e.left, v.n, v.env, next, w.ctx.loc) == Ok(gx)
    && CompileExpr(e.right, v.n, v.env, gx.next + 1, w.ctx.loc) == Ok(gy)
    && gx.slots <= frame && gy.slots <= frame && Placed(w.p, pc, gx.code, frame)
    && Placed(w.p, pc + |gx.code|, test, frame)
    && Placed(w.p, pc + |gx.code| + |test|, gy.code, frame)
    && IsAt(w.p, pc + |gx.code| + |test| + |gy.code|, Mark(Anon(gx.next), w.ctx.loc), frame)
  }

  lemma ShortcutParts(w: World, e: Expr, v: View, next: nat, pc: nat, frame: nat, g: Gen) returns (gx: Gen, gy: Gen)
    requires (e.ShortcutAnd? || e.ShortcutOr?) && CompileExpr(e, v.n, v.env, next, w.ctx.loc) == Ok(g)
    requires g.slots <= frame && Placed(w.p, pc, g.code, frame)
    ensures ShortcutAt(w, e, v, next, pc, frame, gx, gy)
    ensures |g.code| == |gx.code| + |ShortcutTest(e.ShortcutAnd?, Anon(gx.next), w.ctx.loc)| + |gy.code| + 1
  {
    gx := CompileExpr(e.left, v.n, v.env, next, w.ctx.loc).value;
    gy := CompileExpr(e.right, v.n, v.env, gx.next + 1, w.ctx.loc).value;
    ShortcutPlaced(w.p, pc, gx.code, ShortcutTest(e.ShortcutAnd?, Anon(gx.next), w.ctx.loc), gy.code,
                   Mark(Anon(gx.next), w.ctx.loc), frame);
  }

  lemma ShortcutPlaced(p: Prog, pc: nat, x: seq<Instr>, test: seq<Instr>, y: seq<Instr>, end: Instr, frame: nat)
    requires Placed(p, pc, x + test + y + [end], frame)
    ensures Placed(p, pc, x, frame) && Placed(p, pc + |x|, test, frame) && Placed(p, pc + |x| + |test|, y, frame)
    ensures IsAt(p, pc + |x| + |test| + |y|, end, frame)
  {
    Split(p, pc, x + test + y, [end], frame);
    Split(p, pc, x + test, y, frame);
    Split(p, pc, x, test, frame);
    PlacedAt(p, pc + |x + test + y|, [end], frame, 0);
    assert pc + |x + test| == pc + |x| + |test|;
    assert pc + |x + test + y| == pc + |x| + |test| + |y|;
  }

  /** The left operand's value, and what follows from it. */
  ghost predicate Shortcuts(w: World, e: Expr, v: View, fuel: nat, x: Ev, r: Ev)
    requires (e.ShortcutAnd? || e.ShortcutOr?) && |x.s.locals| == |v.names|
  {
    && x.v.Some? && x.v.value.Int? && (e.ShortcutAnd? ==> Negation(w.ctx, x.v).Some?)
    && if e.ShortcutAnd? == (x.v.value.n == 0) then r == x else EvalExpr(w.ctx, fuel, e.right, v.names, x.s) == Some(r)
  }

  lemma ShortcutValues(w: World, e: Expr, v: View, fuel: nat, s: Store, r: Ev) returns (x: Ev)
    requires (e.ShortcutAnd? || e.ShortcutOr?) && |s.locals| == |v.names|
             && EvalExpr(w.ctx, fuel, e, v.names, s) == Some(r)
    ensures EvalExpr(w.ctx, fuel, e.left, v.names, s) == Some(x) && |x.s.locals| == |v.names|
            && Shortcuts(w, e, v, fuel, x, r)
  {
    x := EvalExpr(w.ctx, fuel, e.left, v.names, s).value;
  }

  lemma {:induction false} ShortcutRest(w: World, e: Expr, v: View, next: nat, fuel: nat, s: Store, pc: nat,
                                        size: nat, L: seq<Value>, L1: seq<Value>, st: Stack, below: VAux, gx: Gen,
                                        gy: Gen, x: Ev, r: Ev) returns (L': seq<Value>)
    requires (e.ShortcutAnd? || e.ShortcutOr?) && ShortcutAt(w, e, v, next, pc, |L|, gx, gy) && Ready(w, v, s, L, 0)
    requires |x.s.locals| == |v.names| && Shortcuts(w, e, v, fuel, x, r)
    requires Computes(w, v, pc, |gx.code|, L, st, below, s.globals, x, L1)
    requires size == |gx.code| + |ShortcutTest(e.ShortcutAnd?, Anon(gx.next), w.ctx.loc)| + |gy.code| + 1
    ensures Computes(w, v, pc, size, L, st, below, s.globals, r, L')
    decreases fuel, e, 0
  {
    var isAnd := e.ShortcutAnd?;
    if isAnd == (x.v.value.n == 0) {
      L' := L1;
    } else {
      var pc2 := pc + |gx.code| + |ShortcutTest(isAnd, Anon(gx.next), w.ctx.loc)|;
      L' := ExprSound(w, e.right, v, gx.next + 1, fuel, x.s, pc2, L1, st, below, gy, r);
    }
    ShortcutJoin(w, v, pc, |gx.code|, |gy.code|, size, isAnd, Anon(gx.next), L, L1, L', st, below, s.globals, x, r);
  }

  lemma ShortcutJoin(w: World, v: View, pc: nat, a: nat, b: nat, size: nat, isAnd: bool, lab: Label,
                     L: seq<Value>, L1: seq<Value>, L': seq<Value>, st: Stack, below: VAux, gl: seq<Value>, x: Ev,
                     r: Ev)
    requires Runnable(w.p) && w.p.isa == w.ctx.isa && x.v.Some? && x.v.value.Int?
    requires isAnd ==> Negation(w.ctx, x.v).Some?
    requires Computes(w, v, pc, a, L, st, below, gl, x, L1)
    requires var test, n := ShortcutTest(isAnd, lab, w.ctx.loc), x.v.value.n;
             && Placed(w.p, pc + a, test, |L|) && IsAt(w.p, pc + a + |test| + b, Mark(lab, w.ctx.loc), |L|)
             && if isAnd == (n == 0) then r == x && L' == L1
                else Computes(w, v, pc + a + |test|, b, L1, st, below, x.s.globals, r, L')
    requires size == a + |ShortcutTest(isAnd, lab, w.ctx.loc)| + b + 1
    ensures Computes(w, v, pc, size, L, st, below, gl, r, L')
  {
    var loc, c, n := w.ctx.loc, |ShortcutTest(isAnd, lab, w.ctx.loc)|, x.v.value.n;
    var pc1, t := pc + a, pc + a + c + b;
    var here, there := At(st, L1, below, x.s.globals), At(PushOpt(r.v, st), L', below, r.s.globals);
    ShortcutRuns(w.p, w.ctx, pc1, |L|, isAnd, lab, n, here, t);
    if isAnd != (n == 0) { GoOn(w.p, pc1, here.(stack := Push(Int(n), st)), pc1 + c, here, t, there); }
    DoLabel(w.p, t, lab, loc, |L|, there);
    GoOn(w.p, pc1, here.(stack := Push(Int(n), st)), t, there, t + 1, there);
    Chain(w, v, pc, a, c + b + 1, size, L, st, below, gl, x, L1, there, L');
  }

  /** Where the parts of an if stand. */
  ghost predicate IfStands(p: Prog, pc: nat, gc: Gen, gb: Gen, hasElse: bool, ge: Gen, loc: nat, frame: nat) {
    var after, end := Anon(gc.next), Anon(gc.next + 1);
    var skip := SkipCode(hasElse, end, loc);
    var pc2 := pc + |gc.code| + 2 + |gb.code|;
    var pc3 := pc2 + |skip|;
    && Placed(p, pc, gc.code, frame) && Placed(p, pc + |gc.code|, TestCode(after, loc), frame)
    && Placed(p, pc + |gc.code| + 2, gb.code, frame) && Placed(p, pc2, skip, frame)
    && IsAt(p, pc3, Mark(after, loc), frame) && Placed(p, pc3 + 1, ge.code, frame)
    && IsAt(p, pc3 + 1 + |ge.code|, Mark(end, loc), frame)
  }

  lemma ThreePlaced(p: Prog, pc: nat, a: seq<Instr>, b: seq<Instr>, c: seq<Instr>, frame: nat)
    requires Placed(p, pc, a + b + c, frame)
    ensures Placed(p, pc, a, frame) && Placed(p, pc + |a|, b, frame) && Placed(p, pc + |a| + |b|, c, frame)
  {
    Split(p, pc, a + b, c, frame);
    Split(p, pc, a, b, frame);
    assert pc + |a + b| == pc + |a| + |b|;
  }

  lemma IfPlaced(p: Prog, pc: nat, gc: Gen, gb: Gen, hasElse: bool, ge: Gen, loc: nat, frame: nat)
    requires Placed(p, pc, JoinIf(gc, gb, hasElse, ge, loc).code, frame)
    ensures IfStands(p, pc, gc, gb, hasElse, ge, loc, frame)
  {
    var after, end := Anon(gc.next), Anon(gc.next + 1);
    var test, skip := TestCode(after, loc), SkipCode(hasElse, end, loc);
    IfSplit(p, pc, gc.code, test, gb.code, skip, Mark(after, loc), ge.code, Mark(end, loc), frame);
  }

  lemma IfSplit(p: Prog, pc: nat, c: seq<Instr>, test: seq<Instr>, b: seq<Instr>, skip: seq<Instr>, after: Instr,
                e: seq<Instr>, end: Instr, frame: nat)
    requires Placed(p, pc, c + test + b + skip + [after] + e + [end], frame)
    ensures Placed(p, pc, c, frame) && Placed(p, pc + |c|, test, frame) && Placed(p, pc + |c| + |test|, b, frame)
    ensures Placed(p, pc + |c| + |test| + |b|, skip, frame) && IsAt(p, pc + |c| + |test| + |b| + |skip|, after, frame)
    ensures Placed(p, pc + |c| + |test| + |b| + |skip| + 1, e, frame)
    ensures IsAt(p, pc + |c| + |test| + |b| + |skip| + 1 + |e|, end, frame)
  {
    var first := c + test + b;
    var half := first + skip + [after];
    ThreePlaced(p, pc, half, e, [end], frame);
    ThreePlaced(p, pc, first, skip, [after], frame);
    ThreePlaced(p, pc, c, test, b, frame);
    assert |first| == |c| + |test| + |b| && |half| == |first| + |skip| + 1;
    PlacedAt(p, pc + |first| + |skip|, [after], frame, 0);
    PlacedAt(p, pc + |half| + |e|, [end], frame, 0);
  }

  /** From the end of the chosen branch, past the marks. */
  lemma ThenTail(p: Prog, pc: nat, skip: bool, after: Label, end: Label, t: nat, loc: nat, frame: nat, s: VState)
    requires Runnable(p) && Placed(p, pc, SkipCode(skip, end, loc), frame) && IsAt(p, t, Mark(end, loc), frame)
    requires !skip ==> IsAt(p, pc, Mark(after, loc), frame) && t == pc + 1
    ensures Go(p, pc, s, t + 1, s)
  {
    if skip {
      PlacedAt(p, pc, SkipCode(skip, end, loc), frame, 0);
      DoJump(p, pc, end, loc, frame, s, t);
    } else {
      DoLabel(p, pc, after, loc, frame, s);
    }
    DoLabel(p, t, end, loc, frame, s);
    GoOn(p, pc, s, t, s, t + 1, s);
  }

  lemma {:induction false} IfSound(w: World, e: Expr, v: View, next: nat, fuel: nat, s: Store,
                                   pc: nat, L: seq<Value>, st: Stack, below: VAux, g: Gen, r: Ev)
    returns (L': seq<Value>)
    requires e.If? && CompileExpr(e, v.n, v.env, next, w.ctx.loc) == Ok(g) && Placed(w.p, pc, g.code, |L|)
    requires Ready(w, v, s, L, g.slots) && EvalExpr(w.ctx, fuel, e, v.names, s) == Some(r)
    ensures Computes(w, v, pc, |g.code|, L, st, below, s.globals, r, L')
    decreases fuel, e, 2
  {
    var gc, gb, ge := IfParts(w, e, v, next, pc, |L|, g);
    var c := IfValues(w, e, v, fuel, s, r);
    var L1 := ExprSound(w, e.cond, v, next, fuel, s, pc, L, st, below, gc, c);
    L' := IfRest(w, e, v, next, fuel, s, pc, |g.code|, L, L1, st, below, gc, gb, ge, c, r);
  }

  function IfSize(gc: Gen, gb: Gen, hasElse: bool, ge: Gen, loc: nat): nat {
    |gc.code| + 2 + |gb.code| + |SkipCode(hasElse, Anon(gc.next + 1), loc)| + 1 + |ge.code| + 1
  }

  function ElseStart(pc: nat, gc: Gen, gb: Gen, hasElse: bool, loc: nat): nat {
    pc + |gc.code| + 2 + |gb.code| + |SkipCode(hasElse, Anon(gc.next + 1), loc)| + 1
  }

  /** The code of an if and where its parts stand. */
  ghost predicate IfAt(w: World, e: Expr, v: View, next: nat, pc: nat, frame: nat, gc: Gen, gb: Gen, ge: Gen)
    requires e.If?
  {
    var loc := w.ctx.loc;
    && CompileExpr(e.cond, v.n, v.env, next, loc) == Ok(gc)
    && CompileBlock(e.block, v.n, v.env, gc.next + 2, loc) == Ok(gb)
    && (if e.orElse.Some? then CompileBlock(e.orElse.value, v.n, v.env, gb.next, loc) == Ok(ge) else ge.code == [])
    && gc.slots <= frame && gb.slots <= frame && ge.slots <= frame
    && IfStands(w.p, pc, gc, gb, e.orElse.Some?, ge, loc, frame)
  }

  lemma IfParts(w: World, e: Expr, v: View, next: nat, pc: nat, frame: nat, g: Gen) returns (gc: Gen, gb: Gen, ge: Gen)
    requires e.If? && CompileExpr(e, v.n, v.env, next, w.ctx.loc) == Ok(g) && g.slots <= frame
             && Placed(w.p, pc, g.code, frame)
    ensures IfAt(w, e, v, next, pc, frame, gc, gb, ge) && |g.code| == IfSize(gc, gb, e.orElse.Some?, ge, w.ctx.loc)
  {
    var loc := w.ctx.loc;
    gc := CompileExpr(e.cond, v.n, v.env, next, loc).value;
    gb := CompileBlock(e.block, v.n, v.env, gc.next + 2, loc).value;
    ge := if e.orElse.Some? then CompileBlock(e.orElse.value, v.n, v.env, gb.next, loc).value else Gen([], gb.next, 0);
    IfPlaced(w.p, pc, gc, gb, e.orElse.Some?, ge, loc, frame);
  }

  /** The condition's value, and what follows from it. */
  ghost predicate Decides(w: World, e: Expr, v: View, fuel: nat, c: Ev, r: Ev)
    requires e.If? && |c.s.locals| == |v.names|
  {
    && c.v.Some? && Negation(w.ctx, c.v).Some?
    && if c.v.value.n != 0 then EvalBlock(w.ctx, fuel, e.block, v.names, c.s) == Some(r)
       else if e.orElse.Some? then EvalBlock(w.ctx, fuel, e.orElse.value, v.names, c.s) == Some(r)
       else r == Ev(None, c.s)
  }

  lemma IfValues(w: World, e: Expr, v: View, fuel: nat, s: Store, r: Ev) returns (c: Ev)
    requires e.If? && |s.locals| == |v.names| && EvalExpr(w.ctx, fuel, e, v.names, s) == Some(r)
    ensures EvalExpr(w.ctx, fuel, e.cond, v.names, s) == Some(c) && |c.s.locals| == |v.names|
            && Decides(w, e, v, fuel, c, r)
  {
    c := EvalExpr(w.ctx, fuel, e.cond, v.names, s).value;
  }

  lemma {:induction false} IfRest(w: World, e: Expr, v: View, next: nat, fuel: nat, s: Store, pc: nat, size: nat,
                                  L: seq<Value>, L1: seq<Value>, st: Stack, below: VAux, gc: Gen, gb: Gen, ge: Gen,
                                  c: Ev, r: Ev) returns (L': seq<Value>)
    requires e.If? && IfAt(w, e, v, next, pc, |L|, gc, gb, ge) && Ready(w, v, s, L, 0)
    requires |c.s.locals| == |v.names| && Decides(w, e, v, fuel, c, r)
    requires Computes(w, v, pc, |gc.code|, L, st, below, s.globals, c, L1)
    requires size == IfSize(gc, gb, e.orElse.Some?, ge, w.ctx.loc)
    ensures Computes(w, v, pc, size, L, st, below, s.globals, r, L')
    decreases fuel, e, 1
  {
    if c.v.value.n != 0 {
      L' := BlockSound(w, e.block, v, gc.next + 2, fuel, c.s, pc + |gc.code| + 2, L1, st, below, gb, r);
      ThenJoin(w, v, pc, gc, gb, e.orElse.Some?, ge, size, L, L1, L', st, below, s.globals, c, r);
    } else {
      L' := ElseRest(w, e, v, next, fuel, s, pc, size, L, L1, st, below, gc, gb, ge, c, r);
    }
  }

  lemma {:induction false} ElseRest(w: World, e: Expr, v: View, next: nat, fuel: nat, s: Store, pc: nat, size: nat,
                                    L: seq<Value>, L1: seq<Value>, st: Stack, below: VAux, gc: Gen, gb: Gen, ge: Gen,
                                    c: Ev, r: Ev) returns (L': seq<Value>)
    requires e.If? && IfAt(w, e, v, next, pc, |L|, gc, gb, ge) && Ready(w, v, s, L, 0)
    requires |c.s.locals| == |v.names| && Decides(w, e, v, fuel, c, r) && c.v.value.n == 0
    requires Computes(w, v, pc, |gc.code|, L, st, below, s.globals, c, L1)
    requires size == IfSize(gc, gb, e.orElse.Some?, ge, w.ctx.loc)
    ensures Computes(w, v, pc, size, L, st, below, s.globals, r, L')
    decreases fuel, e, 0
  {
    var start := ElseStart(pc, gc, gb, e.orElse.Some?, w.ctx.loc);
    if e.orElse.Some? {
      L' := BlockSound(w, e.orElse.value, v, gb.next, fuel, c.s, start, L1, st, below, ge, r);
    } else {
      L' := L1;
      Stay(w.p, start, At(st, L1, below, c.s.globals));
    }
    ElseJoin(w, v, pc, gc, gb, e.orElse.Some?, ge, size, L, L1, L', st, below, s.globals, c, r);
  }

  /** The condition held: test, block, and past the rest. */
  lemma ThenJoin(w: World, v: View, pc: nat, gc: Gen, gb: Gen, hasElse: bool, ge: Gen, size: nat,
                 L: seq<Value>, L1: seq<Value>, L': seq<Value>, st: Stack, below: VAux, gl: seq<Value>, x: Ev, r: Ev)
    requires Runnable(w.p) && w.p.isa == w.ctx.isa && x.v.Some? && Negation(w.ctx, x.v).Some? && x.v.value.n != 0
    requires IfStands(w.p, pc, gc, gb, hasElse, ge, w.ctx.loc, |L|) && (!hasElse ==> ge.code == [])
    requires Computes(w, v, pc, |gc.code|, L, st, below, gl, x, L1)
    requires Computes(w, v, pc + |gc.code| + 2, |gb.code|, L1, st, below, x.s.globals, r, L')
    requires size == IfSize(gc, gb, hasElse, ge, w.ctx.loc)
    ensures Computes(w, v, pc, size, L, st, below, gl, r, L')
  {
    var after, end := Anon(gc.next), Anon(gc.next + 1);
    var pc1, pc2 := pc + |gc.code|, pc + |gc.code| + 2 + |gb.code|;
    var pc3 := pc2 + |SkipCode(hasElse, end, w.ctx.loc)|;
    var t := pc3 + 1 + |ge.code|;
    var here, there := At(st, L1, below, x.s.globals), At(PushOpt(r.v, st), L', below, r.s.globals);
    TestRuns(w.p, w.ctx, pc1, |L|, after, x.v.value.n, here, pc3);
    ThenTail(w.p, pc2, hasElse, after, end, t, w.ctx.loc, |L|, there);
    GoOn(w.p, pc1 + 2, here, pc2, there, t + 1, there);
    GoOn(w.p, pc1, here.(stack := Push(x.v.value, st)), pc1 + 2, here, t + 1, there);
    Chain(w, v, pc, |gc.code|, t + 1 - pc1, size, L, st, below, gl, x, L1, there, L');
  }

  /** The condition failed: past the block, and through what follows. */
  lemma ElseJoin(w: World, v: View, pc: nat, gc: Gen, gb: Gen, hasElse: bool, ge: Gen, size: nat,
                 L: seq<Value>, L1: seq<Value>, L': seq<Value>, st: Stack, below: VAux, gl: seq<Value>, x: Ev, r: Ev)
    requires Runnable(w.p) && w.p.isa == w.ctx.isa && x.v.Some? && Negation(w.ctx, x.v).Some? && x.v.value.n == 0
    requires IfStands(w.p, pc, gc, gb, hasElse, ge, w.ctx.loc, |L|)
    requires Computes(w, v, pc, |gc.code|, L, st, below, gl, x, L1)
    requires Computes(w, v, ElseStart(pc, gc, gb, hasElse, w.ctx.loc), |ge.code|, L1, st, below, x.s.globals, r, L')
    requires size == IfSize(gc, gb, hasElse, ge, w.ctx.loc)
    ensures Computes(w, v, pc, size, L, st, below, gl, r, L')
  {
    var after, end := Anon(gc.next), Anon(gc.next + 1);
    var pc1, pc3 := pc + |gc.code|, pc + |gc.code| + 2 + |gb.code| + |SkipCode(hasElse, end, w.ctx.loc)|;
    var t := pc3 + 1 + |ge.code|;
    var here, there := At(st, L1, below, x.s.globals), At(PushOpt(r.v, st), L', below, r.s.globals);
    TestRuns(w.p, w.ctx, pc1, |L|, after, 0, here, pc3);
    DoLabel(w.p, pc3, after, w.ctx.loc, |L|, here);
    DoLabel(w.p, t, end, w.ctx.loc, |L|, there);
    GoOn(w.p, pc3, here, pc3 + 1, here, t, there);
    GoOn(w.p, pc3, here, t, there, t + 1, there);
    GoOn(w.p, pc1, here.(stack := Push(x.v.value, st)), pc3, here, t + 1, there);
    Chain(w, v, pc, |gc.code|, t + 1 - pc1, size, L, st, below, gl, x, L1, there, L');
  }

  // ----- blocks and statements -----

  lemma {:induction false} BlockSound(w: World, b: Block, v: View, next: nat, fuel: nat, s: Store,
                                      pc: nat, L: seq<Value>, st: Stack, below: VAux, g: Gen, r: Ev)
    returns (L': seq<Value>)
    requires CompileBlock(b, v.n, v.env, next, w.ctx.loc) == Ok(g) && Placed(w.p, pc, g.code, |L|)
    requires Ready(w, v, s, L, g.slots) && EvalBlock(w.ctx, fuel, b, v.names, s) == Some(r)
    ensures Computes(w, v, pc, |g.code|, L, st, below, s.globals, r, L')
    decreases fuel, b, 2
  {
    var gs := CompileStmts(b.body, v.n, v.env, next + 1, w.ctx.loc).value;
    if b.ret.None? {
      BlockParts(w, gs.code, next, pc, |L|);
      L' := VoidSound(w, b, v, next + 1, fuel, s, pc, L, st, below, gs, r);
      MarkEnds(w, v, pc, |gs.code|, |g.code|, Anon(next), L, L', st, below, s.globals, r);
    } else {
      var gr := CompileExpr(b.ret.value, gs.slots, gs.env, gs.next, w.ctx.loc).value;
      BlockParts(w, gs.code + gr.code, next, pc, |L|);
      L' := BodySound(w, b, v, next + 1, fuel, s, pc, L, st, below, gs, gr, r);
      MarkEnds(w, v, pc, |gs.code + gr.code|, |g.code|, Anon(next), L, L', st, below, s.globals, r);
    }
  }

  lemma BlockParts(w: World, code: seq<Instr>, next: nat, pc: nat, frame: nat)
    requires Placed(w.p, pc, code + [Mark(Anon(next), w.ctx.loc)], frame)
    ensures Placed(w.p, pc, code, frame) && IsAt(w.p, pc + |code|, Mark(Anon(next), w.ctx.loc), frame)
  {
    Split(w.p, pc, code, [Mark(Anon(next), w.ctx.loc)], frame);
    PlacedAt(w.p, pc + |code|, [Mark(Anon(next), w.ctx.loc)], frame, 0);
  }

  lemma MarkEnds(w: World, v: View, pc: nat, a: nat, size: nat, lab: Label, L: seq<Value>, L': seq<Value>, st: Stack,
                 below: VAux, gl: seq<Value>, r: Ev)
    requires Runnable(w.p) && Computes(w, v, pc, a, L, st, below, gl, r, L') && size == a + 1
    requires IsAt(w.p, pc + a, Mark(lab, w.ctx.loc), |L|)
    ensures Computes(w, v, pc, size, L, st, below, gl, r, L')
  {
    DoLabel(w.p, pc + a, lab, w.ctx.loc, |L|, At(PushOpt(r.v, st), L', below, r.s.globals));
    Finish(w, v, pc, a, 1, size, L, st, below, gl, r, L', r);
  }

  /** The statements of a block that yields nothing. */
  lemma {:induction false} VoidSound(w: World, b: Block, v: View, next: nat, fuel: nat, s: Store,
                                     pc: nat, L: seq<Value>, st: Stack, below: VAux, gs: StmtGen, r: Ev)
    returns (L': seq<Value>)
    requires b.ret.None? && CompileStmts(b.body, v.n, v.env, next, w.ctx.loc) == Ok(gs)
    requires Ready(w, v, s, L, gs.slots) && Placed(w.p, pc, gs.code, |L|)
             && EvalBlock(w.ctx, fuel, b, v.names, s) == Some(r)
    ensures Computes(w, v, pc, |gs.code|, L, st, below, s.globals, r, L')
    decreases fuel, b, 0
  {
    var t := EvalStmts(w.ctx, fuel, b.body, v.names, s).value;
    var d;
    d, L' := StmtsSound(w, b.body, v, next, fuel, s, pc, L, st, below, gs, t);
    LeaveHolds(v, d, t.locals, L');
  }

  /** The statements of a block and its result, without the mark that ends the block. */
  lemma {:induction false} BodySound(w: World, b: Block, v: View, next: nat, fuel: nat, s: Store,
                                     pc: nat, L: seq<Value>, st: Stack, below: VAux, gs: StmtGen, gr: Gen, r: Ev)
    returns (L': seq<Value>)
    requires b.ret.Some? && CompileStmts(b.body, v.n, v.env, next, w.ctx.loc) == Ok(gs)
    requires CompileExpr(b.ret.value, gs.slots, gs.env, gs.next, w.ctx.loc) == Ok(gr)
    requires Ready(w, v, s, L, Max(gr.slots, gs.slots)) && Placed(w.p, pc, gs.code + gr.code, |L|)
    requires EvalBlock(w.ctx, fuel, b, v.names, s) == Some(r)
    ensures Computes(w, v, pc, |gs.code + gr.code|, L, st, below, s.globals, r, L')
    decreases fuel, b, 1
  {
    Split(w.p, pc, gs.code, gr.code, |L|);
    var t := EvalStmts(w.ctx, fuel, b.body, v.names, s).value;
    var d, L1 := StmtsSound(w, b.body, v, next, fuel, s, pc, L, st, below, gs, t);
    L' := ResultSound(w, b, v, d, fuel, s, pc, |gs.code + gr.code|, L, L1, st, below, gs, gr, t, r);
  }

  lemma {:induction false} ResultSound(w: World, b: Block, v: View, d: View, fuel: nat, s: Store, pc: nat, size: nat,
                                       L: seq<Value>, L1: seq<Value>, st: Stack, below: VAux, gs: StmtGen, gr: Gen,
                                       t: Store, r: Ev) returns (L': seq<Value>)
    requires b.ret.Some? && CompileExpr(b.ret.value, gs.slots, gs.env, gs.next, w.ctx.loc) == Ok(gr)
    requires d.names == v.names + Declared(b.body) && d.env == gs.env && d.n == gs.slots
    requires Ready(w, v, s, L, gr.slots) && Placed(w.p, pc + |gs.code|, gr.code, |L|)
    requires EvalBlock(w.ctx, fuel, b, v.names, s) == Some(r) && EvalStmts(w.ctx, fuel, b.body, v.names, s) == Some(t)
    requires Executes(w, v, d, pc, |gs.code|, L, st, below, s.globals, t, L1)
    requires size == |gs.code| + |gr.code|
    ensures Computes(w, v, pc, size, L, st, below, s.globals, r, L')
    decreases fuel, b, 0
  {
    var x := EvalExpr(w.ctx, fuel, b.ret.value, d.names, t).value;
    L' := ExprSound(w, b.ret.value, d, gs.next, fuel, t, pc + |gs.code|, L1, st, below, gr, x);
    ResultJoin(w, v, d, pc, |gs.code|, |gr.code|, size, L, L1, L', st, below, s.globals, t, x);
  }

  /** Statements and then a result. */
  lemma ResultJoin(w: World, v: View, d: View, pc: nat, a: nat, b: nat, size: nat, L: seq<Value>, L1: seq<Value>,
                   L': seq<Value>, st: Stack, below: VAux, gl: seq<Value>, t: Store, r: Ev)
    requires Consistent(v) && Executes(w, v, d, pc, a, L, st, below, gl, t, L1)
    requires Computes(w, d, pc + a, b, L1, st, below, t.globals, r, L')
    requires size == a + b
    ensures Computes(w, v, pc, size, L, st, below, gl, Ev(r.v, Leave(r.s, |v.names|)), L')
  {
    LeaveHolds(v, d, r.s.locals, L');
    LeaveUntouched(v, d, L1, L');
    UntouchedTwice(v, L, L1, L');
    GoOn(w.p, pc, At(st, L, below, gl), pc + a, At(st, L1, below, t.globals), pc + a + b,
         At(PushOpt(r.v, st), L', below, r.s.globals));
  }

  /** Statements after statements. */
  lemma StmtsJoin(w: World, v: View, d1: View, d: View, pc: nat, a: nat, b: nat, size: nat, L: seq<Value>,
                  L1: seq<Value>, L': seq<Value>, st: Stack, below: VAux, gl: seq<Value>, t: Store, s2: Store)
    requires Executes(w, v, d1, pc, a, L, st, below, gl, t, L1)
             && Executes(w, d1, d, pc + a, b, L1, st, below, t.globals, s2, L')
    requires size == a + b
    ensures Executes(w, v, d, pc, size, L, st, below, gl, s2, L')
  {
    ExtendsTwice(v, d1, d);
    LeaveUntouched(v, d1, L1, L');
    UntouchedTwice(v, L, L1, L');
    GoOn(w.p, pc, At(st, L, below, gl), pc + a, At(st, L1, below, t.globals), pc + a + b,
         At(st, L', below, s2.globals));
  }

  lemma {:induction false} StmtsSound(w: World, body: seq<Stmt>, v: View, next: nat, fuel: nat, s: Store,
                                      pc: nat, L: seq<Value>, st: Stack, below: VAux, g: StmtGen, t: Store)
    returns (d: View, L': seq<Value>)
    requires CompileStmts(body, v.n, v.env, next, w.ctx.loc) == Ok(g) && Placed(w.p, pc, g.code, |L|)
    requires Ready(w, v, s, L, g.slots) && EvalStmts(w.ctx, fuel, body, v.names, s) == Some(t)
    ensures d.names == v.names + Declared(body) && d.env == g.env && d.n == g.slots
    ensures Executes(w, v, d, pc, |g.code|, L, st, below, s.globals, t, L')
    decreases fuel, body, 1
  {
    if body == [] {
      d, L' := v, L;
      assert v.names + [] == v.names;
      Stay(w.p, pc, At(st, L, below, s.globals));
    } else {
      var g1, g2 := StmtsParts(body, v, next, w.ctx.loc, g);
      Split(w.p, pc, g1.code, g2.code, |L|);
      var t1 := EvalStmt(w.ctx, fuel, body[0], v.names, s).value;
      var d1, L1 := StmtSound(w, body[0], v, next, fuel, s, pc, L, st, below, g1, t1);
      d, L' := StmtsRest(w, body[1..], v, d1, g1.next, fuel, s.globals, pc, |g1.code|, |g.code|, L, L1, st, below, g2,
                         t1, t);
      DeclaredCons(v.names, body);
    }
  }

  lemma {:induction false} StmtsRest(w: World, rest: seq<Stmt>, v: View, d1: View, next: nat, fuel: nat, gl: seq<Value>,
                                     pc: nat, a: nat, size: nat, L: seq<Value>, L1: seq<Value>, st: Stack, below: VAux,
                                     g: StmtGen, t1: Store, t: Store)
    returns (d: View, L': seq<Value>)
    requires CompileStmts(rest, d1.n, d1.env, next, w.ctx.loc) == Ok(g) && Placed(w.p, pc + a, g.code, |L|)
    requires Whole(w) && g.slots <= |L| <= USIZE_LIMIT && |t1.locals| == |d1.names| && size == a + |g.code|
    requires Executes(w, v, d1, pc, a, L, st, below, gl, t1, L1)
    requires EvalStmts(w.ctx, fuel, rest, d1.names, t1) == Some(t)
    ensures d.names == d1.names + Declared(rest) && d.env == g.env && d.n == g.slots
    ensures Executes(w, v, d, pc, size, L, st, below, gl, t, L')
    decreases fuel, rest, 2
  {
    d, L' := StmtsSound(w, rest, d1, next, fuel, t1, pc + a, L1, st, below, g, t);
    StmtsJoin(w, v, d1, d, pc, a, |g.code|, size, L, L1, L', st, below, gl, t1, t);
  }

  lemma StmtsParts(body: seq<Stmt>, v: View, next: nat, loc: nat, g: StmtGen) returns (g1: StmtGen, g2: StmtGen)
    requires body != [] && Consistent(v) && CompileStmts(body, v.n, v.env, next, loc) == Ok(g)
    ensures CompileStmt(body[0], v.n, v.env, next, loc) == Ok(g1)
    ensures CompileStmts(body[1..], g1.slots, g1.env, g1.next, loc) == Ok(g2)
    ensures g.code == g1.code + g2.code && g.slots == g2.slots && g.env == g2.env && v.n <= g1.slots <= g2.slots
  {
    EnvIsBelow(v);
    StmtGood(body[0], v.n, v.env, next, loc);
    g1 := CompileStmt(body[0], v.n, v.env, next, loc).value;
    StmtsGood(body[1..], g1.slots, g1.env, g1.next, loc);
    g2 := CompileStmts(body[1..], g1.slots, g1.env, g1.next, loc).value;
  }

  lemma DeclaredCons(names: seq<Name>, body: seq<Stmt>)
    requires body != []
    ensures names + Declared([body[0]]) + Declared(body[1..]) == names + Declared(body)
  {
    DeclaredSplit(body);
    var a, b := Declared([body[0]]), Declared(body[1..]);
    assert names + a + b == names + (a + b);
  }

  lemma DeclaredSplit(body: seq<Stmt>)
    requires body != []
    ensures Declared(body) == Declared([body[0]]) + Declared(body[1..])
  {
    assert [body[0]][1..] == [] && Declared([]) == [];
  }

  lemma {:induction false} StmtSound(w: World, x: Stmt, v: View, next: nat, fuel: nat, s: Store,
                                     pc: nat, L: seq<Value>, st: Stack, below: VAux, g: StmtGen, t: Store)
    returns (d: View, L': seq<Value>)
    requires CompileStmt(x, v.n, v.env, next, w.ctx.loc) == Ok(g) && Placed(w.p, pc, g.code, |L|)
    requires Ready(w, v, s, L, g.slots) && EvalStmt(w.ctx, fuel, x, v.names, s) == Some(t)
    ensures d.names == v.names + Declared([x]) && d.env == g.env && d.n == g.slots
    ensures Executes(w, v, d, pc, |g.code|, L, st, below, s.globals, t, L')
    decreases fuel, x, 2
  {
    if x.While? {
      d, L' := WhileSound(w, x, v, next, fuel, s, pc, L, st, below, g, t);
    } else {
      var ge := StmtParts(w, x, v, next, fuel, s, g, t);
      Split(w.p, pc, ge.code, Ending(x, v, w.ctx.loc), |L|);
      var r := EvalExpr(w.ctx, fuel, x.e, v.names, s).value;
      var L1 := ExprSound(w, x.e, v, next, fuel, s, pc, L, st, below, ge, r);
      d := After(v, x, g.slots);
      L' := StmtJoin(w, x, v, g.slots, pc, |ge.code|, |g.code|, r, L, L1, st, below, s.globals, t);
    }
  }

  lemma StmtJoin(w: World, x: Stmt, v: View, slots: nat, pc: nat, a: nat, size: nat, r: Ev, L: seq<Value>,
                 L1: seq<Value>, st: Stack, below: VAux, gl: seq<Value>, t: Store) returns (L': seq<Value>)
    requires !x.While? && Placed(w.p, pc + a, Ending(x, v, w.ctx.loc), |L|)
    requires Whole(w) && Consistent(v) && slots <= |L| <= USIZE_LIMIT
    requires v.n <= slots && (x.Let? ==> v.n < slots) && (x.AssignLocal? ==> x.name in v.env)
    requires Computes(w, v, pc, a, L, st, below, gl, r, L1) && Stored(v.names, x, r) == Some(t)
    requires size == a + |Ending(x, v, w.ctx.loc)|
    ensures Executes(w, v, After(v, x, slots), pc, size, L, st, below, gl, t, L')
  {
    L' := StmtEnds(w, x, v, slots, pc + a, r, L1, st, below);
    UntouchedTwice(v, L, L1, L');
    GoOn(w.p, pc, At(st, L, below, gl), pc + a, At(PushOpt(r.v, st), L1, below, r.s.globals),
         pc + a + |Ending(x, v, w.ctx.loc)|, At(st, L', below, t.globals));
  }

  lemma StmtParts(w: World, x: Stmt, v: View, next: nat, fuel: nat, s: Store, g: StmtGen, t: Store) returns (ge: Gen)
    requires !x.While? && Consistent(v) && |s.locals| == |v.names|
    requires CompileStmt(x, v.n, v.env, next, w.ctx.loc) == Ok(g) && EvalStmt(w.ctx, fuel, x, v.names, s) == Some(t)
    ensures CompileExpr(x.e, v.n, v.env, next, w.ctx.loc) == Ok(ge)
    ensures g.code == ge.code + Ending(x, v, w.ctx.loc) && v.n <= ge.slots <= g.slots && (x.Let? ==> v.n < g.slots)
    ensures x.AssignLocal? ==> x.name in v.env
    ensures After(v, x, g.slots).env == g.env && After(v, x, g.slots).names == v.names + Declared([x])
    ensures EvalExpr(w.ctx, fuel, x.e, v.names, s).Some?
    ensures Stored(v.names, x, EvalExpr(w.ctx, fuel, x.e, v.names, s).value) == Some(t)
  {
    EnvIsBelow(v);
    ge := CompileExpr(x.e, v.n, v.env, next, w.ctx.loc).value;
    ExprGood(x.e, v.n, v.env, next, w.ctx.loc);
    assert [x][1..] == [] && Declared([]) == [] && v.names + [] == v.names;
    assert x.Let? ==> [x.name] + [] == [x.name];
  }

  /** The view after a statement that is not a loop. */
  function After(v: View, x: Stmt, slots: nat): View {
    if x.Let? then Declare(v, x.name, slots) else View(v.names, v.slots, v.env, slots)
  }

  /** The store after a statement whose expression yielded r. */
  function Stored(names: seq<Name>, x: Stmt, r: Ev): Option<Store> {
    match x
    case Let(_, _) => if r.v.Some? then Some(Store(r.s.locals + [r.v.value], r.s.globals)) else None
    case AssignLocal(y, _) =>
      var k := Last(names, y);
      if r.v.Some? && k.Some? && k.value < |r.s.locals| then
        Some(Store(r.s.locals[k.value := r.v.value], r.s.globals)) else None
    case AssignGlobal(i, _) =>
      if r.v.Some? && i < |r.s.globals| then Some(Store(r.s.locals, r.s.globals[i := r.v.value])) else None
    case ExprStmt(_, pushes) => if r.v.Some? == pushes then Some(r.s) else None
    case While(_, _) => None
  }

  /** The instructions after the expression of a statement. */
  function Ending(x: Stmt, v: View, loc: nat): seq<Instr> {
    match x
    case Let(_, _) => [Slot(SetLocal, v.n, loc)]
    case AssignLocal(y, _) => [Slot(SetLocal, if y in v.env then v.env[y] else 0, loc)]
    case AssignGlobal(i, _) => [Instr(SetGlobalVar(i), None, loc)]
    case ExprStmt(_, pushes) => if pushes then [Plain(Pop, loc)] else []
    case While(_, _) => []
  }

  /** What the end of a statement achieves. */
  ghost predicate Ends(w: World, x: Stmt, v: View, slots: nat, pc: nat, r: Ev, L: seq<Value>, st: Stack, below: VAux,
                       L': seq<Value>) {
    && Stored(v.names, x, r).Some?
    && var s, d := Stored(v.names, x, r).value, After(v, x, slots);
       && Consistent(d) && Extends(v, d) && Holds(d, s.locals, L') && Untouched(v, L, L')
       && |s.globals| == w.p.numGlobals
       && Go(w.p, pc, At(PushOpt(r.v, st), L, below, r.s.globals), pc + |Ending(x, v, w.ctx.loc)|,
             At(st, L', below, s.globals))
  }

  lemma StmtEnds(w: World, x: Stmt, v: View, slots: nat, pc: nat, r: Ev, L: seq<Value>, st: Stack, below: VAux)
    returns (L': seq<Value>)
    requires !x.While? && Placed(w.p, pc, Ending(x, v, w.ctx.loc), |L|)
    requires Ready(w, v, r.s, L, slots) && v.n <= slots && (x.Let? ==> v.n < slots)
             && (x.AssignLocal? ==> x.name in v.env)
    requires Stored(v.names, x, r).Some?
    ensures Ends(w, x, v, slots, pc, r, L, st, below, L')
  {
    if x.Let? {
      L' := LetEnds(w, x, v, slots, pc, r, L, st, below);
    } else if x.AssignLocal? {
      L' := AssignEnds(w, x, v, slots, pc, r, L, st, below);
    } else {
      L' := L;
      StackEnds(w, x, v, pc, r, L, st, below);
      ViewWiden(v, slots, r.s.locals, L);
    }
  }

  lemma LetEnds(w: World, x: Stmt, v: View, slots: nat, pc: nat, r: Ev, L: seq<Value>, st: Stack, below: VAux)
    returns (L': seq<Value>)
    requires x.Let? && Placed(w.p, pc, Ending(x, v, w.ctx.loc), |L|) && Ready(w, v, r.s, L, slots) && v.n < slots
    requires Stored(v.names, x, r).Some?
    ensures Ends(w, x, v, slots, pc, r, L, st, below, L')
  {
    L' := L[v.n := r.v.value];
    PlacedAt(w.p, pc, Ending(x, v, w.ctx.loc), |L|, 0);
    DeclareConsistent(v, x.name, slots);
    DeclareHolds(v, x.name, slots, r.s.locals, L, r.v.value);
    DoSetLocal(w.p, pc, v.n, w.ctx.loc, r.v.value, st, L, below, r.s.globals);
  }

  lemma AssignEnds(w: World, x: Stmt, v: View, slots: nat, pc: nat, r: Ev, L: seq<Value>, st: Stack, below: VAux)
    returns (L': seq<Value>)
    requires x.AssignLocal? && x.name in v.env && Placed(w.p, pc, Ending(x, v, w.ctx.loc), |L|)
    requires Ready(w, v, r.s, L, slots) && v.n <= slots && Stored(v.names, x, r).Some?
    ensures Ends(w, x, v, slots, pc, r, L, st, below, L')
  {
    AssignHolds(v, x.name, r.s.locals, L, r.v.value);
    L' := L[v.env[x.name] := r.v.value];
    PlacedAt(w.p, pc, Ending(x, v, w.ctx.loc), |L|, 0);
    DoSetLocal(w.p, pc, v.env[x.name], w.ctx.loc, r.v.value, st, L, below, r.s.globals);
    ViewWiden(v, slots, Stored(v.names, x, r).value.locals, L');
  }

  lemma StackEnds(w: World, x: Stmt, v: View, pc: nat, r: Ev, L: seq<Value>, st: Stack, below: VAux)
    requires (x.AssignGlobal? || x.ExprStmt?) && Placed(w.p, pc, Ending(x, v, w.ctx.loc), |L|)
    requires Whole(w) && |r.s.globals| == w.p.numGlobals && Stored(v.names, x, r).Some?
    ensures var s := Stored(v.names, x, r).value;
            Go(w.p, pc, At(PushOpt(r.v, st), L, below, r.s.globals), pc + |Ending(x, v, w.ctx.loc)|,
               At(st, L, below, s.globals))
  {
    if x.AssignGlobal? {
      PlacedAt(w.p, pc, Ending(x, v, w.ctx.loc), |L|, 0);
      DoSetGlobal(w.p, pc, x.idx, w.ctx.loc, r.v.value, st, L, below, r.s.globals);
    } else if x.pushes {
      PlacedAt(w.p, pc, Ending(x, v, w.ctx.loc), |L|, 0);
      DoData(w.p, pc, Pop, w.ctx.loc, |L|, At(PushOpt(r.v, st), L, below, r.s.globals));
    } else {
      Stay(w.p, pc, At(st, L, below, r.s.globals));
    }
  }

  /** More slots in use, and nothing else. */
  lemma ViewWiden(v: View, n: nat, locals: seq<Value>, L: seq<Value>)
    requires Consistent(v) && v.n <= n <= |L| && Holds(v, locals, L)
    ensures var d := View(v.names, v.slots, v.env, n); Consistent(d) && Extends(v, d) && Holds(d, locals, L)
  {
    var d := View(v.names, v.slots, v.env, n);
    forall x | x in d.env ensures d.env[x] == SlotOf(d, x) { assert v.env[x] == SlotOf(v, x); }
  }

  // ----- loops -----

  /** Where the parts of a loop end up. */
  lemma WhilePlaced(p: Prog, pc: nat, n: nat, next: nat, gb: StmtGen, gc: Gen, env: Slots, loc: nat, frame: nat)
    requires Placed(p, pc, JoinWhile(n, next, gb, gc, env, loc).code, frame)
    ensures var top, cond := Anon(next), Anon(next + 1);
            var pc1 := pc + 4 + |gb.code|;
            var pc2 := pc1 + 1 + |gc.code|;
            && Placed(p, pc, LoopHead(top, cond, n, loc), frame) && Placed(p, pc + 4, gb.code, frame)
            && IsAt(p, pc1, Mark(cond, loc), frame) && Placed(p, pc1 + 1, gc.code, frame)
            && Placed(p, pc2, LoopTail(n, loc), frame)
            && pc2 + 2 == pc + |JoinWhile(n, next, gb, gc, env, loc).code|
  {
    var top, cond := Anon(next), Anon(next + 1);
    var head, tail := LoopHead(top, cond, n, loc), LoopTail(n, loc);
    var c1 := head + gb.code;
    var c2 := c1 + [Mark(cond, loc)];
    var c3 := c2 + gc.code;
    Split(p, pc, c3, tail, frame);
    Split(p, pc, c2, gc.code, frame);
    Split(p, pc, c1, [Mark(cond, loc)], frame);
    Split(p, pc, head, gb.code, frame);
    PlacedAt(p, pc + |c1|, [Mark(cond, loc)], frame, 0);
  }

  /** The head of a loop puts its top label into the hidden slot and goes to the condition. */
  lemma HeadRuns(p: Prog, pc: nat, top: Label, cond: Label, n: nat, loc: nat, t: nat, st: Stack, L: seq<Value>,
                 below: VAux, gl: seq<Value>)
    requires Runnable(p) && Placed(p, pc, LoopHead(top, cond, n, loc), |L|) && IsAt(p, t, Mark(cond, loc), |L|)
    requires n < |L| <= USIZE_LIMIT
    ensures Go(p, pc, At(st, L, below, gl), t, At(st, L[n := LabelVal(top)], below, gl))
  {
    var head, s := LoopHead(top, cond, n, loc), At(st, L, below, gl);
    var s1, s2 := At(Push(LabelVal(top), st), L, below, gl), At(st, L[n := LabelVal(top)], below, gl);
    PlacedAt(p, pc, head, |L|, 0);
    PlacedAt(p, pc, head, |L|, 1);
    PlacedAt(p, pc, head, |L|, 2);
    DoPush(p, pc, LabelVal(top), loc, |L|, s);
    DoSetLocal(p, pc + 1, n, loc, LabelVal(top), st, L, below, gl);
    DoJump(p, pc + 2, cond, loc, |L|, s2, t);
    GoOn(p, pc, s, pc + 1, s1, pc + 2, s2);
    GoOn(p, pc, s, pc + 2, s2, t, s2);
  }

  lemma {:induction false} WhileSound(w: World, x: Stmt, v: View, next: nat, fuel: nat, s: Store,
                                      pc: nat, L: seq<Value>, st: Stack, below: VAux, g: StmtGen, t: Store)
    returns (d: View, L': seq<Value>)
    requires x.While? && CompileStmt(x, v.n, v.env, next, w.ctx.loc) == Ok(g) && Placed(w.p, pc, g.code, |L|)
    requires Ready(w, v, s, L, g.slots) && EvalWhile(w.ctx, fuel, x, v.names, s) == Some(t)
    ensures d.names == v.names + Declared([x]) && d.env == g.env && d.n == g.slots
    ensures Executes(w, v, d, pc, |g.code|, L, st, below, s.globals, t, L')
    decreases fuel, x, 1
  {
    var gb, gc := LoopParts(w, x, v, next, pc, |L|, g);
    var pc1, L1 := pc + 4 + |gb.code|, L[v.n := LabelVal(Anon(next))];
    HeadRuns(w.p, pc, Anon(next), Anon(next + 1), v.n, w.ctx.loc, pc1, st, L, below, s.globals);
    assert Holds(v, s.locals, L1) && Untouched(v, L, L1);
    L' := LoopSound(w, x, v, next, fuel, s, pc, L1, st, below, gb, gc, t);
    d := View(v.names, v.slots, v.env, g.slots);
    ViewWiden(v, g.slots, t.locals, L');
    UntouchedTwice(v, L, L1, L');
    assert Declared([x]) == [] by { assert [x][1..] == []; }
    assert v.names + [] == v.names;
    GoOn(w.p, pc, At(st, L, below, s.globals), pc1, At(st, L1, below, s.globals), pc + |g.code|,
         At(st, L', below, t.globals));
  }

  /** The code of a loop and where its parts stand. */
  ghost predicate LoopAt(w: World, x: Stmt, v: View, next: nat, pc: nat, frame: nat, gb: StmtGen, gc: Gen)
    requires x.While?
  {
    var loc, pc1 := w.ctx.loc, pc + 4 + |gb.code|;
    && CompileStmts(x.body, v.n + 1, v.env, next + 2, loc) == Ok(gb)
    && CompileExpr(x.cond, gb.slots, v.env, gb.next, loc) == Ok(gc)
    && v.n < gb.slots <= gc.slots <= frame
    && Placed(w.p, pc, LoopHead(Anon(next), Anon(next + 1), v.n, loc), frame) && Placed(w.p, pc + 4, gb.code, frame)
    && IsAt(w.p, pc1, Mark(Anon(next + 1), loc), frame) && Placed(w.p, pc1 + 1, gc.code, frame)
    && Placed(w.p, pc1 + 1 + |gc.code|, LoopTail(v.n, loc), frame)
  }

  function LoopSize(gb: StmtGen, gc: Gen): nat { 4 + |gb.code| + 1 + |gc.code| + 2 }

  lemma LoopParts(w: World, x: Stmt, v: View, next: nat, pc: nat, frame: nat, g: StmtGen) returns (gb: StmtGen, gc: Gen)
    requires x.While? && Consistent(v) && CompileStmt(x, v.n, v.env, next, w.ctx.loc) == Ok(g)
    requires g.slots <= frame && Placed(w.p, pc, g.code, frame)
    ensures LoopAt(w, x, v, next, pc, frame, gb, gc) && |g.code| == LoopSize(gb, gc) && g.env == v.env
            && g.slots == gc.slots
  {
    var loc := w.ctx.loc;
    EnvIsBelow(v);
    StmtsGood(x.body, v.n + 1, v.env, next + 2, loc);
    gb := CompileStmts(x.body, v.n + 1, v.env, next + 2, loc).value;
    ExprGood(x.cond, gb.slots, v.env, gb.next, loc);
    gc := CompileExpr(x.cond, gb.slots, v.env, gb.next, loc).value;
    WhilePlaced(w.p, pc, v.n, next, gb, gc, v.env, loc, frame);
  }

  /** From the condition to the end of the loop, through any number of iterations. */
  lemma {:induction false} LoopSound(w: World, x: Stmt, v: View, next: nat, fuel: nat, s: Store,
                                     pc: nat, L: seq<Value>, st: Stack, below: VAux, gb: StmtGen, gc: Gen, t: Store)
    returns (L': seq<Value>)
    requires x.While? && LoopAt(w, x, v, next, pc, |L|, gb, gc) && Ready(w, v, s, L, gc.slots)
    requires L[v.n] == LabelVal(Anon(next)) && EvalWhile(w.ctx, fuel, x, v.names, s) == Some(t)
    ensures Holds(v, t.locals, L') && Untouched(v, L, L') && |t.globals| == w.p.numGlobals
    ensures Go(w.p, pc + 4 + |gb.code|, At(st, L, below, s.globals), pc + LoopSize(gb, gc),
               At(st, L', below, t.globals))
    decreases fuel, x, 0
  {
    var pc1, end := pc + 4 + |gb.code|, pc + LoopSize(gb, gc);
    var c := EvalExpr(w.ctx, fuel - 1, x.cond, v.names, s).value;
    var L1 := CondSound(w, x, v, next, fuel - 1, s, pc, L, st, below, gb, gc, c);
    if c.v.value.n == 0 {
      L' := L1;
    } else {
      var b := EvalStmts(w.ctx, fuel - 1, x.body, v.names, c.s).value;
      var L2 := RoundSound(w, x, v, next, fuel - 1, c.s, pc, L1, st, below, gb, gc, b);
      L' := LoopSound(w, x, v, next, fuel - 1, Leave(b, |v.names|), pc, L2, st, below, gb, gc, t);
      UntouchedTwice(v, L, L1, L2);
      UntouchedTwice(v, L, L2, L');
      GoOn(w.p, pc1, At(st, L, below, s.globals), pc + 4, At(st, L1, below, c.s.globals), pc1,
           At(st, L2, below, b.globals));
      GoOn(w.p, pc1, At(st, L, below, s.globals), pc1, At(st, L2, below, b.globals), end, At(st, L', below, t.globals));
    }
  }

  /** The condition leaves the hidden slot alone and decides where to go. */
  lemma {:induction false} CondSound(w: World, x: Stmt, v: View, next: nat, fuel: nat, s: Store,
                                     pc: nat, L: seq<Value>, st: Stack, below: VAux, gb: StmtGen, gc: Gen, c: Ev)
    returns (L1: seq<Value>)
    requires x.While? && LoopAt(w, x, v, next, pc, |L|, gb, gc) && Ready(w, v, s, L, gc.slots)
    requires L[v.n] == LabelVal(Anon(next)) && EvalExpr(w.ctx, fuel, x.cond, v.names, s) == Some(c) && Truth(c.v).Some?
    ensures Holds(v, c.s.locals, L1) && Untouched(v, L, L1) && |c.s.globals| == w.p.numGlobals && L1[v.n] == L[v.n]
    ensures Go(w.p, pc + 4 + |gb.code|, At(st, L, below, s.globals),
               if c.v.value.n != 0 then pc + 4 else pc + LoopSize(gb, gc), At(st, L1, below, c.s.globals))
    decreases fuel, x, 0
  {
    var loc, pc1, vc := w.ctx.loc, pc + 4 + |gb.code|, View(v.names, v.slots, v.env, gb.slots);
    var pc2 := pc1 + 1 + |gc.code|;
    ViewWiden(v, gb.slots, s.locals, L);
    DoLabel(w.p, pc1, Anon(next + 1), loc, |L|, At(st, L, below, s.globals));
    L1 := ExprSound(w, x.cond, vc, gb.next, fuel, s, pc1 + 1, L, st, below, gc, c);
    LeaveUntouched(v, vc, L, L1);
    LeaveHolds(v, vc, c.s.locals, L1);
    HiddenKept(v, vc, L, L1);
    assert c.s.locals[..|v.names|] == c.s.locals;
    TailRuns(w.p, pc2, v.n, Anon(next), Anon(next + 1), loc, c.v.value.n, pc, st, L1, below, c.s.globals);
    GoOn(w.p, pc1, At(st, L, below, s.globals), pc1 + 1, At(st, L, below, s.globals), pc2,
         At(Push(c.v.value, st), L1, below, c.s.globals));
    GoOn(w.p, pc1, At(st, L, below, s.globals), pc2, At(Push(c.v.value, st), L1, below, c.s.globals),
         if c.v.value.n != 0 then pc + 4 else pc2 + 2, At(st, L1, below, c.s.globals));
  }

  /** One iteration of the body, which leaves the hidden slot alone too. */
  lemma {:induction false} RoundSound(w: World, x: Stmt, v: View, next: nat, fuel: nat, s: Store,
                                      pc: nat, L: seq<Value>, st: Stack, below: VAux, gb: StmtGen, gc: Gen, b: Store)
    returns (L2: seq<Value>)
    requires x.While? && LoopAt(w, x, v, next, pc, |L|, gb, gc) && Ready(w, v, s, L, gc.slots)
    requires EvalStmts(w.ctx, fuel, x.body, v.names, s) == Some(b)
    ensures Holds(v, Leave(b, |v.names|).locals, L2) && Untouched(v, L, L2) && |b.globals| == w.p.numGlobals
            && L2[v.n] == L[v.n]
    ensures Go(w.p, pc + 4, At(st, L, below, s.globals), pc + 4 + |gb.code|, At(st, L2, below, b.globals))
    decreases fuel, x, 0
  {
    var vb := View(v.names, v.slots, v.env, v.n + 1);
    ViewWiden(v, v.n + 1, s.locals, L);
    var d;
    d, L2 := StmtsSound(w, x.body, vb, next + 2, fuel, s, pc + 4, L, st, below, gb, b);
    LeaveUntouched(v, vb, L, L2);
    HiddenKept(v, vb, L, L2);
    ExtendsTwice(v, vb, d);
    LeaveHolds(v, d, b.locals, L2);
  }

  lemma HiddenKept(v: View, d: View, L: seq<Value>, L': seq<Value>)
    requires Consistent(v) && d.slots == v.slots && v.n < d.n && Untouched(d, L, L')
    ensures L'[v.n] == L[v.n]
  {
  }

  lemma ExtendsTwice(v: View, a: View, b: View)
    requires Extends(v, a) && Extends(a, b)
    ensures Extends(v, b)
  {
  }

  /** The end of a loop: back to the top while the condition holds. */
  lemma TailRuns(p: Prog, pc2: nat, n: nat, top: Label, cond: Label, loc: nat, c: nat, pc: nat,
                 st: Stack, L: seq<Value>, below: VAux, gl: seq<Value>)
    requires Runnable(p) && Placed(p, pc2, LoopTail(n, loc), |L|) && n < |L| <= USIZE_LIMIT && L[n] == LabelVal(top)
    requires Placed(p, pc, LoopHead(top, cond, n, loc), |L|)
    ensures Go(p, pc2, At(Push(Int(c), st), L, below, gl), if c != 0 then pc + 4 else pc2 + 2, At(st, L, below, gl))
  {
    var tail, s, t := LoopTail(n, loc), At(st, L, below, gl), pc + 3;
    PlacedAt(p, pc2, tail, |L|, 0);
    PlacedAt(p, pc2, tail, |L|, 1);
    PlacedAt(p, pc, LoopHead(top, cond, n, loc), |L|, 3);
    DoGetLocal(p, pc2, n, loc, Push(Int(c), st), L, below, gl);
    DoCjumpTop(p, pc2 + 1, top, loc, |L|, c, s, t);
    GoOn(p, pc2, At(Push(Int(c), st), L, below, gl), pc2 + 1, At(Push(LabelVal(top), Push(Int(c), st)), L, below, gl),
         if c != 0 then t else pc2 + 2, s);
    if c != 0 {
      DoLabel(p, t, top, loc, |L|, s);
      GoOn(p, pc2, At(Push(Int(c), st), L, below, gl), t, s, t + 1, s);
    }
  }

  // ----- calls -----

  lemma {:induction false} CallSound(w: World, e: Expr, v: View, next: nat, fuel: nat, s: Store,
                                     pc: nat, L: seq<Value>, st: Stack, below: VAux, g: Gen, r: Ev)
    returns (L': seq<Value>)
    requires e.Call? && CompileExpr(e, v.n, v.env, next, w.ctx.loc) == Ok(g) && Placed(w.p, pc, g.code, |L|)
    requires Ready(w, v, s, L, g.slots) && EvalExpr(w.ctx, fuel, e, v.names, s) == Some(r)
    ensures Computes(w, v, pc, |g.code|, L, st, below, s.globals, r, L')
    decreases fuel, e, 0
  {
    var ret, f := Anon(next), e.func;
    var gs, call := CompileArgs(e.args, v.n, v.env, next + 1, w.ctx.loc).value, CallCode(ret, f, w.ctx.loc);
    Split(w.p, pc, gs.code, call, |L|);
    var xs := EvalArgs(w.ctx, fuel, e.args, v.names, s).value;
    L' := ArgsSound(w, e.args, v, next + 1, fuel, s, pc, L, st, below, gs, xs);
    var pc1 := pc + |gs.code|;
    PlacedAt(w.p, pc1, call, |L|, 3);
    CalleeSound(w, f, fuel - 1, xs.vs, xs.s.globals, ret, pc1 + 3, st, AFrame(L', below));
    CallJoin(w, f, pc1, ret, |L|, At(PushAll(xs.vs, st), L', below, xs.s.globals),
             At(PushOpt(r.v, st), L', below, r.s.globals));
    GoOn(w.p, pc, At(st, L, below, s.globals), pc1, At(PushAll(xs.vs, st), L', below, xs.s.globals),
         pc + |g.code|, At(PushOpt(r.v, st), L', below, r.s.globals));
  }

  lemma CallJoin(w: World, f: nat, pc: nat, ret: Label, frame: nat, s: VState, s': VState)
    requires Whole(w) && f in w.ctx.funcs && Placed(w.p, pc, CallCode(ret, f, w.ctx.loc), frame)
    requires Go(w.p, w.sites[f].pos, s.(stack := Push(LabelVal(ret), s.stack)), pc + 3, s')
    ensures Go(w.p, pc, s, pc + 4, s')
  {
    CallJumps(w, f, pc, ret, frame, s);
    PlacedAt(w.p, pc, CallCode(ret, f, w.ctx.loc), frame, 3);
    DoLabel(w.p, pc + 3, ret, w.ctx.loc, frame, s');
    GoOn(w.p, pc, s, w.sites[f].pos, s.(stack := Push(LabelVal(ret), s.stack)), pc + 3, s');
    GoOn(w.p, pc, s, pc + 3, s', pc + 4, s');
  }

  /** Pushing the return address and the function, and jumping. */
  lemma CallJumps(w: World, f: nat, pc: nat, ret: Label, frame: nat, s: VState)
    requires Whole(w) && f in w.ctx.funcs && Placed(w.p, pc, CallCode(ret, f, w.ctx.loc), frame)
    ensures Go(w.p, pc, s, w.sites[f].pos, s.(stack := Push(LabelVal(ret), s.stack)))
  {
    var call, loc := CallCode(ret, f, w.ctx.loc), w.ctx.loc;
    var s1 := s.(stack := Push(LabelVal(ret), s.stack));
    var s2 := s.(stack := Push(LabelVal(Label.Func(f)), s1.stack));
    PlacedAt(w.p, pc, call, frame, 0);
    PlacedAt(w.p, pc, call, frame, 1);
    PlacedAt(w.p, pc, call, frame, 2);
    assert FuncSited(w, f);
    SitedAt(w, f, 0);
    DoPush(w.p, pc, LabelVal(ret), loc, frame, s);
    DoPush(w.p, pc + 1, LabelVal(Label.Func(f)), loc, frame, s1);
    DoJumpTop(w.p, pc + 2, Label.Func(f), loc, frame, s1, w.sites[f].pos);
    GoOn(w.p, pc, s, pc + 1, s1, pc + 2, s2);
    GoOn(w.p, pc, s, pc + 2, s2, w.sites[f].pos, s1);
  }

  lemma SitedAt(w: World, f: nat, k: nat)
    requires Whole(w) && f in w.ctx.funcs
    requires var g := CompileFunc(w.ctx.funcs[f], w.sites[f].next, w.ctx.loc); g.Ok? && k < |g.value.code|
    ensures var pos, g := w.sites[f].pos, CompileFunc(w.ctx.funcs[f], w.sites[f].next, w.ctx.loc).value;
            pos + k < |w.p.code| && w.p.code[pos + k] == g.code[k]
  {
    assert FuncSited(w, f);
    var pos, g := w.sites[f].pos, CompileFunc(w.ctx.funcs[f], w.sites[f].next, w.ctx.loc).value;
    assert w.p.code[pos..pos + |g.code|][k] == w.p.code[pos + k];
  }

  /** The frame made at the start of a function is the one in force in all of its body. */
  lemma {:induction false} FrameInBody(w: World, f: nat, k: nat)
    requires Whole(w) && f in w.ctx.funcs
    requires var g := CompileBody(w.ctx.funcs[f], w.sites[f].next, w.ctx.loc); g.Ok? && k <= |g.value.code|
    ensures var pos, g := w.sites[f].pos, CompileBody(w.ctx.funcs[f], w.sites[f].next, w.ctx.loc).value;
            pos + 2 + k <= |w.p.code| && FrameAt(w.p.code, INITIAL_FRAME, pos + 2 + k) == g.slots
  {
    var pos, g := w.sites[f].pos, CompileBody(w.ctx.funcs[f], w.sites[f].next, w.ctx.loc).value;
    SitedAt(w, f, k + 1);
    FrameAtNext(w.p.code, INITIAL_FRAME, pos + 1 + k);
    if k > 0 {
      FrameInBody(w, f, k - 1);
      BodyGood(w.ctx.funcs[f], w.sites[f].next, w.ctx.loc);
      ShapedAt(g.code, w.sites[f].next, g.next, g.slots, k - 1);
    }
  }

  lemma BodyPlaced(w: World, f: nat)
    requires Whole(w) && f in w.ctx.funcs
    ensures CompileBody(w.ctx.funcs[f], w.sites[f].next, w.ctx.loc).Ok?
    ensures var pos, g := w.sites[f].pos, CompileBody(w.ctx.funcs[f], w.sites[f].next, w.ctx.loc).value;
            Placed(w.p, pos + 2, g.code, g.slots) && IsAt(w.p, pos + 2 + |g.code|, Instr(Return, None, w.ctx.loc),
                                                          g.slots)
  {
    assert FuncSited(w, f);
    var pos, g := w.sites[f].pos, CompileBody(w.ctx.funcs[f], w.sites[f].next, w.ctx.loc).value;
    forall k | 0 <= k < |g.code| ensures IsAt(w.p, pos + 2 + k, g.code[k], g.slots) { BodyAt(w, f, k, g); }
    BodyAt(w, f, |g.code|, g);
  }

  lemma BodyAt(w: World, f: nat, k: nat, g: Gen)
    requires Whole(w) && f in w.ctx.funcs && CompileBody(w.ctx.funcs[f], w.sites[f].next, w.ctx.loc) == Ok(g)
             && k <= |g.code|
    ensures IsAt(w.p, w.sites[f].pos + 2 + k, if k < |g.code| then g.code[k] else Instr(Return, None, w.ctx.loc),
                 g.slots)
  {
    SitedAt(w, f, k + 2);
    FrameInBody(w, f, k);
  }

  /** Arguments in their slots. */
  function ArgView(args: seq<Name>): View {
    View(args, seq(|args|, i requires 0 <= i < |args| => i), ArgSlots(args, |args|), |args|)
  }

  lemma {:induction false} ArgSlotsAre(args: seq<Name>, n: nat, x: Name)
    requires n <= |args|
    ensures x in ArgSlots(args, n) <==> x in args[..n]
    ensures x in args[..n] ==> ArgSlots(args, n)[x] == Last(args[..n], x).value
  {
    if n > 0 {
      ArgSlotsAre(args, n - 1, x);
      assert args[..n] == args[..n - 1] + [args[n - 1]];
      LastAppend(args[..n - 1], args[n - 1], x);
    }
  }

  lemma ArgViewConsistent(args: seq<Name>)
    ensures Consistent(ArgView(args))
  {
    var v := ArgView(args);
    assert args[..|args|] == args;
    forall x ensures (x in v.env <==> x in v.names) && (x in v.env ==> v.env[x] == SlotOf(v, x)) {
      ArgSlotsAre(args, |args|, x);
    }
  }

  /** The calling convention: from a function's label, with the return address and the arguments on
      the stack, the run comes to the return label with only the result added, the aux stack as it
      was, and the globals as the function left them. */
  lemma {:induction false} CalleeSound(w: World, f: nat, fuel: nat, args: seq<Value>, gl: seq<Value>,
                                       ret: Label, t: nat, st: Stack, aux: VAux)
    requires Whole(w) && f in w.ctx.funcs && |gl| == w.p.numGlobals
    requires t < |w.p.code| && w.p.code[t].op == LabelOp(ret)
    requires EvalCall(w.ctx, fuel, w.ctx.funcs[f], args, gl).Some?
    ensures var r := EvalCall(w.ctx, fuel, w.ctx.funcs[f], args, gl).value;
            && |r.s.globals| == w.p.numGlobals
            && Go(w.p, w.sites[f].pos, VState(Push(LabelVal(ret), PushAll(args, st)), aux, Globals(gl)),
                  t, VState(PushOpt(r.v, st), aux, Globals(r.s.globals)))
    decreases fuel, w.ctx.funcs[f].block, 3
  {
    var fn, loc, pos := w.ctx.funcs[f], w.ctx.loc, w.sites[f].pos;
    assert FuncSited(w, f);
    BodyPlaced(w, f);
    var g := CompileBody(fn, w.sites[f].next, loc).value;
    var s0 := VState(Push(LabelVal(ret), PushAll(args, st)), aux, Globals(gl));
    EnterFunc(w, f, args, s0, LabelVal(ret), st);
    var L, below := args + Nones(g.slots - |args|), AVal(LabelVal(ret), aux);
    var L' := CalleeBody(w, f, fuel, args, gl, L, st, below);
    var r := EvalCall(w.ctx, fuel, fn, args, gl).value;
    DoReturn(w.p, pos + 2 + |g.code|, loc, g.slots, ret, PushOpt(r.v, st), L', aux, Globals(r.s.globals), t);
    GoOn(w.p, pos, s0, pos + 2, At(st, L, below, gl), pos + 2 + |g.code|, At(PushOpt(r.v, st), L', below, r.s.globals));
    GoOn(w.p, pos, s0, pos + 2 + |g.code|, At(PushOpt(r.v, st), L', below, r.s.globals), t,
         VState(PushOpt(r.v, st), aux, Globals(r.s.globals)));
  }

  lemma EnterFunc(w: World, f: nat, args: seq<Value>, s: VState, ret: Value, st: Stack)
    requires Whole(w) && f in w.ctx.funcs && s.stack == Push(ret, PushAll(args, st)) && |args| == |w.ctx.funcs[f].args|
    requires CompileBody(w.ctx.funcs[f], w.sites[f].next, w.ctx.loc).Ok?
    ensures var pos, g := w.sites[f].pos, CompileBody(w.ctx.funcs[f], w.sites[f].next, w.ctx.loc).value;
            |args| <= g.slots
            && Go(w.p, pos, s, pos + 2, VState(st, AFrame(args + Nones(g.slots - |args|), AVal(ret, s.aux)), s.reg))
  {
    var pos, g := w.sites[f].pos, CompileBody(w.ctx.funcs[f], w.sites[f].next, w.ctx.loc).value;
    BodyGood(w.ctx.funcs[f], w.sites[f].next, w.ctx.loc);
    SitedAt(w, f, 0);
    SitedAt(w, f, 1);
    assert FuncSited(w, f);
    DoLabel(w.p, pos, Label.Func(f), w.ctx.loc, FrameAt(w.p.code, INITIAL_FRAME, pos), s);
    DoMakeFrame(w.p, pos + 1, g.slots, w.ctx.loc, FrameAt(w.p.code, INITIAL_FRAME, pos + 1), ret, args, st, s.aux,
                s.reg);
    GoOn(w.p, pos, s, pos + 1, s, pos + 2, VState(st, AFrame(args + Nones(g.slots - |args|), AVal(ret, s.aux)), s.reg));
  }

  lemma {:induction false} CalleeBody(w: World, f: nat, fuel: nat, args: seq<Value>, gl: seq<Value>, L: seq<Value>,
                                      st: Stack, below: VAux) returns (L': seq<Value>)
    requires Whole(w) && f in w.ctx.funcs && |gl| == w.p.numGlobals
    requires EvalCall(w.ctx, fuel, w.ctx.funcs[f], args, gl).Some?
    requires CompileBody(w.ctx.funcs[f], w.sites[f].next, w.ctx.loc).Ok?
    requires var g := CompileBody(w.ctx.funcs[f], w.sites[f].next, w.ctx.loc).value;
             |args| <= g.slots && L == args + Nones(g.slots - |args|)
             && Placed(w.p, w.sites[f].pos + 2, g.code, g.slots)
    ensures var pos, g := w.sites[f].pos, CompileBody(w.ctx.funcs[f], w.sites[f].next, w.ctx.loc).value;
            var r := EvalCall(w.ctx, fuel, w.ctx.funcs[f], args, gl).value;
            && |r.s.globals| == w.p.numGlobals
            && Go(w.p, pos + 2, At(st, L, below, gl), pos + 2 + |g.code|, At(PushOpt(r.v, st), L', below, r.s.globals))
    decreases fuel, w.ctx.funcs[f].block, 2
  {
    var fn, pos, next := w.ctx.funcs[f], w.sites[f].pos, w.sites[f].next;
    var v, s := ArgView(fn.args), Store(args, gl);
    ArgViewConsistent(fn.args);
    assert FuncSited(w, f);
    assert Holds(v, args, L);
    var gs := CompileStmts(fn.block.body, v.n, v.env, next, w.ctx.loc).value;
    var r := EvalCall(w.ctx, fuel, fn, args, gl).value;
    if fn.block.ret.None? {
      var t := EvalStmts(w.ctx, fuel, fn.block.body, v.names, s).value;
      var d;
      d, L' := StmtsSound(w, fn.block.body, v, next, fuel, s, pos + 2, L, st, below, gs, t);
    } else {
      var gr := CompileExpr(fn.block.ret.value, gs.slots, gs.env, gs.next, w.ctx.loc).value;
      L' := BodySound(w, fn.block, v, next, fuel, s, pos + 2, L, st, below, gs, gr, r);
    }
  }
}
