/** The first function of a program is not called: the program falls into it with none for a return
    address. Up to the return of the call it ends with, it does what it evaluates to. */
module MainRuns {
  import opened Avm
  import opened Machine
  import opened TupleTrees
  import opened Virtual
  import opened Mini
  import opened Codegen
  import opened CodegenShape
  import opened Runs
  import opened CodegenCorrect
  import opened CodegenSound
  import opened CodegenModule

  /** It returns what another function returns. */
  predicate EndsInCall(b: Block) { b.ret.Some? && b.ret.value.Call? }

  /** A call, up to its return label. */
  lemma CallReturns(w: World, e: Expr, v: View, next: nat, fuel: nat, s: Store, pc: nat, L: seq<Value>, st: Stack,
                    below: VAux, g: Gen, r: Ev) returns (L': seq<Value>)
    requires e.Call? && CompileExpr(e, v.n, v.env, next, w.ctx.loc) == Ok(g) && Placed(w.p, pc, g.code, |L|)
    requires Ready(w, v, s, L, g.slots) && EvalExpr(w.ctx, fuel, e, v.names, s) == Some(r)
    ensures |g.code| >= 4 && IsAt(w.p, pc + |g.code| - 1, Mark(Anon(next), w.ctx.loc), |L|)
    ensures Go(w.p, pc, At(st, L, below, s.globals), pc + |g.code| - 1, At(PushOpt(r.v, st), L', below, r.s.globals))
  {
    var gs, xs := CallParts(w, e, v, next, fuel, s, pc, |L|, g, r);
    L' := ArgsSound(w, e.args, v, next + 1, fuel, s, pc, L, st, below, gs, xs);
    CalleeSound(w, e.func, fuel - 1, xs.vs, xs.s.globals, Anon(next), pc + |gs.code| + 3, st, AFrame(L', below));
    ReturnJoin(w, e.func, pc, |gs.code|, Anon(next), |L|, At(st, L, below, s.globals),
               At(PushAll(xs.vs, st), L', below, xs.s.globals), At(PushOpt(r.v, st), L', below, r.s.globals));
  }

  lemma CallParts(w: World, e: Expr, v: View, next: nat, fuel: nat, s: Store, pc: nat, frame: nat, g: Gen, r: Ev)
    returns (gs: Gen, xs: Evs)
    requires e.Call? && CompileExpr(e, v.n, v.env, next, w.ctx.loc) == Ok(g) && Placed(w.p, pc, g.code, frame)
    requires |s.locals| == |v.names| && EvalExpr(w.ctx, fuel, e, v.names, s) == Some(r)
    ensures CompileArgs(e.args, v.n, v.env, next + 1, w.ctx.loc) == Ok(gs) && gs.slots <= g.slots
    ensures EvalArgs(w.ctx, fuel, e.args, v.names, s) == Some(xs) && e.func in w.ctx.funcs && fuel > 0
    ensures var c := EvalCall(w.ctx, fuel - 1, w.ctx.funcs[e.func], xs.vs, xs.s.globals);
            c.Some? && r.v == c.value.v && r.s.globals == c.value.s.globals
    ensures |g.code| == |gs.code| + 4 && Placed(w.p, pc, gs.code, frame)
    ensures Placed(w.p, pc + |gs.code|, CallCode(Anon(next), e.func, w.ctx.loc), frame)
    ensures IsAt(w.p, pc + |gs.code| + 3, Mark(Anon(next), w.ctx.loc), frame)
  {
    gs, xs := CompileArgs(e.args, v.n, v.env, next + 1, w.ctx.loc).value,
        EvalArgs(w.ctx, fuel, e.args, v.names, s).value;
    var call := CallCode(Anon(next), e.func, w.ctx.loc);
    Split(w.p, pc, gs.code, call, frame);
    PlacedAt(w.p, pc + |gs.code|, call, frame, 3);
  }

  lemma ReturnJoin(w: World, f: nat, pc: nat, a: nat, ret: Label, frame: nat, s0: VState, s: VState, s': VState)
    requires Whole(w) && f in w.ctx.funcs && Placed(w.p, pc + a, CallCode(ret, f, w.ctx.loc), frame)
    requires Go(w.p, pc, s0, pc + a, s)
    requires Go(w.p, w.sites[f].pos, s.(stack := Push(LabelVal(ret), s.stack)), pc + a + 3, s')
    ensures Go(w.p, pc, s0, pc + a + 3, s')
  {
    CallJumps(w, f, pc + a, ret, frame, s);
    GoOn(w.p, pc, s0, pc + a, s, w.sites[f].pos, s.(stack := Push(LabelVal(ret), s.stack)));
    GoOn(w.p, pc, s0, w.sites[f].pos, s.(stack := Push(LabelVal(ret), s.stack)), pc + a + 3, s');
  }

  /** The statements of a block and the call it ends with. */
  lemma LastCall(w: World, b: Block, v: View, next: nat, fuel: nat, s: Store, pc: nat, L: seq<Value>, st: Stack,
                 below: VAux, gs: StmtGen, gr: Gen, r: Ev) returns (L': seq<Value>)
    requires EndsInCall(b) && CompileStmts(b.body, v.n, v.env, next, w.ctx.loc) == Ok(gs)
    requires CompileExpr(b.ret.value, gs.slots, gs.env, gs.next, w.ctx.loc) == Ok(gr)
    requires Ready(w, v, s, L, Max(gr.slots, gs.slots)) && Placed(w.p, pc, gs.code + gr.code, |L|)
    requires EvalBlock(w.ctx, fuel, b, v.names, s) == Some(r)
    ensures |gr.code| > 0 && IsAt(w.p, pc + |gs.code| + |gr.code| - 1, Mark(Anon(gs.next), w.ctx.loc), |L|)
    ensures Go(w.p, pc, At(st, L, below, s.globals),
               pc + |gs.code| + |gr.code| - 1, At(PushOpt(r.v, st), L', below, r.s.globals))
  {
    Split(w.p, pc, gs.code, gr.code, |L|);
    var t, x := BlockValues(w, b, v, fuel, s, r);
    var d, L1 := StmtsSound(w, b.body, v, next, fuel, s, pc, L, st, below, gs, t);
    L' := CallAfter(w, b.ret.value, d, gs.next, fuel, t, pc, |gs.code|, At(st, L, below, s.globals), L1, st, below,
                    gr, x);
  }

  lemma CallAfter(w: World, e: Expr, v: View, next: nat, fuel: nat, s: Store, pc: nat, a: nat, s0: VState,
                  L: seq<Value>, st: Stack, below: VAux, g: Gen, r: Ev) returns (L': seq<Value>)
    requires e.Call? && CompileExpr(e, v.n, v.env, next, w.ctx.loc) == Ok(g) && Placed(w.p, pc + a, g.code, |L|)
    requires Ready(w, v, s, L, g.slots) && EvalExpr(w.ctx, fuel, e, v.names, s) == Some(r)
    requires Go(w.p, pc, s0, pc + a, At(st, L, below, s.globals))
    ensures |g.code| > 0 && IsAt(w.p, pc + a + |g.code| - 1, Mark(Anon(next), w.ctx.loc), |L|)
    ensures Go(w.p, pc, s0, pc + a + |g.code| - 1, At(PushOpt(r.v, st), L', below, r.s.globals))
  {
    L' := CallReturns(w, e, v, next, fuel, s, pc + a, L, st, below, g, r);
    GoOn(w.p, pc, s0, pc + a, At(st, L, below, s.globals),
         pc + a + |g.code| - 1, At(PushOpt(r.v, st), L', below, r.s.globals));
  }

  lemma BlockValues(w: World, b: Block, v: View, fuel: nat, s: Store, r: Ev) returns (t: Store, x: Ev)
    requires b.ret.Some? && |s.locals| == |v.names| && EvalBlock(w.ctx, fuel, b, v.names, s) == Some(r)
    ensures EvalStmts(w.ctx, fuel, b.body, v.names, s) == Some(t) && |t.locals| == |v.names + Declared(b.body)|
    ensures EvalExpr(w.ctx, fuel, b.ret.value, v.names + Declared(b.body), t) == Some(x)
    ensures r.v == x.v && r.s.globals == x.s.globals
  {
    t := EvalStmts(w.ctx, fuel, b.body, v.names, s).value;
    x := EvalExpr(w.ctx, fuel, b.ret.value, v.names + Declared(b.body), t).value;
  }

  /** From the label of such a function, with anything for a return address, to the return of its last
      call: what it evaluates to is on the stack. */
  lemma MainCall(w: World, f: nat, fuel: nat, args: seq<Value>, gl: seq<Value>, ret: Value, st: Stack, aux: VAux, r: Ev)
    returns (L: seq<Value>, t: nat, lab: Label)
    requires Whole(w) && f in w.ctx.funcs && |gl| == w.p.numGlobals && EndsInCall(w.ctx.funcs[f].block)
    requires EvalCall(w.ctx, fuel, w.ctx.funcs[f], args, gl) == Some(r)
    ensures t < |w.p.code| && w.p.code[t].op == LabelOp(lab)
    ensures Go(w.p, w.sites[f].pos, VState(Push(ret, PushAll(args, st)), aux, Globals(gl)),
               t, VState(PushOpt(r.v, st), AFrame(L, AVal(ret, aux)), Globals(r.s.globals)))
  {
    var fn, pos, next := w.ctx.funcs[f], w.sites[f].pos, w.sites[f].next;
    var s0 := VState(Push(ret, PushAll(args, st)), aux, Globals(gl));
    BodyPlaced(w, f);
    EnterFunc(w, f, args, s0, ret, st);
    var g := CompileBody(fn, next, w.ctx.loc).value;
    var L0, below := args + Nones(g.slots - |args|), AVal(ret, aux);
    L, t, lab := MainBody(w, f, fuel, args, gl, L0, st, below, r, g);
    GoOn(w.p, pos, s0, pos + 2, At(st, L0, below, gl), t, At(PushOpt(r.v, st), L, below, r.s.globals));
  }

  lemma MainBody(w: World, f: nat, fuel: nat, args: seq<Value>, gl: seq<Value>, L0: seq<Value>, st: Stack, below: VAux,
                 r: Ev, g: Gen) returns (L: seq<Value>, t: nat, lab: Label)
    requires Whole(w) && f in w.ctx.funcs && |gl| == w.p.numGlobals && EndsInCall(w.ctx.funcs[f].block)
    requires EvalCall(w.ctx, fuel, w.ctx.funcs[f], args, gl) == Some(r)
    requires CompileBody(w.ctx.funcs[f], w.sites[f].next, w.ctx.loc) == Ok(g)
    requires |args| <= g.slots && L0 == args + Nones(g.slots - |args|)
             && Placed(w.p, w.sites[f].pos + 2, g.code, g.slots)
    ensures t < |w.p.code| && w.p.code[t].op == LabelOp(lab)
    ensures Go(w.p, w.sites[f].pos + 2, At(st, L0, below, gl), t, At(PushOpt(r.v, st), L, below, r.s.globals))
  {
    var fn, pos, next := w.ctx.funcs[f], w.sites[f].pos, w.sites[f].next;
    var v, s := ArgView(fn.args), Store(args, gl);
    ArgViewConsistent(fn.args);
    assert FuncSited(w, f);
    assert Holds(v, args, L0);
    var gs := CompileStmts(fn.block.body, v.n, v.env, next, w.ctx.loc).value;
    var gr := CompileExpr(fn.block.ret.value, gs.slots, gs.env, gs.next, w.ctx.loc).value;
    L := LastCall(w, fn.block, v, next, fuel, s, pos + 2, L0, st, below, gs, gr, r);
    t, lab := pos + 2 + |gs.code| + |gr.code| - 1, Anon(gs.next);
  }

  /** The same for the first function of a module alone. */
  lemma FirstFunction(fs: seq<Func>, isa: Isa, loc: nat, fuel: nat, args: seq<Value>, gl: seq<Value>, ret: Value,
                      st: Stack, aux: VAux, code: seq<Instr>, r: Ev)
    returns (L: seq<Value>, t: nat, lab: Label, p: Prog)
    requires isa.symbolic && DistinctNames(fs) && CompileModule(fs, 0, loc).Ok?
             && code == CompileModule(fs, 0, loc).value.code
    requires CompileModule(fs, 0, loc).value.slots <= USIZE_LIMIT && fs != [] && EndsInCall(fs[0].block)
    requires EvalCall(Ctx(isa, FuncMap(fs), loc), fuel, fs[0], args, gl) == Some(r)
    ensures Runnable(p) && p.isa == isa && p.numGlobals == |gl| && p.code == code
    ensures t < |code| && code[t].op == LabelOp(lab)
    ensures Go(p, 0, VState(Push(ret, PushAll(args, st)), aux, Globals(gl)),
               t, VState(PushOpt(r.v, st), AFrame(L, AVal(ret, aux)), Globals(r.s.globals)))
  {
    var w := ModuleWorld(fs, isa, |gl|, loc);
    p := w.p;
    ModuleIsWhole(fs, isa, |gl|, loc);
    assert w.sites[fs[0].name] == Site(0, 0);
    L, t, lab := MainCall(w, fs[0].name, fuel, args, gl, ret, st, aux, r);
  }
}
