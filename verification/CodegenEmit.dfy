/** The code generator itself (src/compile/codegen.rs): methods that append to one instruction vector
    and hand on the label supply, and the placeholder for MakeFrame that is patched at the end. */
module CodegenEmit {
  import opened Avm
  import opened TupleTrees
  import opened TupleCode
  import opened Mini
  import opened Codegen

  /** What is handed back besides the code. */
  datatype Used = Used(next: nat, slots: nat)

  datatype StmtUsed = StmtUsed(next: nat, slots: nat, env: Slots)

  predicate Wrote(before: seq<Instr>, after: seq<Instr>, spec: Result<Gen>, r: Result<Used>) {
    match spec
    case Ok(g) => r == Ok(Used(g.next, g.slots)) && after == before + g.code
    case Err(e) => r == Err(e)
  }

  predicate WroteStmts(before: seq<Instr>, after: seq<Instr>, spec: Result<StmtGen>, r: Result<StmtUsed>) {
    match spec
    case Ok(g) => r == Ok(StmtUsed(g.next, g.slots, g.env)) && after == before + g.code
    case Err(e) => r == Err(e)
  }

  method EmitOperator(op: BinaryOp, code: CodeVec, loc: nat)
    modifies code
    ensures code.insns == old(code.insns) + OpCode(op, loc)
  {
    code.Append(Plain(OpcodeOf(op), loc));
    if Negates(op) {
      code.Append(Plain(IsZero, loc));
    }
  }

  method EmitExpr(e: Expr, code: CodeVec, n: nat, env: Slots, next: nat, loc: nat) returns (r: Result<Used>)
    modifies code
    ensures Wrote(old(code.insns), code.insns, CompileExpr(e, n, env, next, loc), r)
    decreases e, 2
  {
    match e
    case Const(v) =>
      code.Append(WithImm(Noop, v, loc));
      r := Ok(Used(next, n));
    case Local(x) =>
      if x !in env { return Err(UnknownLocal(x)); }
      code.Append(Slot(GetLocal, env[x], loc));
      r := Ok(Used(next, n));
    case GlobalRef(i) =>
      code.Append(Instr(GetGlobalVar(i), None, loc));
      r := Ok(Used(next, n));
    case Not(a) =>
      r := EmitExpr(a, code, n, env, next, loc);
      if r.Err? { return; }
      code.Append(Plain(IsZero, loc));
      r := Ok(Used(r.value.next, Max(n, r.value.slots)));
    case DotRef(a, slot, size) =>
      r := EmitExpr(a, code, n, env, next, loc);
      if r.Err? { return; }
      code.Append(Slot(TupleGet(size), slot, loc));
      r := Ok(Used(r.value.next, Max(n, r.value.slots)));
    case Binary(_, _, _) => r := EmitBinary(e, code, n, env, next, loc);
    case ShortcutAnd(_, _) => r := EmitShortcut(e, code, n, env, next, loc);
    case ShortcutOr(_, _) => r := EmitShortcut(e, code, n, env, next, loc);
    case If(_, _, _) => r := EmitIf(e, code, n, env, next, loc);
    case CodeBlock(block) => r := EmitBlock(block, code, n, env, next, loc);
    case Call(_, _) => r := EmitCall(e, code, n, env, next, loc);
    case StructInit(_) => r := EmitStruct(e, code, n, env, next, loc);
    case StructMod(_, _, _, _) => r := EmitStructMod(e, code, n, env, next, loc);
  }

  method EmitBinary(e: Expr, code: CodeVec, n: nat, env: Slots, next: nat, loc: nat) returns (r: Result<Used>)
    requires e.Binary?
    modifies code
    ensures Wrote(old(code.insns), code.insns, CompileExpr(e, n, env, next, loc), r)
    decreases e, 1
  {
    var y := EmitExpr(e.right, code, n, env, next, loc);
    if y.Err? { return y; }
    var x := EmitExpr(e.left, code, n, env, y.value.next, loc);
    if x.Err? { return x; }
    EmitOperator(e.op, code, loc);
    r := Ok(Used(x.value.next, Max(n, Max(y.value.slots, x.value.slots))));
    ghost var gy := CompileExpr(e.right, n, env, next, loc).value;
    ghost var gx := CompileExpr(e.left, n, env, gy.next, loc).value;
    Reassociate(old(code.insns), gy.code, gx.code);
    Reassociate(old(code.insns), gy.code + gx.code, OpCode(e.op, loc));
  }

  method EmitStructMod(e: Expr, code: CodeVec, n: nat, env: Slots, next: nat, loc: nat) returns (r: Result<Used>)
    requires e.StructMod?
    modifies code
    ensures Wrote(old(code.insns), code.insns, CompileExpr(e, n, env, next, loc), r)
    decreases e, 1
  {
    var y := EmitExpr(e.value, code, n, env, next, loc);
    if y.Err? { return y; }
    var x := EmitExpr(e.e, code, n, env, y.value.next, loc);
    if x.Err? { return x; }
    code.Append(Slot(TupleSet(e.size), e.slot, loc));
    r := Ok(Used(x.value.next, Max(n, Max(y.value.slots, x.value.slots))));
    ghost var gy := CompileExpr(e.value, n, env, next, loc).value;
    ghost var gx := CompileExpr(e.e, n, env, gy.next, loc).value;
    Reassociate(old(code.insns), gy.code, gx.code);
    Reassociate(old(code.insns), gy.code + gx.code, [Slot(TupleSet(e.size), e.slot, loc)]);
  }

  method EmitShortcut(e: Expr, code: CodeVec, n: nat, env: Slots, next: nat, loc: nat) returns (r: Result<Used>)
    requires e.ShortcutAnd? || e.ShortcutOr?
    modifies code
    ensures Wrote(old(code.insns), code.insns, CompileExpr(e, n, env, next, loc), r)
    decreases e, 1
  {
    var x := EmitExpr(e.left, code, n, env, next, loc);
    if x.Err? { return x; }
    var lab := Anon(x.value.next);
    EmitTest(e.ShortcutAnd?, lab, code, loc);
    var y := EmitExpr(e.right, code, n, env, x.value.next + 1, loc);
    if y.Err? { return y; }
    code.Append(Mark(lab, loc));
    r := Ok(Used(y.value.next, Max(n, Max(x.value.slots, y.value.slots))));
    ghost var gx := CompileExpr(e.left, n, env, next, loc).value;
    ghost var gy := CompileExpr(e.right, n, env, gx.next + 1, loc).value;
    ghost var test := ShortcutTest(e.ShortcutAnd?, lab, loc);
    Reassociate(old(code.insns), gx.code, test);
    Reassociate(old(code.insns), gx.code + test, gy.code);
    Reassociate(old(code.insns), gx.code + test + gy.code, [Mark(lab, loc)]);
  }

  method EmitTest(isAnd: bool, lab: Label, code: CodeVec, loc: nat)
    modifies code
    ensures code.insns == old(code.insns) + ShortcutTest(isAnd, lab, loc)
  {
    code.Append(Plain(Dup0, loc));
    if isAnd {
      code.Append(Plain(IsZero, loc));
    }
    code.Append(PushLabel(Cjump, lab, loc));
    code.Append(Plain(Pop, loc));
  }

  method EmitIf(e: Expr, code: CodeVec, n: nat, env: Slots, next: nat, loc: nat) returns (r: Result<Used>)
    requires e.If?
    modifies code
    ensures Wrote(old(code.insns), code.insns, CompileExpr(e, n, env, next, loc), r)
    decreases e, 1
  {
    var c := EmitExpr(e.cond, code, n, env, next, loc);
    if c.Err? { return c; }
    ghost var start, gc := old(code.insns), CompileExpr(e.cond, n, env, next, loc).value;
    var after, end := Anon(c.value.next), Anon(c.value.next + 1);
    code.Append(Plain(IsZero, loc));
    code.Append(PushLabel(Cjump, after, loc));
    ghost var c1 := gc.code + TestCode(after, loc);
    assert code.insns == start + c1;
    var b := EmitBlock(e.block, code, n, env, c.value.next + 2, loc);
    if b.Err? { return b; }
    ghost var gb := CompileBlock(e.block, n, env, gc.next + 2, loc).value;
    Reassociate(start, c1, gb.code);
    if e.orElse.Some? {
      code.Append(PushLabel(Jump, end, loc));
    }
    code.Append(Mark(after, loc));
    ghost var c2 := c1 + gb.code + SkipCode(e.orElse.Some?, end, loc) + [Mark(after, loc)];
    assert code.insns == start + c2;
    var slots := 0;
    var last := b.value.next;
    if e.orElse.Some? {
      var x := EmitBlock(e.orElse.value, code, n, env, b.value.next, loc);
      if x.Err? { return x; }
      ghost var ge := CompileBlock(e.orElse.value, n, env, gb.next, loc).value;
      Reassociate(start, c2, ge.code);
      slots, last := x.value.slots, x.value.next;
      code.Append(Mark(end, loc));
      Reassociate(start, c2 + ge.code, [Mark(end, loc)]);
    } else {
      code.Append(Mark(end, loc));
      assert c2 + [] == c2;
      Reassociate(start, c2, [Mark(end, loc)]);
    }
    r := Ok(Used(last, Max(c.value.slots, Max(b.value.slots, slots))));
  }

  /** Arguments, last first. */
  method EmitArgs(es: seq<Expr>, code: CodeVec, n: nat, env: Slots, next: nat, loc: nat) returns (r: Result<Used>)
    modifies code
    ensures Wrote(old(code.insns), code.insns, CompileArgs(es, n, env, next, loc), r)
    decreases es, 0
  {
    var labels, slots := next, 0;
    assert es[|es|..] == [] && old(code.insns) + [] == old(code.insns);
    for i := 0 to |es|
      invariant Wrote(old(code.insns), code.insns, CompileArgs(es[|es| - i..], n, env, next, loc),
                      Ok(Used(labels, slots)))
    {
      ghost var rest, before := es[|es| - i..], code.insns;
      ghost var more := es[|es| - 1 - i..];
      assert more[0] == es[|es| - 1 - i] && more[1..] == rest;
      ArgsFail(es, |es| - 1 - i, n, env, next, loc);
      var x := EmitExpr(es[|es| - 1 - i], code, n, env, labels, loc);
      if x.Err? { return x; }
      ghost var g := CompileArgs(rest, n, env, next, loc).value;
      Reassociate(old(code.insns), g.code, CompileExpr(more[0], n, env, g.next, loc).value.code);
      slots := Max(slots, x.value.slots);
      labels := x.value.next;
    }
    assert es[0..] == es;
    r := Ok(Used(labels, slots));
  }

  /** An argument that cannot be compiled makes the whole list fail in the same way. */
  lemma {:induction false} ArgsFail(es: seq<Expr>, k: nat, n: nat, env: Slots, next: nat, loc: nat)
    requires k <= |es|
    ensures var r := CompileArgs(es[k..], n, env, next, loc);
            r.Err? ==> CompileArgs(es, n, env, next, loc) == r
    decreases k
  {
    if k == 0 {
      assert es[0..] == es;
    } else {
      assert es[k - 1..][1..] == es[k..];
      ArgsFail(es, k - 1, n, env, next, loc);
    }
  }

  method EmitCall(e: Expr, code: CodeVec, n: nat, env: Slots, next: nat, loc: nat) returns (r: Result<Used>)
    requires e.Call?
    modifies code
    ensures Wrote(old(code.insns), code.insns, CompileExpr(e, n, env, next, loc), r)
    decreases e, 1
  {
    var ret := Anon(next);
    var args := EmitArgs(e.args, code, n, env, next + 1, loc);
    if args.Err? { return args; }
    code.Append(PushLabel(Noop, ret, loc));
    code.Append(PushLabel(Noop, Label.Func(e.func), loc));
    code.Append(Plain(Jump, loc));
    code.Append(Mark(ret, loc));
    r := Ok(Used(args.value.next, Max(n, args.value.slots)));
    ghost var g := CompileArgs(e.args, n, env, next + 1, loc).value;
    assert code.insns == old(code.insns) + g.code + CallCode(ret, e.func, loc);
    Reassociate(old(code.insns), g.code, CallCode(ret, e.func, loc));
  }

  method EmitStruct(e: Expr, code: CodeVec, n: nat, env: Slots, next: nat, loc: nat) returns (r: Result<Used>)
    requires e.StructInit?
    modifies code
    ensures Wrote(old(code.insns), code.insns, CompileExpr(e, n, env, next, loc), r)
    decreases e, 1
  {
    var size := |e.fields|;
    var args := EmitArgs(e.fields, code, n, env, next, loc);
    if args.Err? { return args; }
    ghost var g, start := CompileArgs(e.fields, n, env, next, loc).value, code.insns;
    var shape := New(size, false);
    code.Append(WithImm(Noop, MakeEmpty(shape), loc));
    ghost var empty := [WithImm(Noop, MakeEmpty(TreeOf(size, false)), loc)];
    for i := 0 to size
      invariant code.insns + SetFields(i, size, loc) == start + (empty + SetFields(0, size, loc))
    {
      Reassociate(code.insns, [Slot(TupleSet(size), i, loc)], SetFields(i + 1, size, loc));
      code.Append(Slot(TupleSet(size), i, loc));
    }
    assert code.insns + [] == code.insns;
    r := Ok(Used(args.value.next, Max(n, args.value.slots)));
    Reassociate(old(code.insns), g.code, StructCode(size, loc));
  }

  method EmitBlock(b: Block, code: CodeVec, n: nat, env: Slots, next: nat, loc: nat) returns (r: Result<Used>)
    modifies code
    ensures Wrote(old(code.insns), code.insns, CompileBlock(b, n, env, next, loc), r)
    decreases b, 1
  {
    var bottom := Mark(Anon(next), loc);
    var body := EmitStmts(b.body, code, n, env, next + 1, loc);
    if body.Err? { return Err(body.error); }
    ghost var g := CompileStmts(b.body, n, env, next + 1, loc).value;
    if b.ret.Some? {
      var x := EmitExpr(b.ret.value, code, body.value.slots, body.value.env, body.value.next, loc);
      if x.Err? { return x; }
      ghost var gr := CompileExpr(b.ret.value, g.slots, g.env, g.next, loc).value;
      Reassociate(old(code.insns), g.code, gr.code);
      code.Append(bottom);
      Reassociate(old(code.insns), g.code + gr.code, [bottom]);
      r := Ok(Used(x.value.next, Max(n, Max(x.value.slots, body.value.slots))));
    } else {
      code.Append(bottom);
      Reassociate(old(code.insns), g.code, [bottom]);
      r := Ok(Used(body.value.next, Max(n, body.value.slots)));
    }
  }

  method EmitStmts(body: seq<Stmt>, code: CodeVec, n: nat, env: Slots, next: nat, loc: nat)
    returns (r: Result<StmtUsed>)
    modifies code
    ensures WroteStmts(old(code.insns), code.insns, CompileStmts(body, n, env, next, loc), r)
    decreases body, 0
  {
    var used := StmtUsed(next, n, env);
    assert body[0..] == body;
    AfterNothing(CompileStmts(body, n, env, next, loc));
    ghost var pre: seq<Instr> := [];
    assert old(code.insns) + pre == old(code.insns);
    for i := 0 to |body|
      invariant code.insns == old(code.insns) + pre
      invariant CompileStmts(body, n, env, next, loc)
                == Following(pre, CompileStmts(body[i..], used.slots, used.env, used.next, loc))
    {
      assert body[i..][0] == body[i] && body[i..][1..] == body[i + 1..];
      FollowingStep(pre, body[i..], used.slots, used.env, used.next, loc);
      var x := EmitStmt(body[i], code, used.slots, used.env, used.next, loc);
      if x.Err? { return x; }
      ghost var g := CompileStmt(body[i], used.slots, used.env, used.next, loc).value;
      Reassociate(old(code.insns), pre, g.code);
      pre := pre + g.code;
      used := StmtUsed(x.value.next, Max(x.value.slots, used.slots), x.value.env);
    }
    assert pre + [] == pre;
    r := Ok(used);
  }

  /** Code already written, followed by the rest. */
  ghost function Following(pre: seq<Instr>, g: Result<StmtGen>): Result<StmtGen> {
    if g.Ok? then Ok(g.value.(code := pre + g.value.code)) else g
  }

  lemma AfterNothing(g: Result<StmtGen>)
    ensures Following([], g) == g
  {
    if g.Ok? { assert [] + g.value.code == g.value.code; }
  }

  lemma FollowingStep(pre: seq<Instr>, body: seq<Stmt>, n: nat, env: Slots, next: nat, loc: nat)
    requires body != []
    ensures var g := CompileStmt(body[0], n, env, next, loc);
            Following(pre, CompileStmts(body, n, env, next, loc))
            == if g.Err? then g
               else Following(pre + g.value.code, CompileStmts(body[1..], Max(g.value.slots, n), g.value.env,
                                                               g.value.next, loc))
  {
    var g := CompileStmt(body[0], n, env, next, loc);
    if g.Ok? {
      var rest := CompileStmts(body[1..], Max(g.value.slots, n), g.value.env, g.value.next, loc);
      if rest.Ok? { Reassociate(pre, g.value.code, rest.value.code); }
    }
  }

  method EmitStmt(st: Stmt, code: CodeVec, n: nat, env: Slots, next: nat, loc: nat) returns (r: Result<StmtUsed>)
    modifies code
    ensures WroteStmts(old(code.insns), code.insns, CompileStmt(st, n, env, next, loc), r)
    decreases st, 2
  {
    if st.While? {
      r := EmitWhile(st, code, n, env, next, loc);
      return;
    }
    if st.AssignLocal? && st.name !in env { return Err(UnknownLocal(st.name)); }
    var x := EmitExpr(st.e, code, n, env, next, loc);
    if x.Err? { return Err(x.error); }
    ghost var g := CompileExpr(st.e, n, env, next, loc).value;
    var newEnv, slots := env, x.value.slots;
    if st.Let? {
      code.Append(Slot(SetLocal, n, loc));
      newEnv, slots := env[st.name := n], Max(n + 1, x.value.slots);
    } else if st.AssignLocal? {
      code.Append(Slot(SetLocal, env[st.name], loc));
    } else if st.AssignGlobal? {
      code.Append(Instr(SetGlobalVar(st.idx), None, loc));
    } else if st.pushes {
      code.Append(Plain(Pop, loc));
    }
    r := Ok(StmtUsed(x.value.next, slots, newEnv));
  }

  method EmitWhile(st: Stmt, code: CodeVec, n: nat, env: Slots, next: nat, loc: nat) returns (r: Result<StmtUsed>)
    requires st.While?
    modifies code
    ensures WroteStmts(old(code.insns), code.insns, CompileStmt(st, n, env, next, loc), r)
    decreases st, 1
  {
    var top, cond := Anon(next), Anon(next + 1);
    ghost var start, head, tail := code.insns, LoopHead(top, cond, n, loc), LoopTail(n, loc);
    code.Append(PushLabel(Noop, top, loc));
    code.Append(Slot(SetLocal, n, loc));
    code.Append(PushLabel(Jump, cond, loc));
    code.Append(Mark(top, loc));
    assert code.insns == start + head;
    var body := EmitStmts(st.body, code, n + 1, env, next + 2, loc);
    if body.Err? { return body; }
    ghost var gb := CompileStmts(st.body, n + 1, env, next + 2, loc).value;
    Reassociate(start, head, gb.code);
    code.Append(Mark(cond, loc));
    Reassociate(start, head + gb.code, [Mark(cond, loc)]);
    var c := EmitExpr(st.cond, code, body.value.slots, env, body.value.next, loc);
    if c.Err? { return Err(c.error); }
    ghost var gc := CompileExpr(st.cond, gb.slots, env, gb.next, loc).value;
    ghost var c1 := head + gb.code + [Mark(cond, loc)];
    Reassociate(start, c1, gc.code);
    code.Append(Slot(GetLocal, n, loc));
    code.Append(Plain(Cjump, loc));
    assert code.insns == start + (c1 + gc.code) + tail;
    Reassociate(start, c1 + gc.code, tail);
    r := Ok(StmtUsed(c.value.next, Max(c.value.slots, body.value.slots), env));
  }

  /** One function: a placeholder stands for MakeFrame until the number of slots is known. */
  method EmitFunc(f: Func, next: nat, loc: nat) returns (r: Result<Used>, code: CodeVec)
    ensures fresh(code)
    ensures Wrote([], code.insns, CompileFunc(f, next, loc), r)
  {
    code := new CodeVec();
    code.Append(Mark(Label.Func(f.name), loc));
    var frameSlot := |code.insns|;
    code.Append(Plain(Noop, loc));
    var locals := BindArgs(f.args);
    var start := code.insns;
    var n := |f.args|;
    var body := EmitStmts(f.block.body, code, n, locals, next, loc);
    if body.Err? { return Err(body.error), code; }
    ghost var g := CompileStmts(f.block.body, n, locals, next, loc).value;
    ghost var emitted := g.code;
    var slots, last := body.value.slots, body.value.next;
    if f.block.ret.Some? {
      var x := EmitExpr(f.block.ret.value, code, body.value.slots, body.value.env, body.value.next, loc);
      if x.Err? { return x, code; }
      ghost var gr := CompileExpr(f.block.ret.value, g.slots, g.env, g.next, loc).value;
      Reassociate(start, g.code, gr.code);
      emitted := g.code + gr.code;
      slots, last := Max(x.value.slots, body.value.slots), x.value.next;
    }
    code.Append(Instr(Return, None, loc));
    assert code.insns == start + emitted + [Instr(Return, None, loc)];
    code.insns := code.insns[frameSlot := Instr(MakeFrame(n, slots, true), None, loc)];
    assert code.insns == FuncCode(f, Gen(emitted, last, slots), loc);
    assert [] + code.insns == code.insns;
    r := Ok(Used(last, slots));
  }

  method BindArgs(args: seq<Name>) returns (locals: Slots)
    ensures locals == ArgSlots(args, |args|)
  {
    locals := map[];
    for i := 0 to |args|
      invariant locals == ArgSlots(args, i)
    {
      locals := locals[args[i] := i];
    }
  }
}
