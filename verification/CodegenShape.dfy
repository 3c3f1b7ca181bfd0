/** What all generated code has in common: every slot is inside the frame, every generated label is
    emitted exactly once, and modules are fit for linking. */
module CodegenShape {
  import opened Avm
  import opened TupleTrees
  import opened Machine
  import opened Mini
  import opened Codegen

  // ----- single instructions -----

  /** Labels lo to hi were generated, and slots is the size of the frame. */
  predicate InsnShape(insn: Instr, lo: nat, hi: nat, slots: nat) {
    && OpShape(insn, lo, hi, slots)
    && (insn.imm.Some? ==> ImmShape(insn.imm.value, lo, hi))
  }

  predicate OpShape(insn: Instr, lo: nat, hi: nat, slots: nat) {
    match insn.op
    case LabelOp(l) => l.Anon? && lo <= l.n < hi && insn.imm.None?
    case GetLocal => insn.imm.Some? && insn.imm.value.Int? && insn.imm.value.n < slots
    case SetLocal => insn.imm.Some? && insn.imm.value.Int? && insn.imm.value.n < slots
    case AVM(op) => op != Rpush && op != Rset && op != Halt
    case GetGlobalVar(_) => insn.imm.None?
    case SetGlobalVar(_) => insn.imm.None?
    case TupleGet(_) => true
    case TupleSet(_) => true
    case _ => false
  }

  predicate ImmShape(v: Value, lo: nat, hi: nat) {
    match v
    case LabelVal(Anon(n)) => lo <= n < hi
    case LabelVal(Func(_)) => true
    case _ => RefsIn(v) == {}
  }

  predicate Shaped(code: seq<Instr>, lo: nat, hi: nat, slots: nat) {
    code == [] || (InsnShape(code[0], lo, hi, slots) && Shaped(code[1..], lo, hi, slots))
  }

  lemma {:induction false} ShapedAt(code: seq<Instr>, lo: nat, hi: nat, slots: nat, i: nat)
    requires Shaped(code, lo, hi, slots) && i < |code|
    ensures InsnShape(code[i], lo, hi, slots)
  {
    if i > 0 { ShapedAt(code[1..], lo, hi, slots, i - 1); }
  }

  lemma {:induction false} ShapedAll(code: seq<Instr>, lo: nat, hi: nat, slots: nat)
    requires forall i :: 0 <= i < |code| ==> InsnShape(code[i], lo, hi, slots)
    ensures Shaped(code, lo, hi, slots)
  {
    if code != [] { ShapedAll(code[1..], lo, hi, slots); }
  }

  /** Shapes may be read with wider bounds. */
  lemma {:induction false} Widen(code: seq<Instr>, lo: nat, hi: nat, slots: nat, lo': nat, hi': nat, slots': nat)
    requires Shaped(code, lo, hi, slots) && lo' <= lo && hi <= hi' && slots <= slots'
    ensures Shaped(code, lo', hi', slots')
  {
    if code != [] { Widen(code[1..], lo, hi, slots, lo', hi', slots'); }
  }

  lemma {:induction false} Joined(a: seq<Instr>, b: seq<Instr>, lo: nat, hi: nat, slots: nat)
    requires Shaped(a, lo, hi, slots) && Shaped(b, lo, hi, slots)
    ensures Shaped(a + b, lo, hi, slots)
  {
    if a == [] {
      assert a + b == b;
    } else {
      assert (a + b)[0] == a[0] && (a + b)[1..] == a[1..] + b;
      Joined(a[1..], b, lo, hi, slots);
    }
  }

  // ----- labels are emitted exactly once -----

  /** How often a label is marked. */
  function Defs(code: seq<Instr>, l: Label): nat {
    if code == [] then 0 else (if code[0].op == LabelOp(l) then 1 else 0) + Defs(code[1..], l)
  }

  /** Once for the labels numbered lo to hi, and never for another. */
  function Within(l: Label, lo: nat, hi: nat): nat {
    if l.Anon? && lo <= l.n < hi then 1 else 0
  }

  lemma {:induction false} DefsAppend(a: seq<Instr>, b: seq<Instr>, l: Label)
    ensures Defs(a + b, l) == Defs(a, l) + Defs(b, l)
  {
    if a == [] {
      assert a + b == b;
    } else {
      assert (a + b)[0] == a[0] && (a + b)[1..] == a[1..] + b;
      DefsAppend(a[1..], b, l);
    }
  }

  lemma {:induction false} NoDefs(code: seq<Instr>, l: Label)
    requires forall i :: 0 <= i < |code| ==> !code[i].op.LabelOp?
    ensures Defs(code, l) == 0
  {
    if code != [] { NoDefs(code[1..], l); }
  }

  lemma DefsMark(m: Label, loc: nat, l: Label)
    ensures Defs([Mark(m, loc)], l) == if l == m then 1 else 0
  {
    assert [Mark(m, loc)][1..] == [];
  }

  // ----- everything that is generated is good -----

  /** Code that uses exactly the labels lo to hi and stays in its frame. */
  ghost predicate Good(code: seq<Instr>, lo: nat, hi: nat, slots: nat) {
    lo <= hi <= lo + |code| && Shaped(code, lo, hi, slots) && forall l :: Defs(code, l) == Within(l, lo, hi)
  }

  lemma GoodAppend(a: seq<Instr>, b: seq<Instr>, lo: nat, mid: nat, hi: nat, s: nat, t: nat, slots: nat)
    requires Good(a, lo, mid, s) && Good(b, mid, hi, t) && s <= slots && t <= slots
    ensures Good(a + b, lo, hi, slots)
  {
    Widen(a, lo, mid, s, lo, hi, slots);
    Widen(b, mid, hi, t, lo, hi, slots);
    Joined(a, b, lo, hi, slots);
    forall l ensures Defs(a + b, l) == Within(l, lo, hi) { DefsAppend(a, b, l); }
  }

  /** Plain instructions around good code that refer to labels outside it, which are marked once. */
  lemma GoodPlain(code: seq<Instr>, lo: nat, slots: nat)
    requires forall i :: 0 <= i < |code| ==> !code[i].op.LabelOp? && InsnShape(code[i], lo, lo, slots)
    ensures Good(code, lo, lo, slots)
  {
    ShapedAll(code, lo, lo, slots);
    forall l ensures Defs(code, l) == 0 { NoDefs(code, l); }
  }

  /** Slots handed out so far are below n. */
  ghost predicate EnvBelow(env: Slots, n: nat) {
    forall x :: x in env ==> env[x] < n
  }

  lemma OpCodeShape(op: BinaryOp, lo: nat, slots: nat, loc: nat)
    ensures Good(OpCode(op, loc), lo, lo, slots)
  {
    GoodPlain(OpCode(op, loc), lo, slots);
  }

  lemma {:induction false} SetFieldsShape(i: nat, size: nat, loc: nat, lo: nat, slots: nat)
    requires i <= size
    ensures Good(SetFields(i, size, loc), lo, lo, slots)
    decreases size - i
  {
    if i < size {
      SetFieldsShape(i + 1, size, loc, lo, slots);
      GoodPlain([Slot(TupleSet(size), i, loc)], lo, slots);
      GoodAppend([Slot(TupleSet(size), i, loc)], SetFields(i + 1, size, loc), lo, lo, lo, slots, slots, slots);
    }
  }

  lemma StructShape(size: nat, loc: nat, lo: nat, slots: nat)
    ensures Good(StructCode(size, loc), lo, lo, slots)
  {
    var head := [WithImm(Noop, MakeEmpty(TreeOf(size, false)), loc)];
    EmptyHasNoLabels(TreeOf(size, false));
    GoodPlain(head, lo, slots);
    SetFieldsShape(0, size, loc, lo, slots);
    GoodAppend(head, SetFields(0, size, loc), lo, lo, lo, slots, slots, slots);
  }

  ghost predicate GoodGen(g: Gen, lo: nat, n: nat) {
    Good(g.code, lo, g.next, g.slots) && n <= g.slots
  }

  ghost predicate GoodStmts(g: StmtGen, lo: nat, n: nat) {
    Good(g.code, lo, g.next, g.slots) && n <= g.slots && EnvBelow(g.env, g.slots)
  }

  // ----- constructs with labels of their own -----

  lemma BinaryGood(op: BinaryOp, n: nat, y: Gen, x: Gen, lo: nat, loc: nat)
    requires GoodGen(y, lo, n) && GoodGen(x, y.next, n)
    ensures GoodGen(JoinBinary(op, n, y, x, loc), lo, n)
  {
    var slots := Max(n, Max(y.slots, x.slots));
    GoodAppend(y.code, x.code, lo, y.next, x.next, y.slots, x.slots, slots);
    OpCodeShape(op, x.next, slots, loc);
    GoodAppend(y.code + x.code, OpCode(op, loc), lo, x.next, x.next, slots, slots, slots);
  }

  lemma ModGood(slot: nat, size: nat, n: nat, y: Gen, x: Gen, lo: nat, loc: nat)
    requires GoodGen(y, lo, n) && GoodGen(x, y.next, n)
    ensures GoodGen(JoinMod(slot, size, n, y, x, loc), lo, n)
  {
    var slots, last := Max(n, Max(y.slots, x.slots)), [Slot(TupleSet(size), slot, loc)];
    GoodAppend(y.code, x.code, lo, y.next, x.next, y.slots, x.slots, slots);
    GoodPlain(last, x.next, slots);
    GoodAppend(y.code + x.code, last, lo, x.next, x.next, slots, slots, slots);
  }

  lemma ShortcutGood(isAnd: bool, n: nat, x: Gen, y: Gen, lo: nat, loc: nat)
    requires GoodGen(x, lo, n) && GoodGen(y, x.next + 1, n)
    ensures GoodGen(JoinShortcut(isAnd, n, x, y, loc), lo, n)
  {
    var m, hi, slots, lab := x.next, y.next, Max(n, Max(x.slots, y.slots)), Anon(x.next);
    var test := ShortcutTest(isAnd, lab, loc);
    Widen(x.code, lo, m, x.slots, lo, hi, slots);
    Widen(y.code, m + 1, hi, y.slots, lo, hi, slots);
    ShapedAll(test, lo, hi, slots);
    Joined(x.code, test, lo, hi, slots);
    Joined(x.code + test, y.code, lo, hi, slots);
    ShapedAll([Mark(lab, loc)], lo, hi, slots);
    Joined(x.code + test + y.code, [Mark(lab, loc)], lo, hi, slots);
    forall l ensures Defs(x.code + test + y.code + [Mark(lab, loc)], l) == Within(l, lo, hi) {
      NoDefs(test, l);
      DefsMark(lab, loc, l);
      DefsAppend(x.code, test, l);
      DefsAppend(x.code + test, y.code, l);
      DefsAppend(x.code + test + y.code, [Mark(lab, loc)], l);
    }
  }

  lemma IfGood(gc: Gen, gb: Gen, hasElse: bool, ge: Gen, lo: nat, n: nat, loc: nat)
    requires GoodGen(gc, lo, n) && GoodGen(gb, gc.next + 2, n) && Good(ge.code, gb.next, ge.next, ge.slots)
    ensures GoodGen(JoinIf(gc, gb, hasElse, ge, loc), lo, n)
  {
    IfShaped(gc, gb, hasElse, ge, lo, n, loc);
    forall l ensures Defs(JoinIf(gc, gb, hasElse, ge, loc).code, l) == Within(l, lo, ge.next) {
      IfCount(gc, gb, hasElse, ge, lo, loc, l);
    }
  }

  lemma IfCount(gc: Gen, gb: Gen, hasElse: bool, ge: Gen, lo: nat, loc: nat, l: Label)
    requires lo <= gc.next && gc.next + 2 <= gb.next <= ge.next
    requires Defs(gc.code, l) == Within(l, lo, gc.next) && Defs(gb.code, l) == Within(l, gc.next + 2, gb.next)
    requires Defs(ge.code, l) == Within(l, gb.next, ge.next)
    ensures Defs(JoinIf(gc, gb, hasElse, ge, loc).code, l) == Within(l, lo, ge.next)
  {
    var after, end := Anon(gc.next), Anon(gc.next + 1);
    IfDefs(gc.code, TestCode(after, loc), gb.code, SkipCode(hasElse, end, loc), after, ge.code, end, loc, l);
  }

  lemma IfShaped(gc: Gen, gb: Gen, hasElse: bool, ge: Gen, lo: nat, n: nat, loc: nat)
    requires GoodGen(gc, lo, n) && GoodGen(gb, gc.next + 2, n) && Good(ge.code, gb.next, ge.next, ge.slots)
    ensures var g := JoinIf(gc, gb, hasElse, ge, loc); Shaped(g.code, lo, g.next, g.slots)
  {
    var m, hi, slots := gc.next, ge.next, Max(gc.slots, Max(gb.slots, ge.slots));
    var after, end := Anon(m), Anon(m + 1);
    var test, skip := TestCode(after, loc), SkipCode(hasElse, end, loc);
    Widen(gc.code, lo, m, gc.slots, lo, hi, slots);
    Widen(gb.code, m + 2, gb.next, gb.slots, lo, hi, slots);
    Widen(ge.code, gb.next, hi, ge.slots, lo, hi, slots);
    ShapedAll(test, lo, hi, slots);
    ShapedAll(skip, lo, hi, slots);
    var c1 := gc.code + test;
    var c2 := c1 + gb.code;
    var c3 := c2 + skip;
    var c4 := c3 + [Mark(after, loc)];
    var c5 := c4 + ge.code;
    Joined(gc.code, test, lo, hi, slots);
    Joined(c1, gb.code, lo, hi, slots);
    Joined(c2, skip, lo, hi, slots);
    ShapedAll([Mark(after, loc)], lo, hi, slots);
    ShapedAll([Mark(end, loc)], lo, hi, slots);
    Joined(c3, [Mark(after, loc)], lo, hi, slots);
    Joined(c4, ge.code, lo, hi, slots);
    Joined(c5, [Mark(end, loc)], lo, hi, slots);
  }

  lemma IfDefs(c: seq<Instr>, test: seq<Instr>, b: seq<Instr>, skip: seq<Instr>, after: Label, e: seq<Instr>,
               end: Label, loc: nat, l: Label)
    requires forall i :: 0 <= i < |test| ==> !test[i].op.LabelOp?
    requires forall i :: 0 <= i < |skip| ==> !skip[i].op.LabelOp?
    ensures Defs(c + test + b + skip + [Mark(after, loc)] + e + [Mark(end, loc)], l)
            == Defs(c, l) + Defs(b, l) + Defs(e, l) + (if l == after then 1 else 0) + (if l == end then 1 else 0)
  {
    NoDefs(test, l);
    NoDefs(skip, l);
    DefsMark(after, loc, l);
    DefsMark(end, loc, l);
    DefsAppend(c, test, l);
    DefsAppend(c + test, b, l);
    DefsAppend(c + test + b, skip, l);
    DefsAppend(c + test + b + skip, [Mark(after, loc)], l);
    DefsAppend(c + test + b + skip + [Mark(after, loc)], e, l);
    DefsAppend(c + test + b + skip + [Mark(after, loc)] + e, [Mark(end, loc)], l);
  }

  lemma CallGood(n: nat, gs: Gen, lo: nat, f: nat, loc: nat)
    requires Good(gs.code, lo + 1, gs.next, gs.slots)
    ensures GoodGen(Then(n, gs, CallCode(Anon(lo), f, loc)), lo, n)
  {
    var hi, slots, call := gs.next, Max(n, gs.slots), CallCode(Anon(lo), f, loc);
    Widen(gs.code, lo + 1, hi, gs.slots, lo, hi, slots);
    ShapedAll(call, lo, hi, slots);
    Joined(gs.code, call, lo, hi, slots);
    assert call == call[..3] + [call[3]];
    forall l ensures Defs(gs.code + call, l) == Within(l, lo, hi) {
      DefsAppend(gs.code, call, l);
      NoDefs(call[..3], l);
      DefsAppend(call[..3], [call[3]], l);
      DefsMark(Anon(lo), loc, l);
    }
  }

  lemma BlockGood(n: nat, code: seq<Instr>, lo: nat, hi: nat, slots: nat, loc: nat)
    requires Good(code, lo + 1, hi, slots) && n <= slots
    ensures GoodGen(Gen(code + [Mark(Anon(lo), loc)], hi, slots), lo, n)
  {
    Widen(code, lo + 1, hi, slots, lo, hi, slots);
    ShapedAll([Mark(Anon(lo), loc)], lo, hi, slots);
    Joined(code, [Mark(Anon(lo), loc)], lo, hi, slots);
    forall l ensures Defs(code + [Mark(Anon(lo), loc)], l) == Within(l, lo, hi) {
      DefsAppend(code, [Mark(Anon(lo), loc)], l);
      DefsMark(Anon(lo), loc, l);
    }
  }

  lemma WhileGood(n: nat, lo: nat, gb: StmtGen, gc: Gen, env: Slots, loc: nat)
    requires GoodStmts(gb, lo + 2, n + 1) && GoodGen(gc, gb.next, gb.slots) && EnvBelow(env, n)
    ensures GoodStmts(JoinWhile(n, lo, gb, gc, env, loc), lo, n)
  {
    var hi, slots := gc.next, Max(gc.slots, gb.slots);
    var top, cond := Anon(lo), Anon(lo + 1);
    var head, tail := LoopHead(top, cond, n, loc), LoopTail(n, loc);
    Widen(gb.code, lo + 2, gb.next, gb.slots, lo, hi, slots);
    Widen(gc.code, gb.next, hi, gc.slots, lo, hi, slots);
    ShapedAll(head, lo, hi, slots);
    ShapedAll(tail, lo, hi, slots);
    Joined(head, gb.code, lo, hi, slots);
    ShapedAll([Mark(cond, loc)], lo, hi, slots);
    Joined(head + gb.code, [Mark(cond, loc)], lo, hi, slots);
    Joined(head + gb.code + [Mark(cond, loc)], gc.code, lo, hi, slots);
    Joined(head + gb.code + [Mark(cond, loc)] + gc.code, tail, lo, hi, slots);
    forall l ensures Defs(head + gb.code + [Mark(cond, loc)] + gc.code + tail, l) == Within(l, lo, hi) {
      WhileDefs(top, cond, n, gb.code, gc.code, loc, l);
    }
  }

  lemma WhileDefs(top: Label, cond: Label, slot: nat, b: seq<Instr>, c: seq<Instr>, loc: nat, l: Label)
    ensures Defs(LoopHead(top, cond, slot, loc) + b + [Mark(cond, loc)] + c + LoopTail(slot, loc), l)
            == Defs(b, l) + Defs(c, l) + (if l == top then 1 else 0) + (if l == cond then 1 else 0)
  {
    var head, tail := LoopHead(top, cond, slot, loc), LoopTail(slot, loc);
    assert head == head[..3] + [Mark(top, loc)];
    NoDefs(head[..3], l);
    NoDefs(tail, l);
    DefsAppend(head[..3], [Mark(top, loc)], l);
    DefsMark(top, loc, l);
    DefsMark(cond, loc, l);
    DefsAppend(head, b, l);
    DefsAppend(head + b, [Mark(cond, loc)], l);
    DefsAppend(head + b + [Mark(cond, loc)], c, l);
    DefsAppend(head + b + [Mark(cond, loc)] + c, tail, l);
  }

  lemma ThenGood(n: nat, g: Gen, more: seq<Instr>, lo: nat)
    requires Good(g.code, lo, g.next, g.slots) && Good(more, g.next, g.next, Max(n, g.slots))
    ensures GoodGen(Then(n, g, more), lo, n)
  {
    GoodAppend(g.code, more, lo, g.next, g.next, g.slots, Max(n, g.slots), Max(n, g.slots));
  }

  // ----- the induction -----

  lemma {:induction false} ExprGood(e: Expr, n: nat, env: Slots, next: nat, loc: nat)
    requires EnvBelow(env, n) && CompileExpr(e, n, env, next, loc).Ok?
    ensures GoodGen(CompileExpr(e, n, env, next, loc).value, next, n)
    decreases e, 1
  {
    var g := CompileExpr(e, n, env, next, loc).value;
    match e
    case Const(v) => GoodPlain(g.code, next, n);
    case Local(x) => GoodPlain(g.code, next, n);
    case GlobalRef(i) => GoodPlain(g.code, next, n);
    case Not(a) =>
      ExprGood(a, n, env, next, loc);
      var ga := CompileExpr(a, n, env, next, loc).value;
      GoodPlain([Plain(IsZero, loc)], ga.next, Max(n, ga.slots));
      ThenGood(n, ga, [Plain(IsZero, loc)], next);
    case Binary(op, a, b) =>
      ExprGood(b, n, env, next, loc);
      var y := CompileExpr(b, n, env, next, loc).value;
      ExprGood(a, n, env, y.next, loc);
      var x := CompileExpr(a, n, env, y.next, loc).value;
      BinaryGood(op, n, y, x, next, loc);
    case ShortcutAnd(a, b) => ShortcutCase(e, n, env, next, loc);
    case ShortcutOr(a, b) => ShortcutCase(e, n, env, next, loc);
    case If(c, block, orElse) => IfCase(e, n, env, next, loc);
    case CodeBlock(block) => BlocksGood(block, n, env, next, loc);
    case Call(f, args) =>
      ArgsGood(args, n, env, next + 1, loc);
      CallGood(n, CompileArgs(args, n, env, next + 1, loc).value, next, f, loc);
    case StructInit(fields) =>
      ArgsGood(fields, n, env, next, loc);
      var gs := CompileArgs(fields, n, env, next, loc).value;
      StructShape(|fields|, loc, gs.next, Max(n, gs.slots));
      ThenGood(n, gs, StructCode(|fields|, loc), next);
    case DotRef(a, slot, size) =>
      ExprGood(a, n, env, next, loc);
      var ga := CompileExpr(a, n, env, next, loc).value;
      GoodPlain([Slot(TupleGet(size), slot, loc)], ga.next, Max(n, ga.slots));
      ThenGood(n, ga, [Slot(TupleGet(size), slot, loc)], next);
    case StructMod(a, slot, size, b) =>
      ExprGood(b, n, env, next, loc);
      var y := CompileExpr(b, n, env, next, loc).value;
      ExprGood(a, n, env, y.next, loc);
      var x := CompileExpr(a, n, env, y.next, loc).value;
      ModGood(slot, size, n, y, x, next, loc);
  }

  lemma {:induction false} ShortcutCase(e: Expr, n: nat, env: Slots, next: nat, loc: nat)
    requires EnvBelow(env, n) && CompileExpr(e, n, env, next, loc).Ok? && (e.ShortcutAnd? || e.ShortcutOr?)
    ensures GoodGen(CompileExpr(e, n, env, next, loc).value, next, n)
    decreases e, 0
  {
    ExprGood(e.left, n, env, next, loc);
    var x := CompileExpr(e.left, n, env, next, loc).value;
    ExprGood(e.right, n, env, x.next + 1, loc);
    var y := CompileExpr(e.right, n, env, x.next + 1, loc).value;
    if e.ShortcutAnd? { ShortcutGood(true, n, x, y, next, loc); } else { ShortcutGood(false, n, x, y, next, loc); }
  }

  lemma {:induction false} IfCase(e: Expr, n: nat, env: Slots, next: nat, loc: nat)
    requires EnvBelow(env, n) && CompileExpr(e, n, env, next, loc).Ok? && e.If?
    ensures GoodGen(CompileExpr(e, n, env, next, loc).value, next, n)
    decreases e, 0
  {
    ExprGood(e.cond, n, env, next, loc);
    var gc := CompileExpr(e.cond, n, env, next, loc).value;
    BlocksGood(e.block, n, env, gc.next + 2, loc);
    var gb := CompileBlock(e.block, n, env, gc.next + 2, loc).value;
    if e.orElse.Some? {
      BlocksGood(e.orElse.value, n, env, gb.next, loc);
      IfGood(gc, gb, true, CompileBlock(e.orElse.value, n, env, gb.next, loc).value, next, n, loc);
    } else {
      GoodPlain([], gb.next, 0);
      IfGood(gc, gb, false, Gen([], gb.next, 0), next, n, loc);
    }
  }

  lemma {:induction false} ArgsGood(es: seq<Expr>, n: nat, env: Slots, next: nat, loc: nat)
    requires EnvBelow(env, n) && CompileArgs(es, n, env, next, loc).Ok?
    ensures var g := CompileArgs(es, n, env, next, loc).value; Good(g.code, next, g.next, g.slots)
    decreases es, 0
  {
    if es == [] {
      GoodPlain([], next, 0);
    } else {
      ArgsGood(es[1..], n, env, next, loc);
      var rest := CompileArgs(es[1..], n, env, next, loc).value;
      ExprGood(es[0], n, env, rest.next, loc);
      var x := CompileExpr(es[0], n, env, rest.next, loc).value;
      GoodAppend(rest.code, x.code, next, rest.next, x.next, rest.slots, x.slots, Max(rest.slots, x.slots));
    }
  }

  lemma {:induction false} BlocksGood(b: Block, n: nat, env: Slots, next: nat, loc: nat)
    requires EnvBelow(env, n) && CompileBlock(b, n, env, next, loc).Ok?
    ensures GoodGen(CompileBlock(b, n, env, next, loc).value, next, n)
    decreases b, 1
  {
    StmtsGood(b.body, n, env, next + 1, loc);
    var g := CompileStmts(b.body, n, env, next + 1, loc).value;
    if b.ret.None? {
      BlockGood(n, g.code, next, g.next, g.slots, loc);
    } else {
      ExprGood(b.ret.value, g.slots, g.env, g.next, loc);
      var r := CompileExpr(b.ret.value, g.slots, g.env, g.next, loc).value;
      var slots := Max(n, Max(r.slots, g.slots));
      GoodAppend(g.code, r.code, next + 1, g.next, r.next, g.slots, r.slots, slots);
      BlockGood(n, g.code + r.code, next, r.next, slots, loc);
    }
  }

  lemma {:induction false} StmtsGood(body: seq<Stmt>, n: nat, env: Slots, next: nat, loc: nat)
    requires EnvBelow(env, n) && CompileStmts(body, n, env, next, loc).Ok?
    ensures GoodStmts(CompileStmts(body, n, env, next, loc).value, next, n)
    decreases body, 0
  {
    if body == [] {
      GoodPlain([], next, n);
    } else {
      StmtGood(body[0], n, env, next, loc);
      var g := CompileStmt(body[0], n, env, next, loc).value;
      StmtsGood(body[1..], g.slots, g.env, g.next, loc);
      var rest := CompileStmts(body[1..], g.slots, g.env, g.next, loc).value;
      GoodAppend(g.code, rest.code, next, g.next, rest.next, g.slots, rest.slots, rest.slots);
    }
  }

  lemma {:induction false} StmtGood(st: Stmt, n: nat, env: Slots, next: nat, loc: nat)
    requires EnvBelow(env, n) && CompileStmt(st, n, env, next, loc).Ok?
    ensures GoodStmts(CompileStmt(st, n, env, next, loc).value, next, n)
    decreases st, 1
  {
    var g := CompileStmt(st, n, env, next, loc).value;
    if st.While? {
      StmtsGood(st.body, n + 1, env, next + 2, loc);
      var gb := CompileStmts(st.body, n + 1, env, next + 2, loc).value;
      ExprGood(st.cond, gb.slots, env, gb.next, loc);
      WhileGood(n, next, gb, CompileExpr(st.cond, gb.slots, env, gb.next, loc).value, env, loc);
    } else {
      ExprGood(st.e, n, env, next, loc);
      var ge := CompileExpr(st.e, n, env, next, loc).value;
      var more := g.code[|ge.code|..];
      assert g.code == ge.code + more;
      GoodPlain(more, ge.next, g.slots);
      GoodAppend(ge.code, more, next, ge.next, ge.next, ge.slots, g.slots, g.slots);
    }
  }

  // ----- functions and modules -----

  lemma {:induction false} ArgSlotsBelow(args: seq<Name>, n: nat)
    requires n <= |args|
    ensures EnvBelow(ArgSlots(args, n), n)
  {
    if n > 0 { ArgSlotsBelow(args, n - 1); }
  }

  lemma BodyGood(f: Func, next: nat, loc: nat)
    requires CompileBody(f, next, loc).Ok?
    ensures GoodGen(CompileBody(f, next, loc).value, next, |f.args|)
  {
    var n := |f.args|;
    ArgSlotsBelow(f.args, n);
    StmtsGood(f.block.body, n, ArgSlots(f.args, n), next, loc);
    var g := CompileStmts(f.block.body, n, ArgSlots(f.args, n), next, loc).value;
    if f.block.ret.Some? {
      ExprGood(f.block.ret.value, g.slots, g.env, g.next, loc);
      var r := CompileExpr(f.block.ret.value, g.slots, g.env, g.next, loc).value;
      GoodAppend(g.code, r.code, next, g.next, r.next, g.slots, r.slots, Max(r.slots, g.slots));
    }
  }

  predicate LocalBelow(insn: Instr, size: nat) {
    insn.op.GetLocal? || insn.op.SetLocal? ==> insn.imm.Some? && insn.imm.value.Int? && insn.imm.value.n < size
  }

  /** Every local slot a function touches is below the size given to MakeFrame, and its arguments
      fit in the frame too. */
  lemma SlotsFitFrame(f: Func, next: nat, loc: nat, i: nat)
    requires CompileFunc(f, next, loc).Ok? && i < |CompileFunc(f, next, loc).value.code|
    ensures var code := CompileFunc(f, next, loc).value.code;
            && |code| >= 2 && code[1].op.MakeFrame? && code[1].op.nargs <= code[1].op.ntotal
            && LocalBelow(code[i], code[1].op.ntotal)
  {
    BodyGood(f, next, loc);
    var g := CompileBody(f, next, loc).value;
    if 2 <= i < |g.code| + 2 { ShapedAt(g.code, next, g.next, g.slots, i - 2); }
  }

  /** Instructions of a module: generated code, or the frame of a function. */
  predicate ModuleShape(insn: Instr, hi: nat, slots: nat) {
    || InsnShape(insn, 0, hi, slots)
    || (insn.imm.None? && (insn.op.MakeFrame? || insn.op.Return? || (insn.op.LabelOp? && insn.op.lab.Func?)))
  }

  lemma WidenModule(insn: Instr, hi: nat, slots: nat, hi': nat, slots': nat)
    requires ModuleShape(insn, hi, slots) && hi <= hi' && slots <= slots'
    ensures ModuleShape(insn, hi', slots')
  {
  }

  function FuncDefs(fs: seq<Func>, l: Label): nat {
    if fs == [] then 0 else (if l == Label.Func(fs[0].name) then 1 else 0) + FuncDefs(fs[1..], l)
  }

  ghost predicate GoodModule(code: seq<Instr>, fs: seq<Func>, lo: nat, hi: nat, slots: nat) {
    && lo <= hi <= lo + |code|
    && (forall i :: 0 <= i < |code| ==> ModuleShape(code[i], hi, slots))
    && (forall l :: Defs(code, l) == Within(l, lo, hi) + FuncDefs(fs, l))
  }

  lemma FuncGood(f: Func, next: nat, loc: nat)
    requires CompileFunc(f, next, loc).Ok?
    ensures var g := CompileFunc(f, next, loc).value; GoodModule(g.code, [f], next, g.next, g.slots)
  {
    BodyGood(f, next, loc);
    var g := CompileBody(f, next, loc).value;
    var code := FuncCode(f, g, loc);
    forall i | 0 <= i < |code| ensures ModuleShape(code[i], g.next, g.slots) {
      if 2 <= i < |g.code| + 2 {
        ShapedAt(g.code, next, g.next, g.slots, i - 2);
        assert InsnShape(code[i], 0, g.next, g.slots);
      }
    }
    forall l ensures Defs(code, l) == Within(l, next, g.next) + FuncDefs([f], l) {
      FuncCodeDefs(f, g, loc, l);
      assert [f][1..] == [];
    }
  }

  lemma FuncCodeDefs(f: Func, g: Gen, loc: nat, l: Label)
    ensures Defs(FuncCode(f, g, loc), l) == Defs(g.code, l) + if l == Label.Func(f.name) then 1 else 0
  {
    var head, tail := [Mark(Label.Func(f.name), loc)], [Instr(Return, None, loc)];
    var frame := [Instr(MakeFrame(|f.args|, g.slots, true), None, loc)];
    assert FuncCode(f, g, loc) == head + frame + g.code + tail;
    NoDefs(frame, l);
    NoDefs(tail, l);
    DefsMark(Label.Func(f.name), loc, l);
    DefsAppend(head, frame, l);
    DefsAppend(head + frame, g.code, l);
    DefsAppend(head + frame + g.code, tail, l);
  }

  lemma {:induction false} ModuleGood(fs: seq<Func>, next: nat, loc: nat)
    requires CompileModule(fs, next, loc).Ok?
    ensures var g := CompileModule(fs, next, loc).value; GoodModule(g.code, fs, next, g.next, g.slots)
  {
    if fs != [] {
      var g := CompileFunc(fs[0], next, loc).value;
      FuncGood(fs[0], next, loc);
      ModuleGood(fs[1..], g.next, loc);
      var rest, all := CompileModule(fs[1..], g.next, loc).value, CompileModule(fs, next, loc).value;
      forall i | 0 <= i < |all.code| ensures ModuleShape(all.code[i], all.next, all.slots) {
        if i < |g.code| {
          WidenModule(g.code[i], g.next, g.slots, all.next, all.slots);
        } else {
          assert all.code[i] == rest.code[i - |g.code|];
          WidenModule(rest.code[i - |g.code|], rest.next, rest.slots, all.next, all.slots);
        }
      }
      forall l ensures Defs(all.code, l) == Within(l, next, all.next) + FuncDefs(fs, l) {
        DefsAppend(g.code, rest.code, l);
        assert Defs(g.code, l) == Within(l, next, g.next) + FuncDefs([fs[0]], l);
        assert [fs[0]][1..] == [] && FuncDefs([], l) == 0;
      }
    }
  }

  ghost predicate DistinctNames(fs: seq<Func>) {
    forall i, j :: 0 <= i < j < |fs| ==> fs[i].name != fs[j].name
  }

  lemma {:induction false} FuncDefsOnce(fs: seq<Func>, l: Label)
    requires DistinctNames(fs)
    ensures FuncDefs(fs, l) <= 1 && (FuncDefs(fs, l) == 1 ==> exists i :: 0 <= i < |fs| && l == Label.Func(fs[i].name))
  {
    if fs != [] {
      FuncDefsOnce(fs[1..], l);
      if FuncDefs(fs[1..], l) == 1 {
        var i :| 0 <= i < |fs[1..]| && l == Label.Func(fs[1..][i].name);
        assert l == Label.Func(fs[i + 1].name) && fs[0].name != fs[i + 1].name;
      } else if FuncDefs(fs, l) == 1 {
        assert l == Label.Func(fs[0].name);
      }
    }
  }

  lemma {:induction false} DefsAt(code: seq<Instr>, a: nat, l: Label)
    requires a < |code| && code[a].op == LabelOp(l)
    ensures Defs(code, l) >= 1
  {
    if a > 0 { DefsAt(code[1..], a - 1, l); }
  }

  lemma {:induction false} DefsTwice(code: seq<Instr>, a: nat, b: nat, l: Label)
    requires a < b < |code| && code[a].op == code[b].op == LabelOp(l)
    ensures Defs(code, l) >= 2
  {
    if a > 0 { DefsTwice(code[1..], a - 1, b - 1, l); } else { DefsAt(code[1..], b - 1, l); }
  }

  /** No label of a module is marked twice. */
  lemma ModuleUnique(fs: seq<Func>, loc: nat)
    requires DistinctNames(fs) && CompileModule(fs, 0, loc).Ok?
    ensures UniqueLabels(CompileModule(fs, 0, loc).value.code)
  {
    var g := CompileModule(fs, 0, loc).value;
    ModuleGood(fs, 0, loc);
    forall a, b | 0 <= a < b < |g.code| && g.code[a].op.LabelOp? && g.code[b].op.LabelOp?
      ensures g.code[a].op != g.code[b].op
    {
      if g.code[a].op == g.code[b].op {
        var l := g.code[a].op.lab;
        DefsTwice(g.code, a, b, l);
        FuncDefsOnce(fs, l);
      }
    }
  }
}
