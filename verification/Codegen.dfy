/** Code generation for the fragment (src/compile/codegen.rs): expressions, blocks, statements and
    functions, with frame slots and generated labels. */
module Codegen {
  import opened Avm
  import opened TupleTrees
  import opened Mini

  /** Where the slot of each visible local is. */
  type Slots = map<Name, nat>

  /** Emitted code, the next free label number, and the frame slots in use at most. */
  datatype Gen = Gen(code: seq<Instr>, next: nat, slots: nat)

  /** The same for statements, with the locals visible after them. */
  datatype StmtGen = StmtGen(code: seq<Instr>, next: nat, slots: nat, env: Slots)

  // ----- single instructions -----

  function PushLabel(op: AvmOp, l: Label, loc: nat): Instr { WithImm(op, LabelVal(l), loc) }

  function Slot(op: Opcode, slot: nat, loc: nat): Instr { Instr(op, Some(Int(slot)), loc) }

  function Mark(l: Label, loc: nat): Instr { Instr(LabelOp(l), None, loc) }

  function OpcodeOf(op: BinaryOp): AvmOp {
    match op
    case Plus => Bin(BinOp.Add)
    case Minus => Bin(BinOp.Sub)
    case Times => Bin(BinOp.Mul)
    case Div => Bin(BinOp.Div)
    case Mod => Bin(BinOp.Mod)
    case Sdiv => Bin(BinOp.Sdiv)
    case Smod => Bin(BinOp.Smod)
    case LessThan => Bin(BinOp.LessThan)
    case GreaterThan => Bin(BinOp.GreaterThan)
    case LessEq => Bin(BinOp.GreaterThan)
    case GreaterEq => Bin(BinOp.LessThan)
    case SLessThan => Bin(BinOp.SLessThan)
    case SGreaterThan => Bin(BinOp.SGreaterThan)
    case SLessEq => Bin(BinOp.SGreaterThan)
    case SGreaterEq => Bin(BinOp.SLessThan)
    case Equal => AvmOp.Equal
    case NotEqual => AvmOp.Equal
    case BitwiseAnd => Bin(BinOp.BitwiseAnd)
    case BitwiseOr => Bin(BinOp.BitwiseOr)
    case BitwiseXor => Bin(BinOp.BitwiseXor)
    case ShiftLeft => Bin(BinOp.ShiftLeft)
    case ShiftRight => Bin(BinOp.ShiftRight)
    case Hash => Bin(BinOp.EthHash2)
  }

  predicate Negates(op: BinaryOp) {
    op == NotEqual || op == LessEq || op == GreaterEq || op == SLessEq || op == SGreaterEq
  }

  function OpCode(op: BinaryOp, loc: nat): seq<Instr> {
    [Plain(OpcodeOf(op), loc)] + (if Negates(op) then [Plain(IsZero, loc)] else [])
  }

  /** Sets the fields of an empty struct one by one. */
  function SetFields(i: nat, size: nat, loc: nat): seq<Instr>
    requires i <= size
    decreases size - i
  {
    if i == size then [] else [Slot(TupleSet(size), i, loc)] + SetFields(i + 1, size, loc)
  }

  // ----- how the code of a construct is put together from its parts -----

  function TestCode(after: Label, loc: nat): seq<Instr> {
    [Plain(IsZero, loc), PushLabel(Cjump, after, loc)]
  }

  function SkipCode(hasElse: bool, end: Label, loc: nat): seq<Instr> {
    if hasElse then [PushLabel(Jump, end, loc)] else []
  }

  /** The right operand comes first. */
  function JoinBinary(op: BinaryOp, n: nat, y: Gen, x: Gen, loc: nat): Gen {
    Gen(y.code + x.code + OpCode(op, loc), x.next, Max(n, Max(y.slots, x.slots)))
  }

  /** The new field comes first, then the struct it is put into. */
  function JoinMod(slot: nat, size: nat, n: nat, y: Gen, x: Gen, loc: nat): Gen {
    Gen(y.code + x.code + [Slot(TupleSet(size), slot, loc)], x.next, Max(n, Max(y.slots, x.slots)))
  }

  /** A copy of the left operand decides whether the right one replaces it. */
  function ShortcutTest(isAnd: bool, lab: Label, loc: nat): seq<Instr> {
    [Plain(Dup0, loc)] + (if isAnd then [Plain(IsZero, loc)] else []) + [PushLabel(Cjump, lab, loc), Plain(Pop, loc)]
  }

  function JoinShortcut(isAnd: bool, n: nat, x: Gen, y: Gen, loc: nat): Gen {
    var lab := Anon(x.next);
    Gen(x.code + ShortcutTest(isAnd, lab, loc) + y.code + [Mark(lab, loc)], y.next, Max(n, Max(x.slots, y.slots)))
  }

  function JoinIf(gc: Gen, gb: Gen, hasElse: bool, ge: Gen, loc: nat): Gen {
    var after, end := Anon(gc.next), Anon(gc.next + 1);
    Gen(gc.code + TestCode(after, loc) + gb.code + SkipCode(hasElse, end, loc) + [Mark(after, loc)] + ge.code
        + [Mark(end, loc)],
        ge.next, Max(gc.slots, Max(gb.slots, ge.slots)))
  }

  function CallCode(ret: Label, f: nat, loc: nat): seq<Instr> {
    [PushLabel(Noop, ret, loc), PushLabel(Noop, Label.Func(f), loc), Plain(Jump, loc), Mark(ret, loc)]
  }

  function StructCode(size: nat, loc: nat): seq<Instr> {
    [WithImm(Noop, MakeEmpty(TreeOf(size, false)), loc)] + SetFields(0, size, loc)
  }

  function Then(n: nat, g: Gen, more: seq<Instr>): Gen {
    Gen(g.code + more, g.next, Max(n, g.slots))
  }

  /** The loop-top label is kept in a slot of its own, below all the slots of body and condition. */
  function LoopHead(top: Label, cond: Label, slot: nat, loc: nat): seq<Instr> {
    [PushLabel(Noop, top, loc), Slot(SetLocal, slot, loc), PushLabel(Jump, cond, loc), Mark(top, loc)]
  }

  function LoopTail(slot: nat, loc: nat): seq<Instr> {
    [Slot(GetLocal, slot, loc), Plain(Cjump, loc)]
  }

  function JoinWhile(n: nat, next: nat, body: StmtGen, c: Gen, env: Slots, loc: nat): StmtGen {
    StmtGen(LoopHead(Anon(next), Anon(next + 1), n, loc) + body.code + [Mark(Anon(next + 1), loc)] + c.code
            + LoopTail(n, loc),
            c.next, Max(c.slots, body.slots), env)
  }

  // ----- what is emitted -----

  function CompileExpr(e: Expr, n: nat, env: Slots, next: nat, loc: nat): Result<Gen>
    decreases e, 1
  {
    match e
    case Const(v) => Ok(Gen([WithImm(Noop, v, loc)], next, n))
    case Local(x) => if x in env then Ok(Gen([Slot(GetLocal, env[x], loc)], next, n)) else Err(UnknownLocal(x))
    case GlobalRef(i) => Ok(Gen([Instr(GetGlobalVar(i), None, loc)], next, n))
    case Not(a) =>
      var g := CompileExpr(a, n, env, next, loc);
      if g.Err? then g else Ok(Then(n, g.value, [Plain(IsZero, loc)]))
    case Binary(op, a, b) =>
      var y := CompileExpr(b, n, env, next, loc);
      if y.Err? then y
      else
        var x := CompileExpr(a, n, env, y.value.next, loc);
        if x.Err? then x else Ok(JoinBinary(op, n, y.value, x.value, loc))
    case ShortcutAnd(a, b) =>
      var x := CompileExpr(a, n, env, next, loc);
      if x.Err? then x
      else
        var y := CompileExpr(b, n, env, x.value.next + 1, loc);
        if y.Err? then y else Ok(JoinShortcut(true, n, x.value, y.value, loc))
    case ShortcutOr(a, b) =>
      var x := CompileExpr(a, n, env, next, loc);
      if x.Err? then x
      else
        var y := CompileExpr(b, n, env, x.value.next + 1, loc);
        if y.Err? then y else Ok(JoinShortcut(false, n, x.value, y.value, loc))
    case If(c, block, orElse) =>
      var gc := CompileExpr(c, n, env, next, loc);
      if gc.Err? then gc
      else
        var gb := CompileBlock(block, n, env, gc.value.next + 2, loc);
        if gb.Err? then gb
        else if orElse.None? then Ok(JoinIf(gc.value, gb.value, false, Gen([], gb.value.next, 0), loc))
        else
          var ge := CompileBlock(orElse.value, n, env, gb.value.next, loc);
          if ge.Err? then ge else Ok(JoinIf(gc.value, gb.value, true, ge.value, loc))
    case CodeBlock(block) => CompileBlock(block, n, env, next, loc)
    case Call(f, args) =>
      var gs := CompileArgs(args, n, env, next + 1, loc);
      if gs.Err? then gs else Ok(Then(n, gs.value, CallCode(Anon(next), f, loc)))
    case StructInit(_) => CompileStruct(e, n, env, next, loc)
    case DotRef(_, _, _) => CompileStruct(e, n, env, next, loc)
    case StructMod(_, _, _, _) => CompileStruct(e, n, env, next, loc)
  }

  function CompileStruct(e: Expr, n: nat, env: Slots, next: nat, loc: nat): Result<Gen>
    requires e.StructInit? || e.DotRef? || e.StructMod?
    decreases e, 0
  {
    match e
    case StructInit(fields) =>
      var gs := CompileArgs(fields, n, env, next, loc);
      if gs.Err? then gs else Ok(Then(n, gs.value, StructCode(|fields|, loc)))
    case DotRef(a, slot, size) =>
      var g := CompileExpr(a, n, env, next, loc);
      if g.Err? then g else Ok(Then(n, g.value, [Slot(TupleGet(size), slot, loc)]))
    case StructMod(a, slot, size, b) =>
      var y := CompileExpr(b, n, env, next, loc);
      if y.Err? then y
      else
        var x := CompileExpr(a, n, env, y.value.next, loc);
        if x.Err? then x else Ok(JoinMod(slot, size, n, y.value, x.value, loc))
  }

  /** Arguments, last first. */
  function CompileArgs(es: seq<Expr>, n: nat, env: Slots, next: nat, loc: nat): Result<Gen>
    decreases es, 0
  {
    if es == [] then Ok(Gen([], next, 0))
    else
      var rest := CompileArgs(es[1..], n, env, next, loc);
      if rest.Err? then rest
      else
        var x := CompileExpr(es[0], n, env, rest.value.next, loc);
        if x.Err? then x else Ok(Gen(rest.value.code + x.value.code, x.value.next,
                                     Max(rest.value.slots, x.value.slots)))
  }

  function CompileBlock(b: Block, n: nat, env: Slots, next: nat, loc: nat): Result<Gen>
    decreases b, 1
  {
    var bottom := [Mark(Anon(next), loc)];
    var g := CompileStmts(b.body, n, env, next + 1, loc);
    if g.Err? then Err(g.error)
    else if b.ret.None? then Ok(Gen(g.value.code + bottom, g.value.next, Max(n, g.value.slots)))
    else
      var r := CompileExpr(b.ret.value, g.value.slots, g.value.env, g.value.next, loc);
      if r.Err? then r
      else Ok(Gen(g.value.code + r.value.code + bottom, r.value.next, Max(n, Max(r.value.slots, g.value.slots))))
  }

  function CompileStmts(body: seq<Stmt>, n: nat, env: Slots, next: nat, loc: nat): Result<StmtGen>
    decreases body, 0
  {
    if body == [] then Ok(StmtGen([], next, n, env))
    else
      var g := CompileStmt(body[0], n, env, next, loc);
      if g.Err? then g
      else
        var rest := CompileStmts(body[1..], Max(g.value.slots, n), g.value.env, g.value.next, loc);
        if rest.Err? then rest
        else Ok(StmtGen(g.value.code + rest.value.code, rest.value.next, rest.value.slots, rest.value.env))
  }

  function CompileStmt(st: Stmt, n: nat, env: Slots, next: nat, loc: nat): Result<StmtGen>
    decreases st, 1
  {
    match st
    case Let(x, e) =>
      var g := CompileExpr(e, n, env, next, loc);
      if g.Err? then Err(g.error)
      else Ok(StmtGen(g.value.code + [Slot(SetLocal, n, loc)], g.value.next, Max(n + 1, g.value.slots), env[x := n]))
    case AssignLocal(x, e) =>
      if x !in env then Err(UnknownLocal(x))
      else
        var g := CompileExpr(e, n, env, next, loc);
        if g.Err? then Err(g.error)
        else Ok(StmtGen(g.value.code + [Slot(SetLocal, env[x], loc)], g.value.next, g.value.slots, env))
    case AssignGlobal(i, e) =>
      var g := CompileExpr(e, n, env, next, loc);
      if g.Err? then Err(g.error)
      else Ok(StmtGen(g.value.code + [Instr(SetGlobalVar(i), None, loc)], g.value.next, g.value.slots, env))
    case While(c, body) =>
      var gb := CompileStmts(body, n + 1, env, next + 2, loc);
      if gb.Err? then gb
      else
        var gc := CompileExpr(c, gb.value.slots, env, gb.value.next, loc);
        if gc.Err? then Err(gc.error) else Ok(JoinWhile(n, next, gb.value, gc.value, env, loc))
    case ExprStmt(e, pushes) =>
      var g := CompileExpr(e, n, env, next, loc);
      if g.Err? then Err(g.error)
      else Ok(StmtGen(g.value.code + (if pushes then [Plain(Pop, loc)] else []), g.value.next, g.value.slots, env))
  }

  /** Arguments take the first slots; a later argument of the same name hides an earlier one. */
  function ArgSlots(args: seq<Name>, n: nat): Slots
    requires n <= |args|
  {
    if n == 0 then map[] else ArgSlots(args, n - 1)[args[n - 1] := n - 1]
  }

  function FuncCode(f: Func, g: Gen, loc: nat): seq<Instr> {
    [Mark(Label.Func(f.name), loc), Instr(MakeFrame(|f.args|, g.slots, true), None, loc)] + g.code
      + [Instr(Return, None, loc)]
  }

  /** The statements and the returned expression. */
  function CompileBody(f: Func, next: nat, loc: nat): Result<Gen> {
    var n := |f.args|;
    var g := CompileStmts(f.block.body, n, ArgSlots(f.args, n), next, loc);
    if g.Err? then Err(g.error)
    else if f.block.ret.None? then Ok(Gen(g.value.code, g.value.next, g.value.slots))
    else
      var r := CompileExpr(f.block.ret.value, g.value.slots, g.value.env, g.value.next, loc);
      if r.Err? then r else Ok(Gen(g.value.code + r.value.code, r.value.next, Max(r.value.slots, g.value.slots)))
  }

  function CompileFunc(f: Func, next: nat, loc: nat): Result<Gen> {
    var g := CompileBody(f, next, loc);
    if g.Err? then g else Ok(Gen(FuncCode(f, g.value, loc), g.value.next, g.value.slots))
  }

  /** All functions of a module, in order, sharing one supply of labels. */
  function CompileModule(fs: seq<Func>, next: nat, loc: nat): Result<Gen> {
    if fs == [] then Ok(Gen([], next, 0))
    else
      var g := CompileFunc(fs[0], next, loc);
      if g.Err? then g
      else
        var rest := CompileModule(fs[1..], g.value.next, loc);
        if rest.Err? then rest else Ok(Gen(g.value.code + rest.value.code, rest.value.next,
                                           Max(g.value.slots, rest.value.slots)))
  }
}
