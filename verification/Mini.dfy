/** The fragment of type-checked Mini that code generation is proved correct for, and its direct
    evaluation. Operands and arguments are evaluated right to left. Nesting of calls and loop
    iterations is counted by fuel; every terminating evaluation has enough for some amount. */
module Mini {
  import opened Avm
  import opened Machine
  import opened TupleTrees

  type Name = nat

  /** Constants do not refer to code. */
  type Constant = v: Value | RefsIn(v) == {} witness NONE

  datatype BinaryOp =
    | Plus | Minus | Times | Div | Mod | Sdiv | Smod
    | LessThan | GreaterThan | LessEq | GreaterEq | SLessThan | SGreaterThan | SLessEq | SGreaterEq
    | Equal | NotEqual | BitwiseAnd | BitwiseOr | BitwiseXor | ShiftLeft | ShiftRight | Hash

  datatype Expr =
    | Const(v: Constant)
    | Local(name: Name)
    | GlobalRef(idx: nat)
    | Not(e: Expr)
    | Binary(op: BinaryOp, left: Expr, right: Expr)
    | ShortcutAnd(left: Expr, right: Expr)
    | ShortcutOr(left: Expr, right: Expr)
    | If(cond: Expr, block: Block, orElse: Option<Block>)
    | CodeBlock(block: Block)
    | Call(func: nat, args: seq<Expr>)
    | StructInit(fields: seq<Expr>)
    | DotRef(e: Expr, slot: nat, size: nat)
    | StructMod(e: Expr, slot: nat, size: nat, value: Expr)

  /** A block without a result expression yields nothing. */
  datatype Block = Block(body: seq<Stmt>, ret: Option<Expr>)

  datatype Stmt =
    | Let(name: Name, e: Expr)
    | AssignLocal(name: Name, e: Expr)
    | AssignGlobal(idx: nat, e: Expr)
    | While(cond: Expr, body: seq<Stmt>)
    | ExprStmt(e: Expr, pushes: bool)

  /** A function that ends by returning a value, or nothing. */
  datatype Func = Func(name: nat, args: seq<Name>, block: Block)

  datatype Store = Store(locals: seq<Value>, globals: seq<Value>)

  datatype Ev = Ev(v: Option<Value>, s: Store)

  /** The machine's integer operations, the functions that can be called, and the location given to
      all emitted code. */
  datatype Ctx = Ctx(isa: Isa, funcs: map<nat, Func>, loc: nat)

  // ----- scoping: the last declaration of a name is the one in force -----

  function Last(names: seq<Name>, x: Name): (r: Option<nat>)
    ensures r.Some? <==> x in names
    ensures r.Some? ==> r.value < |names| && names[r.value] == x && forall j :: r.value < j < |names| ==> names[j] != x
  {
    if names == [] then None
    else if names[|names| - 1] == x then Some(|names| - 1)
    else Last(names[..|names| - 1], x)
  }

  function Declared(body: seq<Stmt>): seq<Name> {
    if body == [] then []
    else (if body[0].Let? then [body[0].name] else []) + Declared(body[1..])
  }

  // ----- operators -----

  function Arith(isa: Isa, b: BinOp, x: Value, y: Value): Option<Value> {
    if x.Int? && y.Int? && isa.bin(b, x.n, y.n).Some? then Some(Int(isa.bin(b, x.n, y.n).value)) else None
  }

  /** Negation of a truth value; strict locations accept 0 and 1 only. */
  function Negation(ctx: Ctx, x: Option<Value>): Option<Value> {
    if x.Some? && x.value.Int? && (ctx.loc in ctx.isa.strict ==> x.value.n <= 1) then Some(BoolVal(x.value.n == 0))
    else None
  }

  function SameValue(x: Value, y: Value): Option<Value> {
    if CodeFree(x) && CodeFree(y) then Some(BoolVal(x == y)) else None
  }

  function Apply(ctx: Ctx, op: BinaryOp, x: Value, y: Value): Option<Value> {
    match op
    case Plus => Arith(ctx.isa, BinOp.Add, x, y)
    case Minus => Arith(ctx.isa, BinOp.Sub, x, y)
    case Times => Arith(ctx.isa, BinOp.Mul, x, y)
    case Div => Arith(ctx.isa, BinOp.Div, x, y)
    case Mod => Arith(ctx.isa, BinOp.Mod, x, y)
    case Sdiv => Arith(ctx.isa, BinOp.Sdiv, x, y)
    case Smod => Arith(ctx.isa, BinOp.Smod, x, y)
    case LessThan => Arith(ctx.isa, BinOp.LessThan, x, y)
    case GreaterThan => Arith(ctx.isa, BinOp.GreaterThan, x, y)
    case LessEq => Negation(ctx, Arith(ctx.isa, BinOp.GreaterThan, x, y))
    case GreaterEq => Negation(ctx, Arith(ctx.isa, BinOp.LessThan, x, y))
    case SLessThan => Arith(ctx.isa, BinOp.SLessThan, x, y)
    case SGreaterThan => Arith(ctx.isa, BinOp.SGreaterThan, x, y)
    case SLessEq => Negation(ctx, Arith(ctx.isa, BinOp.SGreaterThan, x, y))
    case SGreaterEq => Negation(ctx, Arith(ctx.isa, BinOp.SLessThan, x, y))
    case Equal => SameValue(x, y)
    case NotEqual => Negation(ctx, SameValue(x, y))
    case BitwiseAnd => Arith(ctx.isa, BinOp.BitwiseAnd, x, y)
    case BitwiseOr => Arith(ctx.isa, BinOp.BitwiseOr, x, y)
    case BitwiseXor => Arith(ctx.isa, BinOp.BitwiseXor, x, y)
    case ShiftLeft => Arith(ctx.isa, BinOp.ShiftLeft, x, y)
    case ShiftRight => Arith(ctx.isa, BinOp.ShiftRight, x, y)
    case Hash => Arith(ctx.isa, BinOp.EthHash2, x, y)
  }

  // ----- evaluation; None is a fault or lack of fuel -----

  /** Truth of a condition. */
  function Truth(x: Option<Value>): Option<bool> {
    if x.Some? && x.value.Int? then Some(x.value.n != 0) else None
  }

  function EvalExpr(ctx: Ctx, fuel: nat, e: Expr, names: seq<Name>, s: Store): (r: Option<Ev>)
    requires |s.locals| == |names|
    ensures r.Some? ==> |r.value.s.locals| == |names|
    decreases fuel, e, 1
  {
    match e
    case Const(v) => Some(Ev(Some(v), s))
    case Local(x) =>
      var k := Last(names, x);
      if k.Some? then Some(Ev(Some(s.locals[k.value]), s)) else None
    case GlobalRef(i) => if i < |s.globals| then Some(Ev(Some(s.globals[i]), s)) else None
    case Not(a) =>
      var r := EvalExpr(ctx, fuel, a, names, s);
      if r.Some? && Negation(ctx, r.value.v).Some? then Some(Ev(Negation(ctx, r.value.v), r.value.s)) else None
    case Binary(op, a, b) =>
      var y := EvalExpr(ctx, fuel, b, names, s);
      if y.None? || y.value.v.None? then None
      else
        var x := EvalExpr(ctx, fuel, a, names, y.value.s);
        if x.None? || x.value.v.None? then None
        else
          var v := Apply(ctx, op, x.value.v.value, y.value.v.value);
          if v.Some? then Some(Ev(v, x.value.s)) else None
    case ShortcutAnd(a, b) =>
      var x := EvalExpr(ctx, fuel, a, names, s);
      if x.None? || Negation(ctx, x.value.v).None? then None
      else if x.value.v == Some(Int(0)) then x
      else EvalValued(ctx, fuel, b, names, x.value.s)
    case ShortcutOr(a, b) =>
      var x := EvalExpr(ctx, fuel, a, names, s);
      if x.None? || Truth(x.value.v).None? then None
      else if Truth(x.value.v).value then x
      else EvalValued(ctx, fuel, b, names, x.value.s)
    case If(c, block, orElse) =>
      var x := EvalExpr(ctx, fuel, c, names, s);
      if x.None? || Negation(ctx, x.value.v).None? then None
      else if Truth(x.value.v) == Some(true) then EvalBlock(ctx, fuel, block, names, x.value.s)
      else if orElse.Some? then EvalBlock(ctx, fuel, orElse.value, names, x.value.s)
      else Some(Ev(None, x.value.s))
    case CodeBlock(block) => EvalBlock(ctx, fuel, block, names, s)
    case Call(f, args) =>
      var xs := EvalArgs(ctx, fuel, args, names, s);
      if xs.None? || f !in ctx.funcs || fuel == 0 then None
      else
        var r := EvalCall(ctx, fuel - 1, ctx.funcs[f], xs.value.vs, xs.value.s.globals);
        if r.Some? then Some(Ev(r.value.v, Store(xs.value.s.locals, r.value.s.globals))) else None
    case StructInit(_) => EvalStruct(ctx, fuel, e, names, s)
    case DotRef(_, _, _) => EvalStruct(ctx, fuel, e, names, s)
    case StructMod(_, _, _, _) => EvalStruct(ctx, fuel, e, names, s)
  }

  /** Making, reading and updating structs. */
  function EvalStruct(ctx: Ctx, fuel: nat, e: Expr, names: seq<Name>, s: Store): (r: Option<Ev>)
    requires |s.locals| == |names| && (e.StructInit? || e.DotRef? || e.StructMod?)
    ensures r.Some? ==> |r.value.s.locals| == |names|
    decreases fuel, e, 0
  {
    match e
    case StructInit(fields) =>
      var xs := EvalArgs(ctx, fuel, fields, names, s);
      if xs.Some? && |fields| <= USIZE_LIMIT then Some(Ev(Some(ValueFromFieldList(xs.value.vs)), xs.value.s)) else None
    case DotRef(a, slot, size) =>
      var x := EvalExpr(ctx, fuel, a, names, s);
      if x.None? || x.value.v.None? || slot >= size || slot >= USIZE_LIMIT then None
      else
        var fields := Flatten(TreeOf(size, false), x.value.v.value);
        if fields.Some? then Some(Ev(Some(fields.value[slot]), x.value.s)) else None
    case StructMod(a, slot, size, b) =>
      var y := EvalExpr(ctx, fuel, b, names, s);
      if y.None? || y.value.v.None? then None
      else
        var x := EvalExpr(ctx, fuel, a, names, y.value.s);
        if x.None? || x.value.v.None? then None
        else
          var v := WithField(x.value.v.value, slot, size, y.value.v.value);
          if v.Some? then Some(Ev(v, x.value.s)) else None
  }

  /** A struct of the given number of fields with another value in one of them. */
  function WithField(struc: Value, slot: nat, size: nat, x: Value): Option<Value> {
    var fields := Flatten(TreeOf(size, false), struc);
    if fields.Some? && slot < size && slot < USIZE_LIMIT then Some(ValueFromFieldList(fields.value[slot := x]))
    else None
  }

  /** An operand must yield a value. */
  function EvalValued(ctx: Ctx, fuel: nat, e: Expr, names: seq<Name>, s: Store): (r: Option<Ev>)
    requires |s.locals| == |names|
    ensures r.Some? ==> |r.value.s.locals| == |names| && r.value.v.Some?
    decreases fuel, e, 2
  {
    var r := EvalExpr(ctx, fuel, e, names, s);
    if r.Some? && r.value.v.Some? then r else None
  }

  datatype Evs = Evs(vs: seq<Value>, s: Store)

  /** The values in order, evaluated from the last to the first. */
  function EvalArgs(ctx: Ctx, fuel: nat, es: seq<Expr>, names: seq<Name>, s: Store): (r: Option<Evs>)
    requires |s.locals| == |names|
    ensures r.Some? ==> |r.value.s.locals| == |names| && |r.value.vs| == |es|
    decreases fuel, es, 0
  {
    if es == [] then Some(Evs([], s))
    else
      var rest := EvalArgs(ctx, fuel, es[1..], names, s);
      if rest.None? then None
      else
        var x := EvalValued(ctx, fuel, es[0], names, rest.value.s);
        if x.Some? then Some(Evs([x.value.v.value] + rest.value.vs, x.value.s)) else None
  }

  /** Declarations of a block end with it. */
  function EvalBlock(ctx: Ctx, fuel: nat, b: Block, names: seq<Name>, s: Store): (r: Option<Ev>)
    requires |s.locals| == |names|
    ensures r.Some? ==> |r.value.s.locals| == |names|
    decreases fuel, b, 1
  {
    var t := EvalStmts(ctx, fuel, b.body, names, s);
    if t.None? then None
    else if b.ret.None? then Some(Ev(None, Leave(t.value, |names|)))
    else
      var r := EvalExpr(ctx, fuel, b.ret.value, names + Declared(b.body), t.value);
      if r.Some? then Some(Ev(r.value.v, Leave(r.value.s, |names|))) else None
  }

  function Leave(s: Store, n: nat): Store {
    if n <= |s.locals| then Store(s.locals[..n], s.globals) else s
  }

  function EvalStmts(ctx: Ctx, fuel: nat, body: seq<Stmt>, names: seq<Name>, s: Store): (r: Option<Store>)
    requires |s.locals| == |names|
    ensures r.Some? ==> |r.value.locals| == |names| + |Declared(body)|
    decreases fuel, body, 0
  {
    if body == [] then Some(s)
    else
      var t := EvalStmt(ctx, fuel, body[0], names, s);
      if t.None? then None
      else EvalStmts(ctx, fuel, body[1..], names + Declared([body[0]]), t.value)
  }

  function EvalStmt(ctx: Ctx, fuel: nat, st: Stmt, names: seq<Name>, s: Store): (r: Option<Store>)
    requires |s.locals| == |names|
    ensures r.Some? ==> |r.value.locals| == |names + Declared([st])|
    decreases fuel, st, 1
  {
    match st
    case Let(x, e) =>
      var r := EvalValued(ctx, fuel, e, names, s);
      if r.Some? then Some(Store(r.value.s.locals + [r.value.v.value], r.value.s.globals)) else None
    case AssignLocal(x, e) =>
      var r := EvalValued(ctx, fuel, e, names, s);
      var k := Last(names, x);
      if r.Some? && k.Some? then Some(Store(r.value.s.locals[k.value := r.value.v.value], r.value.s.globals)) else None
    case AssignGlobal(i, e) =>
      var r := EvalValued(ctx, fuel, e, names, s);
      if r.Some? && i < |r.value.s.globals| then
        Some(Store(r.value.s.locals, r.value.s.globals[i := r.value.v.value]))
      else None
    case While(_, _) => EvalWhile(ctx, fuel, st, names, s)
    case ExprStmt(e, pushes) =>
      var r := EvalExpr(ctx, fuel, e, names, s);
      if r.Some? && r.value.v.Some? == pushes then Some(r.value.s) else None
  }

  function EvalWhile(ctx: Ctx, fuel: nat, w: Stmt, names: seq<Name>, s: Store): (r: Option<Store>)
    requires |s.locals| == |names| && w.While?
    ensures r.Some? ==> |r.value.locals| == |names|
    decreases fuel, w, 0
  {
    if fuel == 0 then None
    else
      var c := EvalExpr(ctx, fuel - 1, w.cond, names, s);
      if c.None? || Truth(c.value.v).None? then None
      else if !Truth(c.value.v).value then Some(c.value.s)
      else
        var t := EvalStmts(ctx, fuel - 1, w.body, names, c.value.s);
        if t.Some? then EvalWhile(ctx, fuel - 1, w, names, Leave(t.value, |names|)) else None
  }

  /** The body runs on the arguments alone. */
  function EvalCall(ctx: Ctx, fuel: nat, f: Func, args: seq<Value>, globals: seq<Value>): (r: Option<Ev>)
    decreases fuel, f, 2
  {
    if |args| != |f.args| then None
    else EvalBlock(ctx, fuel, f.block, f.args, Store(args, globals))
  }

  // ----- more fuel changes nothing -----

  lemma {:induction false} ExprMore(ctx: Ctx, fuel: nat, more: nat, e: Expr, names: seq<Name>, s: Store)
    requires |s.locals| == |names| && fuel <= more && EvalExpr(ctx, fuel, e, names, s).Some?
    ensures EvalExpr(ctx, more, e, names, s) == EvalExpr(ctx, fuel, e, names, s)
    decreases fuel, e, 1
  {
    match e
    case Const(_) =>
    case Local(_) =>
    case GlobalRef(_) =>
    case Not(a) => ExprMore(ctx, fuel, more, a, names, s);
    case Binary(_, _, _) => TwoMore(ctx, fuel, more, e, names, s);
    case ShortcutAnd(_, _) => ShortcutMore(ctx, fuel, more, e, names, s);
    case ShortcutOr(_, _) => ShortcutMore(ctx, fuel, more, e, names, s);
    case If(c, block, orElse) =>
      ExprMore(ctx, fuel, more, c, names, s);
      var x := EvalExpr(ctx, fuel, c, names, s).value;
      if Truth(x.v) == Some(true) {
        BlockMore(ctx, fuel, more, block, names, x.s);
      } else if orElse.Some? {
        BlockMore(ctx, fuel, more, orElse.value, names, x.s);
      }
    case CodeBlock(block) => BlockMore(ctx, fuel, more, block, names, s);
    case Call(f, args) =>
      ArgsMore(ctx, fuel, more, args, names, s);
      var xs := EvalArgs(ctx, fuel, args, names, s).value;
      CallMore(ctx, fuel - 1, more - 1, ctx.funcs[f], xs.vs, xs.s.globals);
    case StructInit(fields) => ArgsMore(ctx, fuel, more, fields, names, s);
    case DotRef(a, _, _) => ExprMore(ctx, fuel, more, a, names, s);
    case StructMod(_, _, _, _) => TwoMore(ctx, fuel, more, e, names, s);
  }

  /** Constructs with two operands, the second evaluated after the first. */
  lemma {:induction false} TwoMore(ctx: Ctx, fuel: nat, more: nat, e: Expr, names: seq<Name>, s: Store)
    requires e.Binary? || e.StructMod?
    requires |s.locals| == |names| && fuel <= more && EvalExpr(ctx, fuel, e, names, s).Some?
    ensures EvalExpr(ctx, more, e, names, s) == EvalExpr(ctx, fuel, e, names, s)
    decreases fuel, e, 0
  {
    var first, second := if e.Binary? then e.right else e.value, if e.Binary? then e.left else e.e;
    ExprMore(ctx, fuel, more, first, names, s);
    ExprMore(ctx, fuel, more, second, names, EvalExpr(ctx, fuel, first, names, s).value.s);
  }

  lemma {:induction false} ShortcutMore(ctx: Ctx, fuel: nat, more: nat, e: Expr, names: seq<Name>, s: Store)
    requires (e.ShortcutAnd? || e.ShortcutOr?) && |s.locals| == |names| && fuel <= more
    requires EvalExpr(ctx, fuel, e, names, s).Some?
    ensures EvalExpr(ctx, more, e, names, s) == EvalExpr(ctx, fuel, e, names, s)
    decreases fuel, e, 0
  {
    ExprMore(ctx, fuel, more, e.left, names, s);
    var x := EvalExpr(ctx, fuel, e.left, names, s).value;
    if EvalValued(ctx, fuel, e.right, names, x.s).Some? { ValuedMore(ctx, fuel, more, e.right, names, x.s); }
  }

  lemma {:induction false} ValuedMore(ctx: Ctx, fuel: nat, more: nat, e: Expr, names: seq<Name>, s: Store)
    requires |s.locals| == |names| && fuel <= more && EvalValued(ctx, fuel, e, names, s).Some?
    ensures EvalValued(ctx, more, e, names, s) == EvalValued(ctx, fuel, e, names, s)
    decreases fuel, e, 2
  {
    ExprMore(ctx, fuel, more, e, names, s);
  }

  lemma {:induction false} ArgsMore(ctx: Ctx, fuel: nat, more: nat, es: seq<Expr>, names: seq<Name>, s: Store)
    requires |s.locals| == |names| && fuel <= more && EvalArgs(ctx, fuel, es, names, s).Some?
    ensures EvalArgs(ctx, more, es, names, s) == EvalArgs(ctx, fuel, es, names, s)
    decreases fuel, es, 0
  {
    if es != [] {
      ArgsMore(ctx, fuel, more, es[1..], names, s);
      ValuedMore(ctx, fuel, more, es[0], names, EvalArgs(ctx, fuel, es[1..], names, s).value.s);
    }
  }

  lemma {:induction false} BlockMore(ctx: Ctx, fuel: nat, more: nat, b: Block, names: seq<Name>, s: Store)
    requires |s.locals| == |names| && fuel <= more && EvalBlock(ctx, fuel, b, names, s).Some?
    ensures EvalBlock(ctx, more, b, names, s) == EvalBlock(ctx, fuel, b, names, s)
    decreases fuel, b, 1
  {
    StmtsMore(ctx, fuel, more, b.body, names, s);
    if b.ret.Some? {
      ExprMore(ctx, fuel, more, b.ret.value, names + Declared(b.body), EvalStmts(ctx, fuel, b.body, names, s).value);
    }
  }

  lemma {:induction false} StmtsMore(ctx: Ctx, fuel: nat, more: nat, body: seq<Stmt>, names: seq<Name>, s: Store)
    requires |s.locals| == |names| && fuel <= more && EvalStmts(ctx, fuel, body, names, s).Some?
    ensures EvalStmts(ctx, more, body, names, s) == EvalStmts(ctx, fuel, body, names, s)
    decreases fuel, body, 0
  {
    if body != [] {
      StmtMore(ctx, fuel, more, body[0], names, s);
      StmtsMore(ctx, fuel, more, body[1..], names + Declared([body[0]]), EvalStmt(ctx, fuel, body[0], names, s).value);
    }
  }

  lemma {:induction false} StmtMore(ctx: Ctx, fuel: nat, more: nat, st: Stmt, names: seq<Name>, s: Store)
    requires |s.locals| == |names| && fuel <= more && EvalStmt(ctx, fuel, st, names, s).Some?
    ensures EvalStmt(ctx, more, st, names, s) == EvalStmt(ctx, fuel, st, names, s)
    decreases fuel, st, 1
  {
    match st
    case Let(_, e) => ValuedMore(ctx, fuel, more, e, names, s);
    case AssignLocal(_, e) => ValuedMore(ctx, fuel, more, e, names, s);
    case AssignGlobal(_, e) => ValuedMore(ctx, fuel, more, e, names, s);
    case While(_, _) => WhileMore(ctx, fuel, more, st, names, s);
    case ExprStmt(e, _) => ExprMore(ctx, fuel, more, e, names, s);
  }

  lemma {:induction false} WhileMore(ctx: Ctx, fuel: nat, more: nat, w: Stmt, names: seq<Name>, s: Store)
    requires |s.locals| == |names| && w.While? && fuel <= more && EvalWhile(ctx, fuel, w, names, s).Some?
    ensures EvalWhile(ctx, more, w, names, s) == EvalWhile(ctx, fuel, w, names, s)
    decreases fuel, w, 0
  {
    ExprMore(ctx, fuel - 1, more - 1, w.cond, names, s);
    var c := EvalExpr(ctx, fuel - 1, w.cond, names, s).value;
    if Truth(c.v).value {
      StmtsMore(ctx, fuel - 1, more - 1, w.body, names, c.s);
      WhileMore(ctx, fuel - 1, more - 1, w, names, Leave(EvalStmts(ctx, fuel - 1, w.body, names, c.s).value, |names|));
    }
  }

  /** A call that terminates has one result, whatever the fuel that is enough for it. */
  lemma {:induction false} CallMore(ctx: Ctx, fuel: nat, more: nat, f: Func, args: seq<Value>, globals: seq<Value>)
    requires fuel <= more && EvalCall(ctx, fuel, f, args, globals).Some?
    ensures EvalCall(ctx, more, f, args, globals) == EvalCall(ctx, fuel, f, args, globals)
    decreases fuel, f, 2
  {
    BlockMore(ctx, fuel, more, f.block, f.args, Store(args, globals));
  }
}
