/** Constant folding and operand swapping (src/compile/typecheck.rs:3117-3164, 3510-3794): the
    folded constant, or the swapped expression, has the value of the code emitted without them. */
module Folding {
  import opened Avm
  import opened Machine
  import Mini
  import Words

  datatype Type = Uint | Int | Bool | Bytes32 | EthAddress

  type Op = Mini.BinaryOp

  datatype Folded = Folded(v: nat, t: Type)

  /** typecheck_binary_op_const on the operators with a run-time counterpart here; None is a
      compile-time error. */
  function Fold(h: Words.Hash2, op: Op, v1: Words.Word, t1: Type, v2: Words.Word, t2: Type): Option<Folded> {
    match op
    case Plus => if Arithmetic(t1, t2) then Some(Folded(Words.Add(v1, v2), t1)) else None
    case Minus =>
      if Arithmetic(t1, t2) && Words.CheckedSub(v1, v2).Some? then Some(Folded(Words.CheckedSub(v1, v2).value, t1))
      else None
    case Times => if Arithmetic(t1, t2) then Some(Folded(Words.Mul(v1, v2), t1)) else None
    case Div => Typed(t1, t2, Words.Div(v1, v2), Words.Sdiv(v1, v2))
    case Mod => Typed(t1, t2, Words.Modulo(v1, v2), Words.Smodulo(v1, v2))
    case LessThan => Test(t1, t2, v1 < v2, Words.SLess(v1, v2))
    case GreaterThan => Test(t1, t2, v1 > v2, Words.SLess(v2, v1))
    case LessEq => Test(t1, t2, v1 <= v2, !Words.SLess(v2, v1))
    case GreaterEq => Test(t1, t2, v1 >= v2, !Words.SLess(v1, v2))
    case Equal => if t1 == t2 then Some(Folded(Words.Flag(v1 == v2), Bool)) else None
    case NotEqual => if t1 == t2 then Some(Folded(Words.Flag(v1 != v2), Bool)) else None
    case BitwiseAnd => if t1 == t2 then Some(Folded(Words.Bitwise(Words.AND, v1, v2), Bool)) else None
    case BitwiseOr => if t1 == t2 then Some(Folded(Words.Bitwise(Words.OR, v1, v2), Bool)) else None
    case BitwiseXor => if t1 == t2 then Some(Folded(Words.Bitwise(Words.XOR, v1, v2), Bool)) else None
    case ShiftLeft =>
      if t1 == Uint && Shiftable(t2) && v1 < USIZE_LIMIT then Some(Folded(Words.ShiftLeft(v2, v1), t1)) else None
    case ShiftRight =>
      if t1 == Uint && Shiftable(t2) && v1 < USIZE_LIMIT then Some(Folded(Words.ShiftRight(v2, v1), t1)) else None
    case Hash => if t1 == t2 == Bytes32 then Some(Folded(h(v1, v2), Bool)) else None
    case _ => None
  }

  predicate Shiftable(t: Type) { t == Uint || t == Type.Int || t == Bytes32 }

  predicate Arithmetic(t1: Type, t2: Type) { t1 == t2 && (t1 == Uint || t1 == Type.Int) }

  function Typed(t1: Type, t2: Type, unsigned: Option<nat>, signed: Option<nat>): Option<Folded> {
    if !Arithmetic(t1, t2) then None
    else
      var v := if t1 == Uint then unsigned else signed;
      if v.Some? then Some(Folded(v.value, t1)) else None
  }

  function Test(t1: Type, t2: Type, unsigned: bool, signed: bool): Option<Folded> {
    if !Arithmetic(t1, t2) then None else Some(Folded(Words.Flag(if t1 == Uint then unsigned else signed), Bool))
  }

  /** The operator the type checker leaves to code generation: signed for int operands. */
  function TypedOp(op: Op, t: Type): Op {
    if t != Type.Int then op
    else
      match op
      case Div => Mini.Sdiv
      case Mod => Mini.Smod
      case LessThan => Mini.SLessThan
      case GreaterThan => Mini.SGreaterThan
      case LessEq => Mini.SLessEq
      case GreaterEq => Mini.SGreaterEq
      case _ => op
  }

  /** What the emitted code computes, on the emulator. */
  function RunTime(h: Words.Hash2, op: Op, v1: Value, v2: Value): Option<Value> {
    Mini.Apply(Mini.Ctx(Words.Emulator(h, {}, true), map[], 0), op, v1, v2)
  }

  function Negated(v: Option<nat>): Option<nat> {
    if v.Some? then Some(Words.Flag(v.value == 0)) else None
  }

  /** The same on integers, with the operations spelt out. */
  function RunInts(h: Words.Hash2, op: Op, x: nat, y: nat): Option<nat> {
    match op
    case Plus => Words.RunOp(h, Add, x, y)
    case Minus => Words.RunOp(h, Sub, x, y)
    case Times => Words.RunOp(h, Mul, x, y)
    case Div => Words.RunOp(h, BinOp.Div, x, y)
    case Mod => Words.RunOp(h, BinOp.Mod, x, y)
    case Sdiv => Words.RunOp(h, BinOp.Sdiv, x, y)
    case Smod => Words.RunOp(h, BinOp.Smod, x, y)
    case LessThan => Words.RunOp(h, BinOp.LessThan, x, y)
    case GreaterThan => Words.RunOp(h, BinOp.GreaterThan, x, y)
    case LessEq => Negated(Words.RunOp(h, BinOp.GreaterThan, x, y))
    case GreaterEq => Negated(Words.RunOp(h, BinOp.LessThan, x, y))
    case SLessThan => Words.RunOp(h, BinOp.SLessThan, x, y)
    case SGreaterThan => Words.RunOp(h, BinOp.SGreaterThan, x, y)
    case SLessEq => Negated(Words.RunOp(h, BinOp.SGreaterThan, x, y))
    case SGreaterEq => Negated(Words.RunOp(h, BinOp.SLessThan, x, y))
    case Equal => Some(Words.Flag(x == y))
    case NotEqual => Some(Words.Flag(x != y))
    case BitwiseAnd => Words.RunOp(h, BinOp.BitwiseAnd, x, y)
    case BitwiseOr => Words.RunOp(h, BinOp.BitwiseOr, x, y)
    case BitwiseXor => Words.RunOp(h, BinOp.BitwiseXor, x, y)
    case ShiftLeft => Words.RunOp(h, BinOp.ShiftLeft, x, y)
    case ShiftRight => Words.RunOp(h, BinOp.ShiftRight, x, y)
    case Hash => Words.RunOp(h, EthHash2, x, y)
  }

  lemma RunTimeIsInts(h: Words.Hash2, op: Op, x: nat, y: nat)
    ensures var r := RunInts(h, op, x, y);
            RunTime(h, op, Value.Int(x), Value.Int(y)) == if r.Some? then Some(Value.Int(r.value)) else None
  {
  }

  /** Folding gives the run-time value. */
  lemma FoldIsRunTime(h: Words.Hash2, op: Op, v1: Words.Word, t1: Type, v2: Words.Word, t2: Type)
    requires Fold(h, op, v1, t1, v2, t2).Some?
    ensures RunTime(h, TypedOp(op, t1), Value.Int(v1), Value.Int(v2))
            == Some(Value.Int(Fold(h, op, v1, t1, v2, t2).value.v))
  {
    RunTimeIsInts(h, TypedOp(op, t1), v1, v2);
    FoldIsInts(h, op, v1, t1, v2, t2);
  }

  lemma FoldIsInts(h: Words.Hash2, op: Op, v1: Words.Word, t1: Type, v2: Words.Word, t2: Type)
    requires Fold(h, op, v1, t1, v2, t2).Some?
    ensures RunInts(h, TypedOp(op, t1), v1, v2) == Some(Fold(h, op, v1, t1, v2, t2).value.v)
  {
    if op.Minus? {
      Words.UncheckedSubIsSigned(v1, v2);
    } else if t1 == Type.Int {
      FoldIsSigned(h, op, v1, v2, t2);
    } else {
      FoldIsUnsigned(h, op, v1, t1, v2, t2);
    }
  }

  lemma FoldIsSigned(h: Words.Hash2, op: Op, v1: Words.Word, v2: Words.Word, t2: Type)
    requires !op.Minus? && Fold(h, op, v1, Type.Int, v2, t2).Some?
    ensures RunInts(h, TypedOp(op, Type.Int), v1, v2) == Some(Fold(h, op, v1, Type.Int, v2, t2).value.v)
  {
  }

  lemma FoldIsUnsigned(h: Words.Hash2, op: Op, v1: Words.Word, t1: Type, v2: Words.Word, t2: Type)
    requires t1 != Type.Int && !op.Minus? && Fold(h, op, v1, t1, v2, t2).Some?
    ensures RunInts(h, op, v1, v2) == Some(Fold(h, op, v1, t1, v2, t2).value.v)
  {
  }

  /** The operators of the source language; the signed ones only arise from types. */
  predicate Foldable(op: Op) {
    !(op.Sdiv? || op.Smod? || op.SLessThan? || op.SGreaterThan? || op.SLessEq? || op.SGreaterEq?)
  }

  // ----- types -----

  /** The type typecheck_binary_op gives the operation when it is not folded. */
  function CheckedType(op: Op, t1: Type, t2: Type): Option<Type> {
    match op
    case Plus => if Arithmetic(t1, t2) then Some(t1) else None
    case Minus => if Arithmetic(t1, t2) then Some(t1) else None
    case Times => if Arithmetic(t1, t2) then Some(t1) else None
    case Div => if Arithmetic(t1, t2) then Some(t1) else None
    case Mod => if Arithmetic(t1, t2) then Some(t1) else None
    case LessThan => if Arithmetic(t1, t2) then Some(Bool) else None
    case GreaterThan => if Arithmetic(t1, t2) then Some(Bool) else None
    case LessEq => if Arithmetic(t1, t2) then Some(Bool) else None
    case GreaterEq => if Arithmetic(t1, t2) then Some(Bool) else None
    case Equal => if t1 == t2 then Some(Bool) else None
    case NotEqual => if t1 == t2 then Some(Bool) else None
    case BitwiseAnd => BitwiseType(t1, t2)
    case BitwiseOr => BitwiseType(t1, t2)
    case BitwiseXor => BitwiseType(t1, t2)
    case ShiftLeft => BitwiseType(t1, t2)
    case ShiftRight => BitwiseType(t1, t2)
    case Hash => if t1 == t2 == Bytes32 then Some(Bytes32) else None
    case _ => None
  }

  function BitwiseType(t1: Type, t2: Type): Option<Type> { if t1 == t2 && Shiftable(t1) then Some(t1) else None }

  /** Folding keeps the type of every operation but these: bitwise operators and hashes, whose folded
      type is bool, and shifts of anything but a uint, which are no type error only when folded. */
  lemma FoldedType(h: Words.Hash2, op: Op, v1: Words.Word, t1: Type, v2: Words.Word, t2: Type)
    requires Foldable(op) && Fold(h, op, v1, t1, v2, t2).Some?
    ensures CheckedType(op, t1, t2) == Some(Fold(h, op, v1, t1, v2, t2).value.t)
            <==> && !IsBitwise(op) && !op.Hash?
                 && (IsShift(op) ==> t2 == Uint)
  {
  }

  // ----- when folding fails -----

  predicate IsShift(op: Op) { op.ShiftLeft? || op.ShiftRight? }

  /** Constants that are well typed without folding. Folding them fails exactly where the code would
      fault, and besides, where the code goes on, on a subtraction below zero and on a shift by 2^64
      or more or by anything but a uint. The code faults only on a division by zero. */
  lemma FoldFailsExactly(h: Words.Hash2, op: Op, v1: Words.Word, t1: Type, v2: Words.Word, t2: Type)
    requires Foldable(op) && CheckedType(op, t1, t2).Some?
    ensures Fold(h, op, v1, t1, v2, t2).None? <==>
            || RunTime(h, TypedOp(op, t1), Value.Int(v1), Value.Int(v2)).None?
            || (op.Minus? && v1 < v2)
            || (IsShift(op) && (t1 != Uint || v1 >= USIZE_LIMIT))
    ensures RunTime(h, TypedOp(op, t1), Value.Int(v1), Value.Int(v2)).None? <==> (op.Div? || op.Mod?) && v2 == 0
  {
    RunTimeIsInts(h, TypedOp(op, t1), v1, v2);
    FaultsExactly(h, op, v1, v2, t1);
    FoldFails(h, op, v1, t1, v2, t2);
  }

  lemma FaultsExactly(h: Words.Hash2, op: Op, v1: Words.Word, v2: Words.Word, t: Type)
    requires Foldable(op)
    ensures RunInts(h, TypedOp(op, t), v1, v2).None? <==> (op.Div? || op.Mod?) && v2 == 0
  {
  }

  lemma FoldFails(h: Words.Hash2, op: Op, v1: Words.Word, t1: Type, v2: Words.Word, t2: Type)
    requires Foldable(op) && CheckedType(op, t1, t2).Some?
    ensures Fold(h, op, v1, t1, v2, t2).None? <==>
            || ((op.Div? || op.Mod?) && v2 == 0) || (op.Minus? && v1 < v2)
            || (IsShift(op) && (t1 != Uint || v1 >= USIZE_LIMIT))
  {
  }

  /** A shift of an int by an int is never folded, though its code runs. */
  lemma IntShiftIsNotFolded(h: Words.Hash2, v1: Words.Word, v2: Words.Word)
    ensures CheckedType(Mini.ShiftLeft, Type.Int, Type.Int) == Some(Type.Int)
    ensures Fold(h, Mini.ShiftLeft, v1, Type.Int, v2, Type.Int).None?
    ensures RunTime(h, TypedOp(Mini.ShiftLeft, Type.Int), Value.Int(v1), Value.Int(v2)).Some?
  {
    RunTimeIsInts(h, Mini.ShiftLeft, v1, v2);
  }

  // ----- a constant on the right moves to the left -----

  /** The swap made when only the right operand is constant; None leaves the expression alone. */
  function Swapped(op: Op): Option<Op> {
    match op
    case Plus => Some(op)
    case Times => Some(op)
    case Equal => Some(op)
    case NotEqual => Some(op)
    case BitwiseAnd => Some(op)
    case BitwiseOr => Some(op)
    case BitwiseXor => Some(op)
    case LessThan => Some(Mini.GreaterThan)
    case GreaterThan => Some(Mini.LessThan)
    case LessEq => Some(Mini.GreaterEq)
    case GreaterEq => Some(Mini.LessEq)
    case _ => None
  }

  datatype Operands = Operands(op: Op, left: Mini.Expr, right: Mini.Expr)

  predicate IsConstant(e: Mini.Expr) { e.Const? && e.v.Int? }

  /** On the emulator, two ways to write an operation have the same value and the same effects,
      whatever its operands and its type are. */
  ghost predicate SameMeaning(a: Operands, b: Operands) {
    forall h: Words.Hash2, ctx: Mini.Ctx, fuel: nat, names: seq<Mini.Name>, s: Mini.Store, t: Type ::
      OnEmulator(h, ctx) && |s.locals| == |names| ==> SameAt(ctx, fuel, names, s, t, a, b)
  }

  ghost predicate OnEmulator(h: Words.Hash2, ctx: Mini.Ctx) { ctx.isa == Words.Emulator(h, {}, ctx.isa.symbolic) }

  ghost predicate SameAt(ctx: Mini.Ctx, fuel: nat, names: seq<Mini.Name>, s: Mini.Store, t: Type, a: Operands,
                         b: Operands)
    requires |s.locals| == |names|
  {
    Mini.EvalExpr(ctx, fuel, Mini.Binary(TypedOp(a.op, t), a.left, a.right), names, s)
    == Mini.EvalExpr(ctx, fuel, Mini.Binary(TypedOp(b.op, t), b.left, b.right), names, s)
  }

  /** The start of typecheck_binary_op, for operands that are not both constant: the operation keeps
      its meaning, and a constant moves to the left wherever that is possible. */
  method SwapOperands(op: Op, left: Mini.Expr, right: Mini.Expr) returns (r: Operands)
    ensures SameMeaning(r, Operands(op, left, right))
    ensures if IsConstant(right) && !IsConstant(left) && Swapped(op).Some?
            then r.left == right && r.right == left
            else r.left == left && r.right == right
  {
    var newOp, tcs1, tcs2 := op, left, right;
    if IsConstant(right) && !IsConstant(left) {
      if op.Plus? || op.Times? || op.Equal? || op.NotEqual? || op.BitwiseAnd? || op.BitwiseOr? || op.BitwiseXor? {
        tcs1, tcs2 := tcs2, tcs1;
      } else if op.LessThan? {
        newOp := Mini.GreaterThan;
        tcs1, tcs2 := tcs2, tcs1;
      } else if op.GreaterThan? {
        newOp := Mini.LessThan;
        tcs1, tcs2 := tcs2, tcs1;
      } else if op.LessEq? {
        newOp := Mini.GreaterEq;
        tcs1, tcs2 := tcs2, tcs1;
      } else if op.GreaterEq? {
        newOp := Mini.LessEq;
        tcs1, tcs2 := tcs2, tcs1;
      }
    }
    r := Operands(newOp, tcs1, tcs2);
    if tcs1 == right && tcs2 == left && IsConstant(right) && !IsConstant(left) {
      SwapMeansSame(op, left, right);
    }
  }

  lemma SwapMeansSame(op: Op, left: Mini.Expr, c: Mini.Expr)
    requires Swapped(op).Some? && c.Const?
    ensures SameMeaning(Operands(Swapped(op).value, c, left), Operands(op, left, c))
  {
    forall h: Words.Hash2, ctx: Mini.Ctx, fuel: nat, names: seq<Mini.Name>, s: Mini.Store, t: Type
      | OnEmulator(h, ctx) && |s.locals| == |names|
      ensures SameAt(ctx, fuel, names, s, t, Operands(Swapped(op).value, c, left), Operands(op, left, c))
    {
      SwapPreserves(h, ctx, fuel, op, left, c, names, s, t);
    }
  }

  lemma {:induction false} BitsSymmetric(f: (nat, nat) -> nat, x: nat, y: nat)
    requires forall a: nat, b: nat :: f(a, b) == f(b, a)
    ensures Words.Bits(f, x, y) == Words.Bits(f, y, x)
    decreases x + y
  {
    if x != 0 || y != 0 { BitsSymmetric(f, x / 2, y / 2); }
  }

  /** On the emulator the swapped operator has the same value on swapped operands, whatever they are,
      signed or not. */
  lemma SwapIsSame(h: Words.Hash2, op: Op, t: Type, x: Value, y: Value)
    requires Swapped(op).Some?
    ensures RunTime(h, TypedOp(Swapped(op).value, t), y, x) == RunTime(h, TypedOp(op, t), x, y)
  {
    if x.Int? && y.Int? {
      RunTimeIsInts(h, TypedOp(op, t), x.n, y.n);
      RunTimeIsInts(h, TypedOp(Swapped(op).value, t), y.n, x.n);
      SwapInts(h, op, t, x.n, y.n);
    } else {
      SwapOthers(h, op, t, x, y);
    }
  }

  predicate IsBitwise(op: Op) { op.BitwiseAnd? || op.BitwiseOr? || op.BitwiseXor? }

  lemma SwapInts(h: Words.Hash2, op: Op, t: Type, x: nat, y: nat)
    requires Swapped(op).Some?
    ensures RunInts(h, TypedOp(Swapped(op).value, t), y, x) == RunInts(h, TypedOp(op, t), x, y)
  {
    if IsBitwise(op) {
      SwapBits(h, op, x, y);
    } else {
      SwapOther(h, op, t, x, y);
    }
  }

  lemma SwapBits(h: Words.Hash2, op: Op, x: nat, y: nat)
    requires IsBitwise(op)
    ensures RunInts(h, op, y, x) == RunInts(h, op, x, y)
  {
    if op.BitwiseAnd? { BitsSymmetric(Words.AND, x, y); }
    if op.BitwiseOr? { BitsSymmetric(Words.OR, x, y); }
    if op.BitwiseXor? { BitsSymmetric(Words.XOR, x, y); }
  }

  lemma SwapOther(h: Words.Hash2, op: Op, t: Type, x: nat, y: nat)
    requires Swapped(op).Some? && !IsBitwise(op)
    ensures RunInts(h, TypedOp(Swapped(op).value, t), y, x) == RunInts(h, TypedOp(op, t), x, y)
  {
  }

  /** Values that are not integers can only be compared for equality. */
  lemma SwapOthers(h: Words.Hash2, op: Op, t: Type, x: Value, y: Value)
    requires Swapped(op).Some? && !(x.Int? && y.Int?)
    ensures RunTime(h, TypedOp(Swapped(op).value, t), y, x) == RunTime(h, TypedOp(op, t), x, y)
  {
    OthersOnlyCompare(h, TypedOp(op, t), x, y);
    OthersOnlyCompare(h, TypedOp(Swapped(op).value, t), y, x);
  }

  lemma OthersOnlyCompare(h: Words.Hash2, op: Op, x: Value, y: Value)
    requires !(x.Int? && y.Int?)
    ensures RunTime(h, op, x, y)
            == if op.Equal? || op.NotEqual? then
                 (if CodeFree(x) && CodeFree(y) then Some(BoolVal((x == y) == op.Equal?)) else None)
               else None
  {
  }

  /** Evaluation as a whole is the same: the constant has no effect and is not affected. */
  lemma SwapPreserves(h: Words.Hash2, ctx: Mini.Ctx, fuel: nat, op: Op, left: Mini.Expr, c: Mini.Expr,
                      names: seq<Mini.Name>, s: Mini.Store, t: Type)
    requires OnEmulator(h, ctx)
    requires Swapped(op).Some? && c.Const? && |s.locals| == |names|
    ensures Mini.EvalExpr(ctx, fuel, Mini.Binary(TypedOp(op, t), left, c), names, s)
            == Mini.EvalExpr(ctx, fuel, Mini.Binary(TypedOp(Swapped(op).value, t), c, left), names, s)
  {
    var a := Mini.EvalExpr(ctx, fuel, left, names, s);
    ConstantRight(ctx, fuel, TypedOp(op, t), left, c, names, s);
    ConstantLeft(ctx, fuel, TypedOp(Swapped(op).value, t), c, left, names, s);
    if a.Some? && a.value.v.Some? {
      ApplyIsRunTime(h, ctx, TypedOp(op, t), a.value.v.value, c.v);
      ApplyIsRunTime(h, ctx, TypedOp(Swapped(op).value, t), c.v, a.value.v.value);
      SwapIsSame(h, op, t, a.value.v.value, c.v);
    }
  }

  function Operated(a: Option<Mini.Ev>, v: Option<Value>): Option<Mini.Ev> {
    if a.Some? && v.Some? then Some(Mini.Ev(v, a.value.s)) else None
  }

  lemma ConstantRight(ctx: Mini.Ctx, fuel: nat, op: Op, e: Mini.Expr, c: Mini.Expr, names: seq<Mini.Name>,
                      s: Mini.Store)
    requires c.Const? && |s.locals| == |names|
    ensures var a := Mini.EvalExpr(ctx, fuel, e, names, s);
            Mini.EvalExpr(ctx, fuel, Mini.Binary(op, e, c), names, s)
            == if a.None? || a.value.v.None? then None else Operated(a, Mini.Apply(ctx, op, a.value.v.value, c.v))
  {
    assert Mini.EvalExpr(ctx, fuel, c, names, s) == Some(Mini.Ev(Some(c.v), s));
  }

  lemma ConstantLeft(ctx: Mini.Ctx, fuel: nat, op: Op, c: Mini.Expr, e: Mini.Expr, names: seq<Mini.Name>, s: Mini.Store)
    requires c.Const? && |s.locals| == |names|
    ensures var a := Mini.EvalExpr(ctx, fuel, e, names, s);
            Mini.EvalExpr(ctx, fuel, Mini.Binary(op, c, e), names, s)
            == if a.None? || a.value.v.None? then None else Operated(a, Mini.Apply(ctx, op, c.v, a.value.v.value))
  {
    var a := Mini.EvalExpr(ctx, fuel, e, names, s);
    if a.Some? { assert Mini.EvalExpr(ctx, fuel, c, names, a.value.s) == Some(Mini.Ev(Some(c.v), a.value.s)); }
  }

  lemma ApplyIsRunTime(h: Words.Hash2, ctx: Mini.Ctx, op: Op, x: Value, y: Value)
    requires OnEmulator(h, ctx)
    ensures Mini.Apply(ctx, op, x, y) == RunTime(h, op, x, y)
  {
  }
}
