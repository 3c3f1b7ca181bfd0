/** Generated code computes what direct evaluation computes: it pushes exactly the value, leaves the
    rest of both stacks as they were, and keeps every visible local and global up to date. */
module CodegenCorrect {
  import opened Avm
  import opened Machine
  import opened TupleTrees
  import opened Virtual
  import opened Mini
  import opened Codegen
  import opened CodegenShape
  import opened Runs

  // ----- locals in their slots -----

  /** The visible declarations, the slot of each, the map the compiler keeps, and the slots in use. */
  datatype View = View(names: seq<Name>, slots: seq<nat>, env: Slots, n: nat)

  ghost predicate Consistent(v: View) {
    && |v.names| == |v.slots|
    && (forall k :: 0 <= k < |v.slots| ==> v.slots[k] < v.n)
    && (forall j, k :: 0 <= j < k < |v.slots| ==> v.slots[j] != v.slots[k])
    && (forall x :: x in v.env <==> x in v.names)
    && (forall x :: x in v.env ==> v.env[x] == SlotOf(v, x))
  }

  function SlotOf(v: View, x: Name): nat
    requires |v.names| == |v.slots|
  {
    var k := Last(v.names, x);
    if k.Some? then v.slots[k.value] else 0
  }

  ghost predicate Holds(v: View, locals: seq<Value>, L: seq<Value>) {
    && |locals| == |v.names| == |v.slots| && v.n <= |L|
    && (forall k :: 0 <= k < |v.slots| ==> v.slots[k] < |L| && L[v.slots[k]] == locals[k])
  }

  /** Slots in use that belong to no visible declaration, such as the one holding a loop's top, are
      left alone. */
  ghost predicate Untouched(v: View, L: seq<Value>, L': seq<Value>) {
    |L'| == |L| && v.n <= |L| && forall i :: 0 <= i < v.n && i !in v.slots ==> L'[i] == L[i]
  }

  lemma EnvIsBelow(v: View)
    requires Consistent(v)
    ensures EnvBelow(v.env, v.n)
  {
  }

  /** A new declaration takes slot n. */
  function Declare(v: View, x: Name, n: nat): View {
    View(v.names + [x], v.slots + [v.n], v.env[x := v.n], n)
  }

  lemma DeclareConsistent(v: View, x: Name, n: nat)
    requires Consistent(v) && n > v.n
    ensures Consistent(Declare(v, x, n))
  {
    var d := Declare(v, x, n);
    forall y | y in d.env ensures d.env[y] == SlotOf(d, y) { LastAppend(v.names, x, y); }
    forall y ensures y in d.env <==> y in d.names { }
  }

  lemma LastAppend(names: seq<Name>, x: Name, y: Name)
    ensures Last(names + [x], y) == if x == y then Some(|names|) else Last(names, y)
  {
    assert (names + [x])[..|names|] == names;
  }

  lemma DeclareHolds(v: View, x: Name, n: nat, locals: seq<Value>, L: seq<Value>, val: Value)
    requires Consistent(v) && Holds(v, locals, L) && v.n < n <= |L|
    ensures Holds(Declare(v, x, n), locals + [val], L[v.n := val]) && Untouched(v, L, L[v.n := val])
  {
  }

  lemma AssignHolds(v: View, x: Name, locals: seq<Value>, L: seq<Value>, val: Value)
    requires Consistent(v) && Holds(v, locals, L) && x in v.env
    ensures var k := Last(v.names, x);
            && k.Some? && v.env[x] == v.slots[k.value] < |L|
            && Holds(v, locals[k.value := val], L[v.env[x] := val])
            && Untouched(v, L, L[v.env[x] := val])
  {
    var k := Last(v.names, x).value;
    assert v.slots[k] in v.slots;
  }

  /** More declarations on top of a view. */
  ghost predicate Extends(v: View, d: View) {
    |v.names| == |v.slots| && |d.names| == |d.slots| && v.names <= d.names && v.slots <= d.slots && v.n <= d.n
    && forall k :: |v.slots| <= k < |d.slots| ==> d.slots[k] >= v.n
  }

  /** Leaving a scope. */
  lemma LeaveHolds(v: View, d: View, locals: seq<Value>, L: seq<Value>)
    requires Extends(v, d) && Holds(d, locals, L) && Consistent(v)
    ensures Holds(v, locals[..|v.names|], L)
  {
    forall k | 0 <= k < |v.slots| ensures v.slots[k] < |L| && L[v.slots[k]] == locals[..|v.names|][k] {
      assert v.slots[k] == d.slots[k];
    }
  }

  lemma LeaveUntouched(v: View, d: View, L: seq<Value>, L': seq<Value>)
    requires Extends(v, d) && Untouched(d, L, L')
    ensures Untouched(v, L, L')
  {
    forall i | 0 <= i < v.n && i !in v.slots ensures L'[i] == L[i] {
      if i in d.slots { OldSlot(v, d, i); }
    }
  }

  lemma OldSlot(v: View, d: View, i: nat)
    requires Extends(v, d) && i < v.n && i in d.slots
    ensures i in v.slots
  {
    var k :| 0 <= k < |d.slots| && d.slots[k] == i;
    assert v.slots[k] == i;
  }

  lemma UntouchedTwice(v: View, L: seq<Value>, L1: seq<Value>, L2: seq<Value>)
    requires Untouched(v, L, L1) && Untouched(v, L1, L2)
    ensures Untouched(v, L, L2)
  {
  }

  // ----- the program around the code -----

  datatype Site = Site(pos: nat, next: nat)

  /** A program that holds the code of every function that can be called. */
  datatype World = World(p: Prog, ctx: Ctx, sites: map<nat, Site>)

  ghost predicate FuncSited(w: World, f: nat)
    requires f in w.ctx.funcs
  {
    && f in w.sites && w.ctx.funcs[f].name == f
    && var g := CompileFunc(w.ctx.funcs[f], w.sites[f].next, w.ctx.loc);
       g.Ok? && g.value.slots <= USIZE_LIMIT && SegAt(w.p.code, w.sites[f].pos, g.value.code)
  }

  ghost predicate Whole(w: World) {
    && Runnable(w.p) && w.p.isa == w.ctx.isa && w.ctx.funcs.Keys <= w.sites.Keys
    && forall f {:trigger FuncSited(w, f)} :: f in w.ctx.funcs ==> FuncSited(w, f)
  }

  function PushOpt(v: Option<Value>, st: Stack): Stack {
    if v.Some? then Push(v.value, st) else st
  }

  // ----- operators -----

  lemma IsZeroRuns(p: Prog, ctx: Ctx, pc: nat, frame: nat, x: Value, s: VState)
    requires Runnable(p) && p.isa == ctx.isa && IsAt(p, pc, Plain(IsZero, ctx.loc), frame)
             && Negation(ctx, Some(x)).Some?
    ensures Go(p, pc, s.(stack := Push(x, s.stack)), pc + 1, s.(stack := Push(Negation(ctx, Some(x)).value, s.stack)))
  {
    DoData(p, pc, IsZero, ctx.loc, frame, s.(stack := Push(x, s.stack)));
  }

  /** The value before a possible negation. */
  function RawApply(ctx: Ctx, op: BinaryOp, x: Value, y: Value): Option<Value> {
    match OpcodeOf(op)
    case Bin(b) => Arith(ctx.isa, b, x, y)
    case _ => SameValue(x, y)
  }

  lemma ApplyIsRaw(ctx: Ctx, op: BinaryOp, x: Value, y: Value)
    ensures Apply(ctx, op, x, y) == if Negates(op) then Negation(ctx, RawApply(ctx, op, x, y))
                                    else RawApply(ctx, op, x, y)
  {
  }

  lemma RawRuns(p: Prog, ctx: Ctx, pc: nat, frame: nat, op: BinaryOp, x: Value, y: Value, s: VState)
    requires Runnable(p) && p.isa == ctx.isa && IsAt(p, pc, Plain(OpcodeOf(op), ctx.loc), frame)
             && RawApply(ctx, op, x, y).Some?
    ensures Go(p, pc, s.(stack := Push(x, Push(y, s.stack))), pc + 1,
               s.(stack := Push(RawApply(ctx, op, x, y).value, s.stack)))
  {
    DoData(p, pc, OpcodeOf(op), ctx.loc, frame, s.(stack := Push(x, Push(y, s.stack))));
  }

  lemma OpRuns(p: Prog, ctx: Ctx, pc: nat, frame: nat, op: BinaryOp, x: Value, y: Value, v: Value, s: VState)
    requires Runnable(p) && p.isa == ctx.isa && Placed(p, pc, OpCode(op, ctx.loc), frame)
             && Apply(ctx, op, x, y) == Some(v)
    ensures Go(p, pc, s.(stack := Push(x, Push(y, s.stack))), pc + |OpCode(op, ctx.loc)|, s.(stack := Push(v, s.stack)))
  {
    ApplyIsRaw(ctx, op, x, y);
    PlacedAt(p, pc, OpCode(op, ctx.loc), frame, 0);
    RawRuns(p, ctx, pc, frame, op, x, y, s);
    if Negates(op) {
      var raw := RawApply(ctx, op, x, y).value;
      PlacedAt(p, pc, OpCode(op, ctx.loc), frame, 1);
      IsZeroRuns(p, ctx, pc + 1, frame, raw, s);
      GoOn(p, pc, s.(stack := Push(x, Push(y, s.stack))), pc + 1, s.(stack := Push(raw, s.stack)), pc + 2,
           s.(stack := Push(v, s.stack)));
    }
  }

  // ----- jumps -----

  /** The test of a short-circuit operator: either on to the right operand with the left one gone, or
      to the end with the left one kept. */
  lemma ShortcutRuns(p: Prog, ctx: Ctx, pc: nat, frame: nat, isAnd: bool, lab: Label, n: nat, s: VState, t: nat)
    requires Runnable(p) && p.isa == ctx.isa && Placed(p, pc, ShortcutTest(isAnd, lab, ctx.loc), frame)
    requires t < |p.code| && p.code[t].op == LabelOp(lab)
    requires isAnd ==> Negation(ctx, Some(Int(n))).Some?
    ensures var s0, size := s.(stack := Push(Int(n), s.stack)), |ShortcutTest(isAnd, lab, ctx.loc)|;
            if isAnd == (n == 0) then Go(p, pc, s0, t, s0) else Go(p, pc, s0, pc + size, s)
  {
    if isAnd {
      AndRuns(p, ctx, pc, frame, lab, n, s, t);
    } else {
      OrRuns(p, ctx, pc, frame, lab, n, s, t);
    }
  }

  lemma AndRuns(p: Prog, ctx: Ctx, pc: nat, frame: nat, lab: Label, n: nat, s: VState, t: nat)
    requires Runnable(p) && p.isa == ctx.isa && Placed(p, pc, ShortcutTest(true, lab, ctx.loc), frame)
    requires t < |p.code| && p.code[t].op == LabelOp(lab) && Negation(ctx, Some(Int(n))).Some?
    ensures var s0 := s.(stack := Push(Int(n), s.stack));
            Go(p, pc, s0, if n == 0 then t else pc + 4, if n == 0 then s0 else s)
  {
    var test, s0, b := ShortcutTest(true, lab, ctx.loc), s.(stack := Push(Int(n), s.stack)), if n == 0 then 1 else 0;
    var s1 := s.(stack := Push(Int(b), s0.stack));
    PlacedAt(p, pc, test, frame, 0);
    PlacedAt(p, pc, test, frame, 1);
    PlacedAt(p, pc, test, frame, 2);
    PlacedAt(p, pc, test, frame, 3);
    DupAndTest(p, ctx, pc, frame, n, s);
    JumpOrPop(p, pc + 2, lab, ctx.loc, frame, b, Int(n), s, t);
    GoOn(p, pc, s0, pc + 2, s1, if b != 0 then t else pc + 4, if b != 0 then s0 else s);
  }

  lemma DupAndTest(p: Prog, ctx: Ctx, pc: nat, frame: nat, n: nat, s: VState)
    requires Runnable(p) && p.isa == ctx.isa && Negation(ctx, Some(Int(n))).Some?
    requires IsAt(p, pc, Plain(Dup0, ctx.loc), frame) && IsAt(p, pc + 1, Plain(IsZero, ctx.loc), frame)
    ensures var s0 := s.(stack := Push(Int(n), s.stack));
            Go(p, pc, s0, pc + 2, s.(stack := Push(Int(if n == 0 then 1 else 0), s0.stack)))
  {
    var s0 := s.(stack := Push(Int(n), s.stack));
    DoDup(p, pc, ctx.loc, frame, Int(n), s);
    IsZeroRuns(p, ctx, pc + 1, frame, Int(n), s0);
    GoOn(p, pc, s0, pc + 1, s.(stack := Push(Int(n), s0.stack)), pc + 2,
         s.(stack := Push(Int(if n == 0 then 1 else 0), s0.stack)));
  }

  lemma OrRuns(p: Prog, ctx: Ctx, pc: nat, frame: nat, lab: Label, n: nat, s: VState, t: nat)
    requires Runnable(p) && Placed(p, pc, ShortcutTest(false, lab, ctx.loc), frame) && t < |p.code|
             && p.code[t].op == LabelOp(lab)
    ensures var s0 := s.(stack := Push(Int(n), s.stack));
            Go(p, pc, s0, if n != 0 then t else pc + 3, if n != 0 then s0 else s)
  {
    var test, s0 := ShortcutTest(false, lab, ctx.loc), s.(stack := Push(Int(n), s.stack));
    PlacedAt(p, pc, test, frame, 0);
    PlacedAt(p, pc, test, frame, 1);
    PlacedAt(p, pc, test, frame, 2);
    DoDup(p, pc, ctx.loc, frame, Int(n), s);
    JumpOrPop(p, pc + 1, lab, ctx.loc, frame, n, Int(n), s, t);
    GoOn(p, pc, s0, pc + 1, s.(stack := Push(Int(n), s0.stack)), if n != 0 then t else pc + 3,
         if n != 0 then s0 else s);
  }

  /** Jump away keeping a value, or go on without it. */
  lemma JumpOrPop(p: Prog, pc: nat, lab: Label, loc: nat, frame: nat, b: nat, x: Value, s: VState, t: nat)
    requires Runnable(p) && IsAt(p, pc, PushLabel(Cjump, lab, loc), frame) && IsAt(p, pc + 1, Plain(Pop, loc), frame)
    requires t < |p.code| && p.code[t].op == LabelOp(lab)
    ensures var s0 := s.(stack := Push(x, s.stack));
            Go(p, pc, s.(stack := Push(Int(b), s0.stack)), if b != 0 then t else pc + 2, if b != 0 then s0 else s)
  {
    var s0 := s.(stack := Push(x, s.stack));
    DoCjump(p, pc, lab, loc, frame, b, s0, t);
    if b == 0 {
      DoPop(p, pc + 1, loc, frame, x, s);
      GoOn(p, pc, s.(stack := Push(Int(b), s0.stack)), pc + 1, s0, pc + 2, s);
    }
  }

  /** The test of an if: to the block, or past it. */
  lemma TestRuns(p: Prog, ctx: Ctx, pc: nat, frame: nat, after: Label, n: nat, s: VState, t: nat)
    requires Runnable(p) && p.isa == ctx.isa && Placed(p, pc, TestCode(after, ctx.loc), frame)
    requires t < |p.code| && p.code[t].op == LabelOp(after) && Negation(ctx, Some(Int(n))).Some?
    ensures Go(p, pc, s.(stack := Push(Int(n), s.stack)), if n == 0 then t else pc + 2, s)
  {
    var test, b := TestCode(after, ctx.loc), if n == 0 then 1 else 0;
    PlacedAt(p, pc, test, frame, 0);
    PlacedAt(p, pc, test, frame, 1);
    IsZeroRuns(p, ctx, pc, frame, Int(n), s);
    DoCjump(p, pc + 1, after, ctx.loc, frame, b, s, t);
    GoOn(p, pc, s.(stack := Push(Int(n), s.stack)), pc + 1, s.(stack := Push(Int(b), s.stack)),
         if n == 0 then t else pc + 2, s);
  }

  // ----- structs -----

  lemma FieldSet(vals: seq<Value>, i: nat)
    requires i < |vals|
    ensures (vals[..i] + Nones(|vals| - i))[i := vals[i]] == vals[..i + 1] + Nones(|vals| - (i + 1))
  {
  }

  /** Setting the fields one by one builds exactly value_from_field_list of the fields. */
  lemma {:induction false} SetFieldsRuns(p: Prog, pc: nat, frame: nat, i: nat, vals: seq<Value>, loc: nat, s: VState)
    requires Runnable(p) && i <= |vals| <= USIZE_LIMIT && Placed(p, pc, SetFields(i, |vals|, loc), frame)
    ensures var tree, n := TreeOf(|vals|, false), |vals|;
            Go(p, pc, s.(stack := Push(MakeValue(tree, vals[..i] + Nones(n - i)), PushAll(vals[i..], s.stack))),
               pc + |SetFields(i, n, loc)|, s.(stack := Push(MakeValue(tree, vals), s.stack)))
    decreases |vals| - i
  {
    var tree, n, code := TreeOf(|vals|, false), |vals|, SetFields(i, |vals|, loc);
    if i == n {
      assert vals[..i] + Nones(0) == vals && vals[i..] == [];
      Stay(p, pc, s.(stack := Push(MakeValue(tree, vals), s.stack)));
    } else {
      var first, now := [Slot(TupleSet(n), i, loc)], vals[..i] + Nones(n - i);
      var rest := s.(stack := PushAll(vals[i + 1..], s.stack));
      Split(p, pc, first, SetFields(i + 1, n, loc), frame);
      PlacedAt(p, pc, first, frame, 0);
      assert vals[i..][0] == vals[i] && vals[i..][1..] == vals[i + 1..];
      DoTupleSet(p, pc, n, i, loc, frame, now, vals[i], rest);
      FieldSet(vals, i);
      SetFieldsRuns(p, pc + 1, frame, i + 1, vals, loc, s);
      GoOn(p, pc, s.(stack := Push(MakeValue(tree, now), PushAll(vals[i..], s.stack))),
           pc + 1, s.(stack := Push(MakeValue(tree, vals[..i + 1] + Nones(n - (i + 1))),
                                    PushAll(vals[i + 1..], s.stack))),
           pc + |code|, s.(stack := Push(MakeValue(tree, vals), s.stack)));
    }
  }

  lemma StructRuns(p: Prog, pc: nat, frame: nat, vals: seq<Value>, loc: nat, s: VState)
    requires Runnable(p) && |vals| <= USIZE_LIMIT && Placed(p, pc, StructCode(|vals|, loc), frame)
    ensures Go(p, pc, s.(stack := PushAll(vals, s.stack)),
               pc + |StructCode(|vals|, loc)|, s.(stack := Push(ValueFromFieldList(vals), s.stack)))
  {
    var tree, n := TreeOf(|vals|, false), |vals|;
    var empty := MakeEmpty(tree);
    Split(p, pc, [WithImm(Noop, empty, loc)], SetFields(0, n, loc), frame);
    PlacedAt(p, pc, [WithImm(Noop, empty, loc)], frame, 0);
    DoPush(p, pc, empty, loc, frame, s.(stack := PushAll(vals, s.stack)));
    assert vals[..0] + Nones(n) == Nones(n) && vals[0..] == vals;
    SetFieldsRuns(p, pc + 1, frame, 0, vals, loc, s);
    GoOn(p, pc, s.(stack := PushAll(vals, s.stack)), pc + 1, s.(stack := Push(empty, PushAll(vals, s.stack))),
         pc + |StructCode(n, loc)|, s.(stack := Push(ValueFromFieldList(vals), s.stack)));
  }
}
