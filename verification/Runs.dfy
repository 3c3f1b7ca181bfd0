/** Runs of the flat machine, and what single instructions do inside a program. */
module Runs {
  import opened Avm
  import opened Machine
  import opened TupleTrees
  import opened Virtual

  /** A program, the machine it runs on, and the steps of its runs. */
  datatype Prog = Prog(isa: Isa, numGlobals: nat, code: seq<Instr>, step: Config<VState> -> Option<Config<VState>>)

  /** Marks the states at which a proof looks into a step. */
  predicate Looking(c: Config<VState>) { true }

  ghost predicate Runnable(p: Prog) {
    && p.isa.symbolic && UniqueLabels(p.code)
    && forall c {:trigger Looking(c)} :: Looking(c) ==> p.step(c) == VStep(p.isa, p.numGlobals, p.code, c)
  }

  function Running(isa: Isa, numGlobals: nat, code: seq<Instr>): Prog {
    Prog(isa, numGlobals, code, c => VStep(isa, numGlobals, code, c))
  }

  lemma RunningIsRunnable(isa: Isa, numGlobals: nat, code: seq<Instr>)
    requires isa.symbolic && UniqueLabels(code)
    ensures Runnable(Running(isa, numGlobals, code))
  {
  }

  function Steps(p: Prog, n: nat, c: Config<VState>): Option<Config<VState>> {
    if n == 0 then Some(c)
    else
      var next := p.step(c);
      if next.Some? then Steps(p, n - 1, next.value) else None
  }

  /** The run from the first position and state passes through the second. */
  ghost predicate Go(p: Prog, pc: nat, s: VState, pc': nat, s': VState) {
    exists n: nat :: Steps(p, n, Config(pc, s)) == Some(Config(pc', s'))
  }

  lemma Stay(p: Prog, pc: nat, s: VState)
    ensures Go(p, pc, s, pc, s)
  {
    assert Steps(p, 0, Config(pc, s)) == Some(Config(pc, s));
  }

  lemma {:induction false} StepsAdd(p: Prog, n: nat, m: nat, c: Config<VState>)
    requires Steps(p, n, c).Some?
    ensures Steps(p, n + m, c) == Steps(p, m, Steps(p, n, c).value)
    decreases n
  {
    if n > 0 { StepsAdd(p, n - 1, m, p.step(c).value); }
  }

  lemma GoOn(p: Prog, pc: nat, s: VState, pc1: nat, s1: VState, pc2: nat, s2: VState)
    requires Go(p, pc, s, pc1, s1) && Go(p, pc1, s1, pc2, s2)
    ensures Go(p, pc, s, pc2, s2)
  {
    var n: nat :| Steps(p, n, Config(pc, s)) == Some(Config(pc1, s1));
    var m: nat :| Steps(p, m, Config(pc1, s1)) == Some(Config(pc2, s2));
    StepsAdd(p, n, m, Config(pc, s));
    assert Steps(p, n + m, Config(pc, s)) == Some(Config(pc2, s2));
  }

  // ----- segments of a program -----

  /** The segment stands at pc, where the frame has the given size. */
  ghost predicate Placed(p: Prog, pc: nat, seg: seq<Instr>, frame: nat) {
    && pc + |seg| <= |p.code|
    && forall k :: 0 <= k < |seg| ==> IsAt(p, pc + k, seg[k], frame)
  }

  predicate IsAt(p: Prog, pc: nat, insn: Instr, frame: nat) {
    pc < |p.code| && p.code[pc] == insn && FrameAt(p.code, INITIAL_FRAME, pc) == frame
  }

  lemma Split(p: Prog, pc: nat, a: seq<Instr>, b: seq<Instr>, frame: nat)
    requires Placed(p, pc, a + b, frame)
    ensures Placed(p, pc, a, frame) && Placed(p, pc + |a|, b, frame)
  {
    forall k | 0 <= k < |a| ensures IsAt(p, pc + k, a[k], frame) { assert IsAt(p, pc + k, (a + b)[k], frame); }
    forall k | 0 <= k < |b| ensures IsAt(p, pc + |a| + k, b[k], frame) {
      assert IsAt(p, pc + (|a| + k), (a + b)[|a| + k], frame);
    }
  }

  lemma PlacedAt(p: Prog, pc: nat, seg: seq<Instr>, frame: nat, k: nat)
    requires Placed(p, pc, seg, frame) && k < |seg|
    ensures IsAt(p, pc + k, seg[k], frame)
  {
  }

  // ----- single steps -----

  lemma Next1(p: Prog, pc: nat, insn: Instr, frame: nat, s: VState, s': VState)
    requires Runnable(p) && IsAt(p, pc, insn, frame) && VExec(p.isa, p.numGlobals, frame, insn, s) == Next(s')
    ensures Go(p, pc, s, pc + 1, s')
  {
    assert Looking(Config(pc, s));
    assert p.step(Config(pc, s)) == Some(Config(pc + 1, s'));
    assert Steps(p, 0, Config(pc + 1, s')) == Some(Config(pc + 1, s'));
    assert Steps(p, 1, Config(pc, s)) == Some(Config(pc + 1, s'));
  }

  lemma Jump1(p: Prog, pc: nat, insn: Instr, frame: nat, s: VState, l: Label, t: nat, s': VState)
    requires Runnable(p) && IsAt(p, pc, insn, frame)
    requires VExec(p.isa, p.numGlobals, frame, insn, s) == Goto(LabelVal(l), s')
    requires t < |p.code| && p.code[t].op == LabelOp(l)
    ensures Go(p, pc, s, t, s')
  {
    LabelAt(p.code, t, l);
    assert Looking(Config(pc, s));
    assert p.step(Config(pc, s)) == Some(Config(t, s'));
    assert Steps(p, 0, Config(t, s')) == Some(Config(t, s'));
    assert Steps(p, 1, Config(pc, s)) == Some(Config(t, s'));
  }

  /** Inside a function: its frame on top of the aux stack, and a table of globals. */
  function At(st: Stack, locals: seq<Value>, below: VAux, globals: seq<Value>): VState {
    VState(st, AFrame(locals, below), Globals(globals))
  }

  lemma DoLabel(p: Prog, pc: nat, l: Label, loc: nat, frame: nat, s: VState)
    requires Runnable(p) && IsAt(p, pc, Instr(LabelOp(l), None, loc), frame)
    ensures Go(p, pc, s, pc + 1, s)
  {
    Next1(p, pc, Instr(LabelOp(l), None, loc), frame, s, s);
  }

  lemma DoPush(p: Prog, pc: nat, v: Value, loc: nat, frame: nat, s: VState)
    requires Runnable(p) && IsAt(p, pc, WithImm(Noop, v, loc), frame)
    ensures Go(p, pc, s, pc + 1, s.(stack := Push(v, s.stack)))
  {
    Next1(p, pc, WithImm(Noop, v, loc), frame, s, s.(stack := Push(v, s.stack)));
  }

  lemma DoGetLocal(p: Prog, pc: nat, k: nat, loc: nat, st: Stack, L: seq<Value>, below: VAux, gl: seq<Value>)
    requires Runnable(p) && IsAt(p, pc, Instr(GetLocal, Some(Int(k)), loc), |L|) && k < |L| <= USIZE_LIMIT
    ensures Go(p, pc, At(st, L, below, gl), pc + 1, At(Push(L[k], st), L, below, gl))
  {
    Next1(p, pc, Instr(GetLocal, Some(Int(k)), loc), |L|, At(st, L, below, gl), At(Push(L[k], st), L, below, gl));
  }

  lemma DoSetLocal(p: Prog, pc: nat, k: nat, loc: nat, v: Value, st: Stack, L: seq<Value>, below: VAux, gl: seq<Value>)
    requires Runnable(p) && IsAt(p, pc, Instr(SetLocal, Some(Int(k)), loc), |L|) && k < |L| <= USIZE_LIMIT
    ensures Go(p, pc, At(Push(v, st), L, below, gl), pc + 1, At(st, L[k := v], below, gl))
  {
    Next1(p, pc, Instr(SetLocal, Some(Int(k)), loc), |L|, At(Push(v, st), L, below, gl), At(st, L[k := v], below, gl));
  }

  lemma DoGetGlobal(p: Prog, pc: nat, i: nat, loc: nat, st: Stack, L: seq<Value>, below: VAux, gl: seq<Value>)
    requires Runnable(p) && IsAt(p, pc, Instr(GetGlobalVar(i), None, loc), |L|) && i < |gl| == p.numGlobals
    ensures Go(p, pc, At(st, L, below, gl), pc + 1, At(Push(gl[i], st), L, below, gl))
  {
    Next1(p, pc, Instr(GetGlobalVar(i), None, loc), |L|, At(st, L, below, gl), At(Push(gl[i], st), L, below, gl));
  }

  lemma DoSetGlobal(p: Prog, pc: nat, i: nat, loc: nat, v: Value, st: Stack, L: seq<Value>, below: VAux, gl: seq<Value>)
    requires Runnable(p) && IsAt(p, pc, Instr(SetGlobalVar(i), None, loc), |L|) && i < |gl| == p.numGlobals
    ensures Go(p, pc, At(Push(v, st), L, below, gl), pc + 1, At(st, L, below, gl[i := v]))
  {
    Next1(p, pc, Instr(SetGlobalVar(i), None, loc), |L|, At(Push(v, st), L, below, gl), At(st, L, below, gl[i := v]));
  }

  /** Opcodes that only touch the data stack. */
  predicate IsData(op: AvmOp) {
    !(op.AuxPush? || op.AuxPop? || op.Xget? || op.Xset? || op.Rpush? || op.Rset? || op.Jump? || op.Cjump? || op.Halt?)
  }

  lemma DoData(p: Prog, pc: nat, op: AvmOp, loc: nat, frame: nat, s: VState)
    requires Runnable(p) && IsAt(p, pc, Plain(op, loc), frame) && IsData(op) && ExecData(p.isa, op, loc, s.stack).Some?
    ensures Go(p, pc, s, pc + 1, s.(stack := ExecData(p.isa, op, loc, s.stack).value))
  {
    Next1(p, pc, Plain(op, loc), frame, s, s.(stack := ExecData(p.isa, op, loc, s.stack).value));
  }

  lemma DoDup(p: Prog, pc: nat, loc: nat, frame: nat, x: Value, s: VState)
    requires Runnable(p) && IsAt(p, pc, Plain(Dup0, loc), frame)
    ensures Go(p, pc, s.(stack := Push(x, s.stack)), pc + 1, s.(stack := Push(x, Push(x, s.stack))))
  {
    DoData(p, pc, Dup0, loc, frame, s.(stack := Push(x, s.stack)));
  }

  lemma DoPop(p: Prog, pc: nat, loc: nat, frame: nat, x: Value, s: VState)
    requires Runnable(p) && IsAt(p, pc, Plain(Pop, loc), frame)
    ensures Go(p, pc, s.(stack := Push(x, s.stack)), pc + 1, s)
  {
    DoData(p, pc, Pop, loc, frame, s.(stack := Push(x, s.stack)));
  }

  lemma DoJump(p: Prog, pc: nat, l: Label, loc: nat, frame: nat, s: VState, t: nat)
    requires Runnable(p) && IsAt(p, pc, WithImm(Jump, LabelVal(l), loc), frame) && t < |p.code|
             && p.code[t].op == LabelOp(l)
    ensures Go(p, pc, s, t, s)
  {
    Jump1(p, pc, WithImm(Jump, LabelVal(l), loc), frame, s, l, t, s);
  }

  /** A conditional jump to its immediate, or on. */
  lemma DoCjump(p: Prog, pc: nat, l: Label, loc: nat, frame: nat, n: nat, s: VState, t: nat)
    requires Runnable(p) && IsAt(p, pc, WithImm(Cjump, LabelVal(l), loc), frame) && t < |p.code|
             && p.code[t].op == LabelOp(l)
    ensures Go(p, pc, s.(stack := Push(Int(n), s.stack)), if n != 0 then t else pc + 1, s)
  {
    var s0 := s.(stack := Push(Int(n), s.stack));
    if n != 0 {
      Jump1(p, pc, WithImm(Cjump, LabelVal(l), loc), frame, s0, l, t, s);
    } else {
      Next1(p, pc, WithImm(Cjump, LabelVal(l), loc), frame, s0, s);
    }
  }

  /** A conditional jump to a label on the stack, or on. */
  lemma DoCjumpTop(p: Prog, pc: nat, l: Label, loc: nat, frame: nat, n: nat, s: VState, t: nat)
    requires Runnable(p) && IsAt(p, pc, Plain(Cjump, loc), frame) && t < |p.code| && p.code[t].op == LabelOp(l)
    ensures Go(p, pc, s.(stack := Push(LabelVal(l), Push(Int(n), s.stack))), if n != 0 then t else pc + 1, s)
  {
    var s0 := s.(stack := Push(LabelVal(l), Push(Int(n), s.stack)));
    if n != 0 {
      Jump1(p, pc, Plain(Cjump, loc), frame, s0, l, t, s);
    } else {
      Next1(p, pc, Plain(Cjump, loc), frame, s0, s);
    }
  }

  lemma DoJumpTop(p: Prog, pc: nat, l: Label, loc: nat, frame: nat, s: VState, t: nat)
    requires Runnable(p) && IsAt(p, pc, Plain(Jump, loc), frame) && t < |p.code| && p.code[t].op == LabelOp(l)
    ensures Go(p, pc, s.(stack := Push(LabelVal(l), s.stack)), t, s)
  {
    Jump1(p, pc, Plain(Jump, loc), frame, s.(stack := Push(LabelVal(l), s.stack)), l, t, s);
  }

  lemma DoTupleGet(p: Prog, pc: nat, size: nat, k: nat, loc: nat, frame: nat, vals: seq<Value>, v: Value, s: VState)
    requires Runnable(p) && IsAt(p, pc, Instr(TupleGet(size), Some(Int(k)), loc), frame) && k < size && k < USIZE_LIMIT
    requires Flatten(TreeOf(size, false), v) == Some(vals)
    ensures Go(p, pc, s.(stack := Push(v, s.stack)), pc + 1, s.(stack := Push(vals[k], s.stack)))
  {
    Next1(p, pc, Instr(TupleGet(size), Some(Int(k)), loc), frame, s.(stack := Push(v, s.stack)),
          s.(stack := Push(vals[k], s.stack)));
  }

  lemma DoTupleSet(p: Prog, pc: nat, size: nat, k: nat, loc: nat, frame: nat, vals: seq<Value>, x: Value, s: VState)
    requires Runnable(p) && IsAt(p, pc, Instr(TupleSet(size), Some(Int(k)), loc), frame) && k < size == |vals|
             && k < USIZE_LIMIT
    ensures Go(p, pc, s.(stack := Push(MakeValue(TreeOf(size, false), vals), Push(x, s.stack))),
               pc + 1, s.(stack := Push(MakeValue(TreeOf(size, false), vals[k := x]), s.stack)))
  {
    FlattenMake(TreeOf(size, false), vals);
    Next1(p, pc, Instr(TupleSet(size), Some(Int(k)), loc), frame,
          s.(stack := Push(MakeValue(TreeOf(size, false), vals), Push(x, s.stack))),
          s.(stack := Push(MakeValue(TreeOf(size, false), vals[k := x]), s.stack)));
  }

  // ----- calls -----

  function PushAll(vs: seq<Value>, st: Stack): Stack {
    if vs == [] then st else Push(vs[0], PushAll(vs[1..], st))
  }

  lemma {:induction false} TakePushed(vs: seq<Value>, st: Stack)
    ensures TakeArgs(|vs|, PushAll(vs, st)) == Some(Taken(vs, st))
  {
    if vs != [] {
      TakePushed(vs[1..], st);
      assert vs == [vs[0]] + vs[1..];
    }
  }

  /** MakeFrame turns the return address and the arguments on the stack into a frame in which local i
      is argument i. */
  lemma DoMakeFrame(p: Prog, pc: nat, ntotal: nat, loc: nat, frame: nat, ret: Value, vs: seq<Value>, st: Stack,
                    aux: VAux, reg: VReg)
    requires Runnable(p) && IsAt(p, pc, Instr(MakeFrame(|vs|, ntotal, true), None, loc), frame) && |vs| <= ntotal
    ensures Go(p, pc, VState(Push(ret, PushAll(vs, st)), aux, reg),
               pc + 1, VState(st, AFrame(vs + Nones(ntotal - |vs|), AVal(ret, aux)), reg))
  {
    TakePushed(vs, st);
    Next1(p, pc, Instr(MakeFrame(|vs|, ntotal, true), None, loc), frame, VState(Push(ret, PushAll(vs, st)), aux, reg),
          VState(st, AFrame(vs + Nones(ntotal - |vs|), AVal(ret, aux)), reg));
  }

  /** Return goes to the saved address, dropping the frame and restoring the aux stack. */
  lemma DoReturn(p: Prog, pc: nat, loc: nat, frame: nat, ret: Label, st: Stack, L: seq<Value>, aux: VAux, reg: VReg,
                 t: nat)
    requires Runnable(p) && IsAt(p, pc, Instr(Return, None, loc), frame) && t < |p.code| && p.code[t].op == LabelOp(ret)
    ensures Go(p, pc, VState(st, AFrame(L, AVal(LabelVal(ret), aux)), reg), t, VState(st, aux, reg))
  {
    Jump1(p, pc, Instr(Return, None, loc), frame, VState(st, AFrame(L, AVal(LabelVal(ret), aux)), reg), ret, t,
          VState(st, aux, reg));
  }
}
