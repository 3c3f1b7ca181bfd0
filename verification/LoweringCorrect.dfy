/** fix_tuple_size is a simulation: every run of the flat machine is matched by the emitted code,
    with the frame on the aux stack and the register always the nested form of the flat slots. */
module LoweringCorrect {
  import opened Avm
  import opened Machine
  import opened TupleTrees
  import opened TupleCode
  import opened Virtual
  import opened Lowering
  import opened Expansion

  // ----- the refinement relation -----

  function RepAux(a: VAux): Stack {
    match a
    case ANil => Empty
    case AVal(v, below) => Push(v, RepAux(below))
    case AFrame(locals, below) => Push(MakeValue(TreeOf(|locals|, true), locals), RepAux(below))
  }

  function Rep(s: VState): State {
    State(s.stack, RepAux(s.aux), RegValue(s.reg))
  }

  function RepOutcome(o: Outcome<VState>): Outcome<State> {
    match o
    case Next(s) => Next(Rep(s))
    case Goto(v, s) => Goto(v, Rep(s))
    case Stop(s) => Stop(Rep(s))
    case Fault => Fault
  }

  function RepObs(o: Obs<VState>): Obs<State> {
    match o
    case AtLabel(l, s) => AtLabel(l, Rep(s))
    case Halted(s) => Halted(Rep(s))
    case AtPc(pc, s) => AtPc(pc, Rep(s))
  }

  // ----- one instruction -----

  /** Opcodes that use the aux stack or the register. */
  lemma AuxSimulates(isa: Isa, numGlobals: nat, op: AvmOp, insn: Instr, s: VState)
    requires insn.op == AVM(op) && op in {AuxPush, AuxPop, Xget, Xset, Rpush, Rset}
    requires var st := PushImm(insn.imm, s.stack);
             VExecAvm(isa, numGlobals, op, insn.loc, st, s).Next?
    ensures var st := PushImm(insn.imm, s.stack);
            Exec(isa, insn, Rep(s)) == RepOutcome(VExecAvm(isa, numGlobals, op, insn.loc, st, s))
  {
    if op == Rset {
      var v := PushImm(insn.imm, s.stack).top;
      assert RegValue(DecodeReg(numGlobals, v)) == v;
    }
  }

  lemma AvmSimulates(isa: Isa, numGlobals: nat, op: AvmOp, insn: Instr, s: VState)
    requires insn.op == AVM(op)
    requires var st := PushImm(insn.imm, s.stack);
             !VExecAvm(isa, numGlobals, op, insn.loc, st, s).Fault?
    ensures var st := PushImm(insn.imm, s.stack);
            Exec(isa, insn, Rep(s)) == RepOutcome(VExecAvm(isa, numGlobals, op, insn.loc, st, s))
  {
    if op in {AuxPush, AuxPop, Xget, Xset, Rpush, Rset} {
      AuxSimulates(isa, numGlobals, op, insn, s);
    }
  }

  lemma IndexedSimulates(isa: Isa, numGlobals: nat, frameSize: nat, insn: Instr, s: VState)
    requires insn.op.GetLocal? || insn.op.SetLocal? || insn.op.TupleGet? || insn.op.TupleSet?
    requires VExec(isa, numGlobals, frameSize, insn, s).Next?
    requires LowerOne(insn, frameSize, numGlobals).Ok?
    ensures Run(isa, LowerOne(insn, frameSize, numGlobals).value, Rep(s))
            == Some(Rep(VExec(isa, numGlobals, frameSize, insn, s).s))
  {
    var i, st, reg := ImmIndex(insn).value, s.stack, RegValue(s.reg);
    match insn.op
    case GetLocal =>
      ReadLocalCorrect(isa, TreeOf(frameSize, true), i, s.aux.locals, st, RepAux(s.aux.below), reg, insn.loc);
    case SetLocal =>
      WriteLocalCorrect(isa, TreeOf(frameSize, true), i, s.aux.locals, st.top, st.rest, RepAux(s.aux.below), reg,
                        insn.loc);
    case TupleGet(size) =>
      var vals := Flatten(TreeOf(size, false), st.top).value;
      ReadCorrect(isa, TreeOf(size, false), i, vals, st.rest, RepAux(s.aux), reg, insn.loc);
    case TupleSet(size) =>
      var vals := Flatten(TreeOf(size, false), st.top).value;
      WriteCorrect(isa, TreeOf(size, false), i, vals, st.rest.top, st.rest.rest, RepAux(s.aux), reg, insn.loc);
  }

  lemma GetGlobalSimulates(isa: Isa, vals: seq<Value>, i: nat, st: Stack, aux: Stack, loc: nat)
    requires i < |vals|
    ensures var c, reg := GetGlobalCode(TreeOf(|vals|, false), i, loc), RegValue(Globals(vals));
            c.Ok? && Run(isa, c.value, State(st, aux, reg)) == Some(State(Push(vals[i], st), aux, reg))
  {
    var t, reg := TreeOf(|vals|, false), RegValue(Globals(vals));
    ReadCorrect(isa, t, i, vals, st, aux, reg, loc);
    RunCons(isa, Plain(Rpush, loc), ReadCode(t, false, i, loc).value, State(st, aux, reg));
  }

  lemma SetGlobalSimulates(isa: Isa, vals: seq<Value>, i: nat, x: Value, st: Stack, aux: Stack, loc: nat)
    requires i < |vals|
    ensures var c := SetGlobalCode(TreeOf(|vals|, false), i, loc);
            c.Ok? && Run(isa, c.value, State(Push(x, st), aux, RegValue(Globals(vals))))
                     == Some(State(st, aux, RegValue(Globals(vals[i := x]))))
  {
    var t, reg := TreeOf(|vals|, false), RegValue(Globals(vals));
    WriteCorrect(isa, t, i, vals, x, st, aux, reg, loc);
    var c := WriteCode(t, false, i, loc).value;
    var s := State(Push(x, st), aux, reg);
    RunCons(isa, Plain(Rpush, loc), c, s);
    RunAppend(isa, [Plain(Rpush, loc)] + c, [Plain(Rset, loc)], s);
    RunOne(isa, Plain(Rset, loc), State(Push(MakeValue(t, vals[i := x]), st), aux, reg));
  }

  /** The loop over arguments moves each one from the stack to its slot. */
  lemma {:induction false} WriteArgsRun(isa: Isa, t: TupleTree, k: nat, nargs: nat, vals: seq<Value>, st: Stack,
                                        aux: Stack, reg: Value, loc: nat)
    requires WellFormed(t) && t.Tree? && |vals| == Tsize(t) && k <= nargs <= |vals|
    requires TakeArgs(nargs - k, st).Some?
    ensures var c, taken := WriteArgs(t, k, nargs, loc), TakeArgs(nargs - k, st).value;
            c.Ok? && Run(isa, c.value, State(st, Push(MakeValue(t, vals), aux), reg))
                     == Some(State(taken.rest, Push(MakeValue(t, vals[..k] + taken.args + vals[nargs..]), aux), reg))
    decreases nargs - k
  {
    var taken := TakeArgs(nargs - k, st).value;
    if k == nargs {
      assert vals[..k] + [] + vals[nargs..] == vals;
    } else {
      WriteLocalCorrect(isa, t, k, vals, st.top, st.rest, aux, reg, loc);
      var vals' := vals[k := st.top];
      WriteArgsRun(isa, t, k + 1, nargs, vals', st.rest, aux, reg, loc);
      var rest := TakeArgs(nargs - k - 1, st.rest).value.args;
      assert vals'[..k + 1] + rest + vals'[nargs..] == vals[..k] + ([st.top] + rest) + vals[nargs..];
      RunAppend(isa, WriteCode(t, true, k, loc).value, WriteArgs(t, k + 1, nargs, loc).value,
                State(st, Push(MakeValue(t, vals), aux), reg));
    }
  }

  lemma FrameHeadRuns(isa: Isa, insn: Instr, st: Stack, aux: Stack, reg: Value)
    requires insn.op.MakeFrame? && (insn.op.returnAddress ==> st.Push?)
    ensures var st' := PushImm(insn.imm, if insn.op.returnAddress then st.rest else st);
            var aux' := if insn.op.returnAddress then Push(st.top, aux) else aux;
            Run(isa, FrameHead(insn), State(st, aux, reg))
            == Some(State(st', Push(MakeEmpty(TreeOf(insn.op.ntotal, true)), aux'), reg))
  {
    var save, supply := SaveCode(insn.op.returnAddress, insn.loc), SupplyCode(insn.imm, insn.loc);
    var last := WithImm(AuxPush, MakeEmpty(TreeOf(insn.op.ntotal, true)), insn.loc);
    var st1 := if insn.op.returnAddress then st.rest else st;
    var aux1 := if insn.op.returnAddress then Push(st.top, aux) else aux;
    if insn.op.returnAddress { RunOne(isa, save[0], State(st, aux, reg)); }
    assert Run(isa, save, State(st, aux, reg)) == Some(State(st1, aux1, reg));
    RunAppend(isa, save, supply, State(st, aux, reg));
    if insn.imm.Some? { RunOne(isa, supply[0], State(st1, aux1, reg)); }
    RunAppend(isa, save + supply, [last], State(st, aux, reg));
    RunOne(isa, last, State(PushImm(insn.imm, st1), aux1, reg));
  }

  lemma FrameSimulates(isa: Isa, numGlobals: nat, frameSize: nat, insn: Instr, s: VState)
    requires insn.op.MakeFrame? && VExec(isa, numGlobals, frameSize, insn, s).Next?
    ensures FrameCode(insn).Ok?
    ensures Run(isa, FrameCode(insn).value, Rep(s)) == Some(Rep(VExec(isa, numGlobals, frameSize, insn, s).s))
  {
    var nargs, n, ret := insn.op.nargs, insn.op.ntotal, insn.op.returnAddress;
    var t, reg, aux := TreeOf(n, true), RegValue(s.reg), RepAux(s.aux);
    var st1 := PushImm(insn.imm, if ret then s.stack.rest else s.stack);
    var aux1 := if ret then Push(s.stack.top, aux) else aux;
    FrameHeadRuns(isa, insn, s.stack, aux, reg);
    WriteArgsRun(isa, t, 0, nargs, Nones(n), st1, aux1, reg, insn.loc);
    RunAppend(isa, FrameHead(insn), WriteArgs(t, 0, nargs, insn.loc).value, Rep(s));
    var taken := TakeArgs(nargs, st1).value;
    var locals := taken.args + Nones(n - nargs);
    assert Nones(n)[..0] + taken.args + Nones(n)[nargs..] == locals;
    var below := if ret then AVal(s.stack.top, s.aux) else s.aux;
    assert VExec(isa, numGlobals, frameSize, insn, s) == Next(VState(taken.rest, AFrame(locals, below), s.reg));
    assert |locals| == n && RepAux(below) == aux1;
  }

  lemma ReturnSimulates(isa: Isa, imm: Option<Value>, st: Stack, frame: Value, ra: Value, aux: Stack, reg: Value,
                        loc: nat)
    requires IsCodeRef(isa, ra)
    ensures Yields(isa, ReturnCode(imm, loc), State(st, Push(frame, Push(ra, aux)), reg),
                   Goto(ra, State(PushImm(imm, st), aux, reg)))
  {
    var seg := ReturnCode(imm, loc);
    var s := State(st, Push(frame, Push(ra, aux)), reg);
    var st1 := PushImm(imm, st);
    var head := seg[..3];
    assert head == [seg[0]] + ([seg[1]] + [seg[2]]);
    RunCons(isa, seg[0], [seg[1]] + [seg[2]], s);
    RunCons(isa, seg[1], [seg[2]], State(Push(frame, st1), Push(ra, aux), reg));
    RunOne(isa, seg[2], State(st1, Push(ra, aux), reg));
  }

  lemma DigitRuns(isa: Isa, arr: Value, idx: nat, st: Stack, aux: Stack, reg: Value, loc: nat)
    requires var slot, sub := isa.bin(Mod, idx, TUPLE_SIZE), isa.bin(Div, idx, TUPLE_SIZE);
             slot.Some? && sub.Some? && arr.Tuple? && slot.value < |arr.elems|
    ensures var slot, sub := isa.bin(Mod, idx, TUPLE_SIZE).value, isa.bin(Div, idx, TUPLE_SIZE).value;
            Run(isa, DigitCode(loc), State(Push(Int(idx), Push(arr, st)), aux, reg))
            == Some(State(Push(Int(sub), Push(arr.elems[slot], st)), aux, reg))
  {
    var slot, sub := isa.bin(Mod, idx, TUPLE_SIZE).value, isa.bin(Div, idx, TUPLE_SIZE).value;
    var c := DigitCode(loc);
    var s0 := State(Push(Int(idx), Push(arr, st)), aux, reg);
    var s3 := State(Push(Int(idx), Push(Int(slot), Push(arr, st))), aux, reg);
    var s5 := State(Push(Int(sub), Push(Int(slot), Push(arr, st))), aux, reg);
    assert c[..3] == [c[0]] + ([c[1]] + [c[2]]);
    RunCons(isa, c[0], [c[1]] + [c[2]], s0);
    RunCons(isa, c[1], [c[2]], State(Push(Int(idx), Push(Int(TUPLE_SIZE), s0.stack)), aux, reg));
    RunOne(isa, c[2], State(Push(Int(slot), s0.stack), aux, reg));
    assert c[3..5] == [c[3]] + [c[4]];
    RunCons(isa, c[3], [c[4]], s3);
    RunOne(isa, c[4], State(Push(Int(idx), Push(Int(TUPLE_SIZE), s3.stack.rest)), aux, reg));
    assert c[5..] == [c[5]] + ([c[6]] + ([c[7]] + [c[8]]));
    RunCons(isa, c[5], [c[6]] + ([c[7]] + [c[8]]), s5);
    RunCons(isa, c[6], [c[7]] + [c[8]], State(Push(arr, Push(Int(slot), Push(Int(sub), st))), aux, reg));
    RunCons(isa, c[7], [c[8]], State(Push(Int(slot), Push(arr, Push(Int(sub), st))), aux, reg));
    RunOne(isa, c[8], State(Push(arr.elems[slot], Push(Int(sub), st)), aux, reg));
    RunAppend(isa, c[..3], c[3..5], s0);
    RunAppend(isa, c[..3] + c[3..5], c[5..], s0);
    assert c == c[..3] + c[3..5] + c[5..];
  }

  lemma {:induction false} FixedGetRuns(isa: Isa, size: nat, arr: Value, idx: nat, st: Stack, aux: Stack, reg: Value,
                                        loc: nat)
    requires FixedGet(isa, size, arr, idx).Some?
    ensures Run(isa, FixedGetCode(size, loc), State(Push(Int(idx), Push(arr, st)), aux, reg))
            == Some(State(Push(FixedGet(isa, size, arr, idx).value, st), aux, reg))
    decreases size
  {
    var s := State(Push(Int(idx), Push(arr, st)), aux, reg);
    if size > TUPLE_SIZE {
      var slot, sub := isa.bin(Mod, idx, TUPLE_SIZE).value, isa.bin(Div, idx, TUPLE_SIZE).value;
      var size' := (size + (TUPLE_SIZE - 1)) / TUPLE_SIZE;
      DigitRuns(isa, arr, idx, st, aux, reg, loc);
      FixedGetRuns(isa, size', arr.elems[slot], sub, st, aux, reg, loc);
      RunAppend(isa, DigitCode(loc), FixedGetCode(size', loc), s);
    } else {
      RunOne(isa, Plain(Tget, loc), s);
    }
  }

  /** Whatever the flat machine does at an instruction, its translation does on the nested state. */
  lemma OneSimulates(isa: Isa, numGlobals: nat, frameSize: nat, insn: Instr, s: VState)
    requires LowerOne(insn, frameSize, numGlobals).Ok?
    ensures Yields(isa, LowerOne(insn, frameSize, numGlobals).value, Rep(s),
                   RepOutcome(VExec(isa, numGlobals, frameSize, insn, s)))
  {
    var o := VExec(isa, numGlobals, frameSize, insn, s);
    if !o.Fault? {
      match insn.op
      case GetLocal => IndexedSimulates(isa, numGlobals, frameSize, insn, s);
      case SetLocal => IndexedSimulates(isa, numGlobals, frameSize, insn, s);
      case TupleGet(_) => IndexedSimulates(isa, numGlobals, frameSize, insn, s);
      case TupleSet(_) => IndexedSimulates(isa, numGlobals, frameSize, insn, s);
      case GetGlobalVar(i) => GetGlobalSimulates(isa, s.reg.vals, i, s.stack, RepAux(s.aux), insn.loc);
      case SetGlobalVar(i) =>
        SetGlobalSimulates(isa, s.reg.vals, i, s.stack.top, s.stack.rest, RepAux(s.aux), insn.loc);
      case MakeFrame(_, _, _) => FrameSimulates(isa, numGlobals, frameSize, insn, s);
      case Return =>
        assert RepAux(s.aux.below) == Push(s.aux.below.v, RepAux(s.aux.below.below));
        ReturnSimulates(isa, insn.imm, s.stack, RepAux(s.aux).top, s.aux.below.v, RepAux(s.aux.below.below),
                        RegValue(s.reg), insn.loc);
      case UncheckedFixedArrayGet(size) =>
        FixedGetRuns(isa, size, s.stack.rest.top, s.stack.top.n, s.stack.rest.rest, RepAux(s.aux), RegValue(s.reg),
                     insn.loc);
      case AVM(op) =>
        AvmSimulates(isa, numGlobals, op, insn, s);
        YieldsOne(isa, insn, Rep(s));
      case LabelOp(_) =>
        YieldsOne(isa, insn, Rep(s));
      case _ =>
    }
  }

  // ----- whole programs -----

  /** The segment each instruction becomes. */
  function Segs(code: seq<Instr>, frameSize: nat, numGlobals: nat): (segs: seq<seq<Instr>>)
    requires Lower(code, frameSize, numGlobals).Ok?
    ensures |segs| == |code| && Concat(segs) == Lower(code, frameSize, numGlobals).value
  {
    if code == [] then []
    else
      [LowerOne(code[0], frameSize, numGlobals).value]
      + Segs(code[1..], FrameAfter(code[0], frameSize), numGlobals)
  }

  lemma {:induction false} SegsAt(code: seq<Instr>, frameSize: nat, numGlobals: nat, i: nat)
    requires i < |code| && Lower(code, frameSize, numGlobals).Ok?
    ensures LowerOne(code[i], FrameAt(code, frameSize, i), numGlobals) == Ok(Segs(code, frameSize, numGlobals)[i])
    decreases i
  {
    if i > 0 { SegsAt(code[1..], FrameAfter(code[0], frameSize), numGlobals, i - 1); }
  }

  lemma {:induction false} ReadCovered(t: TupleTree, isLocal: bool, index: nat, loc: nat)
    ensures var c := ReadCode(t, isLocal, index, loc); c.Ok? ==> Covered(c.value, {})
    decreases t, 1
  {
    if t.Tree? { ReadKidsCovered(t.kids, isLocal, index, 0, loc); }
  }

  lemma {:induction false} ReadKidsCovered(kids: seq<TupleTree>, isLocal: bool, index: nat, slot: nat, loc: nat)
    ensures var c := ReadKids(kids, isLocal, index, slot, loc); c.Ok? ==> Covered(c.value, {})
    decreases kids, 0
  {
    if kids != [] {
      if index < Tsize(kids[0]) { ReadCovered(kids[0], false, index, loc); }
      else { ReadKidsCovered(kids[1..], isLocal, index - Tsize(kids[0]), slot + 1, loc); }
    }
  }

  lemma {:induction false} WriteCovered(t: TupleTree, isLocal: bool, index: nat, loc: nat)
    ensures var c := WriteCode(t, isLocal, index, loc); c.Ok? ==> Covered(c.value, {})
    decreases t, 1
  {
    if t.Tree? { WriteKidsCovered(t.kids, isLocal, index, 0, loc); }
  }

  lemma {:induction false} WriteKidsCovered(kids: seq<TupleTree>, isLocal: bool, index: nat, slot: nat, loc: nat)
    ensures var c := WriteKids(kids, isLocal, index, slot, loc); c.Ok? ==> Covered(c.value, {})
    decreases kids, 0
  {
    if kids != [] {
      if index < Tsize(kids[0]) { WriteCovered(kids[0], false, index, loc); }
      else { WriteKidsCovered(kids[1..], isLocal, index - Tsize(kids[0]), slot + 1, loc); }
    }
  }

  lemma {:induction false} WriteArgsCovered(t: TupleTree, k: nat, nargs: nat, loc: nat)
    requires k <= nargs
    ensures var c := WriteArgs(t, k, nargs, loc); c.Ok? ==> Covered(c.value, {})
    decreases nargs - k
  {
    if k < nargs {
      WriteCovered(t, true, k, loc);
      WriteArgsCovered(t, k + 1, nargs, loc);
    }
  }

  lemma {:induction false} FixedGetCovered(size: nat, loc: nat)
    ensures Covered(FixedGetCode(size, loc), {})
    decreases size
  {
    if size > TUPLE_SIZE { FixedGetCovered((size + (TUPLE_SIZE - 1)) / TUPLE_SIZE, loc); }
  }

  lemma FrameCovered(insn: Instr)
    requires insn.op.MakeFrame? && FrameCode(insn).Ok?
    ensures Covered(FrameCode(insn).value, ImmRefs(insn))
  {
    EmptyHasNoLabels(TreeOf(insn.op.ntotal, true));
    WriteArgsCovered(TreeOf(insn.op.ntotal, true), 0, insn.op.nargs, insn.loc);
    assert Covered(SaveCode(insn.op.returnAddress, insn.loc), {});
    assert Covered(SupplyCode(insn.imm, insn.loc), ImmRefs(insn));
  }

  /** The translation of anything but a label holds no label, and no immediate of it refers to code
      that the instruction did not refer to. */
  lemma LowerOneCovered(insn: Instr, frameSize: nat, numGlobals: nat)
    requires !insn.op.LabelOp? && LowerOne(insn, frameSize, numGlobals).Ok?
    ensures Covered(LowerOne(insn, frameSize, numGlobals).value, ImmRefs(insn))
  {
    match insn.op
    case MakeFrame(_, _, _) => FrameCovered(insn);
    case TupleGet(size) => ReadCovered(TreeOf(size, false), false, IndexOf(insn).value, insn.loc);
    case TupleSet(size) => WriteCovered(TreeOf(size, false), false, IndexOf(insn).value, insn.loc);
    case SetLocal => WriteCovered(TreeOf(frameSize, true), true, IndexOf(insn).value, insn.loc);
    case GetLocal => ReadCovered(TreeOf(frameSize, true), true, IndexOf(insn).value, insn.loc);
    case SetGlobalVar(i) => WriteCovered(TreeOf(numGlobals, false), false, i, insn.loc);
    case GetGlobalVar(i) => ReadCovered(TreeOf(numGlobals, false), false, i, insn.loc);
    case UncheckedFixedArrayGet(size) => FixedGetCovered(size, insn.loc);
    case _ =>
  }

  lemma LowerExpands(code: seq<Instr>, frameSize: nat, numGlobals: nat)
    requires Lower(code, frameSize, numGlobals).Ok?
    ensures Expands(code, Segs(code, frameSize, numGlobals))
  {
    var segs := Segs(code, frameSize, numGlobals);
    forall i | 0 <= i < |code|
      ensures if code[i].op.LabelOp? then segs[i] == [code[i]] else Covered(segs[i], ImmRefs(code[i]))
    {
      SegsAt(code, frameSize, numGlobals, i);
      if !code[i].op.LabelOp? { LowerOneCovered(code[i], FrameAt(code, frameSize, i), numGlobals); }
    }
  }

  /** The flat machine's outcome at its current instruction. */
  ghost function OutcomeAt(isa: Isa, numGlobals: nat, code: seq<Instr>, c: Config<VState>): Outcome<VState>
    requires c.pc < |code|
  {
    VExec(isa, numGlobals, FrameAt(code, INITIAL_FRAME, c.pc), code[c.pc], c.s)
  }

  /** The lowered program, wherever outcome r takes it, goes on to observe o. */
  ghost predicate Continues(isa: Isa, code: seq<Instr>, segs: seq<seq<Instr>>, pc: nat, r: Outcome<VState>,
                            o: Obs<State>)
    requires pc < |code| == |segs|
  {
    match r
    case Next(s) => Arrives(isa, Concat(segs), Config(Pos(segs, pc + 1), Rep(s)), o)
    case Goto(v, s) =>
      var t := Target(isa, code, v);
      t.Some? && t.value <= |code| && Arrives(isa, Concat(segs), Config(Pos(segs, t.value), Rep(s)), o)
    case Stop(s) => o == Halted(Rep(s))
    case Fault => false
  }

  /** How one outcome of the flat machine carries an observation over to the lowered program. */
  lemma OutcomeSimulates(isa: Isa, code: seq<Instr>, segs: seq<seq<Instr>>, pc: nat, s: State, r: Outcome<VState>,
                         o: Obs<State>)
    requires isa.symbolic && KeepsLabels(code, segs)
    requires pc < |code| && Yields(isa, segs[pc], s, RepOutcome(r))
    requires Continues(isa, code, segs, pc, r, o)
    ensures Arrives(isa, Concat(segs), Config(Pos(segs, pc), s), o)
  {
    SegPlaced(segs, pc);
    if r.Goto? { FindLabelExpanded(code, segs, r.target.lab); }
    YieldsArrives(isa, Concat(segs), Pos(segs, pc), segs[pc], s, RepOutcome(r), o);
  }

  lemma LabelSimulates(isa: Isa, code: seq<Instr>, segs: seq<seq<Instr>>, pc: nat, s: State)
    requires KeepsLabels(code, segs) && pc < |code| && code[pc].op.LabelOp?
    ensures Arrives(isa, Concat(segs), Config(Pos(segs, pc), s), AtLabel(code[pc].op.lab, s))
  {
    SegPlaced(segs, pc);
    var p, out := Pos(segs, pc), Concat(segs);
    assert out[p..p + 1][0] == out[p];
    ArrivesNow(isa, out, Config(p, s), AtLabel(code[pc].op.lab, s));
  }

  /** The main result: an observation of the flat machine, after any number of steps from any
      position and state, is an observation of the lowered program on the nested state. */
  lemma {:induction false} LoweringSimulates(isa: Isa, numGlobals: nat, code: seq<Instr>,
                                             n: nat, c: Config<VState>, o: Obs<VState>)
    requires isa.symbolic && Lower(code, INITIAL_FRAME, numGlobals).Ok?
    requires c.pc <= |code| && VArrivesIn(isa, numGlobals, code, n, c, o)
    ensures var segs := Segs(code, INITIAL_FRAME, numGlobals);
            Arrives(isa, Lower(code, INITIAL_FRAME, numGlobals).value, Config(Pos(segs, c.pc), Rep(c.s)), RepObs(o))
    decreases n
  {
    var segs := Segs(code, INITIAL_FRAME, numGlobals);
    LowerExpands(code, INITIAL_FRAME, numGlobals);
    if n == 0 && o.AtLabel? {
      LabelSimulates(isa, code, segs, c.pc, Rep(c.s));
    } else {
      var r := OutcomeAt(isa, numGlobals, code, c);
      if n > 0 {
        LoweringSimulates(isa, numGlobals, code, n - 1, VStep(isa, numGlobals, code, c).value, o);
      }
      SegsAt(code, INITIAL_FRAME, numGlobals, c.pc);
      OneSimulates(isa, numGlobals, FrameAt(code, INITIAL_FRAME, c.pc), code[c.pc], c.s);
      OutcomeSimulates(isa, code, segs, c.pc, Rep(c.s), r, RepObs(o));
    }
  }
}
