/** Linking preserves meaning: any run of a module on its own is, with labels renamed and globals in
    their window, a run of the linked program. */
module LinkSound {
  import opened Avm
  import opened Machine
  import opened TupleTrees
  import opened Virtual
  import opened Renaming
  import opened NonforwardCorrect
  import opened Linker

  // ----- states of a module inside the linked program -----

  /** What relocation and import resolution make of a reference. */
  function Moving(o: Offsets, m: map<Label, Label>): Naming {
    (v: Value) => if IsRef(v) then ResolveValue(RelocValue(v, o), m) else v
  }

  lemma {:induction false} MovedValue(o: Offsets, m: map<Label, Label>, v: Value)
    ensures ResolveValue(RelocValue(v, o), m) == Renamed(Moving(o, m), v)
  {
    if v.Tuple? {
      var a, b := ResolveValue(RelocValue(v, o), m).elems, Renamed(Moving(o, m), v).elems;
      forall i | 0 <= i < |v.elems| ensures a[i] == b[i] { MovedValue(o, m, v.elems[i]); }
      assert a == b;
    }
  }

  /** Labels stay labels. */
  ghost predicate KeepsLabelVals(h: Naming) {
    KeepsRefs(h) && forall v: Value :: v.LabelVal? ==> h(v).LabelVal?
  }

  lemma MovingKeeps(o: Offsets, m: map<Label, Label>)
    ensures KeepsLabelVals(Moving(o, m))
  {
  }

  /** The renaming, where the module's globals start, and the other globals of the linked program. */
  datatype Spot = Spot(h: Naming, off: nat, others: seq<Value>)

  function Put(others: seq<Value>, off: nat, vals: seq<Value>): (r: seq<Value>)
    requires off + |vals| <= |others|
    ensures |r| == |others|
    ensures forall i :: 0 <= i < |vals| ==> r[off + i] == vals[i]
  {
    seq(|others|, i requires 0 <= i < |others| => if off <= i < off + |vals| then vals[i - off] else others[i])
  }

  lemma PutUpdate(others: seq<Value>, off: nat, vals: seq<Value>, i: nat, x: Value)
    requires off + |vals| <= |others| && i < |vals|
    ensures Put(others, off, vals[i := x]) == Put(others, off, vals)[off + i := x]
  {
  }

  function RenamedAux(h: Naming, aux: VAux): VAux {
    match aux
    case ANil => ANil
    case AVal(v, below) => AVal(Renamed(h, v), RenamedAux(h, below))
    case AFrame(locals, below) => AFrame(RenamedAll(h, locals), RenamedAux(h, below))
  }

  function MovedReg(sp: Spot, reg: VReg): VReg {
    if reg.Globals? && sp.off + |reg.vals| <= |sp.others| then
      Globals(Put(sp.others, sp.off, RenamedAll(sp.h, reg.vals)))
    else reg
  }

  function MovedState(sp: Spot, s: VState): VState {
    VState(RenamedStack(sp.h, s.stack), RenamedAux(sp.h, s.aux), MovedReg(sp, s.reg))
  }

  function MovedOutcome(sp: Spot, r: Outcome<VState>): Outcome<VState> {
    match r
    case Next(s) => Next(MovedState(sp, s))
    case Goto(v, s) => Goto(Renamed(sp.h, v), MovedState(sp, s))
    case Stop(s) => Stop(MovedState(sp, s))
    case Fault => Fault
  }

  /** An instruction as the linked program has it. */
  function MovedInsn(sp: Spot, insn: Instr): Instr {
    var op :=
      match insn.op
      case GetGlobalVar(i) => GetGlobalVar(i + sp.off)
      case SetGlobalVar(i) => SetGlobalVar(i + sp.off)
      case LabelOp(l) => var v := sp.h(LabelVal(l)); if v.LabelVal? then LabelOp(v.lab) else insn.op
      case op => op;
    Instr(op, if insn.imm.Some? then Some(Renamed(sp.h, insn.imm.value)) else None, insn.loc)
  }

  /** Instructions that leave the register alone. */
  predicate Movable(insn: Instr) {
    insn.op.AVM? ==> insn.op.op != Rpush && insn.op.op != Rset
  }

  // ----- one instruction -----

  lemma AvmMoved(isa: Isa, sp: Spot, n: nat, total: nat, op: AvmOp, loc: nat, st: Stack, s: VState)
    requires isa.symbolic && KeepsLabelVals(sp.h) && op != Rpush && op != Rset
    requires !VExecAvm(isa, n, op, loc, st, s).Fault?
    ensures VExecAvm(isa, total, op, loc, RenamedStack(sp.h, st), MovedState(sp, s))
            == MovedOutcome(sp, VExecAvm(isa, n, op, loc, st, s))
  {
    var h := sp.h;
    match op
    case Xget => RenamedTuple(h, s.aux.v.elems, st.top.n, NONE);
    case Xset =>
      RenamedTuple(h, s.aux.v.elems, st.top.n, st.rest.top);
      assert RenamedStack(h, st.rest) == Push(Renamed(h, st.rest.top), RenamedStack(h, st.rest.rest));
    case AuxPush =>
    case AuxPop =>
    case Rpush =>
    case Rset =>
    case Jump =>
    case Cjump => assert RenamedStack(h, st.rest) == Push(Renamed(h, st.rest.top), RenamedStack(h, st.rest.rest));
    case Halt =>
    case _ => DataRenamed(isa, isa, h, op, loc, st);
  }

  lemma {:induction false} TakeArgsMoved(h: Naming, n: nat, st: Stack)
    requires TakeArgs(n, st).Some?
    ensures var r := TakeArgs(n, st).value;
            TakeArgs(n, RenamedStack(h, st)) == Some(Taken(RenamedAll(h, r.args), RenamedStack(h, r.rest)))
  {
    if n > 0 {
      TakeArgsMoved(h, n - 1, st.rest);
      var r := TakeArgs(n - 1, st.rest).value;
      assert RenamedAll(h, [st.top] + r.args) == [Renamed(h, st.top)] + RenamedAll(h, r.args);
    } else {
      assert RenamedAll(h, []) == [];
    }
  }

  lemma {:induction false} FixedGetMoved(isa: Isa, h: Naming, size: nat, arr: Value, idx: nat)
    requires FixedGet(isa, size, arr, idx).Some?
    ensures FixedGet(isa, size, Renamed(h, arr), idx) == Some(Renamed(h, FixedGet(isa, size, arr, idx).value))
    decreases size
  {
    if size > TUPLE_SIZE {
      var slot, sub := isa.bin(Mod, idx, TUPLE_SIZE).value, isa.bin(Div, idx, TUPLE_SIZE).value;
      FixedGetMoved(isa, h, (size + (TUPLE_SIZE - 1)) / TUPLE_SIZE, arr.elems[slot], sub);
      RenamedTuple(h, arr.elems, slot, NONE);
    } else {
      RenamedTuple(h, arr.elems, idx, NONE);
    }
  }

  lemma FrameMoved(isa: Isa, sp: Spot, n: nat, total: nat, f: nat, insn: Instr, s: VState)
    requires insn.op.MakeFrame? && !VExec(isa, n, f, insn, s).Fault?
    ensures VExec(isa, total, f, MovedInsn(sp, insn), MovedState(sp, s)) == MovedOutcome(sp, VExec(isa, n, f, insn, s))
  {
    var h, op := sp.h, insn.op;
    var top := if op.returnAddress then s.stack.rest else s.stack;
    var st := PushImm(insn.imm, top);
    var below := if op.returnAddress then AVal(s.stack.top, s.aux) else s.aux;
    TakeArgsMoved(h, op.nargs, st);
    var r := TakeArgs(op.nargs, st).value;
    var locals := r.args + Nones(op.ntotal - op.nargs);
    RenamedNone(h);
    assert RenamedAll(h, locals) == RenamedAll(h, r.args) + Nones(op.ntotal - op.nargs);
    assert RenamedAux(h, AFrame(locals, below)) == AFrame(RenamedAll(h, locals), RenamedAux(h, below));
    if op.returnAddress {
      assert RenamedStack(h, s.stack) == Push(Renamed(h, s.stack.top), RenamedStack(h, top));
      assert RenamedAux(h, below) == AVal(Renamed(h, s.stack.top), RenamedAux(h, s.aux));
    }
    ImmMoved(sp, insn, top);
    assert VExec(isa, n, f, insn, s) == Next(VState(r.rest, AFrame(locals, below), s.reg));
  }

  lemma LocalMoved(isa: Isa, sp: Spot, n: nat, total: nat, f: nat, insn: Instr, s: VState)
    requires (insn.op.GetLocal? || insn.op.SetLocal?) && !VExec(isa, n, f, insn, s).Fault?
    ensures VExec(isa, total, f, MovedInsn(sp, insn), MovedState(sp, s)) == MovedOutcome(sp, VExec(isa, n, f, insn, s))
  {
    if insn.op.SetLocal? {
      var k := ImmIndex(insn).value;
      assert RenamedAll(sp.h, s.aux.locals[k := s.stack.top])
             == RenamedAll(sp.h, s.aux.locals)[k := Renamed(sp.h, s.stack.top)];
    }
  }

  lemma TupleMoved(isa: Isa, sp: Spot, n: nat, total: nat, f: nat, insn: Instr, s: VState)
    requires (insn.op.TupleGet? || insn.op.TupleSet?) && !VExec(isa, n, f, insn, s).Fault?
    ensures VExec(isa, total, f, MovedInsn(sp, insn), MovedState(sp, s)) == MovedOutcome(sp, VExec(isa, n, f, insn, s))
  {
    var h, tree, k := sp.h, TreeOf(insn.op.size, false), ImmIndex(insn).value;
    var vals := Flatten(tree, s.stack.top).value;
    FlattenRenamed(h, tree, s.stack.top);
    if insn.op.TupleSet? {
      assert RenamedStack(h, s.stack.rest) == Push(Renamed(h, s.stack.rest.top), RenamedStack(h, s.stack.rest.rest));
      assert RenamedAll(h, vals[k := s.stack.rest.top]) == RenamedAll(h, vals)[k := Renamed(h, s.stack.rest.top)];
      MakeRenamed(h, tree, vals[k := s.stack.rest.top]);
    }
  }

  lemma GetGlobalMoved(isa: Isa, sp: Spot, n: nat, total: nat, f: nat, insn: Instr, s: VState)
    requires insn.op.GetGlobalVar? && !VExec(isa, n, f, insn, s).Fault?
    requires sp.off + n <= |sp.others| == total
    ensures VExec(isa, total, f, MovedInsn(sp, insn), MovedState(sp, s)) == MovedOutcome(sp, VExec(isa, n, f, insn, s))
  {
    var i, vals := insn.op.idx, RenamedAll(sp.h, s.reg.vals);
    assert MovedInsn(sp, insn) == Instr(GetGlobalVar(i + sp.off), None, insn.loc);
    assert MovedReg(sp, s.reg) == Globals(Put(sp.others, sp.off, vals));
    assert VExec(isa, n, f, insn, s) == Next(VState(Push(s.reg.vals[i], s.stack), s.aux, s.reg));
  }

  lemma SetGlobalMoved(isa: Isa, sp: Spot, n: nat, total: nat, f: nat, insn: Instr, s: VState)
    requires insn.op.SetGlobalVar? && !VExec(isa, n, f, insn, s).Fault?
    requires sp.off + n <= |sp.others| == total
    ensures VExec(isa, total, f, MovedInsn(sp, insn), MovedState(sp, s)) == MovedOutcome(sp, VExec(isa, n, f, insn, s))
  {
    SetMoved(sp, s.reg.vals, insn.op.idx, s.stack.top);
  }

  lemma SetMoved(sp: Spot, vals: seq<Value>, i: nat, x: Value)
    requires sp.off + |vals| <= |sp.others| && i < |vals|
    ensures MovedReg(sp, Globals(vals[i := x]))
            == Globals(Put(sp.others, sp.off, RenamedAll(sp.h, vals))[sp.off + i := Renamed(sp.h, x)])
  {
    PutUpdate(sp.others, sp.off, RenamedAll(sp.h, vals), i, Renamed(sp.h, x));
    assert RenamedAll(sp.h, vals[i := x]) == RenamedAll(sp.h, vals)[i := Renamed(sp.h, x)];
  }

  /** Whatever an instruction of the module does, the moved instruction does on the moved state. */
  lemma ExecMoved(isa: Isa, sp: Spot, n: nat, total: nat, f: nat, insn: Instr, s: VState)
    requires isa.symbolic && KeepsLabelVals(sp.h) && Movable(insn)
    requires sp.off + n <= |sp.others| == total && HasGlobals(n, s) && !VExec(isa, n, f, insn, s).Fault?
    ensures VExec(isa, total, f, MovedInsn(sp, insn), MovedState(sp, s)) == MovedOutcome(sp, VExec(isa, n, f, insn, s))
  {
    match insn.op
    case AVM(op) =>
      ImmMoved(sp, insn, s.stack);
      AvmMoved(isa, sp, n, total, op, insn.loc, PushImm(insn.imm, s.stack), s);
    case GetLocal => LocalMoved(isa, sp, n, total, f, insn, s);
    case SetLocal => LocalMoved(isa, sp, n, total, f, insn, s);
    case TupleGet(_) => TupleMoved(isa, sp, n, total, f, insn, s);
    case TupleSet(_) => TupleMoved(isa, sp, n, total, f, insn, s);
    case GetGlobalVar(_) => GetGlobalMoved(isa, sp, n, total, f, insn, s);
    case SetGlobalVar(_) => SetGlobalMoved(isa, sp, n, total, f, insn, s);
    case MakeFrame(_, _, _) => FrameMoved(isa, sp, n, total, f, insn, s);
    case UncheckedFixedArrayGet(size) =>
      FixedGetMoved(isa, sp.h, size, s.stack.rest.top, s.stack.top.n);
      assert RenamedStack(sp.h, s.stack.rest) == Push(Renamed(sp.h, s.stack.rest.top),
                                                      RenamedStack(sp.h, s.stack.rest.rest));
    case Return =>
      ImmMoved(sp, insn, s.stack);
      assert RenamedAux(sp.h, s.aux.below) == AVal(Renamed(sp.h, s.aux.below.v), RenamedAux(sp.h, s.aux.below.below));
    case LabelOp(_) =>
    case _ =>
  }

  lemma ImmMoved(sp: Spot, insn: Instr, st: Stack)
    ensures PushImm(MovedInsn(sp, insn).imm, RenamedStack(sp.h, st)) == RenamedStack(sp.h, PushImm(insn.imm, st))
  {
  }

  /** The table of globals stays one. */
  lemma GlobalsStay(isa: Isa, n: nat, f: nat, insn: Instr, s: VState)
    requires Movable(insn) && HasGlobals(n, s) && !VExec(isa, n, f, insn, s).Fault?
    ensures HasGlobals(n, VExec(isa, n, f, insn, s).s)
  {
    if insn.op.AVM? { AvmIgnoresRegister(isa, n, insn.op.op, insn.loc, PushImm(insn.imm, s.stack), s, s.reg); }
  }

  // ----- a module inside a program -----

  predicate UsesFrame(insn: Instr) { insn.op.GetLocal? || insn.op.SetLocal? }

  /** The code stands at base, moved, and accesses to locals see the same frame there. */
  ghost predicate Installed(code: seq<Instr>, all: seq<Instr>, base: nat, sp: Spot) {
    && base + |code| <= |all| && UniqueLabels(all)
    && forall k :: 0 <= k < |code| ==> InstalledAt(code, all, base, sp, k)
  }

  ghost predicate InstalledAt(code: seq<Instr>, all: seq<Instr>, base: nat, sp: Spot, k: nat)
    requires k < |code| && base + |code| <= |all|
  {
    && (!code[k].op.PushExternal? ==> all[base + k] == MovedInsn(sp, code[k]))
    && (UsesFrame(code[k]) ==> FrameAt(all, INITIAL_FRAME, base + k) == FrameAt(code, INITIAL_FRAME, k))
  }

  ghost predicate AllMovable(code: seq<Instr>) {
    forall k :: 0 <= k < |code| ==> Movable(code[k])
  }

  lemma FrameIrrelevant(isa: Isa, n: nat, f: nat, g: nat, insn: Instr, s: VState)
    requires !UsesFrame(insn)
    ensures VExec(isa, n, f, insn, s) == VExec(isa, n, g, insn, s)
  {
  }

  function MovedObs(sp: Spot, o: Obs<VState>): Obs<VState> {
    match o
    case AtLabel(l, s) =>
      var v := sp.h(LabelVal(l));
      AtLabel(if v.LabelVal? then v.lab else l, MovedState(sp, s))
    case Halted(s) => Halted(MovedState(sp, s))
    case AtPc(pc, s) => AtPc(pc, MovedState(sp, s))
  }

  /** The outcome at a position of the module, there and in the whole program. */
  lemma OutcomeMoved(isa: Isa, sp: Spot, n: nat, code: seq<Instr>, all: seq<Instr>, base: nat, pc: nat, s: VState)
    requires isa.symbolic && KeepsLabelVals(sp.h) && AllMovable(code) && Installed(code, all, base, sp)
    requires sp.off + n <= |sp.others| && HasGlobals(n, s) && pc < |code|
    requires !VExec(isa, n, FrameAt(code, INITIAL_FRAME, pc), code[pc], s).Fault?
    ensures var r := VExec(isa, n, FrameAt(code, INITIAL_FRAME, pc), code[pc], s);
            && HasGlobals(n, r.s)
            && VExec(isa, |sp.others|, FrameAt(all, INITIAL_FRAME, base + pc), all[base + pc], MovedState(sp, s))
               == MovedOutcome(sp, r)
  {
    var insn, f, f' := code[pc], FrameAt(code, INITIAL_FRAME, pc), FrameAt(all, INITIAL_FRAME, base + pc);
    assert InstalledAt(code, all, base, sp, pc);
    GlobalsStay(isa, n, f, insn, s);
    ExecMoved(isa, sp, n, |sp.others|, f, insn, s);
    if !UsesFrame(insn) { FrameIrrelevant(isa, |sp.others|, f, f', MovedInsn(sp, insn), MovedState(sp, s)); }
  }

  /** A jump in the module goes to the moved place. */
  lemma AfterMoved(isa: Isa, sp: Spot, code: seq<Instr>, all: seq<Instr>, base: nat, pc: nat, r: Outcome<VState>)
    requires isa.symbolic && KeepsLabelVals(sp.h) && Installed(code, all, base, sp) && pc < |code|
    requires After(isa, code, pc, r).Some?
    ensures var c := After(isa, code, pc, r).value;
            && c.pc <= |code|
            && After(isa, all, base + pc, MovedOutcome(sp, r)) == Some(Config(base + c.pc, MovedState(sp, c.s)))
  {
    if r.Goto? {
      var l, t := r.target.lab, FindLabel(code, r.target.lab).value;
      assert InstalledAt(code, all, base, sp, t);
      LabelAt(all, base + t, sp.h(LabelVal(l)).lab);
    }
  }

  lemma StepMoved(isa: Isa, sp: Spot, n: nat, code: seq<Instr>, all: seq<Instr>, base: nat, c: Config<VState>)
    requires isa.symbolic && KeepsLabelVals(sp.h) && AllMovable(code) && Installed(code, all, base, sp)
    requires sp.off + n <= |sp.others| && HasGlobals(n, c.s) && VStep(isa, n, code, c).Some?
    ensures var c' := VStep(isa, n, code, c).value;
            && HasGlobals(n, c'.s)
            && VStep(isa, |sp.others|, all, Config(base + c.pc, MovedState(sp, c.s)))
               == Some(Config(base + c'.pc, MovedState(sp, c'.s)))
  {
    OutcomeMoved(isa, sp, n, code, all, base, c.pc, c.s);
    AfterMoved(isa, sp, code, all, base, c.pc, VExec(isa, n, FrameAt(code, INITIAL_FRAME, c.pc), code[c.pc], c.s));
  }

  lemma ObservedMoved(isa: Isa, sp: Spot, n: nat, code: seq<Instr>, all: seq<Instr>, base: nat, c: Config<VState>,
                      o: Obs<VState>)
    requires isa.symbolic && KeepsLabelVals(sp.h) && AllMovable(code) && Installed(code, all, base, sp)
    requires sp.off + n <= |sp.others| && HasGlobals(n, c.s) && VObserved(isa, n, code, c, o)
    ensures VObserved(isa, |sp.others|, all, Config(base + c.pc, MovedState(sp, c.s)), MovedObs(sp, o))
  {
    assert InstalledAt(code, all, base, sp, c.pc);
    if o.Halted? { OutcomeMoved(isa, sp, n, code, all, base, c.pc, c.s); }
  }

  /** Any observation of the module's code on its own is one of the whole program. */
  lemma {:induction false} RunMoved(isa: Isa, sp: Spot, n: nat, code: seq<Instr>, all: seq<Instr>, base: nat,
                                    k: nat, c: Config<VState>, o: Obs<VState>)
    requires isa.symbolic && KeepsLabelVals(sp.h) && AllMovable(code) && Installed(code, all, base, sp)
    requires sp.off + n <= |sp.others| && HasGlobals(n, c.s)
    requires VArrivesIn(isa, n, code, k, c, o)
    ensures VArrivesIn(isa, |sp.others|, all, k, Config(base + c.pc, MovedState(sp, c.s)), MovedObs(sp, o))
    decreases k
  {
    if k == 0 {
      ObservedMoved(isa, sp, n, code, all, base, c, o);
    } else {
      StepMoved(isa, sp, n, code, all, base, c);
      RunMoved(isa, sp, n, code, all, base, k - 1, VStep(isa, n, code, c).value, o);
    }
  }

  /** A module can be moved to base. */
  ghost predicate Fits(code: seq<Instr>, n: nat, all: seq<Instr>, base: nat, sp: Spot) {
    KeepsLabelVals(sp.h) && AllMovable(code) && Installed(code, all, base, sp) && sp.off + n <= |sp.others|
  }

  lemma ArrivesMoved(isa: Isa, sp: Spot, n: nat, code: seq<Instr>, all: seq<Instr>, base: nat, c: Config<VState>,
                     o: Obs<VState>)
    requires isa.symbolic && Fits(code, n, all, base, sp) && HasGlobals(n, c.s) && VArrives(isa, n, code, c, o)
    ensures VArrives(isa, |sp.others|, all, Config(base + c.pc, MovedState(sp, c.s)), MovedObs(sp, o))
  {
    var k: nat :| VArrivesIn(isa, n, code, k, c, o);
    RunMoved(isa, sp, n, code, all, base, k, c, o);
  }
}
