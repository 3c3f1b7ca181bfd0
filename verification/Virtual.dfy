/** The machine that code generation aims at: locals and globals are flat sequences, and tuples of
    any size are read and written by slot number. A fault is a stuck state. */
module Virtual {
  import opened Avm
  import opened Machine
  import opened TupleTrees

  /** The aux stack: saved values, and call frames with their local slots. */
  datatype VAux = ANil | AVal(v: Value, below: VAux) | AFrame(locals: seq<Value>, below: VAux)

  /** The register: a table of globals once it has been set to one. */
  datatype VReg = Raw(v: Value) | Globals(vals: seq<Value>)

  datatype VState = VState(stack: Stack, aux: VAux, reg: VReg)

  function RegValue(r: VReg): Value {
    match r
    case Raw(v) => v
    case Globals(vals) => MakeValue(TreeOf(|vals|, false), vals)
  }

  function DecodeReg(numGlobals: nat, v: Value): VReg {
    var vals := Flatten(TreeOf(numGlobals, false), v);
    if vals.Some? then Globals(vals.value) else Raw(v)
  }

  datatype Taken = Taken(args: seq<Value>, rest: Stack)

  /** The n topmost values in popping order, and the stack below them. */
  function TakeArgs(n: nat, st: Stack): (r: Option<Taken>)
    ensures r.Some? ==> |r.value.args| == n
  {
    if n == 0 then Some(Taken([], st))
    else if st.Empty? then None
    else
      var r := TakeArgs(n - 1, st.rest);
      if r.Some? then Some(Taken([st.top] + r.value.args, r.value.rest)) else None
  }

  /** Element idx of a fixed array of the given size: an 8-ary tree indexed by base-8 digits, the
      least significant digit at the root. */
  function FixedGet(isa: Isa, size: nat, arr: Value, idx: nat): Option<Value>
    decreases size
  {
    if size > TUPLE_SIZE then
      var slot, sub := isa.bin(Mod, idx, TUPLE_SIZE), isa.bin(Div, idx, TUPLE_SIZE);
      if slot.Some? && sub.Some? && arr.Tuple? && slot.value < |arr.elems| then
        FixedGet(isa, (size + (TUPLE_SIZE - 1)) / TUPLE_SIZE, arr.elems[slot.value], sub.value)
      else None
    else if arr.Tuple? && idx < |arr.elems| then Some(arr.elems[idx])
    else None
  }

  function ImmIndex(insn: Instr): Option<nat> {
    if insn.imm.Some? then ToUsize(insn.imm.value) else None
  }

  /** frameSize is the size of the frame that the code around the instruction has made; accessing
      any other frame is a fault. */
  function VExec(isa: Isa, numGlobals: nat, frameSize: nat, insn: Instr, s: VState): Outcome<VState> {
    var st := PushImm(insn.imm, s.stack);
    var idx := ImmIndex(insn);
    match insn.op
    case LabelOp(_) => if insn.imm.None? then Next(s) else Fault
    case AVM(op) => VExecAvm(isa, numGlobals, op, insn.loc, st, s)
    case GetLocal =>
      if idx.Some? && s.aux.AFrame? && |s.aux.locals| == frameSize && idx.value < frameSize then
        Next(VState(Push(s.aux.locals[idx.value], s.stack), s.aux, s.reg))
      else Fault
    case SetLocal =>
      if idx.Some? && s.stack.Push? && s.aux.AFrame? && |s.aux.locals| == frameSize && idx.value < frameSize then
        Next(VState(s.stack.rest, AFrame(s.aux.locals[idx.value := s.stack.top], s.aux.below), s.reg))
      else Fault
    case TupleGet(size) =>
      if idx.Some? && s.stack.Push? && idx.value < size && Flatten(TreeOf(size, false), s.stack.top).Some? then
        Next(VState(Push(Flatten(TreeOf(size, false), s.stack.top).value[idx.value], s.stack.rest), s.aux, s.reg))
      else Fault
    case TupleSet(size) =>
      if && idx.Some? && s.stack.Push? && s.stack.rest.Push? && idx.value < size
         && Flatten(TreeOf(size, false), s.stack.top).Some? then
        var vals := Flatten(TreeOf(size, false), s.stack.top).value;
        var v' := MakeValue(TreeOf(size, false), vals[idx.value := s.stack.rest.top]);
        Next(VState(Push(v', s.stack.rest.rest), s.aux, s.reg))
      else Fault
    case GetGlobalVar(i) =>
      if insn.imm.None? && s.reg.Globals? && |s.reg.vals| == numGlobals && i < numGlobals then
        Next(VState(Push(s.reg.vals[i], s.stack), s.aux, s.reg))
      else Fault
    case SetGlobalVar(i) =>
      if insn.imm.None? && s.reg.Globals? && |s.reg.vals| == numGlobals && i < numGlobals && s.stack.Push? then
        Next(VState(s.stack.rest, s.aux, Globals(s.reg.vals[i := s.stack.top])))
      else Fault
    case MakeFrame(nargs, ntotal, returnAddress) =>
      // the return address is taken before the immediate is pushed
      if nargs > ntotal || (returnAddress && s.stack.Empty?) then Fault
      else
        var below := if returnAddress then AVal(s.stack.top, s.aux) else s.aux;
        var taken := TakeArgs(nargs, PushImm(insn.imm, if returnAddress then s.stack.rest else s.stack));
        if taken.Some? then
          Next(VState(taken.value.rest, AFrame(taken.value.args + Nones(ntotal - nargs), below), s.reg))
        else Fault
    case Return =>
      if s.aux.AFrame? && s.aux.below.AVal? && IsCodeRef(isa, s.aux.below.v) then
        Goto(s.aux.below.v, VState(st, s.aux.below.below, s.reg))
      else Fault
    case UncheckedFixedArrayGet(size) =>
      if && insn.imm.None? && s.stack.Push? && s.stack.rest.Push? && s.stack.top.Int?
         && FixedGet(isa, size, s.stack.rest.top, s.stack.top.n).Some? then
        Next(VState(Push(FixedGet(isa, size, s.stack.rest.top, s.stack.top.n).value, s.stack.rest.rest), s.aux, s.reg))
      else Fault
    case _ => Fault
  }

  /** Real opcodes: as on the AVM, except that a frame is not a value one can pop or index, and that
      setting the register to a table of globals makes it one. */
  function VExecAvm(isa: Isa, numGlobals: nat, op: AvmOp, loc: nat, st: Stack, s: VState): Outcome<VState> {
    match op
    case AuxPush =>
      if st.Push? then Next(VState(st.rest, AVal(st.top, s.aux), s.reg)) else Fault
    case AuxPop =>
      if s.aux.AVal? then Next(VState(Push(s.aux.v, st), s.aux.below, s.reg)) else Fault
    case Xget =>
      if && st.Push? && st.top.Int? && s.aux.AVal? && s.aux.v.Tuple? && st.top.n < |s.aux.v.elems| then
        Next(VState(Push(s.aux.v.elems[st.top.n], st.rest), s.aux, s.reg))
      else Fault
    case Xset =>
      if && st.Push? && st.rest.Push? && st.top.Int? && s.aux.AVal? && s.aux.v.Tuple?
         && st.top.n < |s.aux.v.elems| then
        Next(VState(st.rest.rest, AVal(Tuple(s.aux.v.elems[st.top.n := st.rest.top]), s.aux.below), s.reg))
      else Fault
    case Rpush => Next(VState(Push(RegValue(s.reg), st), s.aux, s.reg))
    case Rset => if st.Push? then Next(VState(st.rest, s.aux, DecodeReg(numGlobals, st.top))) else Fault
    case Jump =>
      if st.Push? && IsCodeRef(isa, st.top) then Goto(st.top, VState(st.rest, s.aux, s.reg)) else Fault
    case Cjump =>
      if st.Push? && st.rest.Push? && IsCodeRef(isa, st.top) && st.rest.top.Int? then
        if st.rest.top.n != 0 then Goto(st.top, VState(st.rest.rest, s.aux, s.reg))
        else Next(VState(st.rest.rest, s.aux, s.reg))
      else Fault
    case Halt => Stop(VState(st, s.aux, s.reg))
    case _ =>
      var r := ExecData(isa, op, loc, st);
      if r.Some? then Next(VState(r.value, s.aux, s.reg)) else Fault
  }

  /** The frame size in force at position i: that of the last MakeFrame before it. */
  function FrameAfter(insn: Instr, frameSize: nat): nat {
    if insn.op.MakeFrame? then insn.op.ntotal else frameSize
  }

  function FrameAt(code: seq<Instr>, frameSize: nat, i: nat): nat
    requires i <= |code|
  {
    if i == 0 then frameSize else FrameAt(code[1..], FrameAfter(code[0], frameSize), i - 1)
  }

  /** Before any MakeFrame the code may assume a frame of one slot. */
  const INITIAL_FRAME: nat := 1

  function VStep(isa: Isa, numGlobals: nat, code: seq<Instr>, c: Config<VState>): Option<Config<VState>> {
    if c.pc >= |code| then None
    else After(isa, code, c.pc, VExec(isa, numGlobals, FrameAt(code, INITIAL_FRAME, c.pc), code[c.pc], c.s))
  }

  predicate VObserved(isa: Isa, numGlobals: nat, code: seq<Instr>, c: Config<VState>, o: Obs<VState>) {
    && c.pc < |code|
    && match o
       case AtLabel(l, s) => code[c.pc].op == LabelOp(l) && c.s == s
       case Halted(s) => VExec(isa, numGlobals, FrameAt(code, INITIAL_FRAME, c.pc), code[c.pc], c.s) == Stop(s)
       case AtPc(_, _) => false
  }

  ghost predicate VArrivesIn(isa: Isa, numGlobals: nat, code: seq<Instr>, n: nat, c: Config<VState>, o: Obs<VState>) {
    if n == 0 then VObserved(isa, numGlobals, code, c, o)
    else
      var next := VStep(isa, numGlobals, code, c);
      next.Some? && VArrivesIn(isa, numGlobals, code, n - 1, next.value, o)
  }

  ghost predicate VArrives(isa: Isa, numGlobals: nat, code: seq<Instr>, c: Config<VState>, o: Obs<VState>) {
    exists n: nat :: VArrivesIn(isa, numGlobals, code, n, c, o)
  }

  lemma VArrivesStep(isa: Isa, numGlobals: nat, code: seq<Instr>, c: Config<VState>, o: Obs<VState>)
    requires VStep(isa, numGlobals, code, c).Some?
    requires VArrives(isa, numGlobals, code, VStep(isa, numGlobals, code, c).value, o)
    ensures VArrives(isa, numGlobals, code, c, o)
  {
    var n: nat :| VArrivesIn(isa, numGlobals, code, n, VStep(isa, numGlobals, code, c).value, o);
    assert VArrivesIn(isa, numGlobals, code, n + 1, c, o);
  }

  lemma VArrivesNow(isa: Isa, numGlobals: nat, code: seq<Instr>, c: Config<VState>, o: Obs<VState>)
    requires VObserved(isa, numGlobals, code, c, o)
    ensures VArrives(isa, numGlobals, code, c, o)
  {
    assert VArrivesIn(isa, numGlobals, code, 0, c, o);
  }

  lemma {:induction false} FrameAtAppend(a: seq<Instr>, b: seq<Instr>, frameSize: nat, j: nat)
    requires j <= |b|
    ensures FrameAt(a + b, frameSize, |a| + j) == FrameAt(b, FrameAt(a, frameSize, |a|), j)
  {
    if a == [] {
      assert a + b == b;
    } else {
      assert (a + b)[1..] == a[1..] + b && (a + b)[0] == a[0];
      FrameAtAppend(a[1..], b, FrameAfter(a[0], frameSize), j);
    }
  }

  lemma {:induction false} FrameAtPrefix(a: seq<Instr>, b: seq<Instr>, frameSize: nat, j: nat)
    requires j <= |a|
    ensures FrameAt(a + b, frameSize, j) == FrameAt(a, frameSize, j)
  {
    if j > 0 {
      assert (a + b)[1..] == a[1..] + b && (a + b)[0] == a[0];
      FrameAtPrefix(a[1..], b, FrameAfter(a[0], frameSize), j - 1);
    }
  }

  lemma FrameAtNext(code: seq<Instr>, f: nat, i: nat)
    requires i < |code|
    ensures FrameAt(code, f, i + 1) == FrameAfter(code[i], FrameAt(code, f, i))
  {
    var a, b := code[..i], code[i..];
    assert code == a + b;
    FrameAtAppend(a, b, f, 1);
    FrameAtAppend(a, b, f, 0);
    assert FrameAt(b, FrameAt(a, f, i), 1) == FrameAt(b[1..], FrameAfter(b[0], FrameAt(a, f, i)), 0);
  }
}
