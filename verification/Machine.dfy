/** A step function for AVM code, after the emulator (src/run/emulator.rs:1379-1803). An immediate is
    pushed before its opcode acts, and an execution error is a fault that no run passes. Labels may
    still be in the code; they do nothing when reached. */
module Machine {
  import opened Avm

  datatype Stack = Empty | Push(top: Value, rest: Stack)

  /** Meanings of the integer opcodes, and two switches: strict holds the locations at which IsZero
      insists on a 0/1 operand, and symbolic says whether jumps go by label or by code point. */
  datatype Isa = Isa(
    un: (UnOp, nat) -> Option<nat>,
    bin: (BinOp, nat, nat) -> Option<nat>,
    strict: set<nat>,
    symbolic: bool)

  datatype State = State(stack: Stack, aux: Stack, reg: Value)

  datatype Outcome<+S> = Next(s: S) | Goto(target: Value, s: S) | Stop(s: S) | Fault

  function PushImm(imm: Option<Value>, st: Stack): Stack {
    if imm.Some? then Push(imm.value, st) else st
  }

  function BoolVal(b: bool): Value { Int(if b then 1 else 0) }

  /** Opcodes that only touch the data stack. */
  function ExecData(isa: Isa, op: AvmOp, loc: nat, st: Stack): Option<Stack> {
    match op
    case Noop => Some(st)
    case Pop => if st.Push? then Some(st.rest) else None
    case Dup0 => if st.Push? then Some(Push(st.top, st)) else None
    case Dup1 => if st.Push? && st.rest.Push? then Some(Push(st.rest.top, st)) else None
    case Dup2 =>
      if st.Push? && st.rest.Push? && st.rest.rest.Push? then Some(Push(st.rest.rest.top, st)) else None
    case Swap1 =>
      if st.Push? && st.rest.Push? then Some(Push(st.rest.top, Push(st.top, st.rest.rest))) else None
    case Swap2 =>
      if st.Push? && st.rest.Push? && st.rest.rest.Push? then
        Some(Push(st.rest.rest.top, Push(st.rest.top, Push(st.top, st.rest.rest.rest))))
      else None
    case Tget =>
      if st.Push? && st.rest.Push? && st.top.Int? && st.rest.top.Tuple? && st.top.n < |st.rest.top.elems| then
        Some(Push(st.rest.top.elems[st.top.n], st.rest.rest))
      else None
    case Tset =>
      if && st.Push? && st.rest.Push? && st.rest.rest.Push?
         && st.top.Int? && st.rest.top.Tuple? && st.top.n < |st.rest.top.elems| then
        Some(Push(Tuple(st.rest.top.elems[st.top.n := st.rest.rest.top]), st.rest.rest.rest))
      else None
    case Tlen =>
      if st.Push? && st.top.Tuple? then Some(Push(Int(|st.top.elems|), st.rest)) else None
    case Equal =>
      if st.Push? && st.rest.Push? && CodeFree(st.top) && CodeFree(st.rest.top) then
        Some(Push(BoolVal(st.top == st.rest.top), st.rest.rest))
      else None
    case IsZero =>
      if st.Push? && st.top.Int? && (loc in isa.strict ==> st.top.n <= 1) then
        Some(Push(BoolVal(st.top.n == 0), st.rest))
      else None
    case Un(u) =>
      if st.Push? && st.top.Int? && isa.un(u, st.top.n).Some? then
        Some(Push(Int(isa.un(u, st.top.n).value), st.rest))
      else None
    case Bin(b) =>
      if && st.Push? && st.rest.Push? && st.top.Int? && st.rest.top.Int?
         && isa.bin(b, st.top.n, st.rest.top.n).Some? then
        Some(Push(Int(isa.bin(b, st.top.n, st.rest.top.n).value), st.rest.rest))
      else None
    case _ => None
  }

  predicate IsCodeRef(isa: Isa, v: Value) {
    if isa.symbolic then v.LabelVal? else v.CodePoint?
  }

  function Exec(isa: Isa, insn: Instr, s: State): Outcome<State> {
    var st := PushImm(insn.imm, s.stack);
    match insn.op
    case LabelOp(_) => if insn.imm.None? then Next(s) else Fault
    case AVM(op) => (
      match op
      case AuxPush =>
        if st.Push? then Next(State(st.rest, Push(st.top, s.aux), s.reg)) else Fault
      case AuxPop =>
        if s.aux.Push? then Next(State(Push(s.aux.top, st), s.aux.rest, s.reg)) else Fault
      case Xget =>
        if && st.Push? && st.top.Int? && s.aux.Push? && s.aux.top.Tuple?
           && st.top.n < |s.aux.top.elems| then
          Next(State(Push(s.aux.top.elems[st.top.n], st.rest), s.aux, s.reg))
        else Fault
      case Xset =>
        if && st.Push? && st.rest.Push? && st.top.Int? && s.aux.Push? && s.aux.top.Tuple?
           && st.top.n < |s.aux.top.elems| then
          Next(State(st.rest.rest, Push(Tuple(s.aux.top.elems[st.top.n := st.rest.top]), s.aux.rest), s.reg))
        else Fault
      case Rpush => Next(State(Push(s.reg, st), s.aux, s.reg))
      case Rset => if st.Push? then Next(State(st.rest, s.aux, st.top)) else Fault
      case Jump =>
        if st.Push? && IsCodeRef(isa, st.top) then Goto(st.top, State(st.rest, s.aux, s.reg)) else Fault
      case Cjump =>
        if st.Push? && st.rest.Push? && IsCodeRef(isa, st.top) && st.rest.top.Int? then
          if st.rest.top.n != 0 then Goto(st.top, State(st.rest.rest, s.aux, s.reg))
          else Next(State(st.rest.rest, s.aux, s.reg))
        else Fault
      case Halt => Stop(State(st, s.aux, s.reg))
      case _ =>
        var r := ExecData(isa, op, insn.loc, st);
        if r.Some? then Next(State(r.value, s.aux, s.reg)) else Fault)
    case _ => Fault
  }

  /** The first position holding the label. */
  function FindLabel(code: seq<Instr>, l: Label): (r: Option<nat>)
    ensures r.Some? ==> r.value < |code| && code[r.value].op == LabelOp(l)
  {
    if code == [] then None
    else if code[0].op == LabelOp(l) then Some(0)
    else
      var r := FindLabel(code[1..], l);
      if r.Some? then Some(r.value + 1) else None
  }

  lemma {:induction false} FindLabelFirst(code: seq<Instr>, l: Label, i: nat)
    requires i < |code| && code[i].op == LabelOp(l)
    ensures FindLabel(code, l).Some? && FindLabel(code, l).value <= i
  {
    if code[0].op != LabelOp(l) { FindLabelFirst(code[1..], l, i - 1); }
  }

  predicate UniqueLabels(code: seq<Instr>) {
    forall a, b :: 0 <= a < b < |code| && code[a].op.LabelOp? && code[b].op.LabelOp? ==> code[a].op != code[b].op
  }

  /** A label is found where it stands. */
  lemma LabelAt(code: seq<Instr>, t: nat, l: Label)
    requires UniqueLabels(code) && t < |code| && code[t].op == LabelOp(l)
    ensures FindLabel(code, l) == Some(t)
  {
    FindLabelFirst(code, l, t);
  }

  function Target(isa: Isa, code: seq<Instr>, v: Value): Option<nat> {
    match v
    case LabelVal(l) => if isa.symbolic then FindLabel(code, l) else None
    case CodePoint(Internal(pc)) => if isa.symbolic then None else Some(pc)
    case _ => None
  }

  datatype Config<+S> = Config(pc: nat, s: S)

  /** Where an outcome at position pc takes the run; None when it stops or faults. */
  function After<S>(isa: Isa, code: seq<Instr>, pc: nat, r: Outcome<S>): Option<Config<S>> {
    match r
    case Next(s) => Some(Config(pc + 1, s))
    case Goto(v, s) =>
      var t := Target(isa, code, v);
      if t.Some? then Some(Config(t.value, s)) else None
    case _ => None
  }

  /** One step of a program. */
  function Step(isa: Isa, code: seq<Instr>, c: Config<State>): Option<Config<State>> {
    if c.pc >= |code| then None else After(isa, code, c.pc, Exec(isa, code[c.pc], c.s))
  }

  /** What a run is observed to do: reach a label in a state, halt in a state, or, once labels are
      gone, reach a position in a state. */
  datatype Obs<+S> = AtLabel(lab: Label, s: S) | Halted(s: S) | AtPc(pc: nat, s: S)

  predicate Observed(isa: Isa, code: seq<Instr>, c: Config<State>, o: Obs<State>) {
    match o
    case AtLabel(l, s) => c.pc < |code| && code[c.pc].op == LabelOp(l) && c.s == s
    case Halted(s) => c.pc < |code| && Exec(isa, code[c.pc], c.s) == Stop(s)
    case AtPc(pc, s) => c == Config(pc, s)
  }

  /** The run from c makes observation o after n steps. */
  ghost predicate ArrivesIn(isa: Isa, code: seq<Instr>, n: nat, c: Config<State>, o: Obs<State>) {
    if n == 0 then Observed(isa, code, c, o)
    else
      var next := Step(isa, code, c);
      next.Some? && ArrivesIn(isa, code, n - 1, next.value, o)
  }

  ghost predicate Arrives(isa: Isa, code: seq<Instr>, c: Config<State>, o: Obs<State>) {
    exists n: nat :: ArrivesIn(isa, code, n, c, o)
  }

  lemma ArrivesStep(isa: Isa, code: seq<Instr>, c: Config<State>, o: Obs<State>)
    requires Step(isa, code, c).Some? && Arrives(isa, code, Step(isa, code, c).value, o)
    ensures Arrives(isa, code, c, o)
  {
    var n: nat :| ArrivesIn(isa, code, n, Step(isa, code, c).value, o);
    assert ArrivesIn(isa, code, n + 1, c, o);
  }

  lemma ArrivesNow(isa: Isa, code: seq<Instr>, c: Config<State>, o: Obs<State>)
    requires Observed(isa, code, c, o)
    ensures Arrives(isa, code, c, o)
  {
    assert ArrivesIn(isa, code, 0, c, o);
  }

  /** Straight-line execution of a list of instructions. */
  function Run(isa: Isa, seg: seq<Instr>, s: State): Option<State> {
    if seg == [] then Some(s)
    else
      match Exec(isa, seg[0], s)
      case Next(s') => Run(isa, seg[1..], s')
      case _ => None
  }

  lemma {:induction false} RunAppend(isa: Isa, a: seq<Instr>, b: seq<Instr>, s: State)
    ensures Run(isa, a + b, s) == (var r := Run(isa, a, s); if r.Some? then Run(isa, b, r.value) else None)
  {
    if a == [] {
      assert a + b == b;
    } else {
      assert (a + b)[0] == a[0] && (a + b)[1..] == a[1..] + b;
      match Exec(isa, a[0], s)
      case Next(s') => RunAppend(isa, a[1..], b, s');
      case _ =>
    }
  }

  predicate SegAt(code: seq<Instr>, pc: nat, seg: seq<Instr>) {
    pc + |seg| <= |code| && code[pc..pc + |seg|] == seg
  }

  /** A straight-line segment inside a program moves the run from its start to its end. */
  lemma {:induction false} RunSegment(isa: Isa, code: seq<Instr>, pc: nat, seg: seq<Instr>, s: State, o: Obs<State>)
    requires SegAt(code, pc, seg)
    requires Run(isa, seg, s).Some?
    requires Arrives(isa, code, Config(pc + |seg|, Run(isa, seg, s).value), o)
    ensures Arrives(isa, code, Config(pc, s), o)
    decreases |seg|
  {
    if seg != [] {
      assert code[pc] == seg[0];
      assert code[pc + 1..pc + |seg|] == seg[1..];
      RunSegment(isa, code, pc + 1, seg[1..], Exec(isa, seg[0], s).s, o);
      ArrivesStep(isa, code, Config(pc, s), o);
    }
  }

  /** Executing a segment from s ends in outcome o: straight through, or leaving at its last
      instruction. */
  ghost predicate Yields(isa: Isa, seg: seq<Instr>, s: State, o: Outcome<State>) {
    match o
    case Next(s') => Run(isa, seg, s) == Some(s')
    case Fault => true
    case _ =>
      && seg != []
      && var m := Run(isa, seg[..|seg| - 1], s);
         m.Some? && Exec(isa, seg[|seg| - 1], m.value) == o
  }

  lemma YieldsOne(isa: Isa, x: Instr, s: State)
    ensures Yields(isa, [x], s, Exec(isa, x, s))
  {
    assert [x][..0] == [] && [x][1..] == [];
  }

  /** Where a segment that yields an outcome takes the run. */
  lemma YieldsArrives(isa: Isa, code: seq<Instr>, pc: nat, seg: seq<Instr>, s: State, o: Outcome<State>,
                      obs: Obs<State>)
    requires SegAt(code, pc, seg) && Yields(isa, seg, s, o)
    requires match o
             case Next(s') => Arrives(isa, code, Config(pc + |seg|, s'), obs)
             case Goto(v, s') =>
               Target(isa, code, v).Some? && Arrives(isa, code, Config(Target(isa, code, v).value, s'), obs)
             case Stop(s') => obs == Halted(s')
             case Fault => false
    ensures Arrives(isa, code, Config(pc, s), obs)
  {
    if o.Next? {
      RunSegment(isa, code, pc, seg, s, obs);
    } else {
      var init, last := seg[..|seg| - 1], |seg| - 1;
      var m := Run(isa, init, s).value;
      assert code[pc + last] == seg[last];
      assert code[pc..pc + last] == init;
      var c := Config(pc + last, m);
      if o.Goto? {
        ArrivesStep(isa, code, c, obs);
      } else {
        ArrivesNow(isa, code, c, obs);
      }
      RunSegment(isa, code, pc, init, s, obs);
    }
  }

  /** Label search in a concatenation. */
  lemma {:induction false} FindLabelAppend(a: seq<Instr>, b: seq<Instr>, l: Label)
    ensures FindLabel(a + b, l) ==
            var r := FindLabel(a, l);
            if r.Some? then r
            else var r' := FindLabel(b, l); if r'.Some? then Some(|a| + r'.value) else None
  {
    if a == [] {
      assert a + b == b;
    } else {
      assert (a + b)[0] == a[0] && (a + b)[1..] == a[1..] + b;
      FindLabelAppend(a[1..], b, l);
    }
  }
}
