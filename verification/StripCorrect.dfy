/** Stripping labels is a simulation: a run that jumps by label is matched, step by step except
    for the labels themselves, by the run that jumps by code point. */
module StripCorrect {
  import opened Avm
  import opened Machine
  import opened StripLabels
  import opened Renaming

  // ----- values and states with labels replaced -----

  /** A label becomes its code point; an undefined one, the null code point. */
  function PointTo(m: LabelMap): Naming {
    (v: Value) => if v.LabelVal? then CodePoint(if v.lab in m then m[v.lab] else NullPt) else v
  }

  /** Total form of ReplaceLabels. */
  function Xlate(m: LabelMap, v: Value): Value { Renamed(PointTo(m), v) }

  function XlateStack(m: LabelMap, st: Stack): Stack { RenamedStack(PointTo(m), st) }

  function XlateState(m: LabelMap, s: State): State {
    State(XlateStack(m, s.stack), XlateStack(m, s.aux), Xlate(m, s.reg))
  }

  function XlateOutcome(m: LabelMap, o: Outcome<State>): Outcome<State> {
    match o
    case Next(s) => Next(XlateState(m, s))
    case Goto(v, s) => Goto(Xlate(m, v), XlateState(m, s))
    case Stop(s) => Stop(XlateState(m, s))
    case Fault => Fault
  }

  function XlateInsn(m: LabelMap, insn: Instr): Instr {
    if insn.imm.Some? then Instr(insn.op, Some(Xlate(m, insn.imm.value)), insn.loc) else insn
  }

  /** Reaching a label becomes reaching its code point. */
  function XlateObs(m: LabelMap, o: Obs<State>): Obs<State> {
    match o
    case AtLabel(l, s) => AtPc(if l in m && m[l].Internal? then m[l].pc else 0, XlateState(m, s))
    case Halted(s) => Halted(XlateState(m, s))
    case AtPc(pc, s) => AtPc(pc, XlateState(m, s))
  }

  /** Jumps by code point. */
  function Concrete(isa: Isa): Isa { isa.(symbolic := false) }

  lemma {:induction false} ReplaceIsXlate(v: Value, m: LabelMap)
    requires ReplaceLabels(v, m).Ok?
    ensures ReplaceLabels(v, m).value == Xlate(m, v)
    decreases v, 1
  {
    if v.Tuple? { ReplaceAllIsXlate(v.elems, m); }
  }

  lemma {:induction false} ReplaceAllIsXlate(es: seq<Value>, m: LabelMap)
    requires ReplaceAll(es, m).Ok?
    ensures |ReplaceAll(es, m).value| == |es|
    ensures forall i :: 0 <= i < |es| ==> ReplaceAll(es, m).value[i] == Xlate(m, es[i])
    decreases es, 0
  {
    if es != [] {
      ReplaceIsXlate(es[0], m);
      ReplaceAllIsXlate(es[1..], m);
    }
  }

  // ----- one instruction -----

  lemma PushImmCommutes(m: LabelMap, insn: Instr, st: Stack)
    ensures PushImm(XlateInsn(m, insn).imm, XlateStack(m, st)) == XlateStack(m, PushImm(insn.imm, st))
  {
  }

  lemma ExecCommutes(isa: Isa, m: LabelMap, insn: Instr, s: State)
    requires isa.symbolic && !insn.op.LabelOp? && !Exec(isa, insn, s).Fault?
    ensures Exec(Concrete(isa), XlateInsn(m, insn), XlateState(m, s)) == XlateOutcome(m, Exec(isa, insn, s))
  {
    var st, h := PushImm(insn.imm, s.stack), PointTo(m);
    PushImmCommutes(m, insn, s.stack);
    match insn.op.op
    case Xget => RenamedTuple(h, s.aux.top.elems, st.top.n, NONE);
    case Xset =>
      RenamedTuple(h, s.aux.top.elems, st.top.n, st.rest.top);
      assert RenamedStack(h, st.rest) == Push(Renamed(h, st.rest.top), RenamedStack(h, st.rest.rest));
    case AuxPush =>
    case AuxPop =>
    case Rpush =>
    case Rset =>
    case Jump =>
    case Cjump => assert RenamedStack(h, st.rest) == Push(Renamed(h, st.rest.top), RenamedStack(h, st.rest.rest));
    case Halt =>
    case op => DataRenamed(isa, Concrete(isa), h, op, insn.loc, st);
  }

  // ----- whole programs -----

  /** Stripping keeps the other instructions in order. */
  lemma {:induction false} StripCodeAt(code: seq<Instr>, m: LabelMap, i: nat)
    requires StripCode(code, m).Ok? && i <= |code|
    ensures Count(code, i) <= |StripCode(code, m).value|
    ensures i < |code| && !code[i].op.LabelOp? ==>
              && Count(code, i) < |StripCode(code, m).value|
              && StripCode(code, m).value[Count(code, i)] == XlateInsn(m, code[i])
    ensures Count(code, |code|) == |StripCode(code, m).value|
    decreases |code|
  {
    if code != [] {
      CountTail(code, |code|);
      if i > 0 { CountTail(code, i); }
      StripCodeAt(code[1..], m, if i > 0 then i - 1 else 0);
      if !code[0].op.LabelOp? && code[0].imm.Some? { ReplaceIsXlate(code[0].imm.value, m); }
    }
  }

  /** Position by position, out is the code without its labels, with references translated. */
  ghost predicate Translates(code: seq<Instr>, m: LabelMap, out: seq<Instr>) {
    forall i :: 0 <= i < |code| ==> TranslatedAt(code, m, out, i)
  }

  predicate TranslatedAt(code: seq<Instr>, m: LabelMap, out: seq<Instr>, i: nat)
    requires i < |code|
  {
    !code[i].op.LabelOp? ==> Count(code, i) < |out| && out[Count(code, i)] == XlateInsn(m, code[i])
  }

  lemma StripTranslates(code: seq<Instr>, m: LabelMap)
    requires StripCode(code, m).Ok?
    ensures Translates(code, m, StripCode(code, m).value)
  {
    forall i | 0 <= i < |code| ensures TranslatedAt(code, m, StripCode(code, m).value, i) {
      StripCodeAt(code, m, i);
    }
  }

  /** The main result: every observation of the labelled program is one of the stripped program, with
      labels read as code points. */
  lemma {:induction false} StripSimulates(isa: Isa, code: seq<Instr>, m: LabelMap, out: seq<Instr>,
                                          n: nat, c: Config<State>, o: Obs<State>)
    requires isa.symbolic && !o.AtPc? && Places(code, 0, m) && Translates(code, m, out)
    requires c.pc <= |code| && ArrivesIn(isa, code, n, c, o)
    ensures Arrives(Concrete(isa), out, Config(Count(code, c.pc), XlateState(m, c.s)), XlateObs(m, o))
    decreases n
  {
    var isa' := Concrete(isa);
    var c' := Config(Count(code, c.pc), XlateState(m, c.s));
    var insn := code[c.pc];
    assert TranslatedAt(code, m, out, c.pc) && PlacedAt(code, 0, m, c.pc);
    if insn.op.LabelOp? {
      if n == 0 {
        ArrivesNow(isa', out, c', XlateObs(m, o));
      } else {
        StripSimulates(isa, code, m, out, n - 1, Step(isa, code, c).value, o);
      }
    } else {
      ExecCommutes(isa, m, insn, c.s);
      if n == 0 {
        ArrivesNow(isa', out, c', XlateObs(m, o));
      } else {
        var next := Step(isa, code, c).value;
        StripSimulates(isa, code, m, out, n - 1, next, o);
        StepTranslates(isa, code, m, out, c, next);
        ArrivesStep(isa', out, c', XlateObs(m, o));
      }
    }
  }

  lemma StepTranslates(isa: Isa, code: seq<Instr>, m: LabelMap, out: seq<Instr>, c: Config<State>, next: Config<State>)
    requires isa.symbolic && Places(code, 0, m) && Translates(code, m, out)
    requires c.pc < |code| && !code[c.pc].op.LabelOp? && Step(isa, code, c) == Some(next)
    requires Exec(Concrete(isa), XlateInsn(m, code[c.pc]), XlateState(m, c.s))
             == XlateOutcome(m, Exec(isa, code[c.pc], c.s))
    ensures next.pc <= |code|
    ensures Step(Concrete(isa), out, Config(Count(code, c.pc), XlateState(m, c.s)))
            == Some(Config(Count(code, next.pc), XlateState(m, next.s)))
  {
    var r := Exec(isa, code[c.pc], c.s);
    assert TranslatedAt(code, m, out, c.pc);
    if r.Goto? { assert PlacedAt(code, 0, m, next.pc); }
  }
}
