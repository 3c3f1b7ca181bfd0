/** Routing jumps through the table preserves meaning: as long as the last global holds the table,
    every fetch yields the label it replaced, and no instruction of the program disturbs it. */
module NonforwardCorrect {
  import opened Avm
  import opened Machine
  import opened TupleTrees
  import opened Virtual
  import opened Expansion
  import opened Nonforward

  // ----- the table in the last global -----

  function LabelVals(table: seq<Label>): (vals: seq<Value>)
    ensures |vals| == |table|
  {
    seq(|table|, i requires 0 <= i < |table| => LabelVal(table[i]))
  }

  function TableValue(table: seq<Label>): Value {
    ValueFromFieldList(LabelVals(table))
  }

  predicate HasGlobals(numGlobals: nat, s: VState) {
    s.reg.Globals? && |s.reg.vals| == numGlobals
  }

  /** The state as the routed program has it: the last global is the table. */
  function Tabled(table: seq<Label>, s: VState): VState {
    if s.reg.Globals? && s.reg.vals != [] then
      VState(s.stack, s.aux, Globals(s.reg.vals[|s.reg.vals| - 1 := TableValue(table)]))
    else s
  }

  function TabledOutcome(table: seq<Label>, r: Outcome<VState>): Outcome<VState> {
    match r
    case Next(s) => Next(Tabled(table, s))
    case Goto(v, s) => Goto(v, Tabled(table, s))
    case Stop(s) => Stop(Tabled(table, s))
    case Fault => Fault
  }

  function TabledObs(table: seq<Label>, o: Obs<VState>): Obs<VState> {
    match o
    case AtLabel(l, s) => AtLabel(l, Tabled(table, s))
    case Halted(s) => Halted(Tabled(table, s))
    case AtPc(pc, s) => AtPc(pc, Tabled(table, s))
  }

  /** Programs leave the register and the last global to the linker, and give a new frame no label by
      an immediate below which the return address lies. */
  predicate Undisturbing(insn: Instr, numGlobals: nat) {
    match insn.op
    case AVM(op) => op != Rpush && op != Rset
    case GetGlobalVar(i) => i + 1 != numGlobals
    case SetGlobalVar(i) => i + 1 != numGlobals
    case MakeFrame(_, _, returnAddress) => !(returnAddress && insn.imm.Some? && insn.imm.value.LabelVal?)
    case _ => true
  }

  ghost predicate AllUndisturbing(code: seq<Instr>, numGlobals: nat) {
    forall i :: 0 <= i < |code| ==> Undisturbing(code[i], numGlobals)
  }

  /** Whatever an instruction does, it does the same beside the table, and the table stays. */
  lemma ExecBesideTable(isa: Isa, table: seq<Label>, numGlobals: nat, frameSize: nat, insn: Instr, s: VState)
    requires Undisturbing(insn, numGlobals) && HasGlobals(numGlobals, s)
    ensures var r := VExec(isa, numGlobals, frameSize, insn, s);
            !r.Fault? ==> && HasGlobals(numGlobals, r.s)
                          && VExec(isa, numGlobals, frameSize, insn, Tabled(table, s)) == TabledOutcome(table, r)
  {
    match insn.op
    case AVM(op) => AvmBesideTable(isa, table, numGlobals, op, insn.loc, PushImm(insn.imm, s.stack), s);
    case GetGlobalVar(_) => GetBesideTable(isa, table, numGlobals, frameSize, insn, s);
    case SetGlobalVar(_) => SetBesideTable(isa, table, numGlobals, frameSize, insn, s);
    case _ => OtherIgnoresRegister(isa, numGlobals, frameSize, insn, s, Tabled(table, s).reg);
  }

  /** Apart from real opcodes and accesses to globals, instructions do not look at the register. */
  lemma OtherIgnoresRegister(isa: Isa, numGlobals: nat, frameSize: nat, insn: Instr, s: VState, reg: VReg)
    requires !insn.op.AVM? && !insn.op.GetGlobalVar? && !insn.op.SetGlobalVar?
    ensures var r := VExec(isa, numGlobals, frameSize, insn, s);
            && (!r.Fault? ==> r.s.reg == s.reg)
            && VExec(isa, numGlobals, frameSize, insn, s.(reg := reg)) == WithReg(reg, r)
  {
    match insn.op
    case MakeFrame(_, _, _) =>
    case TupleGet(_) =>
    case TupleSet(_) =>
    case _ =>
  }

  lemma GetBesideTable(isa: Isa, table: seq<Label>, numGlobals: nat, frameSize: nat, insn: Instr, s: VState)
    requires insn.op.GetGlobalVar? && insn.op.idx + 1 != numGlobals && HasGlobals(numGlobals, s)
    ensures var r := VExec(isa, numGlobals, frameSize, insn, s);
            !r.Fault? ==> && HasGlobals(numGlobals, r.s)
                          && VExec(isa, numGlobals, frameSize, insn, Tabled(table, s)) == TabledOutcome(table, r)
  {
    var i, vals, t, n: int := insn.op.idx, s.reg.vals, TableValue(table), numGlobals - 1;
    if insn.imm.None? && i < n {
      var s' := Tabled(table, s);
      assert s' == VState(s.stack, s.aux, Globals(vals[n := t])) && vals[n := t][i] == vals[i];
      assert VExec(isa, numGlobals, frameSize, insn, s) == Next(VState(Push(vals[i], s.stack), s.aux, s.reg));
      assert VExec(isa, numGlobals, frameSize, insn, s') == Next(VState(Push(vals[i], s.stack), s.aux, s'.reg));
    }
  }

  function WithReg(reg: VReg, r: Outcome<VState>): Outcome<VState> {
    match r
    case Next(s) => Next(s.(reg := reg))
    case Goto(v, s) => Goto(v, s.(reg := reg))
    case Stop(s) => Stop(s.(reg := reg))
    case Fault => Fault
  }

  lemma AvmIgnoresRegister(isa: Isa, numGlobals: nat, op: AvmOp, loc: nat, st: Stack, s: VState, reg: VReg)
    requires op != Rpush && op != Rset
    ensures var r := VExecAvm(isa, numGlobals, op, loc, st, s);
            && (!r.Fault? ==> r.s.reg == s.reg)
            && VExecAvm(isa, numGlobals, op, loc, st, s.(reg := reg)) == WithReg(reg, r)
  {
  }

  lemma AvmBesideTable(isa: Isa, table: seq<Label>, numGlobals: nat, op: AvmOp, loc: nat, st: Stack, s: VState)
    requires op != Rpush && op != Rset && HasGlobals(numGlobals, s)
    ensures var r := VExecAvm(isa, numGlobals, op, loc, st, s);
            !r.Fault? ==> && HasGlobals(numGlobals, r.s)
                          && VExecAvm(isa, numGlobals, op, loc, st, Tabled(table, s)) == TabledOutcome(table, r)
  {
    AvmIgnoresRegister(isa, numGlobals, op, loc, st, s, Tabled(table, s).reg);
  }

  lemma SetBesideTable(isa: Isa, table: seq<Label>, numGlobals: nat, frameSize: nat, insn: Instr, s: VState)
    requires insn.op.SetGlobalVar? && insn.op.idx + 1 != numGlobals && HasGlobals(numGlobals, s)
    ensures var r := VExec(isa, numGlobals, frameSize, insn, s);
            !r.Fault? ==> && HasGlobals(numGlobals, r.s)
                          && VExec(isa, numGlobals, frameSize, insn, Tabled(table, s)) == TabledOutcome(table, r)
  {
    var i, vals := insn.op.idx, s.reg.vals;
    var t, n: int := TableValue(table), numGlobals - 1;
    if i < n && s.stack.Push? {
      assert vals[n := t][i := s.stack.top] == vals[i := s.stack.top][n := t];
    }
  }

  /** Pushing a label first and then executing without the immediate is the same. */
  lemma ExecWithout(isa: Isa, numGlobals: nat, frameSize: nat, insn: Instr, s: VState)
    requires insn.imm.Some? && insn.imm.value.LabelVal? && !(insn.op.MakeFrame? && insn.op.returnAddress)
    requires !VExec(isa, numGlobals, frameSize, insn, s).Fault?
    ensures var s' := VState(Push(insn.imm.value, s.stack), s.aux, s.reg);
            VExec(isa, numGlobals, frameSize, Instr(insn.op, None, insn.loc), s')
              == VExec(isa, numGlobals, frameSize, insn, s)
  {
  }

  // The other instructions, where routing is seen: exactly when.

  /** Reading the register or the last global shows the table, unless it was there already. */
  lemma ReadingShowsTable(isa: Isa, table: seq<Label>, numGlobals: nat, f: nat, insn: Instr, s: VState)
    requires HasGlobals(numGlobals, s) && numGlobals > 0
    requires insn.op == AVM(Rpush) || (insn.op == GetGlobalVar(numGlobals - 1) && insn.imm.None?)
    ensures VExec(isa, numGlobals, f, insn, Tabled(table, s))
            == TabledOutcome(table, VExec(isa, numGlobals, f, insn, s))
            <==> s.reg.vals[numGlobals - 1] == TableValue(table)
  {
    var vals, t := s.reg.vals, TableValue(table);
    if insn.op == AVM(Rpush) {
      TableInRegister(vals, t);
      RpushExec(isa, numGlobals, f, insn, s);
      RpushExec(isa, numGlobals, f, insn, Tabled(table, s));
    }
  }

  lemma RpushExec(isa: Isa, numGlobals: nat, f: nat, insn: Instr, s: VState)
    requires insn.op == AVM(Rpush)
    ensures VExec(isa, numGlobals, f, insn, s)
            == Next(VState(Push(RegValue(s.reg), PushImm(insn.imm, s.stack)), s.aux, s.reg))
  {
  }

  lemma TableInRegister(vals: seq<Value>, t: Value)
    requires vals != []
    ensures RegValue(Globals(vals[|vals| - 1 := t])) == RegValue(Globals(vals)) <==> vals[|vals| - 1] == t
  {
    var vals' := vals[|vals| - 1 := t];
    FlattenMake(TreeOf(|vals|, false), vals);
    FlattenMake(TreeOf(|vals|, false), vals');
    assert vals[|vals| - 1] == t ==> vals' == vals;
  }

  /** Writing them loses the table, unless it is what is written. */
  lemma WritingLosesTable(isa: Isa, table: seq<Label>, numGlobals: nat, f: nat, insn: Instr, s: VState)
    requires HasGlobals(numGlobals, s) && numGlobals > 0 && !VExec(isa, numGlobals, f, insn, s).Fault?
    requires insn.op == AVM(Rset) || insn.op == SetGlobalVar(numGlobals - 1)
    ensures var r := VExec(isa, numGlobals, f, insn, s);
            HasGlobals(numGlobals, r.s) && VExec(isa, numGlobals, f, insn, Tabled(table, s)) == TabledOutcome(table, r)
            <==> HasGlobals(numGlobals, r.s) && r.s.reg.vals[numGlobals - 1] == TableValue(table)
  {
    var r, vals, t := VExec(isa, numGlobals, f, insn, s), s.reg.vals, TableValue(table);
    if insn.op.SetGlobalVar? { LastOverwritten(vals, t, s.stack.top); }
    if HasGlobals(numGlobals, r.s) { LastOverwritten(r.s.reg.vals, t, t); }
  }

  lemma LastOverwritten(vals: seq<Value>, t: Value, x: Value)
    requires vals != []
    ensures vals[|vals| - 1 := t][|vals| - 1 := x] == vals[|vals| - 1 := x]
    ensures vals[|vals| - 1 := t] == vals <==> vals[|vals| - 1] == t
  {
  }

  /** A label fetched for a new frame is taken for the return address, unless it is the same. */
  lemma FetchedForReturn(isa: Isa, numGlobals: nat, f: nat, insn: Instr, s: VState)
    requires insn.op.MakeFrame? && insn.op.returnAddress && insn.imm.Some? && insn.imm.value.LabelVal?
    requires !VExec(isa, numGlobals, f, insn, s).Fault?
    ensures var s' := VState(Push(insn.imm.value, s.stack), s.aux, s.reg);
            VExec(isa, numGlobals, f, Instr(insn.op, None, insn.loc), s') == VExec(isa, numGlobals, f, insn, s)
            <==> s.stack.top == insn.imm.value
  {
    if s.stack.top == insn.imm.value { assert s.stack == Push(insn.imm.value, s.stack.rest); }
  }

  // ----- frames -----

  /** Only the last instruction of a segment may make a frame, and it does as the original did. */
  ghost predicate KeepsFrame(insn: Instr, seg: seq<Instr>) {
    && seg != []
    && (forall k :: 0 <= k < |seg| - 1 ==> !seg[k].op.MakeFrame?)
    && forall f: nat :: FrameAfter(seg[|seg| - 1], f) == FrameAfter(insn, f)
  }

  lemma {:induction false} FrameInside(seg: seq<Instr>, f: nat, k: nat)
    requires k <= |seg| && forall j :: 0 <= j < k ==> !seg[j].op.MakeFrame?
    ensures FrameAt(seg, f, k) == f
    decreases k
  {
    if k > 0 { FrameInside(seg[1..], f, k - 1); }
  }

  lemma FrameOver(insn: Instr, seg: seq<Instr>, f: nat)
    requires KeepsFrame(insn, seg)
    ensures FrameAt(seg, f, |seg|) == FrameAfter(insn, f)
  {
    var n := |seg| - 1;
    assert seg == seg[..n] + [seg[n]];
    FrameAtAppend(seg[..n], [seg[n]], f, 1);
    FrameInside(seg[..n], f, n);
    assert FrameAt([seg[n]], f, 1) == FrameAt([seg[n]][1..], FrameAfter(seg[n], f), 0);
  }

  lemma {:induction false} FrameExpanded(code: seq<Instr>, segs: seq<seq<Instr>>, f: nat, i: nat, k: nat)
    requires |code| == |segs| && i < |code| && k < |segs[i]| && Pos(segs, i) + k <= |Concat(segs)|
    requires forall j :: 0 <= j < |code| ==> KeepsFrame(code[j], segs[j])
    ensures FrameAt(Concat(segs), f, Pos(segs, i) + k) == FrameAt(code, f, i)
    decreases i
  {
    var rest := Concat(segs[1..]);
    if i == 0 {
      FrameAtPrefix(segs[0], rest, f, k);
      FrameInside(segs[0], f, k);
    } else {
      FrameAtAppend(segs[0], rest, f, Pos(segs[1..], i - 1) + k);
      FrameOver(code[0], segs[0], f);
      forall j | 0 <= j < |code[1..]| ensures KeepsFrame(code[1..][j], segs[1..][j]) {
        assert KeepsFrame(code[j + 1], segs[j + 1]);
      }
      FrameExpanded(code[1..], segs[1..], FrameAfter(code[0], f), i - 1, k);
    }
  }

  // ----- a routed program -----

  /** How the segments of a routed program relate to the instructions. */
  ghost predicate RoutedAs(code: seq<Instr>, segs: seq<seq<Instr>>, table: seq<Label>, slot: nat) {
    && |segs| == |code|
    && forall i :: 0 <= i < |code| ==> KeepsFrame(code[i], segs[i]) && SegKeepsLabel(code[i], segs[i])
                                       && RoutedOne(code[i], segs[i], table, slot)
  }

  ghost predicate RoutedOne(insn: Instr, seg: seq<Instr>, table: seq<Label>, slot: nat) {
    || insn.op.PushExternal?
    || seg == [insn]
    || (&& insn.imm.Some? && insn.imm.value.LabelVal? && insn.imm.value.lab in table
        && seg == [Instr(GetGlobalVar(slot), None, insn.loc),
                   Instr(TupleGet(|table|), Some(Int(IndexIn(table, insn.imm.value.lab))), insn.loc),
                   Instr(insn.op, None, insn.loc)])
  }

  /** A label with an immediate cannot be executed, so a program has none. */
  ghost predicate BareLabels(code: seq<Instr>) {
    forall i :: 0 <= i < |code| && code[i].op.LabelOp? ==> code[i].imm.None?
  }

  lemma SegIsRouted(insn: Instr, away: set<Label>, table: seq<Label>, slot: nat)
    requires Fetched(insn, away).Some? ==> Fetched(insn, away).value in table
    requires insn.op.LabelOp? ==> insn.imm.None?
    ensures var seg := SegFor(insn, away, table, slot);
            KeepsFrame(insn, seg) && SegKeepsLabel(insn, seg) && RoutedOne(insn, seg, table, slot)
  {
    var seg := SegFor(insn, away, table, slot);
    if insn.op.PushExternal? {
      PushExternalSeg(insn, away, table, slot);
    } else if Fetched(insn, away).Some? {
      SegDetour(insn, away, table, slot);
    } else {
      SegSame(insn, away, table, slot);
    }
  }

  lemma PushExternalSeg(insn: Instr, away: set<Label>, table: seq<Label>, slot: nat)
    requires Fetched(insn, away).Some? ==> Fetched(insn, away).value in table
    requires insn.op.PushExternal?
    ensures var seg := SegFor(insn, away, table, slot);
            seg != [] && forall k :: 0 <= k < |seg| ==> !seg[k].op.LabelOp? && !seg[k].op.MakeFrame?
  {
    if Fetched(insn, away).Some? {
      var k := IndexIn(table, Fetched(insn, away).value);
      FetchAllThree(Instr(GetGlobalVar(slot), None, insn.loc), Instr(PushExternal(k), None, insn.loc),
                    Instr(insn.op, None, insn.loc), |table|);
    } else {
      SegSame(insn, away, table, slot);
    }
  }

  /** The segments of a whole routed program. */
  function SegsOf(code: seq<Instr>, imports: seq<ImportedFunc>, slot: nat): (segs: seq<seq<Instr>>)
    ensures |segs| == |code|
  {
    RouteSegs(code, ImportedLabels(imports), Route(code, imports, slot).table, slot)
  }

  lemma RouteIsRouted(code: seq<Instr>, imports: seq<ImportedFunc>, slot: nat)
    requires BareLabels(code)
    ensures var r := Route(code, imports, slot);
            Concat(SegsOf(code, imports, slot)) == r.code && RoutedAs(code, SegsOf(code, imports, slot), r.table, slot)
  {
    var away, r, segs := ImportedLabels(imports), Route(code, imports, slot), SegsOf(code, imports, slot);
    DetoursAreSegs(code, away, [], slot);
    forall i | 0 <= i < |code|
      ensures KeepsFrame(code[i], segs[i]) && SegKeepsLabel(code[i], segs[i])
              && RoutedOne(code[i], segs[i], r.table, slot)
    {
      RouteSegsAt(code, away, r.table, slot, i);
      if Fetched(code[i], AwayAt(code, away, i)).Some? { FetchedInTable(code, away, [], slot, i); }
      SegIsRouted(code[i], AwayAt(code, away, i), r.table, slot);
    }
  }

  // ----- runs -----

  /** A fetch yields the label, whatever the run has done. */
  lemma FetchYields(isa: Isa, table: seq<Label>, numGlobals: nat, frameSize: nat, l: Label, loc: nat, s: VState)
    requires HasGlobals(numGlobals, s) && numGlobals > 0 && l in table && |table| <= USIZE_LIMIT
    ensures var s' := Tabled(table, s);
            var r := VExec(isa, numGlobals, frameSize, Instr(GetGlobalVar(numGlobals - 1), None, loc), s');
            && r.Next?
            && VExec(isa, numGlobals, frameSize, Instr(TupleGet(|table|), Some(Int(IndexIn(table, l))), loc), r.s)
               == Next(VState(Push(LabelVal(l), s'.stack), s'.aux, s'.reg))
  {
    assert Flatten(TreeOf(|table|, false), TableValue(table)) == Some(LabelVals(table));
  }

  /** A step from inside the expansion of instruction i. */
  lemma StepIn(isa: Isa, numGlobals: nat, code: seq<Instr>, segs: seq<seq<Instr>>, table: seq<Label>, i: nat, k: nat,
               s: VState)
    requires numGlobals > 0 && RoutedAs(code, segs, table, numGlobals - 1)
    requires i < |code| && k < |segs[i]|
    ensures Pos(segs, i) + k < |Concat(segs)| && Concat(segs)[Pos(segs, i) + k] == segs[i][k]
    ensures FrameAt(Concat(segs), INITIAL_FRAME, Pos(segs, i) + k) == FrameAt(code, INITIAL_FRAME, i)
  {
    SegPlaced(segs, i);
    var p := Pos(segs, i);
    assert Concat(segs)[p..p + |segs[i]|][k] == Concat(segs)[p + k];
    FrameExpanded(code, segs, INITIAL_FRAME, i, k);
  }

  /** The routed program goes on from wherever the outcome takes it. */
  ghost predicate GoesOn(isa: Isa, numGlobals: nat, code: seq<Instr>, segs: seq<seq<Instr>>, table: seq<Label>,
                         i: nat, r: Outcome<VState>, o: Obs<VState>)
    requires |segs| == |code| && i < |code|
  {
    match r
    case Next(s) => VArrives(isa, numGlobals, Concat(segs), Config(Pos(segs, i + 1), Tabled(table, s)), o)
    case Goto(v, s) =>
      var t := Target(isa, code, v);
      t.Some? && t.value <= |code| && VArrives(isa, numGlobals, Concat(segs),
                                               Config(Pos(segs, t.value), Tabled(table, s)), o)
    case Stop(s) => o == Halted(Tabled(table, s))
    case Fault => false
  }

  lemma StepNext(isa: Isa, numGlobals: nat, code: seq<Instr>, pc: nat, s: VState, s': VState)
    requires pc < |code| && VExec(isa, numGlobals, FrameAt(code, INITIAL_FRAME, pc), code[pc], s) == Next(s')
    ensures VStep(isa, numGlobals, code, Config(pc, s)) == Some(Config(pc + 1, s'))
  {
  }

  lemma StepGoto(isa: Isa, numGlobals: nat, code: seq<Instr>, pc: nat, s: VState, v: Value, s': VState)
    requires pc < |code| && VExec(isa, numGlobals, FrameAt(code, INITIAL_FRAME, pc), code[pc], s) == Goto(v, s')
    requires Target(isa, code, v).Some?
    ensures VStep(isa, numGlobals, code, Config(pc, s)) == Some(Config(Target(isa, code, v).value, s'))
  {
  }

  /** The last instruction of a segment takes the run where the original did. */
  lemma LastStep(isa: Isa, numGlobals: nat, code: seq<Instr>, segs: seq<seq<Instr>>, table: seq<Label>,
                 i: nat, s: VState, r: Outcome<VState>, o: Obs<VState>)
    requires isa.symbolic && numGlobals > 0 && RoutedAs(code, segs, table, numGlobals - 1) && i < |code|
    requires VExec(isa, numGlobals, FrameAt(code, INITIAL_FRAME, i), segs[i][|segs[i]| - 1], s)
             == TabledOutcome(table, r)
    requires GoesOn(isa, numGlobals, code, segs, table, i, r, o)
    ensures VArrives(isa, numGlobals, Concat(segs), Config(Pos(segs, i) + |segs[i]| - 1, s), o)
  {
    var out, p: nat := Concat(segs), Pos(segs, i) + |segs[i]| - 1;
    StepIn(isa, numGlobals, code, segs, table, i, |segs[i]| - 1, s);
    SegPlaced(segs, i);
    assert Pos(segs, i) + (|segs[i]| - 1) == p && Pos(segs, i + 1) == p + 1;
    assert out[p] == segs[i][|segs[i]| - 1] && FrameAt(out, INITIAL_FRAME, p) == FrameAt(code, INITIAL_FRAME, i);
    if r.Stop? {
      VArrivesNow(isa, numGlobals, out, Config(p, s), o);
    } else if r.Next? {
      NextArrives(isa, numGlobals, out, p, s, Tabled(table, r.s), o);
    } else {
      FindLabelExpanded(code, segs, r.target.lab);
      GotoArrives(isa, numGlobals, out, p, s, r.target, Tabled(table, r.s), o);
    }
  }

  lemma NextArrives(isa: Isa, numGlobals: nat, code: seq<Instr>, pc: nat, s: VState, s': VState, o: Obs<VState>)
    requires pc < |code| && VExec(isa, numGlobals, FrameAt(code, INITIAL_FRAME, pc), code[pc], s) == Next(s')
    requires VArrives(isa, numGlobals, code, Config(pc + 1, s'), o)
    ensures VArrives(isa, numGlobals, code, Config(pc, s), o)
  {
    StepNext(isa, numGlobals, code, pc, s, s');
    VArrivesStep(isa, numGlobals, code, Config(pc, s), o);
  }

  lemma GotoArrives(isa: Isa, numGlobals: nat, code: seq<Instr>, pc: nat, s: VState, v: Value, s': VState,
                    o: Obs<VState>)
    requires pc < |code| && VExec(isa, numGlobals, FrameAt(code, INITIAL_FRAME, pc), code[pc], s) == Goto(v, s')
    requires Target(isa, code, v).Some? && VArrives(isa, numGlobals, code, Config(Target(isa, code, v).value, s'), o)
    ensures VArrives(isa, numGlobals, code, Config(pc, s), o)
  {
    StepGoto(isa, numGlobals, code, pc, s, v, s');
    VArrivesStep(isa, numGlobals, code, Config(pc, s), o);
  }

  /** The two steps of a fetch. */
  lemma FetchArrives(isa: Isa, numGlobals: nat, code: seq<Instr>, segs: seq<seq<Instr>>, table: seq<Label>,
                     i: nat, l: Label, s: VState, o: Obs<VState>)
    requires isa.symbolic && numGlobals > 0 && RoutedAs(code, segs, table, numGlobals - 1) && i < |code|
    requires |table| <= USIZE_LIMIT && HasGlobals(numGlobals, s) && l in table && |segs[i]| == 3
    requires segs[i][0] == Instr(GetGlobalVar(numGlobals - 1), None, code[i].loc)
    requires segs[i][1] == Instr(TupleGet(|table|), Some(Int(IndexIn(table, l))), code[i].loc)
    requires var s0 := Tabled(table, s);
             VArrives(isa, numGlobals, Concat(segs), Config(Pos(segs, i) + 2,
                                                            VState(Push(LabelVal(l), s0.stack), s0.aux, s0.reg)), o)
    ensures VArrives(isa, numGlobals, Concat(segs), Config(Pos(segs, i), Tabled(table, s)), o)
  {
    var out, p, s0, f := Concat(segs), Pos(segs, i), Tabled(table, s), FrameAt(code, INITIAL_FRAME, i);
    FetchYields(isa, table, numGlobals, f, l, code[i].loc, s);
    StepIn(isa, numGlobals, code, segs, table, i, 0, s);
    StepIn(isa, numGlobals, code, segs, table, i, 1, s);
    var s1 := VExec(isa, numGlobals, f, segs[i][0], s0).s;
    StepNext(isa, numGlobals, out, p + 1, s1, VState(Push(LabelVal(l), s0.stack), s0.aux, s0.reg));
    VArrivesStep(isa, numGlobals, out, Config(p + 1, s1), o);
    StepNext(isa, numGlobals, out, p, s0, s1);
    VArrivesStep(isa, numGlobals, out, Config(p, s0), o);
  }

  /** One instruction of the program, and the segment it was routed to. */
  lemma RoutedStep(isa: Isa, numGlobals: nat, code: seq<Instr>, segs: seq<seq<Instr>>, table: seq<Label>,
                   i: nat, s: VState, r: Outcome<VState>, o: Obs<VState>)
    requires isa.symbolic && numGlobals > 0 && RoutedAs(code, segs, table, numGlobals - 1) && i < |code|
    requires |table| <= USIZE_LIMIT && HasGlobals(numGlobals, s) && Undisturbing(code[i], numGlobals)
    requires r == VExec(isa, numGlobals, FrameAt(code, INITIAL_FRAME, i), code[i], s)
    requires GoesOn(isa, numGlobals, code, segs, table, i, r, o)
    ensures VArrives(isa, numGlobals, Concat(segs), Config(Pos(segs, i), Tabled(table, s)), o)
  {
    var insn, f := code[i], FrameAt(code, INITIAL_FRAME, i);
    ExecBesideTable(isa, table, numGlobals, f, insn, s);
    var s0 := Tabled(table, s);
    if segs[i] == [insn] {
      LastStep(isa, numGlobals, code, segs, table, i, s0, r, o);
    } else {
      assert RoutedOne(insn, segs[i], table, numGlobals - 1);
      ExecWithout(isa, numGlobals, f, insn, s0);
      LastStep(isa, numGlobals, code, segs, table, i, VState(Push(insn.imm.value, s0.stack), s0.aux, s0.reg), r, o);
      FetchArrives(isa, numGlobals, code, segs, table, i, insn.imm.value.lab, s, o);
    }
  }

  lemma {:induction false} SegsSimulate(isa: Isa, numGlobals: nat, code: seq<Instr>, segs: seq<seq<Instr>>,
                                        table: seq<Label>, n: nat, c: Config<VState>, o: Obs<VState>)
    requires isa.symbolic && numGlobals > 0 && RoutedAs(code, segs, table, numGlobals - 1) && |table| <= USIZE_LIMIT
    requires AllUndisturbing(code, numGlobals) && HasGlobals(numGlobals, c.s)
    requires c.pc <= |code| && VArrivesIn(isa, numGlobals, code, n, c, o)
    ensures VArrives(isa, numGlobals, Concat(segs), Config(Pos(segs, c.pc), Tabled(table, c.s)), TabledObs(table, o))
    decreases n
  {
    var insn, f := code[c.pc], FrameAt(code, INITIAL_FRAME, c.pc);
    var r := VExec(isa, numGlobals, f, insn, c.s);
    ExecBesideTable(isa, table, numGlobals, f, insn, c.s);
    if n == 0 && o.AtLabel? {
      StepIn(isa, numGlobals, code, segs, table, c.pc, 0, c.s);
      VArrivesNow(isa, numGlobals, Concat(segs), Config(Pos(segs, c.pc), Tabled(table, c.s)), TabledObs(table, o));
    } else {
      if n > 0 {
        var next := VStep(isa, numGlobals, code, c).value;
        SegsSimulate(isa, numGlobals, code, segs, table, n - 1, next, o);
      }
      RoutedStep(isa, numGlobals, code, segs, table, c.pc, c.s, r, TabledObs(table, o));
    }
  }

  /** The main result: every observation of the program is one of the routed program, run with the
      table in the last global, and the table is still there. */
  lemma RoutingPreserves(isa: Isa, numGlobals: nat, code: seq<Instr>, imports: seq<ImportedFunc>, s: VState,
                         o: Obs<VState>)
    requires isa.symbolic && numGlobals > 0 && BareLabels(code) && AllUndisturbing(code, numGlobals)
    requires |Route(code, imports, numGlobals - 1).table| <= USIZE_LIMIT
    requires HasGlobals(numGlobals, s) && VArrives(isa, numGlobals, code, Config(0, s), o)
    ensures var r := Route(code, imports, numGlobals - 1);
            VArrives(isa, numGlobals, r.code, Config(0, Tabled(r.table, s)), TabledObs(r.table, o))
  {
    RouteIsRouted(code, imports, numGlobals - 1);
    var n: nat :| VArrivesIn(isa, numGlobals, code, n, Config(0, s), o);
    SegsSimulate(isa, numGlobals, code, SegsOf(code, imports, numGlobals - 1),
                 Route(code, imports, numGlobals - 1).table, n, Config(0, s), o);
  }
}
