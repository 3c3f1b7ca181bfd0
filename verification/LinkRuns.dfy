/** The run-level result on linking: whatever a module does on its own, the linked program does at
    the module's place. */
module LinkRuns {
  import opened Avm
  import opened Machine
  import opened Virtual
  import opened NonforwardCorrect
  import opened Linker
  import opened LinkerCorrect
  import opened Postlink
  import opened PostlinkCorrect
  import opened LabelOrder
  import opened LinkSound

  /** A module makes a frame before it uses locals, and defines none of its import slots. */
  ghost predicate SelfContained(code: seq<Instr>) {
    && (forall k :: 0 <= k < |code| && UsesFrame(code[k]) ==> FrameBefore(code, k))
    && forall k :: 0 <= k < |code| && code[k].op.LabelOp? ==> !code[k].op.lab.External?
  }

  ghost predicate FrameBefore(code: seq<Instr>, k: nat)
    requires k <= |code|
  {
    exists j :: 0 <= j < k && code[j].op.MakeFrame?
  }

  /** Where module i ends up, beside the given other globals. */
  function SpotOf(progs: seq<Program>, i: nat, others: seq<Value>): Spot
    requires i < |progs|
  {
    Spot(Moving(OffsetsAt(progs, i), Resolution(progs)), OffsetsAt(progs, i).glob, others)
  }

  // ----- the code of a module in the linked program -----

  /** The position of a module's first instruction, counted after the initialising ones. */
  function BaseOf(progs: seq<Program>, i: nat): nat
    requires i <= |progs|
  {
    |CodeUpTo(progs, i)|
  }

  lemma {:induction false} CodeAt(progs: seq<Program>, n: nat, i: nat, k: nat, base: nat)
    requires i < n <= |progs| && k < |progs[i].code| && base == BaseOf(progs, i)
    ensures base + |progs[i].code| <= |CodeUpTo(progs, n)|
    ensures CodeUpTo(progs, n)[base + k] == RelocInsn(progs[i].code[k], OffsetsAt(progs, i))
    decreases n
  {
    if i < n - 1 { CodeAt(progs, n - 1, i, k, base); }
  }

  lemma {:induction false} BaseFits(progs: seq<Program>, n: nat, i: nat)
    requires i < n <= |progs|
    ensures BaseOf(progs, i) + |progs[i].code| <= |CodeUpTo(progs, n)|
    decreases n
  {
    if i < n - 1 { BaseFits(progs, n - 1, i); }
  }

  lemma BodyAt(progs: seq<Program>, i: nat, k: nat, body: seq<Instr>, base: nat)
    requires i < |progs| && k < |progs[i].code| && body == Body(progs) && base == BaseOf(progs, i)
    ensures base + k < |body|
    ensures body[base + k] == ResolveInsn(RelocInsn(progs[i].code[k], OffsetsAt(progs, i)), Resolution(progs))
  {
    var n, x := |progs|, base + k;
    CodeAt(progs, n, i, k, base);
    assert x < |CodeUpTo(progs, n)| && CodeUpTo(progs, n)[x] == RelocInsn(progs[i].code[k], OffsetsAt(progs, i));
    BodyAtOf(progs, x);
  }

  lemma BodyAtOf(progs: seq<Program>, x: nat)
    requires x < |CodeUpTo(progs, |progs|)|
    ensures |Body(progs)| == |CodeUpTo(progs, |progs|)|
    ensures Body(progs)[x] == ResolveInsn(CodeUpTo(progs, |progs|)[x], Resolution(progs))
  {
  }

  lemma ResolutionKeepsOwn(progs: seq<Program>, l: Label)
    requires !l.External?
    ensures l !in Resolution(progs)
  {
    if l in Resolution(progs) {
      ResolveMapOnly(ImportsUpTo(progs, |progs|), ExportMap(ExportsUpTo(progs, |progs|)), l);
    }
  }

  lemma LinkedInsnIsMoved(progs: seq<Program>, i: nat, others: seq<Value>, insn: Instr)
    requires i < |progs| && !insn.op.PushExternal? && (insn.op.LabelOp? ==> !insn.op.lab.External?)
    ensures ResolveInsn(RelocInsn(insn, OffsetsAt(progs, i)), Resolution(progs))
            == MovedInsn(SpotOf(progs, i, others), insn)
  {
    var o, m := OffsetsAt(progs, i), Resolution(progs);
    if insn.op.LabelOp? { ResolutionKeepsOwn(progs, RelocLabel(insn.op.lab, o)); }
    InsnIsMoved(o, m, others, insn);
  }

  lemma InsnIsMoved(o: Offsets, m: map<Label, Label>, others: seq<Value>, insn: Instr)
    requires !insn.op.PushExternal? && (insn.op.LabelOp? ==> RelocLabel(insn.op.lab, o) !in m)
    ensures ResolveInsn(RelocInsn(insn, o), m) == MovedInsn(Spot(Moving(o, m), o.glob, others), insn)
  {
    if insn.imm.Some? { MovedValue(o, m, insn.imm.value); }
  }

  /** Once a frame has been made, what came before does not matter. */
  lemma {:induction false} FrameForgets(code: seq<Instr>, all: seq<Instr>, base: nat, k: nat)
    requires k <= |code| && base + k <= |all| && FrameBefore(code, k)
    requires forall j :: 0 <= j < k ==> SameFrame(code[j], all[base + j])
    ensures FrameAt(all, INITIAL_FRAME, base + k) == FrameAt(code, INITIAL_FRAME, k)
  {
    FrameAtNext(code, INITIAL_FRAME, k - 1);
    FrameAtNext(all, INITIAL_FRAME, base + k - 1);
    assert SameFrame(code[k - 1], all[base + (k - 1)]);
    if !code[k - 1].op.MakeFrame? { FrameForgets(code, all, base, k - 1); }
  }

  predicate SameFrame(a: Instr, b: Instr) {
    a.op.MakeFrame? == b.op.MakeFrame? && (a.op.MakeFrame? ==> a.op.ntotal == b.op.ntotal)
  }

  lemma BodySameFrame(progs: seq<Program>, i: nat, j: nat, body: seq<Instr>, base: nat)
    requires i < |progs| && j < |progs[i].code| && body == Body(progs) && base == BaseOf(progs, i)
    ensures base + j < |body| && SameFrame(progs[i].code[j], body[base + j])
  {
    BodyAt(progs, i, j, body, base);
    LinkedSameFrame(progs[i].code[j], OffsetsAt(progs, i), Resolution(progs));
  }

  lemma BodyFrameAt(progs: seq<Program>, i: nat, k: nat, code: seq<Instr>, body: seq<Instr>, base: nat)
    requires i < |progs| && code == progs[i].code && body == Body(progs) && base == BaseOf(progs, i)
    requires k < |code| && FrameBefore(code, k)
    ensures base + k < |body| && FrameAt(body, INITIAL_FRAME, base + k) == FrameAt(code, INITIAL_FRAME, k)
  {
    BodySameFrame(progs, i, k, body, base);
    forall j | 0 <= j < k ensures SameFrame(code[j], body[base + j]) { BodySameFrame(progs, i, j, body, base); }
    FrameForgets(code, body, base, k);
  }

  lemma LinkedSameFrame(insn: Instr, o: Offsets, m: map<Label, Label>)
    ensures SameFrame(insn, ResolveInsn(RelocInsn(insn, o), m))
  {
  }

  lemma ModuleInstalled(progs: seq<Program>, i: nat, others: seq<Value>)
    requires Compilable(progs) && i < |progs| && SelfContained(progs[i].code)
    ensures Installed(progs[i].code, Body(progs), BaseOf(progs, i), SpotOf(progs, i, others))
  {
    var code, body, base, sp := progs[i].code, Body(progs), BaseOf(progs, i), SpotOf(progs, i, others);
    BaseFits(progs, |progs|, i);
    NoDuplicates(progs);
    forall k | 0 <= k < |code| ensures InstalledAt(code, body, base, sp, k) {
      BodyAt(progs, i, k, body, base);
      if !code[k].op.PushExternal? { LinkedInsnIsMoved(progs, i, others, code[k]); }
      if UsesFrame(code[k]) { BodyFrameAt(progs, i, k, code, body, base); }
    }
  }

  lemma ModuleMovable(progs: seq<Program>, i: nat)
    requires AllWellMade(progs) && i < |progs|
    ensures AllMovable(progs[i].code)
  {
    forall k | 0 <= k < |progs[i].code|
      ensures Movable(progs[i].code[k])
    {
      assert WellMade(progs[i].code[k]);
    }
  }

  /** The module's globals fit below the last one. */
  lemma WindowFits(progs: seq<Program>, i: nat, testMode: bool)
    requires i < |progs|
    ensures OffsetsAt(progs, i).glob + |progs[i].globals| < |Linked(progs, testMode).globals|
  {
    OffsetsGrow(progs, i + 1, |progs|);
  }

  lemma ModuleFits(progs: seq<Program>, i: nat, others: seq<Value>, testMode: bool)
    requires Compilable(progs) && i < |progs| && SelfContained(progs[i].code)
    requires |others| == |Linked(progs, testMode).globals|
    ensures Fits(progs[i].code, |progs[i].globals|, Body(progs), BaseOf(progs, i), SpotOf(progs, i, others))
  {
    ModuleInstalled(progs, i, others);
    ModuleMovable(progs, i);
    MovingKeeps(OffsetsAt(progs, i), Resolution(progs));
    WindowFits(progs, i, testMode);
  }

  /** The main result: the linked program, at the module's offset, with labels renamed and the
      module's globals in their window, observes whatever the module observes on its own. */
  lemma LinkSimulates(isa: Isa, progs: seq<Program>, i: nat, others: seq<Value>, c: Config<VState>, o: Obs<VState>,
                      testMode: bool, p: Program, sp: Spot, pc: nat)
    requires isa.symbolic && Compilable(progs) && i < |progs| && SelfContained(progs[i].code)
    requires p == Linked(progs, testMode) && sp == SpotOf(progs, i, others) && |others| == |p.globals|
    requires pc == OffsetsAt(progs, i).anon + c.pc && HasGlobals(|progs[i].globals|, c.s)
    requires VArrives(isa, |progs[i].globals|, progs[i].code, c, o)
    ensures VArrives(isa, |p.globals|, p.code, Config(pc, MovedState(sp, c.s)), MovedObs(sp, o))
  {
    ModuleStands(progs, i, others, testMode, p, sp);
    MoveBehindInit(isa, sp, |progs[i].globals|, progs[i].code, Body(progs), BaseOf(progs, i), c, o, testMode,
                   |p.globals|, p.code, pc);
  }

  lemma ModuleStands(progs: seq<Program>, i: nat, others: seq<Value>, testMode: bool, p: Program, sp: Spot)
    requires Compilable(progs) && i < |progs| && SelfContained(progs[i].code)
    requires p == Linked(progs, testMode) && sp == SpotOf(progs, i, others) && |others| == |p.globals|
    ensures Fits(progs[i].code, |progs[i].globals|, Body(progs), BaseOf(progs, i), sp)
    ensures p.code == Init(|p.globals|, testMode) + Body(progs)
    ensures OffsetsAt(progs, i).anon == INIT_SIZE + BaseOf(progs, i) && |sp.others| == |p.globals|
  {
    ModuleFits(progs, i, others, testMode);
    LinkedIsInitAndBody(progs, testMode);
    CodeSize(progs, i);
  }

  /** Moving to base in the body, and then behind the initialising instructions. */
  lemma MoveBehindInit(isa: Isa, sp: Spot, n: nat, code: seq<Instr>, body: seq<Instr>, base: nat, c: Config<VState>,
                       o: Obs<VState>, testMode: bool, g: nat, all: seq<Instr>, pc: nat)
    requires g == |sp.others| && isa.symbolic && Fits(code, n, body, base, sp) && HasGlobals(n, c.s)
             && VArrives(isa, n, code, c, o)
    requires all == Init(g, testMode) + body && pc == INIT_SIZE + base + c.pc
    ensures VArrives(isa, g, all, Config(pc, MovedState(sp, c.s)), MovedObs(sp, o))
  {
    ArrivesMoved(isa, sp, n, code, body, base, c, o);
    BehindInit(isa, g, testMode, body, all, base + c.pc, pc, MovedState(sp, c.s), MovedObs(sp, o));
  }

  lemma BehindInit(isa: Isa, numGlobals: nat, testMode: bool, body: seq<Instr>, all: seq<Instr>, pc: nat, pc': nat,
                   s: VState, o: Obs<VState>)
    requires isa.symbolic && VArrives(isa, numGlobals, body, Config(pc, s), o)
    requires all == Init(numGlobals, testMode) + body && pc' == INIT_SIZE + pc
    ensures VArrives(isa, numGlobals, all, Config(pc', s), o)
  {
    var k: nat :| VArrivesIn(isa, numGlobals, body, k, Config(pc, s), o);
    InitInert(numGlobals, testMode);
    VAddPrefix(isa, numGlobals, Init(numGlobals, testMode), body, k, pc, s, o);
  }
}
