/** From evaluation of the source language to the final code: code generation, linking and the
    post-link passes composed. */
module EndToEnd {
  import opened Avm
  import opened Machine
  import opened Virtual
  import opened Mini
  import opened Codegen
  import opened CodegenShape
  import opened Runs
  import opened CodegenCorrect
  import opened CodegenModule
  import opened StripCorrect
  import opened NonforwardCorrect
  import opened LoweringCorrect
  import opened Postlink
  import opened PostlinkCorrect
  import opened Occurrences
  import opened Linker
  import opened LinkerCorrect
  import opened LabelOrder
  import opened LinkSound
  import opened LinkRuns
  import opened MainRuns
  import opened Renaming
  import TupleTrees
  import Words

  // ----- runs, seen from labels -----

  lemma {:induction false} StepsArrive(p: Prog, n: nat, c: Config<VState>, t: nat, l: Label, s: VState)
    requires Runnable(p) && Steps(p, n, c) == Some(Config(t, s)) && t < |p.code| && p.code[t].op == LabelOp(l)
    ensures VArrivesIn(p.isa, p.numGlobals, p.code, n, c, AtLabel(l, s))
    decreases n
  {
    if n > 0 {
      assert Looking(c);
      StepsArrive(p, n - 1, p.step(c).value, t, l, s);
    }
  }

  /** What happens from a label on happens to every run that reaches it. */
  lemma {:induction false} ThenArrives(isa: Isa, n: nat, code: seq<Instr>, k: nat, c: Config<VState>, t: nat, l: Label,
                                       s: VState, o: Obs<VState>)
    requires UniqueLabels(code) && t < |code| && code[t].op == LabelOp(l) && VArrives(isa, n, code, Config(t, s), o)
    requires VArrivesIn(isa, n, code, k, c, AtLabel(l, s))
    ensures VArrives(isa, n, code, c, o)
    decreases k
  {
    if k > 0 {
      ThenArrives(isa, n, code, k - 1, VStep(isa, n, code, c).value, t, l, s, o);
      VArrivesStep(isa, n, code, c, o);
    } else {
      LabelAt(code, t, l);
      LabelAt(code, c.pc, l);
    }
  }

  // ----- a compiled module -----

  /** Its functions make a frame before anything else, and it defines none of its imports. */
  lemma ModuleSelfContained(fs: seq<Func>, loc: nat)
    requires CompileModule(fs, 0, loc).Ok?
    ensures SelfContained(CompileModule(fs, 0, loc).value.code)
  {
    var g := CompileModule(fs, 0, loc).value;
    ModuleGood(fs, 0, loc);
    forall k | 0 <= k < |g.code| && g.code[k].op.LabelOp? ensures !g.code[k].op.lab.External? {
      assert ModuleShape(g.code[k], g.next, g.slots);
    }
    forall k | 0 <= k < |g.code| && UsesFrame(g.code[k]) ensures FrameBefore(g.code, k) {
      FirstMakesFrame(fs, loc);
      assert g.code[1].op.MakeFrame?;
    }
  }

  lemma FirstMakesFrame(fs: seq<Func>, loc: nat)
    requires CompileModule(fs, 0, loc).Ok? && CompileModule(fs, 0, loc).value.code != []
    ensures var code := CompileModule(fs, 0, loc).value.code; |code| > 1 && code[0].op.LabelOp? && code[1].op.MakeFrame?
  {
    assert CompileFunc(fs[0], 0, loc).value.code <= CompileModule(fs, 0, loc).value.code;
  }

  /** A call, on the module's own. */
  lemma ModuleCall(fs: seq<Func>, isa: Isa, loc: nat, f: nat, fuel: nat, args: seq<Value>, gl: seq<Value>,
                   ret: Label, t: nat, st: Stack, aux: VAux, code: seq<Instr>, r: Ev) returns (pos: nat)
    requires isa.symbolic && DistinctNames(fs) && CompileModule(fs, 0, loc).Ok?
             && code == CompileModule(fs, 0, loc).value.code
    requires CompileModule(fs, 0, loc).value.slots <= USIZE_LIMIT && f in FuncMap(fs)
    requires t < |code| && code[t].op == LabelOp(ret)
    requires EvalCall(Ctx(isa, FuncMap(fs), loc), fuel, FuncMap(fs)[f], args, gl) == Some(r)
    ensures pos < |code| && code[pos].op == LabelOp(Label.Func(f))
    ensures VArrives(isa, |gl|, code, Config(pos, Called(ret, args, st, aux, gl)), AtLabel(ret, Returned(r, st, aux)))
  {
    CallsAreCorrect(fs, isa, loc, f, fuel, args, gl, ret, t, st, aux);
    var w := ModuleWorld(fs, isa, |gl|, loc);
    pos := w.sites[f].pos;
    ModuleIsWhole(fs, isa, |gl|, loc);
    GoArrives(w.p, pos, Called(ret, args, st, aux, gl), t, ret, Returned(r, st, aux));
  }

  lemma GoArrives(p: Prog, pc: nat, s: VState, t: nat, l: Label, s': VState)
    requires Runnable(p) && Go(p, pc, s, t, s') && t < |p.code| && p.code[t].op == LabelOp(l)
    ensures VArrives(p.isa, p.numGlobals, p.code, Config(pc, s), AtLabel(l, s'))
  {
    var n: nat :| Steps(p, n, Config(pc, s)) == Some(Config(t, s'));
    StepsArrive(p, n, Config(pc, s), t, l, s');
  }

  /** The state in which a function is called, and that in which it has returned. */
  function Called(ret: Label, args: seq<Value>, st: Stack, aux: VAux, gl: seq<Value>): VState {
    VState(Push(LabelVal(ret), PushAll(args, st)), aux, Globals(gl))
  }

  function Returned(r: Ev, st: Stack, aux: VAux): VState {
    VState(PushOpt(r.v, st), aux, Globals(r.s.globals))
  }

  // ----- the module inside the linked program -----

  /** The locations that occur in a program. */
  function Locs(code: seq<Instr>): (r: set<nat>)
    ensures forall i :: 0 <= i < |code| ==> code[i].loc in r
  {
    set i | 0 <= i < |code| :: code[i].loc
  }

  lemma NumberedNoStricter(code: seq<Instr>, tests: set<nat>)
    ensures NoStricter(code, Locs(code), Numbered(code), tests)
  {
  }

  /** A run of the body that checks all tests is a run of the numbered program that checks some. */
  lemma BodyBehindInit(isa: Isa, n: nat, testMode: bool, body: seq<Instr>, tests: set<nat>, pc: nat, pc': nat,
                       s: VState, o: Obs<VState>)
    requires isa.symbolic && VArrives(Checking(isa, Locs(body)), n, body, Config(pc, s), o) && pc' == INIT_SIZE + pc
    ensures VArrives(Checking(isa, tests), n, Init(n, testMode) + Numbered(body), Config(pc', s), o)
  {
    NumberedNoStricter(body, tests);
    VArrivesAlike(Checking(isa, Locs(body)), tests, n, body, Numbered(body), Config(pc, s), o);
    BehindInit(Checking(isa, tests), n, testMode, Numbered(body), Init(n, testMode) + Numbered(body), pc, pc', s, o);
  }

  lemma NumberedUnique(n: nat, testMode: bool, body: seq<Instr>)
    requires UniqueLabels(body)
    ensures UniqueLabels(Init(n, testMode) + Numbered(body))
  {
    var code := Init(n, testMode) + Numbered(body);
    forall a, b | 0 <= a < b < |code| && code[a].op.LabelOp? && code[b].op.LabelOp? ensures code[a].op != code[b].op {
      assert Same(body[a - 3], Numbered(body)[a - 3]) && Same(body[b - 3], Numbered(body)[b - 3]);
    }
  }

  /** Reaching a label and going on from it, in the numbered program. */
  lemma BodyThen(isa: Isa, n: nat, testMode: bool, body: seq<Instr>, tests: set<nat>, s0: VState, pc: nat, l: Label,
                 s: VState, o: Obs<VState>)
    requires isa.symbolic && UniqueLabels(body) && pc < |body| && body[pc].op == LabelOp(l)
    requires VArrives(Checking(isa, tests), n, Init(n, testMode) + Numbered(body), Config(0, s0), AtLabel(l, s))
    requires VArrives(Checking(isa, Locs(body)), n, body, Config(pc, s), o)
    ensures VArrives(Checking(isa, tests), n, Init(n, testMode) + Numbered(body), Config(0, s0), o)
  {
    var code, t := Init(n, testMode) + Numbered(body), INIT_SIZE + pc;
    BodyBehindInit(isa, n, testMode, body, tests, pc, t, s, o);
    NumberedUnique(n, testMode, body);
    assert Same(body[pc], Numbered(body)[pc]) && code[t] == Numbered(body)[pc];
    var k: nat :| VArrivesIn(Checking(isa, tests), n, code, k, Config(0, s0), AtLabel(l, s));
    ThenArrives(Checking(isa, tests), n, code, k, Config(0, s0), t, l, s, o);
  }

  /** What module i of the linked program is compiled from, and that everything fits. */
  ghost predicate Built(progs: seq<Program>, i: nat, fs: seq<Func>, loc: nat) {
    && Compilable(progs) && i < |progs| && DistinctNames(fs) && CompileModule(fs, 0, loc).Ok?
    && progs[i].code == CompileModule(fs, 0, loc).value.code && CompileModule(fs, 0, loc).value.slots <= USIZE_LIMIT
  }

  /** The call inside a program that holds the module's code, moved. */
  lemma MovedCall(isa: Isa, fs: seq<Func>, loc: nat, f: nat, fuel: nat, args: seq<Value>, gl: seq<Value>, ret: Label,
                  t: nat, st: Stack, aux: VAux, r: Ev, sp: Spot, code: seq<Instr>, body: seq<Instr>, base: nat)
    returns (pc: nat)
    requires isa.symbolic && DistinctNames(fs) && CompileModule(fs, 0, loc).Ok?
             && code == CompileModule(fs, 0, loc).value.code
    requires CompileModule(fs, 0, loc).value.slots <= USIZE_LIMIT && f in FuncMap(fs)
    requires t < |code| && code[t].op == LabelOp(ret) && Fits(code, |gl|, body, base, sp)
    requires EvalCall(Ctx(isa, FuncMap(fs), loc), fuel, FuncMap(fs)[f], args, gl) == Some(r)
    ensures pc < |body| && body[pc].op == LabelOp(MovedObs(sp,
                                                           AtLabel(Label.Func(f), Called(ret, args, st, aux, gl))).lab)
    ensures VArrives(isa, |sp.others|, body, Config(pc, MovedState(sp, Called(ret, args, st, aux, gl))),
                     MovedObs(sp, AtLabel(ret, Returned(r, st, aux))))
  {
    var pos := ModuleCall(fs, isa, loc, f, fuel, args, gl, ret, t, st, aux, code, r);
    pc := base + pos;
    LabelMoved(sp, code, body, base, pos, Label.Func(f));
    ArrivesMoved(isa, sp, |gl|, code, body, base, Config(pos, Called(ret, args, st, aux, gl)),
                 AtLabel(ret, Returned(r, st, aux)));
  }

  lemma LabelMoved(sp: Spot, code: seq<Instr>, body: seq<Instr>, base: nat, pos: nat, l: Label)
    requires KeepsLabelVals(sp.h) && Installed(code, body, base, sp) && pos < |code| && code[pos].op == LabelOp(l)
    ensures base + pos < |body| && body[base + pos].op == LabelOp(sp.h(LabelVal(l)).lab)
  {
    assert InstalledAt(code, body, base, sp, pos);
  }

  /** The call in the numbered program, reached from its start. */
  lemma LinkedCall(isa: Isa, progs: seq<Program>, i: nat, fs: seq<Func>, loc: nat, f: nat, fuel: nat, args: seq<Value>,
                   gl: seq<Value>, ret: Label, t: nat, st: Stack, aux: VAux, r: Ev, others: seq<Value>,
                   testMode: bool, sp: Spot,
                   p: Program, body: seq<Instr>, tests: set<nat>, s0: VState)
    requires isa.symbolic && Built(progs, i, fs, loc) && |gl| == |progs[i].globals| && |others| == |p.globals|
    requires p == Linked(progs, testMode) && body == Body(progs) && sp == SpotOf(progs, i, others)
    requires f in FuncMap(fs) && t < |progs[i].code| && progs[i].code[t].op == LabelOp(ret)
    requires EvalCall(Ctx(Checking(isa, Locs(body)), FuncMap(fs), loc), fuel, FuncMap(fs)[f], args, gl) == Some(r)
    requires VArrives(Checking(isa, tests), |p.globals|, Init(|p.globals|, testMode) + Numbered(body), Config(0, s0),
                      MovedObs(sp, AtLabel(Label.Func(f), Called(ret, args, st, aux, gl))))
    ensures VArrives(Checking(isa, tests), |p.globals|, Init(|p.globals|, testMode) + Numbered(body), Config(0, s0),
                     MovedObs(sp, AtLabel(ret, Returned(r, st, aux))))
  {
    ModuleSelfContained(fs, loc);
    ModuleStands(progs, i, others, testMode, p, sp);
    var pc := MovedCall(Checking(isa, Locs(body)), fs, loc, f, fuel, args, gl, ret, t, st, aux, r, sp, progs[i].code,
                        body, BaseOf(progs, i));
    NoDuplicates(progs);
    CallGoesOn(isa, |p.globals|, testMode, body, tests, s0, pc, sp, Label.Func(f), Called(ret, args, st, aux, gl),
               MovedObs(sp, AtLabel(ret, Returned(r, st, aux))));
  }

  lemma CallGoesOn(isa: Isa, n: nat, testMode: bool, body: seq<Instr>, tests: set<nat>, s0: VState, pc: nat, sp: Spot,
                   l: Label, s: VState, o: Obs<VState>)
    requires isa.symbolic && UniqueLabels(body) && pc < |body|
             && body[pc].op == LabelOp(MovedObs(sp, AtLabel(l, s)).lab)
    requires VArrives(Checking(isa, tests), n, Init(n, testMode) + Numbered(body), Config(0, s0),
                      MovedObs(sp, AtLabel(l, s)))
    requires n == |sp.others| && VArrives(Checking(isa, Locs(body)), n, body, Config(pc, MovedState(sp, s)), o)
    ensures VArrives(Checking(isa, tests), n, Init(n, testMode) + Numbered(body), Config(0, s0), o)
  {
    BodyThen(isa, n, testMode, body, tests, s0, pc, MovedObs(sp, AtLabel(l, s)).lab, MovedState(sp, s), o);
  }

  // ----- the whole compiler -----

  /** The code of a list of modules after linking and the post-link passes. */
  function Final(progs: seq<Program>, testMode: bool): Result<seq<Instr>> {
    var p := Linked(progs, testMode);
    Compiled(p.code, p.imports, |p.globals|, testMode)
  }

  /** How the final code represents an observation of the linked program. */
  ghost function Seen(progs: seq<Program>, testMode: bool, o: Obs<VState>): Obs<State> {
    var p := Linked(progs, testMode);
    var m, table := FinalMap(|p.globals|, testMode, Body(progs), p.imports), Table(|p.globals|, Body(progs), p.imports);
    XlateObs(m, RepObs(TabledObs(table, o)))
  }

  ghost function Started(progs: seq<Program>, testMode: bool, s: VState): Config<State> {
    var p := Linked(progs, testMode);
    Config(0, XlateState(FinalMap(|p.globals|, testMode, Body(progs), p.imports), Rep(s)))
  }

  ghost function LinkedTests(progs: seq<Program>, testMode: bool): set<nat> {
    var p := Linked(progs, testMode);
    CancelledTests(|p.globals|, Body(progs), p.imports)
  }

  /** The run of the linked program from its start, in which the first test of every pair that is
      cancelled sees 0 or 1. */
  ghost predicate Reaches(isa: Isa, progs: seq<Program>, testMode: bool, s0: VState, o: Obs<VState>) {
    var p := Linked(progs, testMode);
    VArrives(Checking(isa, LinkedTests(progs, testMode)), |p.globals|,
             Init(|p.globals|, testMode) + Numbered(Body(progs)), Config(0, s0), o)
  }

  /** Whatever the linked program reaches, the final code does. */
  lemma LinkedPreserves(isa: Isa, progs: seq<Program>, testMode: bool, s0: VState, o: Obs<VState>)
    requires isa.symbolic && Compilable(progs) && Final(progs, testMode).Ok? && Reaches(isa, progs, testMode, s0, o)
    requires var p := Linked(progs, testMode); |Table(|p.globals|, Body(progs), p.imports)| <= USIZE_LIMIT
    ensures Arrives(Concrete(Unchecked(isa)), Final(progs, testMode).value, Started(progs, testMode, s0),
                    Seen(progs, testMode, o))
  {
    var p := Linked(progs, testMode);
    LinkedIsInitAndBody(progs, testMode);
    LinkedIsLinkable(progs, testMode);
    PostlinkPreserves(isa, |p.globals|, testMode, Body(progs), p.imports, s0, o);
  }

  /** The main result. Module i is compiled from the functions fs. If the linked program reaches a
      function f of it, called with some arguments and a return label of the module, and evaluating
      the call gives r, then the final code reaches the code point of the return label with the value
      of r added to the stack, the globals of r in the module's window, and all else as it was. That run
      is one of the emulator if its arithmetic is used. */
  lemma CallsCompile(h: Words.Hash2, isa: Isa, progs: seq<Program>, i: nat, fs: seq<Func>, loc: nat, f: nat, fuel: nat,
                     args: seq<Value>, gl: seq<Value>, ret: Label, t: nat, st: Stack, aux: VAux, r: Ev,
                     others: seq<Value>, testMode: bool, s0: VState)
    requires isa.symbolic && Built(progs, i, fs, loc) && Final(progs, testMode).Ok?
    requires var p := Linked(progs, testMode);
             |others| == |p.globals| && |Table(|p.globals|, Body(progs), p.imports)| <= USIZE_LIMIT
    requires |gl| == |progs[i].globals| && f in FuncMap(fs) && t < |progs[i].code|
             && progs[i].code[t].op == LabelOp(ret)
    requires EvalCall(Ctx(Checking(isa, Locs(Body(progs))), FuncMap(fs), loc), fuel, FuncMap(fs)[f], args, gl)
             == Some(r)
    requires Reaches(isa, progs, testMode, s0,
                     MovedObs(SpotOf(progs, i, others), AtLabel(Label.Func(f), Called(ret, args, st, aux, gl))))
    ensures Arrives(Concrete(Unchecked(isa)), Final(progs, testMode).value, Started(progs, testMode, s0),
                    Seen(progs, testMode, MovedObs(SpotOf(progs, i, others), AtLabel(ret, Returned(r, st, aux)))))
    ensures isa == Words.Emulator(h, isa.strict, true) ==> Concrete(Unchecked(isa)) == Words.Emulator(h, {}, false)
  {
    LinkedCall(isa, progs, i, fs, loc, f, fuel, args, gl, ret, t, st, aux, r, others, testMode,
               SpotOf(progs, i, others), Linked(progs, testMode), Body(progs), LinkedTests(progs, testMode), s0);
    LinkedPreserves(isa, progs, testMode, s0, MovedObs(SpotOf(progs, i, others), AtLabel(ret, Returned(r, st, aux))));
  }

  // ----- from the start -----

  /** No reference to code: what a machine can hold before any program has run. */
  predicate CodeFreeStack(st: Stack) {
    match st
    case Empty => true
    case Push(v, rest) => CodeFree(v) && CodeFreeStack(rest)
  }

  predicate CodeFreeAux(aux: VAux) {
    match aux
    case ANil => true
    case AVal(v, below) => CodeFree(v) && CodeFreeAux(below)
    case AFrame(locals, below) => (forall i :: 0 <= i < |locals| ==> CodeFree(locals[i])) && CodeFreeAux(below)
  }

  lemma {:induction false} StackUnmoved(h: Naming, st: Stack)
    requires KeepsRefs(h) && CodeFreeStack(st)
    ensures RenamedStack(h, st) == st
  {
    if st.Push? {
      CodeFreeRenamed(h, st.top);
      StackUnmoved(h, st.rest);
    }
  }

  lemma {:induction false} AuxUnmoved(h: Naming, aux: VAux)
    requires KeepsRefs(h) && CodeFreeAux(aux)
    ensures RenamedAux(h, aux) == aux
  {
    match aux
    case ANil =>
    case AVal(v, below) =>
      CodeFreeRenamed(h, v);
      AuxUnmoved(h, below);
    case AFrame(locals, below) =>
      forall i | 0 <= i < |locals| ensures Renamed(h, locals[i]) == locals[i] { CodeFreeRenamed(h, locals[i]); }
      assert RenamedAll(h, locals) == locals;
      AuxUnmoved(h, below);
  }

  /** What the program proper finds on the stack below its return address. */
  function Supplied(testMode: bool, s: VState): Stack {
    if testMode then s.stack else Push(RegValue(s.reg), s.stack)
  }

  /** The state at the first instruction of the program proper is that of the first module. */
  lemma EntryIsMoved(sp: Spot, n: nat, testMode: bool, s0: VState, st: Stack)
    requires KeepsLabelVals(sp.h) && sp.others == TupleTrees.Nones(|sp.others|) && sp.off + n <= |sp.others|
    requires st == Supplied(testMode, s0) && CodeFreeStack(st) && CodeFreeAux(s0.aux)
    ensures MovedState(sp, VState(Push(NONE, st), s0.aux, Globals(TupleTrees.Nones(n))))
            == Entered(|sp.others|, testMode, s0)
  {
    RenamedNone(sp.h);
    StackUnmoved(sp.h, st);
    AuxUnmoved(sp.h, s0.aux);
    assert RenamedAll(sp.h, TupleTrees.Nones(n)) == TupleTrees.Nones(n);
    assert Put(sp.others, sp.off, TupleTrees.Nones(n)) == TupleTrees.Nones(|sp.others|);
  }

  /** The state after the last call of the first function has returned: its frame L is still there. */
  function MainReturned(r: Ev, st: Stack, L: seq<Value>, aux: VAux): VState {
    VState(PushOpt(r.v, st), AFrame(L, AVal(NONE, aux)), Globals(r.s.globals))
  }

  /** The first module's run, in the body of the linked program. */
  lemma MainMoved(isa: Isa, fs: seq<Func>, loc: nat, fuel: nat, args: seq<Value>, gl: seq<Value>, st: Stack, aux: VAux,
                  r: Ev, sp: Spot, code: seq<Instr>, body: seq<Instr>) returns (L: seq<Value>, lab: Label)
    requires isa.symbolic && DistinctNames(fs) && CompileModule(fs, 0, loc).Ok?
    requires code == CompileModule(fs, 0, loc).value.code && CompileModule(fs, 0, loc).value.slots <= USIZE_LIMIT
    requires fs != [] && EndsInCall(fs[0].block) && Fits(code, |gl|, body, 0, sp)
    requires EvalCall(Ctx(isa, FuncMap(fs), loc), fuel, fs[0], args, gl) == Some(r)
    ensures VArrives(isa, |sp.others|, body, Config(0, MovedState(sp,
                                                                  VState(Push(NONE, PushAll(args, st)), aux,
                                                                         Globals(gl)))),
                     MovedObs(sp, AtLabel(lab, MainReturned(r, st, L, aux))))
  {
    var t, p;
    L, t, lab, p := FirstFunction(fs, isa, loc, fuel, args, gl, NONE, st, aux, code, r);
    var s := VState(Push(NONE, PushAll(args, st)), aux, Globals(gl));
    GoArrives(p, 0, s, t, lab, MainReturned(r, st, L, aux));
    ArrivesMoved(isa, sp, |gl|, code, body, 0, Config(0, s), AtLabel(lab, MainReturned(r, st, L, aux)));
  }

  /** The whole compiler, from the start. The first module is compiled from the functions fs, and the
      first of these ends in a call. If evaluating it on what lies on the stack gives r, the final code,
      started in any state that holds no code, reaches the return of that call with the value of r on
      the stack and the globals of r in the module's window. */
  lemma MainCompiles(h: Words.Hash2, isa: Isa, progs: seq<Program>, fs: seq<Func>, loc: nat, fuel: nat,
                     args: seq<Value>, gl: seq<Value>, st: Stack, r: Ev, testMode: bool, s0: VState, sp: Spot)
    returns (L: seq<Value>, lab: Label)
    requires isa.symbolic && Built(progs, 0, fs, loc) && fs != [] && EndsInCall(fs[0].block)
             && Final(progs, testMode).Ok?
    requires var p := Linked(progs, testMode);
             && |Table(|p.globals|, Body(progs), p.imports)| <= USIZE_LIMIT
             && sp == SpotOf(progs, 0, TupleTrees.Nones(|p.globals|))
    requires PushAll(args, st) == Supplied(testMode, s0) && CodeFreeStack(PushAll(args, st)) && CodeFreeAux(s0.aux)
    requires gl == TupleTrees.Nones(|progs[0].globals|)
    requires EvalCall(Ctx(Checking(isa, Locs(Body(progs))), FuncMap(fs), loc), fuel, fs[0], args, gl) == Some(r)
    ensures Arrives(Concrete(Unchecked(isa)), Final(progs, testMode).value, Started(progs, testMode, s0),
                    Seen(progs, testMode, MovedObs(sp, AtLabel(lab, MainReturned(r, st, L, s0.aux)))))
    ensures isa == Words.Emulator(h, isa.strict, true) ==> Concrete(Unchecked(isa)) == Words.Emulator(h, {}, false)
  {
    var p, body := Linked(progs, testMode), Body(progs);
    ModuleSelfContained(fs, loc);
    ModuleStands(progs, 0, TupleTrees.Nones(|p.globals|), testMode, p, sp);
    L, lab := MainMoved(Checking(isa, Locs(body)), fs, loc, fuel, args, gl, st, s0.aux, r, sp, progs[0].code, body);
    EntryIsMoved(sp, |gl|, testMode, s0, PushAll(args, st));
    BodyCompiles(isa, progs, testMode, s0, MovedObs(sp, AtLabel(lab, MainReturned(r, st, L, s0.aux))));
  }

  /** What the program proper reaches on the flat machine, checking all tests, the final code reaches. */
  lemma BodyCompiles(isa: Isa, progs: seq<Program>, testMode: bool, s0: VState, o: Obs<VState>)
    requires isa.symbolic && Compilable(progs) && Final(progs, testMode).Ok?
    requires var p := Linked(progs, testMode);
             && |Table(|p.globals|, Body(progs), p.imports)| <= USIZE_LIMIT
             && VArrives(Checking(isa, Locs(Body(progs))), |p.globals|, Body(progs),
                         Config(0, Entered(|p.globals|, testMode, s0)), o)
    ensures Arrives(Concrete(Unchecked(isa)), Final(progs, testMode).value, Started(progs, testMode, s0),
                    Seen(progs, testMode, o))
  {
    var p, body, tests := Linked(progs, testMode), Body(progs), LinkedTests(progs, testMode);
    LinkedIsInitAndBody(progs, testMode);
    LinkedIsLinkable(progs, testMode);
    NumberedNoStricter(body, tests);
    VArrivesAlike(Checking(isa, Locs(body)), tests, |p.globals|, body, Numbered(body),
                  Config(0, Entered(|p.globals|, testMode, s0)), o);
    BodyRefines(isa, |p.globals|, testMode, body, p.imports, s0, o);
  }
}
