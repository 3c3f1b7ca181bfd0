/** A compiled module holds the code of all its functions, so the calling convention and the
    correctness of code generation apply to it. */
module CodegenModule {
  import opened Avm
  import opened Machine
  import opened Virtual
  import opened Mini
  import opened Codegen
  import opened CodegenShape
  import opened Runs
  import opened CodegenCorrect
  import opened CodegenSound

  function FuncMap(fs: seq<Func>): map<nat, Func> {
    if fs == [] then map[] else FuncMap(fs[1..])[fs[0].name := fs[0]]
  }

  /** Where each function starts, and the first label number it uses. */
  function Sites(fs: seq<Func>, pos: nat, next: nat, loc: nat): map<nat, Site> {
    if fs == [] || CompileFunc(fs[0], next, loc).Err? then map[]
    else
      var g := CompileFunc(fs[0], next, loc).value;
      Sites(fs[1..], pos + |g.code|, g.next, loc)[fs[0].name := Site(pos, next)]
  }

  lemma {:induction false} FuncMapHas(fs: seq<Func>, f: nat)
    requires f in FuncMap(fs)
    ensures exists i :: 0 <= i < |fs| && fs[i].name == f
  {
    if fs[0].name != f {
      FuncMapHas(fs[1..], f);
      var i :| 0 <= i < |fs[1..]| && fs[1..][i].name == f;
      assert fs[i + 1].name == f;
    }
  }

  /** The code of function f stands where Sites says. */
  lemma {:induction false} FuncsPlaced(fs: seq<Func>, pre: seq<Instr>, next: nat, loc: nat, f: nat)
    requires DistinctNames(fs) && CompileModule(fs, next, loc).Ok? && f in FuncMap(fs)
    ensures var sites, code := Sites(fs, |pre|, next, loc), pre + CompileModule(fs, next, loc).value.code;
            && f in sites && FuncMap(fs)[f].name == f
            && var g := CompileFunc(FuncMap(fs)[f], sites[f].next, loc);
               g.Ok? && g.value.slots <= CompileModule(fs, next, loc).value.slots
                 && SegAt(code, sites[f].pos, g.value.code)
    decreases fs
  {
    var g := CompileFunc(fs[0], next, loc).value;
    var rest := CompileModule(fs[1..], g.next, loc).value;
    var code := pre + (g.code + rest.code);
    assert code == pre + g.code + rest.code;
    if fs[0].name == f {
      assert code[|pre|..|pre| + |g.code|] == g.code;
    } else {
      FuncsPlaced(fs[1..], pre + g.code, g.next, loc, f);
    }
  }

  /** The program a module alone makes. */
  function ModuleWorld(fs: seq<Func>, isa: Isa, numGlobals: nat, loc: nat): World
    requires CompileModule(fs, 0, loc).Ok?
  {
    World(Running(isa, numGlobals, CompileModule(fs, 0, loc).value.code), Ctx(isa, FuncMap(fs), loc),
          Sites(fs, 0, 0, loc))
  }

  lemma ModuleIsWhole(fs: seq<Func>, isa: Isa, numGlobals: nat, loc: nat)
    requires isa.symbolic && DistinctNames(fs) && CompileModule(fs, 0, loc).Ok?
    requires CompileModule(fs, 0, loc).value.slots <= USIZE_LIMIT
    ensures Whole(ModuleWorld(fs, isa, numGlobals, loc))
  {
    var w := ModuleWorld(fs, isa, numGlobals, loc);
    ModuleUnique(fs, loc);
    RunningIsRunnable(isa, numGlobals, w.p.code);
    assert [] + w.p.code == w.p.code;
    forall f | f in w.ctx.funcs ensures f in w.sites && FuncSited(w, f) {
      FuncsPlaced(fs, [], 0, loc, f);
    }
  }

  /** The main result: in the code of any module, a call of any function by its label, with a return
      label and the arguments on the stack, returns there with exactly the evaluated result added,
      both stacks otherwise as they were, and the globals as evaluation leaves them. */
  lemma CallsAreCorrect(fs: seq<Func>, isa: Isa, loc: nat, f: nat, fuel: nat, args: seq<Value>, gl: seq<Value>,
                        ret: Label, t: nat, st: Stack, aux: VAux)
    requires isa.symbolic && DistinctNames(fs) && CompileModule(fs, 0, loc).Ok?
    requires CompileModule(fs, 0, loc).value.slots <= USIZE_LIMIT && f in FuncMap(fs)
    requires var code := CompileModule(fs, 0, loc).value.code; t < |code| && code[t].op == LabelOp(ret)
    requires EvalCall(Ctx(isa, FuncMap(fs), loc), fuel, FuncMap(fs)[f], args, gl).Some?
    ensures var w := ModuleWorld(fs, isa, |gl|, loc);
            var r := EvalCall(w.ctx, fuel, FuncMap(fs)[f], args, gl).value;
            && f in w.sites && w.sites[f].pos < |w.p.code| && w.p.code[w.sites[f].pos].op == LabelOp(Label.Func(f))
            && Go(w.p, w.sites[f].pos, VState(Push(LabelVal(ret), PushAll(args, st)), aux, Globals(gl)),
                  t, VState(PushOpt(r.v, st), aux, Globals(r.s.globals)))
  {
    var w := ModuleWorld(fs, isa, |gl|, loc);
    ModuleIsWhole(fs, isa, |gl|, loc);
    assert FuncSited(w, f);
    SitedAt(w, f, 0);
    CalleeSound(w, f, fuel, args, gl, ret, t, st, aux);
  }
}
