/** Compiled modules are fit for linking. */
module CodegenLinks {
  import opened Machine
  import opened Mini
  import opened Codegen
  import opened CodegenShape
  import opened Linker
  import opened LinkerCorrect

  /** Generated label numbers stay below the length of the code, so the linker's windows hold them:
      a compiled module meets every condition of the linker's results. */
  lemma ModuleFitsLinker(fs: seq<Func>, loc: nat, p: Program)
    requires DistinctNames(fs) && CompileModule(fs, 0, loc).Ok? && p.code == CompileModule(fs, 0, loc).value.code
    requires forall i :: 0 <= i < |p.code| ==> GlobalInScope(p, p.code[i].op)
    requires forall i :: 0 <= i < |p.exports| ==> p.exports[i].lab.Func?
    ensures Scoped(p) && UniqueLabels(p.code) && forall k :: 0 <= k < |p.code| ==> WellMade(p.code[k])
  {
    var g := CompileModule(fs, 0, loc).value;
    ModuleGood(fs, 0, loc);
    ModuleUnique(fs, loc);
    forall l | Mentions(p, l) ensures InScope(p, l) {
      if i :| 0 <= i < |p.code| && InsnMentions(p.code[i], l) { assert ModuleShape(p.code[i], g.next, g.slots); }
    }
    forall k | 0 <= k < |p.code| ensures WellMade(p.code[k]) {
      assert ModuleShape(p.code[k], g.next, g.slots);
    }
  }
}
