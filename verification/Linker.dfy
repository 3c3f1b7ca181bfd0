/** link (src/link/mod.rs:348-457) and relocation (src/mavm.rs:24-36, 176-212, 748-794 and
    src/compile/mod.rs:451-510): modules are laid out one after another, their labels, import slots
    and globals shifted apart. */
module Linker {
  import opened Avm
  import opened StripLabels
  import opened Postlink

  datatype Global = Global(nameId: nat, name: string)

  datatype ExportedFunc = ExportedFunc(name: string, lab: Label)

  datatype Program = Program(
    code: seq<Instr>, exports: seq<ExportedFunc>, imports: seq<ImportedFunc>, globals: seq<Global>)

  /** How far a module's Anon, External and Func labels and its globals are shifted. */
  datatype Offsets = Offsets(anon: nat, ext: nat, func: nat, glob: nat)

  // ----- relocation -----

  function RelocLabel(l: Label, o: Offsets): Label {
    match l
    case Func(id) => Func(id + o.func)
    case Anon(n) => Anon(n + o.anon)
    case External(slot) => External(slot + o.ext)
    case Evm(_) => l
  }

  /** The function offset that relocating a label reports: its own if it names a function. */
  function LabelTop(l: Label, o: Offsets): nat {
    if l.Func? then l.id + o.func else o.func
  }

  function RelocValue(v: Value, o: Offsets): Value {
    match v
    case Tuple(es) => Tuple(seq(|es|, i requires 0 <= i < |es| => RelocValue(es[i], o)))
    case CodePoint(Internal(pc)) => CodePoint(Internal(pc + o.anon))
    case CodePoint(ExternalPt(slot)) => CodePoint(ExternalPt(slot + o.ext))
    case LabelVal(l) => LabelVal(RelocLabel(l, o))
    case _ => v
  }

  function ValueTop(v: Value, o: Offsets): nat
    decreases v, 1
  {
    match v
    case Tuple(es) => ValuesTop(es, o)
    case LabelVal(l) => LabelTop(l, o)
    case _ => 0
  }

  function ValuesTop(es: seq<Value>, o: Offsets): nat
    decreases es, 0
  {
    if es == [] then 0 else Max(ValueTop(es[0], o), ValuesTop(es[1..], o))
  }

  /** Relocating a code point of another segment, or the null one, is a panic. */
  predicate Relocatable(v: Value) {
    match v
    case Tuple(es) => forall i :: 0 <= i < |es| ==> Relocatable(es[i])
    case CodePoint(cp) => cp.Internal? || cp.ExternalPt?
    case _ => true
  }

  function RelocOp(op: Opcode, o: Offsets): Opcode {
    match op
    case PushExternal(off) => PushExternal(off + o.ext)
    case LabelOp(l) => LabelOp(RelocLabel(l, o))
    case GetGlobalVar(i) => GetGlobalVar(i + o.glob)
    case SetGlobalVar(i) => SetGlobalVar(i + o.glob)
    case _ => op
  }

  function RelocInsn(insn: Instr, o: Offsets): Instr {
    Instr(RelocOp(insn.op, o), if insn.imm.Some? then Some(RelocValue(insn.imm.value, o)) else None, insn.loc)
  }

  function InsnTop(insn: Instr, o: Offsets): nat {
    Max(Max(o.func, if insn.op.LabelOp? then LabelTop(insn.op.lab, o) else 0),
        if insn.imm.Some? then ValueTop(insn.imm.value, o) else 0)
  }

  function RelocCode(code: seq<Instr>, o: Offsets): (r: seq<Instr>)
    ensures |r| == |code|
  {
    seq(|code|, i requires 0 <= i < |code| => RelocInsn(code[i], o))
  }

  function RelocExports(exports: seq<ExportedFunc>, o: Offsets): (r: seq<ExportedFunc>)
    ensures |r| == |exports|
  {
    seq(|exports|, i requires 0 <= i < |exports| => ExportedFunc(exports[i].name, RelocLabel(exports[i].lab, o)))
  }

  /** Only the slot of an import moves; its name id does not. */
  function RelocImports(imports: seq<ImportedFunc>, o: Offsets): (r: seq<ImportedFunc>)
    ensures |r| == |imports|
  {
    seq(|imports|, i requires 0 <= i < |imports| =>
      ImportedFunc(imports[i].nameId, imports[i].slotNum + o.ext, imports[i].name))
  }

  /** The largest function offset reported by the first n instructions, and then by the first m
      exports. */
  function CodeTop(code: seq<Instr>, o: Offsets, n: nat): (top: nat)
    requires n <= |code|
    ensures top >= o.func
  {
    if n == 0 then o.func else Max(CodeTop(code, o, n - 1), InsnTop(code[n - 1], o))
  }

  function ProgramTop(p: Program, o: Offsets, m: nat): (top: nat)
    requires m <= |p.exports|
    ensures top >= o.func
  {
    if m == 0 then CodeTop(p.code, o, |p.code|) else Max(ProgramTop(p, o, m - 1), LabelTop(p.exports[m - 1].lab, o))
  }

  function RelocProgram(p: Program, o: Offsets, before: seq<Global>): Program {
    Program(RelocCode(p.code, o), RelocExports(p.exports, o), RelocImports(p.imports, o), before + p.globals)
  }

  predicate RelocatableCode(code: seq<Instr>) {
    forall i :: 0 <= i < |code| ==> (code[i].imm.Some? ==> Relocatable(code[i].imm.value))
  }

  // ----- the layout of a list of modules -----

  /** Three instructions are left for initialisation. */
  const INIT_SIZE: nat := 3

  function OffsetsAt(progs: seq<Program>, i: nat): Offsets
    requires i <= |progs|
  {
    if i == 0 then Offsets(INIT_SIZE, 0, 0, 0)
    else
      var o, p := OffsetsAt(progs, i - 1), progs[i - 1];
      Offsets(o.anon + |p.code|, o.ext + |p.imports|, ProgramTop(p, o, |p.exports|) + 1, o.glob + |p.globals|)
  }

  function CodeUpTo(progs: seq<Program>, n: nat): seq<Instr>
    requires n <= |progs|
  {
    if n == 0 then [] else CodeUpTo(progs, n - 1) + RelocCode(progs[n - 1].code, OffsetsAt(progs, n - 1))
  }

  function ExportsUpTo(progs: seq<Program>, n: nat): seq<ExportedFunc>
    requires n <= |progs|
  {
    if n == 0 then [] else ExportsUpTo(progs, n - 1) + RelocExports(progs[n - 1].exports, OffsetsAt(progs, n - 1))
  }

  function ImportsUpTo(progs: seq<Program>, n: nat): seq<ImportedFunc>
    requires n <= |progs|
  {
    if n == 0 then [] else ImportsUpTo(progs, n - 1) + RelocImports(progs[n - 1].imports, OffsetsAt(progs, n - 1))
  }

  function GlobalsUpTo(progs: seq<Program>, n: nat): (g: seq<Global>)
    requires n <= |progs|
    ensures |g| == OffsetsAt(progs, n).glob
  {
    if n == 0 then [] else GlobalsUpTo(progs, n - 1) + progs[n - 1].globals
  }

  /** usize::MAX as a name id. */
  const JUMP_TABLE: Global := Global(USIZE_LIMIT - 1, "_jump_table")

  // ----- resolving imports -----

  /** A later export of the same name wins. */
  function ExportMap(exports: seq<ExportedFunc>): map<string, Label> {
    if exports == [] then map[]
    else ExportMap(exports[..|exports| - 1])[exports[|exports| - 1].name := exports[|exports| - 1].lab]
  }

  function ResolveMap(imports: seq<ImportedFunc>, exports: map<string, Label>): map<Label, Label> {
    if imports == [] then map[]
    else
      var imp, m := imports[|imports| - 1], ResolveMap(imports[..|imports| - 1], exports);
      if imp.name in exports then m[External(imp.slotNum) := exports[imp.name]] else m
  }

  function ResolveValue(v: Value, m: map<Label, Label>): Value {
    match v
    case Tuple(es) => Tuple(seq(|es|, i requires 0 <= i < |es| => ResolveValue(es[i], m)))
    case LabelVal(l) => if l in m then LabelVal(m[l]) else v
    case _ => v
  }

  function ResolveInsn(insn: Instr, m: map<Label, Label>): Instr {
    if insn.imm.Some? then Instr(insn.op, Some(ResolveValue(insn.imm.value, m)), insn.loc) else insn
  }

  function ResolveCode(code: seq<Instr>, m: map<Label, Label>): (r: seq<Instr>)
    ensures |r| == |code|
  {
    seq(|code|, i requires 0 <= i < |code| => ResolveInsn(code[i], m))
  }

  function Resolution(progs: seq<Program>): map<Label, Label> {
    ResolveMap(ImportsUpTo(progs, |progs|), ExportMap(ExportsUpTo(progs, |progs|)))
  }

  function Linked(progs: seq<Program>, testMode: bool): Program {
    var globals := GlobalsUpTo(progs, |progs|) + [JUMP_TABLE];
    Program(ResolveCode(Init(|globals|, testMode) + CodeUpTo(progs, |progs|), Resolution(progs)),
            ExportsUpTo(progs, |progs|), ImportsUpTo(progs, |progs|), globals)
  }

  predicate LinkSucceeds(progs: seq<Program>) {
    progs != [] && forall i :: 0 <= i < |progs| ==> RelocatableCode(progs[i].code)
  }

  // ----- the source's loops -----

  method RelocateValue(v: Value, o: Offsets) returns (r: Option<Value>, top: nat)
    ensures r == if Relocatable(v) then Some(RelocValue(v, o)) else None
    ensures r.Some? ==> top == ValueTop(v, o)
    decreases v
  {
    top := 0;
    match v
    case Tuple(es) =>
      var relV: seq<Value> := [];
      for i := 0 to |es|
        invariant |relV| == i
        invariant forall j :: 0 <= j < i ==> Relocatable(es[j]) && relV[j] == RelocValue(es[j], o)
        invariant Max(top, ValuesTop(es[i..], o)) == ValuesTop(es, o)
      {
        assert es[i..][0] == es[i] && es[i..][1..] == es[i + 1..];
        var x, newTop := RelocateValue(es[i], o);
        if x.None? { return None, 0; }
        relV := relV + [x.value];
        if top < newTop { top := newTop; }
      }
      assert relV == RelocValue(v, o).elems;
      r := Some(Tuple(relV));
    case CodePoint(cp) =>
      if cp.Internal? || cp.ExternalPt? { r := Some(RelocValue(v, o)); } else { r := None; }
    case LabelVal(l) =>
      r, top := Some(LabelVal(RelocLabel(l, o))), LabelTop(l, o);
    case _ =>
      r := Some(v);
  }

  method RelocateInsn(insn: Instr, o: Offsets) returns (r: Option<Instr>, top: nat)
    ensures r == if insn.imm.Some? && !Relocatable(insn.imm.value) then None else Some(RelocInsn(insn, o))
    ensures r.Some? ==> top == InsnTop(insn, o)
  {
    top := o.func;
    if insn.op.LabelOp? && top < LabelTop(insn.op.lab, o) { top := LabelTop(insn.op.lab, o); }
    var imm: Option<Value> := None;
    if insn.imm.Some? {
      var x, newTop := RelocateValue(insn.imm.value, o);
      if x.None? { return None, 0; }
      if top < newTop { top := newTop; }
      imm := x;
    }
    r := Some(Instr(RelocOp(insn.op, o), imm, insn.loc));
  }

  method RelocateCode(code: seq<Instr>, o: Offsets) returns (r: Option<seq<Instr>>, top: nat)
    ensures r == if RelocatableCode(code) then Some(RelocCode(code, o)) else None
    ensures r.Some? ==> top == CodeTop(code, o, |code|)
  {
    var out: seq<Instr> := [];
    top := o.func;
    for i := 0 to |code|
      invariant |out| == i && top == CodeTop(code, o, i)
      invariant forall j :: 0 <= j < i ==> out[j] == RelocInsn(code[j], o)
      invariant RelocatableCode(code[..i])
    {
      var x, newTop := RelocateInsn(code[i], o);
      if x.None? { return None, 0; }
      out := out + [x.value];
      if top < newTop { top := newTop; }
      assert code[..i + 1][..i] == code[..i];
    }
    assert code[..|code|] == code && out == RelocCode(code, o);
    r := Some(out);
  }

  method RelocateExports(p: Program, o: Offsets, codeTop: nat) returns (exports: seq<ExportedFunc>, top: nat)
    requires codeTop == CodeTop(p.code, o, |p.code|)
    ensures exports == RelocExports(p.exports, o) && top == ProgramTop(p, o, |p.exports|)
  {
    exports, top := [], codeTop;
    for i := 0 to |p.exports|
      invariant |exports| == i && top == ProgramTop(p, o, i)
      invariant forall j :: 0 <= j < i ==> exports[j] == ExportedFunc(p.exports[j].name,
                                                                      RelocLabel(p.exports[j].lab, o))
    {
      var exp := p.exports[i];
      exports := exports + [ExportedFunc(exp.name, RelocLabel(exp.lab, o))];
      if top < LabelTop(exp.lab, o) { top := LabelTop(exp.lab, o); }
    }
  }

  method RelocateProgram(p: Program, o: Offsets, before: seq<Global>) returns (r: Option<Program>, top: nat)
    requires |before| == o.glob
    ensures r == if RelocatableCode(p.code) then Some(RelocProgram(p, o, before)) else None
    ensures r.Some? ==> top == ProgramTop(p, o, |p.exports|)
  {
    var code, codeTop := RelocateCode(p.code, o);
    if code.None? { return None, 0; }
    var exports, newTop := RelocateExports(p, o, codeTop);
    var imports: seq<ImportedFunc> := [];
    for i := 0 to |p.imports|
      invariant |imports| == i
      invariant forall j :: 0 <= j < i ==>
        imports[j] == ImportedFunc(p.imports[j].nameId, p.imports[j].slotNum + o.ext, p.imports[j].name)
    {
      var imp := p.imports[i];
      imports := imports + [ImportedFunc(imp.nameId, imp.slotNum + o.ext, imp.name)];
    }
    assert imports == RelocImports(p.imports, o);
    r, top := Some(Program(code.value, exports, imports, before + p.globals)), newTop;
  }

  method ModuleOffsets(progs: seq<Program>) returns (intOffsets: seq<nat>, extOffsets: seq<nat>)
    ensures |intOffsets| == |extOffsets| == |progs|
    ensures forall j {:trigger intOffsets[j]} {:trigger extOffsets[j]} :: 0 <= j < |progs| ==>
              intOffsets[j] == OffsetsAt(progs, j).anon && extOffsets[j] == OffsetsAt(progs, j).ext
  {
    var insnsSoFar, importsSoFar := INIT_SIZE, 0;
    intOffsets, extOffsets := [], [];
    for i := 0 to |progs|
      invariant insnsSoFar == OffsetsAt(progs, i).anon && importsSoFar == OffsetsAt(progs, i).ext
      invariant |intOffsets| == |extOffsets| == i
      invariant forall j {:trigger intOffsets[j]} {:trigger extOffsets[j]} :: 0 <= j < i ==>
                  intOffsets[j] == OffsetsAt(progs, j).anon && extOffsets[j] == OffsetsAt(progs, j).ext
    {
      intOffsets := intOffsets + [insnsSoFar];
      insnsSoFar := insnsSoFar + |progs[i].code|;
      extOffsets := extOffsets + [importsSoFar];
      importsSoFar := importsSoFar + |progs[i].imports|;
    }
  }

  /** The modules after relocation, their contents appended. */
  function Joined(progs: seq<Program>, n: nat): Program
    requires n <= |progs|
  {
    Program(CodeUpTo(progs, n), ExportsUpTo(progs, n), ImportsUpTo(progs, n), GlobalsUpTo(progs, n))
  }

  lemma JoinedStep(progs: seq<Program>, n: nat)
    requires n < |progs|
    ensures var r, j := RelocProgram(progs[n], OffsetsAt(progs, n), GlobalsUpTo(progs, n)), Joined(progs, n);
            Joined(progs, n + 1) == Program(j.code + r.code, j.exports + r.exports, j.imports + r.imports, r.globals)
    ensures OffsetsAt(progs, n + 1).func == ProgramTop(progs[n], OffsetsAt(progs, n), |progs[n].exports|) + 1
  {
  }

  method JoinModules(progs: seq<Program>, intOffsets: seq<nat>, extOffsets: seq<nat>) returns (r: Option<Program>)
    requires |intOffsets| == |extOffsets| == |progs|
    requires forall j {:trigger intOffsets[j]} {:trigger extOffsets[j]} :: 0 <= j < |progs| ==>
               intOffsets[j] == OffsetsAt(progs, j).anon && extOffsets[j] == OffsetsAt(progs, j).ext
    ensures r == if forall i :: 0 <= i < |progs| ==> RelocatableCode(progs[i].code) then Some(Joined(progs, |progs|))
                 else None
  {
    var funcOffset, all := 0, Program([], [], [], []);
    for i := 0 to |progs|
      invariant funcOffset == OffsetsAt(progs, i).func && all == Joined(progs, i)
      invariant forall j :: 0 <= j < i ==> RelocatableCode(progs[j].code)
    {
      var o := Offsets(intOffsets[i], extOffsets[i], funcOffset, |all.globals|);
      assert o == OffsetsAt(progs, i);
      var p, top := RelocateProgram(progs[i], o, all.globals);
      if p.None? { return None; }
      JoinedStep(progs, i);
      all := Program(all.code + p.value.code, all.exports + p.value.exports, all.imports + p.value.imports,
                     p.value.globals);
      funcOffset := top + 1;
    }
    r := Some(all);
  }

  method Link(progs: seq<Program>, testMode: bool) returns (r: Option<Program>)
    ensures r == if LinkSucceeds(progs) then Some(Linked(progs, testMode)) else None
  {
    if progs == [] { return None; }
    var intOffsets, extOffsets := ModuleOffsets(progs);
    var joined := JoinModules(progs, intOffsets, extOffsets);
    if joined.None? { return None; }
    var all := joined.value;
    var globals := all.globals + [JUMP_TABLE];
    var xlateMap := ResolveImports(all.imports, all.exports);
    var code := ResolveLabels(Init(|globals|, testMode) + all.code, xlateMap);
    r := Some(Program(code, all.exports, all.imports, globals));
  }

  method ResolveImports(imports: seq<ImportedFunc>, exports: seq<ExportedFunc>) returns (m: map<Label, Label>)
    ensures m == ResolveMap(imports, ExportMap(exports))
  {
    var exportsMap: map<string, Label> := map[];
    for i := 0 to |exports|
      invariant exportsMap == ExportMap(exports[..i])
    {
      assert exports[..i + 1][..i] == exports[..i];
      exportsMap := exportsMap[exports[i].name := exports[i].lab];
    }
    assert exports[..|exports|] == exports;
    m := map[];
    for i := 0 to |imports|
      invariant m == ResolveMap(imports[..i], exportsMap)
    {
      assert imports[..i + 1][..i] == imports[..i];
      if imports[i].name in exportsMap {
        m := m[External(imports[i].slotNum) := exportsMap[imports[i].name]];
      }
    }
    assert imports[..|imports|] == imports;
  }

  method ResolveLabels(codeIn: seq<Instr>, m: map<Label, Label>) returns (code: seq<Instr>)
    ensures code == ResolveCode(codeIn, m)
  {
    code := [];
    for i := 0 to |codeIn|
      invariant |code| == i && forall j :: 0 <= j < i ==> code[j] == ResolveInsn(codeIn[j], m)
    {
      code := code + [ResolveInsn(codeIn[i], m)];
    }
  }
}
