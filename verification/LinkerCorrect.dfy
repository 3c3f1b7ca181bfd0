/** Linking keeps modules apart: labels, import slots and globals of different modules never meet,
    the last global is left for the jump table, and what results is fit for the post-link passes. */
module LinkerCorrect {
  import opened Avm
  import opened Machine
  import opened TupleTrees
  import opened StripLabels
  import opened NonforwardCorrect
  import opened Postlink
  import opened PostlinkCorrect
  import opened Forward
  import opened Linker

  // ----- what a module may mention -----

  ghost predicate Mentions(p: Program, l: Label) {
    || (exists i :: 0 <= i < |p.code| && InsnMentions(p.code[i], l))
    || (exists i :: 0 <= i < |p.exports| && p.exports[i].lab == l)
  }

  predicate InsnMentions(insn: Instr, l: Label) {
    insn.op == LabelOp(l) || LabelVal(l) in ImmRefs(insn)
  }

  /** Generated labels number less than the instructions, and import slots less than the imports. */
  predicate InScope(p: Program, l: Label) {
    match l
    case Func(_) => true
    case Anon(n) => n < |p.code|
    case External(slot) => slot < |p.imports|
    case Evm(_) => false
  }

  ghost predicate Scoped(p: Program) {
    && (forall l :: Mentions(p, l) ==> InScope(p, l))
    && (forall i :: 0 <= i < |p.code| ==> GlobalInScope(p, p.code[i].op))
  }

  predicate GlobalInScope(p: Program, op: Opcode) {
    match op
    case GetGlobalVar(i) => i < |p.globals|
    case SetGlobalVar(i) => i < |p.globals|
    case _ => true
  }

  ghost predicate AllScoped(progs: seq<Program>) {
    forall i :: 0 <= i < |progs| ==> Scoped(progs[i])
  }

  // ----- the reported function offset bounds every function label -----

  lemma {:induction false} ValueTopCovers(v: Value, o: Offsets, id: nat)
    requires LabelVal(Func(id)) in RefsIn(v)
    ensures id + o.func <= ValueTop(v, o)
    decreases v, 1
  {
    if v.Tuple? {
      var i :| 0 <= i < |v.elems| && LabelVal(Func(id)) in RefsIn(v.elems[i]);
      ValueTopCovers(v.elems[i], o, id);
      ValuesTopCovers(v.elems, o, i);
    }
  }

  lemma {:induction false} ValuesTopCovers(es: seq<Value>, o: Offsets, i: nat)
    requires i < |es|
    ensures ValueTop(es[i], o) <= ValuesTop(es, o)
    decreases es, 0
  {
    if i > 0 { ValuesTopCovers(es[1..], o, i - 1); }
  }

  lemma {:induction false} CodeTopCovers(code: seq<Instr>, o: Offsets, n: nat, i: nat)
    requires i < n <= |code|
    ensures InsnTop(code[i], o) <= CodeTop(code, o, n)
    decreases n
  {
    if i < n - 1 { CodeTopCovers(code, o, n - 1, i); }
  }

  lemma {:induction false} ProgramTopCovers(p: Program, o: Offsets, m: nat, i: nat)
    requires i < m <= |p.exports|
    ensures LabelTop(p.exports[i].lab, o) <= ProgramTop(p, o, m)
    decreases m
  {
    if i < m - 1 { ProgramTopCovers(p, o, m - 1, i); }
  }

  lemma {:induction false} CodeTopBelow(p: Program, o: Offsets, m: nat)
    requires m <= |p.exports|
    ensures CodeTop(p.code, o, |p.code|) <= ProgramTop(p, o, m)
  {
    if m > 0 { CodeTopBelow(p, o, m - 1); }
  }

  lemma TopCovers(p: Program, o: Offsets, id: nat)
    requires Mentions(p, Func(id))
    ensures id + o.func <= ProgramTop(p, o, |p.exports|)
  {
    if i :| 0 <= i < |p.code| && InsnMentions(p.code[i], Func(id)) {
      if LabelVal(Func(id)) in ImmRefs(p.code[i]) { ValueTopCovers(p.code[i].imm.value, o, id); }
      CodeTopCovers(p.code, o, |p.code|, i);
      CodeTopBelow(p, o, |p.exports|);
    } else {
      var i :| 0 <= i < |p.exports| && p.exports[i].lab == Func(id);
      ProgramTopCovers(p, o, |p.exports|, i);
    }
  }

  // ----- windows -----

  predicate NoLess(a: Offsets, b: Offsets) {
    a.anon <= b.anon && a.ext <= b.ext && a.func <= b.func && a.glob <= b.glob
  }

  lemma {:induction false} OffsetsGrow(progs: seq<Program>, i: nat, j: nat)
    requires i <= j <= |progs|
    ensures NoLess(OffsetsAt(progs, i), OffsetsAt(progs, j))
    decreases j
  {
    if i < j { OffsetsGrow(progs, i, j - 1); }
  }

  /** A label lies in the window of its kind that starts at lo and ends before hi. */
  predicate InWindow(l: Label, lo: Offsets, hi: Offsets) {
    match l
    case Func(id) => lo.func <= id < hi.func
    case Anon(n) => lo.anon <= n < hi.anon
    case External(slot) => lo.ext <= slot < hi.ext
    case Evm(_) => false
  }

  lemma RelocInWindow(progs: seq<Program>, i: nat, l: Label)
    requires AllScoped(progs) && i < |progs| && Mentions(progs[i], l)
    ensures InWindow(RelocLabel(l, OffsetsAt(progs, i)), OffsetsAt(progs, i), OffsetsAt(progs, i + 1))
  {
    assert InScope(progs[i], l);
    if l.Func? { TopCovers(progs[i], OffsetsAt(progs, i), l.id); }
  }

  lemma WindowsApart(l: Label, a: Offsets, b: Offsets, c: Offsets, d: Offsets)
    requires InWindow(l, a, b) && NoLess(b, c)
    ensures !InWindow(l, c, d)
  {
  }

  /** The main result on labels: after relocation two labels are the same exactly when they are the
      same label of the same module. */
  lemma LabelsStayApart(progs: seq<Program>, i: nat, l: Label, j: nat, k: Label)
    requires AllScoped(progs) && i < |progs| && j < |progs|
    requires Mentions(progs[i], l) && Mentions(progs[j], k)
    ensures RelocLabel(l, OffsetsAt(progs, i)) == RelocLabel(k, OffsetsAt(progs, j)) <==> i == j && l == k
  {
    RelocInWindow(progs, i, l);
    RelocInWindow(progs, j, k);
    if RelocLabel(l, OffsetsAt(progs, i)) == RelocLabel(k, OffsetsAt(progs, j)) {
      var r := RelocLabel(l, OffsetsAt(progs, i));
      if i < j {
        OffsetsGrow(progs, i + 1, j);
        WindowsApart(r, OffsetsAt(progs, i), OffsetsAt(progs, i + 1), OffsetsAt(progs, j), OffsetsAt(progs, j + 1));
      } else if j < i {
        OffsetsGrow(progs, j + 1, i);
        WindowsApart(r, OffsetsAt(progs, j), OffsetsAt(progs, j + 1), OffsetsAt(progs, i), OffsetsAt(progs, i + 1));
      }
    }
  }

  /** No two modules share a global. */
  lemma GlobalsStayApart(progs: seq<Program>, i: nat, a: nat, j: nat, b: nat)
    requires i < |progs| && j < |progs| && a < |progs[i].globals| && b < |progs[j].globals|
    ensures OffsetsAt(progs, i).glob + a == OffsetsAt(progs, j).glob + b <==> i == j && a == b
  {
    if i < j { OffsetsGrow(progs, i + 1, j); }
    if j < i { OffsetsGrow(progs, j + 1, i); }
  }

  /** A global keeps its declaration, and the last slot is left for the jump table. */
  lemma GlobalsKept(progs: seq<Program>, i: nat, a: nat, testMode: bool)
    requires i < |progs| && a < |progs[i].globals|
    ensures var x, globals := OffsetsAt(progs, i).glob + a, Linked(progs, testMode).globals;
            x < |globals| - 1 && globals[x] == progs[i].globals[a] && globals[|globals| - 1] == JUMP_TABLE
  {
    GlobalPlaced(progs, i, a, |progs|);
  }

  lemma {:induction false} GlobalPlaced(progs: seq<Program>, i: nat, a: nat, n: nat)
    requires i < n <= |progs| && a < |progs[i].globals|
    ensures OffsetsAt(progs, i).glob + a < |GlobalsUpTo(progs, n)|
    ensures GlobalsUpTo(progs, n)[OffsetsAt(progs, i).glob + a] == progs[i].globals[a]
    decreases n
  {
    if i < n - 1 { GlobalPlaced(progs, i, a, n - 1); }
  }

  // ----- where a module's code ends up -----

  lemma {:induction false} CodeSize(progs: seq<Program>, n: nat)
    requires n <= |progs|
    ensures |CodeUpTo(progs, n)| + INIT_SIZE == OffsetsAt(progs, n).anon
  {
    if n > 0 { CodeSize(progs, n - 1); }
  }

  /** Every instruction of the joined code belongs to a module. */
  lemma {:induction false} CodeFrom(progs: seq<Program>, n: nat, x: nat) returns (i: nat, k: nat)
    requires n <= |progs| && x < |CodeUpTo(progs, n)|
    ensures i < n && k < |progs[i].code| && x + INIT_SIZE == OffsetsAt(progs, i).anon + k
    ensures CodeUpTo(progs, n)[x] == RelocInsn(progs[i].code[k], OffsetsAt(progs, i))
  {
    CodeSize(progs, n - 1);
    if x < |CodeUpTo(progs, n - 1)| {
      i, k := CodeFrom(progs, n - 1, x);
    } else {
      i, k := n - 1, x - |CodeUpTo(progs, n - 1)|;
    }
  }

  lemma {:induction false} ResolveNothing(v: Value, m: map<Label, Label>)
    requires RefsIn(v) == {}
    ensures ResolveValue(v, m) == v
  {
    if v.Tuple? {
      var es, es' := v.elems, ResolveValue(v, m).elems;
      forall i | 0 <= i < |es| ensures es'[i] == es[i] {
        assert RefsIn(es[i]) <= RefsIn(v);
        ResolveNothing(es[i], m);
      }
      assert es' == es;
    }
  }

  /** The program proper: everything after the initialising instructions. */
  function Body(progs: seq<Program>): seq<Instr> {
    ResolveCode(CodeUpTo(progs, |progs|), Resolution(progs))
  }

  lemma InitHasNoRefs(numGlobals: nat, testMode: bool, k: nat)
    requires k < |Init(numGlobals, testMode)|
    ensures ImmRefs(Init(numGlobals, testMode)[k]) == {}
  {
    EmptyHasNoLabels(TreeOf(numGlobals, false));
  }

  lemma LinkedIsInitAndBody(progs: seq<Program>, testMode: bool)
    ensures var p := Linked(progs, testMode); p.code == Init(|p.globals|, testMode) + Body(progs)
  {
    var p, m := Linked(progs, testMode), Resolution(progs);
    var init := Init(|p.globals|, testMode);
    forall k | 0 <= k < |init| ensures ResolveInsn(init[k], m) == init[k] {
      InitHasNoRefs(|p.globals|, testMode, k);
      if init[k].imm.Some? { ResolveNothing(init[k].imm.value, m); }
    }
  }

  /** The instruction of module i at position k, as it stands in the linked program. */
  lemma BodyFrom(progs: seq<Program>, x: nat) returns (i: nat, k: nat)
    requires x < |Body(progs)|
    ensures i < |progs| && k < |progs[i].code| && x + INIT_SIZE == OffsetsAt(progs, i).anon + k
    ensures Body(progs)[x] == ResolveInsn(RelocInsn(progs[i].code[k], OffsetsAt(progs, i)), Resolution(progs))
  {
    i, k := CodeFrom(progs, |progs|, x);
  }

  // ----- no duplicates -----

  /** If no module defines a label twice, neither does the linked program. */
  lemma NoDuplicates(progs: seq<Program>)
    requires AllScoped(progs) && forall i :: 0 <= i < |progs| ==> UniqueLabels(progs[i].code)
    ensures UniqueLabels(Body(progs))
  {
    var body := Body(progs);
    forall a, b | 0 <= a < b < |body| && body[a].op.LabelOp? && body[b].op.LabelOp? ensures body[a].op != body[b].op {
      var i, k := BodyFrom(progs, a);
      var j, n := BodyFrom(progs, b);
      var x, y := progs[i].code[k], progs[j].code[n];
      assert InsnMentions(x, x.op.lab) && InsnMentions(y, y.op.lab);
      LabelsStayApart(progs, i, x.op.lab, j, y.op.lab);
    }
  }

  // ----- fitness for the post-link passes -----

  /** What the compiler promises of the instructions of a module. */
  ghost predicate WellMade(insn: Instr) {
    && (insn.op.AVM? ==> insn.op.op != Rpush && insn.op.op != Rset)
    && (insn.op.LabelOp? ==> insn.imm.None?)
    && (insn.op.MakeFrame? && insn.op.returnAddress && insn.imm.Some? ==> !insn.imm.value.LabelVal?)
    && (insn.imm.Some? ==> insn.imm.value.LabelVal? || RefsIn(insn.imm.value) == {})
  }

  ghost predicate AllWellMade(progs: seq<Program>) {
    forall i, k :: 0 <= i < |progs| && 0 <= k < |progs[i].code| ==> WellMade(progs[i].code[k])
  }

  lemma {:induction false} RelocNothing(v: Value, o: Offsets)
    requires RefsIn(v) == {}
    ensures RelocValue(v, o) == v
  {
    if v.Tuple? {
      var es, es' := v.elems, RelocValue(v, o).elems;
      forall i | 0 <= i < |es| ensures es'[i] == es[i] {
        assert RefsIn(es[i]) <= RefsIn(v);
        RelocNothing(es[i], o);
      }
      assert es' == es;
    }
  }

  lemma ImmediateKept(insn: Instr, o: Offsets, m: map<Label, Label>)
    requires WellMade(insn)
    ensures var x := ResolveInsn(RelocInsn(insn, o), m);
            && x.op == RelocOp(insn.op, o) && (x.imm.None? <==> insn.imm.None?)
            && (x.imm.Some? ==> x.imm.value.LabelVal? || RefsIn(x.imm.value) == {})
            && (x.imm.Some? && x.imm.value.LabelVal? ==> insn.imm.value.LabelVal?)
  {
    if insn.imm.Some? && !insn.imm.value.LabelVal? {
      RelocNothing(insn.imm.value, o);
      ResolveNothing(insn.imm.value, m);
    }
  }

  /** Relocation takes a module's globals below the last slot. */
  lemma RelocUndisturbing(progs: seq<Program>, i: nat, k: nat, g: nat)
    requires AllScoped(progs) && AllWellMade(progs) && i < |progs| && k < |progs[i].code|
    requires g == OffsetsAt(progs, |progs|).glob + 1
    ensures var x := ResolveInsn(RelocInsn(progs[i].code[k], OffsetsAt(progs, i)), Resolution(progs));
            Undisturbing(x, g) && (x.op.LabelOp? ==> x.imm.None?)
  {
    var insn := progs[i].code[k];
    assert WellMade(insn) && GlobalInScope(progs[i], insn.op);
    ImmediateKept(insn, OffsetsAt(progs, i), Resolution(progs));
    OffsetsGrow(progs, i + 1, |progs|);
    assert OffsetsAt(progs, i + 1).glob == OffsetsAt(progs, i).glob + |progs[i].globals|;
  }

  /** The linked program meets every condition of the post-link results. */
  lemma LinkedIsLinkable(progs: seq<Program>, testMode: bool)
    requires AllScoped(progs) && AllWellMade(progs)
    ensures Linkable(Body(progs), |Linked(progs, testMode).globals|) && NestedAhead(Body(progs))
  {
    var body, g := Body(progs), |Linked(progs, testMode).globals|;
    forall x | 0 <= x < |body|
      ensures Undisturbing(body[x], g) && (body[x].op.LabelOp? ==> body[x].imm.None?) && NestedAheadAt(body, x)
    {
      var i, k := BodyFrom(progs, x);
      RelocUndisturbing(progs, i, k, g);
      assert WellMade(progs[i].code[k]);
      ImmediateKept(progs[i].code[k], OffsetsAt(progs, i), Resolution(progs));
    }
  }

  // ----- imports -----

  /** The last export of a name. */
  lemma {:induction false} ExportMapLast(exports: seq<ExportedFunc>, k: nat)
    requires k < |exports| && forall j :: k < j < |exports| ==> exports[j].name != exports[k].name
    ensures exports[k].name in ExportMap(exports) && ExportMap(exports)[exports[k].name] == exports[k].lab
  {
    var n := |exports| - 1;
    if k < n { ExportMapLast(exports[..n], k); }
  }

  lemma {:induction false} ResolveMapAt(imports: seq<ImportedFunc>, exports: map<string, Label>, k: nat)
    requires k < |imports| && forall j :: k < j < |imports| ==> imports[j].slotNum != imports[k].slotNum
    requires imports[k].name in exports
    ensures var l, m := External(imports[k].slotNum), ResolveMap(imports, exports);
            l in m && m[l] == exports[imports[k].name]
  {
    var n := |imports| - 1;
    if k < n { ResolveMapAt(imports[..n], exports, k); }
  }

  /** Only imported slots are ever renamed. */
  lemma {:induction false} ResolveMapOnly(imports: seq<ImportedFunc>, exports: map<string, Label>, l: Label)
    requires l in ResolveMap(imports, exports)
    ensures exists k :: 0 <= k < |imports| && l == External(imports[k].slotNum) && imports[k].name in exports
  {
    var n := |imports| - 1;
    if l != External(imports[n].slotNum) || imports[n].name !in exports {
      ResolveMapOnly(imports[..n], exports, l);
      var k :| 0 <= k < n && l == External(imports[..n][k].slotNum) && imports[..n][k].name in exports;
      assert l == External(imports[k].slotNum);
    }
  }

  /** Each module numbers its imports by slot. */
  ghost predicate SlotsInOrder(progs: seq<Program>) {
    forall i, k :: 0 <= i < |progs| && 0 <= k < |progs[i].imports| ==> progs[i].imports[k].slotNum == k
  }

  lemma {:induction false} ImportPlaced(progs: seq<Program>, n: nat, x: nat)
    requires n <= |progs| && SlotsInOrder(progs) && x < |ImportsUpTo(progs, n)|
    ensures |ImportsUpTo(progs, n)| == OffsetsAt(progs, n).ext && ImportsUpTo(progs, n)[x].slotNum == x
  {
    if n > 0 {
      ImportsSize(progs, n);
      ImportsSize(progs, n - 1);
      if x < |ImportsUpTo(progs, n - 1)| { ImportPlaced(progs, n - 1, x); }
    }
  }

  lemma {:induction false} ImportsSize(progs: seq<Program>, n: nat)
    requires n <= |progs|
    ensures |ImportsUpTo(progs, n)| == OffsetsAt(progs, n).ext
  {
    if n > 0 { ImportsSize(progs, n - 1); }
  }

  lemma {:induction false} ImportOf(progs: seq<Program>, n: nat, i: nat, k: nat, x: nat)
    requires i < n <= |progs| && k < |progs[i].imports| && x == OffsetsAt(progs, i).ext + k
    ensures x < |ImportsUpTo(progs, n)| && ImportsUpTo(progs, n)[x].name == progs[i].imports[k].name
    decreases n
  {
    ImportsSize(progs, n - 1);
    if i < n - 1 { ImportOf(progs, n - 1, i, k, x); }
  }

  /** A reference to import k of module i, as it stands in the linked program. */
  function ImportRef(progs: seq<Program>, i: nat, k: nat): Value
    requires i < |progs|
  {
    ResolveValue(RelocValue(LabelVal(External(k)), OffsetsAt(progs, i)), Resolution(progs))
  }

  /** It becomes the label of the last export of that name in the whole program. */
  lemma ImportsResolve(progs: seq<Program>, i: nat, k: nat, e: nat)
    requires SlotsInOrder(progs) && i < |progs| && k < |progs[i].imports|
    requires var exports := ExportsUpTo(progs, |progs|);
             && e < |exports| && exports[e].name == progs[i].imports[k].name
             && forall j :: e < j < |exports| ==> exports[j].name != exports[e].name
    ensures ImportRef(progs, i, k) == LabelVal(ExportsUpTo(progs, |progs|)[e].lab)
  {
    var x := OffsetsAt(progs, i).ext + k;
    ImportOf(progs, |progs|, i, k, x);
    ResolvesTo(progs, x, e);
  }

  lemma ResolvesTo(progs: seq<Program>, x: nat, e: nat)
    requires SlotsInOrder(progs) && x < |ImportsUpTo(progs, |progs|)|
    requires var exports := ExportsUpTo(progs, |progs|);
             && e < |exports| && exports[e].name == ImportsUpTo(progs, |progs|)[x].name
             && forall j :: e < j < |exports| ==> exports[j].name != exports[e].name
    ensures External(x) in Resolution(progs) && Resolution(progs)[External(x)] == ExportsUpTo(progs, |progs|)[e].lab
  {
    var exports, imports := ExportsUpTo(progs, |progs|), ImportsUpTo(progs, |progs|);
    forall j | 0 <= j < |imports| ensures imports[j].slotNum == j { ImportPlaced(progs, |progs|, j); }
    ExportMapLast(exports, e);
    ResolveMapAt(imports, ExportMap(exports), x);
  }

  predicate Exports(exports: seq<ExportedFunc>, name: string) {
    exists j :: 0 <= j < |exports| && exports[j].name == name
  }

  /** It stays an external reference when nothing exports the name. */
  lemma ImportsUnresolved(progs: seq<Program>, i: nat, k: nat)
    requires SlotsInOrder(progs) && i < |progs| && k < |progs[i].imports|
    requires !Exports(ExportsUpTo(progs, |progs|), progs[i].imports[k].name)
    ensures ImportRef(progs, i, k) == LabelVal(External(OffsetsAt(progs, i).ext + k))
  {
    var x := OffsetsAt(progs, i).ext + k;
    ImportOf(progs, |progs|, i, k, x);
    Unresolved(progs, x);
    assert RelocValue(LabelVal(External(k)), OffsetsAt(progs, i)) == LabelVal(External(x));
  }

  lemma Unresolved(progs: seq<Program>, x: nat)
    requires SlotsInOrder(progs) && x < |ImportsUpTo(progs, |progs|)|
    requires !Exports(ExportsUpTo(progs, |progs|), ImportsUpTo(progs, |progs|)[x].name)
    ensures External(x) !in Resolution(progs)
  {
    var exports, imports := ExportsUpTo(progs, |progs|), ImportsUpTo(progs, |progs|);
    if External(x) in Resolution(progs) {
      ResolveMapOnly(imports, ExportMap(exports), External(x));
      var j :| 0 <= j < |imports| && External(x) == External(imports[j].slotNum)
        && imports[j].name in ExportMap(exports);
      ImportPlaced(progs, |progs|, j);
      MapExports(exports, imports[j].name);
    }
  }

  lemma {:induction false} MapExports(exports: seq<ExportedFunc>, name: string)
    requires name in ExportMap(exports)
    ensures Exports(exports, name)
  {
    var n := |exports| - 1;
    if exports[n].name != name {
      MapExports(exports[..n], name);
      var j :| 0 <= j < n && exports[..n][j].name == name;
      assert exports[j].name == name;
    }
  }

  // ----- name ids -----

  /** Some import carries this name id. */
  predicate Named(imports: seq<ImportedFunc>, id: nat) {
    exists j :: 0 <= j < |imports| && imports[j].nameId == id
  }

  predicate NamedUpTo(progs: seq<Program>, n: nat, id: nat)
    requires n <= |progs|
  {
    exists i :: 0 <= i < n && Named(progs[i].imports, id)
  }

  lemma {:induction false} FuncsInMap(imports: seq<ImportedFunc>, id: nat)
    ensures Func(id) in ImportMap(imports) <==> Named(imports, id)
  {
    var n := |imports| - 1;
    if imports != [] {
      FuncsInMap(imports[..n], id);
      if Named(imports[..n], id) {
        var j :| 0 <= j < n && imports[..n][j].nameId == id;
        assert imports[j].nameId == id;
      }
      if Named(imports, id) && imports[n].nameId != id {
        var j :| 0 <= j < |imports| && imports[j].nameId == id;
        assert imports[..n][j].nameId == id;
      }
    }
  }

  lemma {:induction false} CollectLeaves(code: seq<Instr>, start: nat, m: LabelMap, l: Label)
    requires Collect(code, start, m).Ok? && !HasLabel(code, l)
    ensures var m' := Collect(code, start, m).value; (l in m' <==> l in m) && (l in m ==> m'[l] == m[l])
  {
    if code != [] {
      forall i | 0 <= i < |code[1..]| ensures code[1..][i].op != LabelOp(l) { assert code[1..][i] == code[i + 1]; }
      if code[0].op.LabelOp? {
        CollectLeaves(code[1..], start, m[code[0].op.lab := Internal(start)], l);
      } else {
        CollectLeaves(code[1..], start + 1, m, l);
      }
    }
  }

  lemma {:induction false} NamesOfModules(progs: seq<Program>, n: nat, id: nat)
    requires n <= |progs|
    ensures Named(ImportsUpTo(progs, n), id) <==> NamedUpTo(progs, n, id)
  {
    if n > 0 {
      var a, b := ImportsUpTo(progs, n - 1), RelocImports(progs[n - 1].imports, OffsetsAt(progs, n - 1));
      NamesOfModules(progs, n - 1, id);
      NamedAppend(a, b, id);
      RelocKeepsNames(progs[n - 1].imports, OffsetsAt(progs, n - 1), id);
    }
  }

  lemma NamedAppend(a: seq<ImportedFunc>, b: seq<ImportedFunc>, id: nat)
    ensures Named(a + b, id) <==> Named(a, id) || Named(b, id)
  {
    if Named(a, id) {
      var j :| 0 <= j < |a| && a[j].nameId == id;
      assert (a + b)[j].nameId == id;
    }
    if Named(b, id) {
      var j :| 0 <= j < |b| && b[j].nameId == id;
      assert (a + b)[|a| + j].nameId == id;
    }
  }

  lemma RelocKeepsNames(imports: seq<ImportedFunc>, o: Offsets, id: nat)
    ensures Named(RelocImports(imports, o), id) <==> Named(imports, id)
  {
    if Named(imports, id) {
      var j :| 0 <= j < |imports| && imports[j].nameId == id;
      assert RelocImports(imports, o)[j].nameId == id;
    }
  }

  /** A module refers to a function that nothing defines. Stripping reports it, unless some import of
      any module carries the relocated number as its name id, which relocation has not moved: then
      the reference becomes that import. */
  lemma UndefinedFunction(progs: seq<Program>, i: nat, id: nat, code: seq<Instr>)
    requires i < |progs| && !HasLabel(code, RelocLabel(Func(id), OffsetsAt(progs, i)))
    requires Collect(code, 0, ImportMap(ImportsUpTo(progs, |progs|))).Ok?
    ensures var m := Collect(code, 0, ImportMap(ImportsUpTo(progs, |progs|))).value;
            var r := ReplaceLabels(RelocValue(LabelVal(Func(id)), OffsetsAt(progs, i)), m);
            && (r.Err? <==> !NamedUpTo(progs, |progs|, id + OffsetsAt(progs, i).func))
            && (r.Ok? ==> r.value.CodePoint? && r.value.cp.ExternalPt?)
  {
    var imports, l := ImportsUpTo(progs, |progs|), Func(id + OffsetsAt(progs, i).func);
    CollectLeaves(code, 0, ImportMap(imports), l);
    FuncsInMap(imports, l.id);
    NamesOfModules(progs, |progs|, l.id);
    if l in ImportMap(imports) { ImportsAreExternal(imports, l); }
  }

  function OneFunction(loc: nat): Program { Program([Instr(LabelOp(Func(0)), None, loc)], [], [], []) }

  function OneImport(loc: nat): Program {
    Program([Instr(AVM(Noop), Some(LabelVal(Func(4))), loc)], [], [ImportedFunc(5, 0, "f")], [])
  }

  /** Behind a module with one function, function 4 is renumbered 5 and taken for the import whose
      name id is 5. */
  lemma UndefinedFunctionExample(loc: nat)
    ensures var progs := [OneFunction(loc), OneImport(loc)];
            && Collect(Body(progs), 0, ImportMap(ImportsUpTo(progs, 2))).Ok?
            && !HasLabel(Body(progs), RelocLabel(Func(4), OffsetsAt(progs, 1)))
            && NamedUpTo(progs, 2, 4 + OffsetsAt(progs, 1).func)
  {
    var progs := [OneFunction(loc), OneImport(loc)];
    ExampleOffsets(progs, loc);
    ExampleBody(progs, loc);
    CollectsTwo(Body(progs), ImportsUpTo(progs, 2));
    assert OneImport(loc).imports[0].nameId == 5;
    assert Named(progs[1].imports, 5);
  }

  lemma ExampleOffsets(progs: seq<Program>, loc: nat)
    requires |progs| == 2 && progs[0] == OneFunction(loc)
    ensures OffsetsAt(progs, 1) == Offsets(INIT_SIZE + 1, 0, 1, 0)
  {
    var o, code := OffsetsAt(progs, 0), OneFunction(loc).code;
    assert CodeTop(code, o, 1) == Max(CodeTop(code, o, 0), InsnTop(code[0], o));
    assert ProgramTop(OneFunction(loc), o, 0) == 0;
  }

  lemma ExampleBody(progs: seq<Program>, loc: nat)
    requires progs == [OneFunction(loc), OneImport(loc)]
    ensures |Body(progs)| == 2 && Body(progs)[0].op == LabelOp(Func(0)) && Body(progs)[1].op == AVM(Noop)
  {
    var a, b := RelocCode(progs[0].code, OffsetsAt(progs, 0)), RelocCode(progs[1].code, OffsetsAt(progs, 1));
    assert CodeUpTo(progs, 1) == CodeUpTo(progs, 0) + a;
    assert CodeUpTo(progs, 2) == CodeUpTo(progs, 1) + b;
    assert CodeUpTo(progs, 2) == [a[0], b[0]];
  }

  lemma CollectsTwo(code: seq<Instr>, imports: seq<ImportedFunc>)
    requires |code| == 2 && code[0].op == LabelOp(Func(0)) && code[1].op == AVM(Noop)
    ensures Collect(code, 0, ImportMap(imports)).Ok?
  {
    var m := ImportMap(imports);
    if Func(0) in m { ImportsAreExternal(imports, Func(0)); }
    assert Collect(code[1..][1..], 1, m[Func(0) := Internal(0)]).Ok?;
    assert Collect(code[1..], 0, m[Func(0) := Internal(0)]).Ok?;
  }
}
