/** strip_labels (src/link/striplabels.rs:13-86): labels become code points. The stripped program
    simulates the labelled one. */
module StripLabels {
  import opened Avm

  datatype ImportedFunc = ImportedFunc(nameId: nat, slotNum: nat, name: string)

  type LabelMap = map<Label, CodePt>

  datatype Stripped = Stripped(code: seq<Instr>, table: seq<CodePt>)

  // ----- the pass as functions -----

  /** Imports map to external code points; a later import wins. */
  function ImportMap(imports: seq<ImportedFunc>): LabelMap {
    if imports == [] then map[]
    else
      var imp := imports[|imports| - 1];
      ImportMap(imports[..|imports| - 1])[External(imp.slotNum) := ExternalPt(imp.slotNum)]
                                         [Func(imp.nameId) := ExternalPt(imp.slotNum)]
  }

  /** Adds every label of the code, counting the instructions that will remain before it. */
  function Collect(code: seq<Instr>, count: nat, m: LabelMap): Result<LabelMap> {
    if code == [] then Ok(m)
    else match code[0].op
      case LabelOp(l) =>
        if l in m && m[l].Internal? then Err(DuplicateLabel(m[l].pc))
        else Collect(code[1..], count, m[l := Internal(count)])
      case _ => Collect(code[1..], count + 1, m)
  }

  function ReplaceLabels(v: Value, m: LabelMap): Result<Value>
    decreases v, 1
  {
    match v
    case LabelVal(l) => if l in m then Ok(CodePoint(m[l])) else Err(UndefinedLabel(l))
    case Tuple(es) =>
      (match ReplaceAll(es, m)
       case Ok(es') => Ok(Tuple(es'))
       case Err(e) => Err(e))
    case _ => Ok(v)
  }

  function ReplaceAll(es: seq<Value>, m: LabelMap): Result<seq<Value>>
    decreases es, 0
  {
    if es == [] then Ok([])
    else
      match ReplaceLabels(es[0], m)
      case Err(e) => Err(e)
      case Ok(v) =>
        match ReplaceAll(es[1..], m)
        case Err(e) => Err(e)
        case Ok(vs) => Ok([v] + vs)
  }

  function StripInsn(insn: Instr, m: LabelMap): Result<Instr> {
    match insn.imm
    case None => Ok(insn)
    case Some(v) =>
      match ReplaceLabels(v, m)
      case Ok(v') => Ok(Instr(insn.op, Some(v'), insn.loc))
      case Err(e) => Err(e)
  }

  function StripCode(code: seq<Instr>, m: LabelMap): Result<seq<Instr>> {
    if code == [] then Ok([])
    else if code[0].op.LabelOp? then StripCode(code[1..], m)
    else
      match StripInsn(code[0], m)
      case Err(e) => Err(e)
      case Ok(insn) =>
        match StripCode(code[1..], m)
        case Err(e) => Err(e)
        case Ok(rest) => Ok([insn] + rest)
  }

  function StripTable(table: seq<Label>, m: LabelMap): Result<seq<CodePt>> {
    if table == [] then Ok([])
    else if table[0] !in m then Err(UndefinedLabel(table[0]))
    else
      match StripTable(table[1..], m)
      case Err(e) => Err(e)
      case Ok(rest) => Ok([m[table[0]]] + rest)
  }

  function Strip(code: seq<Instr>, table: seq<Label>, imports: seq<ImportedFunc>): Result<Stripped> {
    match Collect(code, 0, ImportMap(imports))
    case Err(e) => Err(e)
    case Ok(m) =>
      match StripCode(code, m)
      case Err(e) => Err(e)
      case Ok(c) =>
        match StripTable(table, m)
        case Err(e) => Err(e)
        case Ok(t) => Ok(Stripped(c, t))
  }

  // ----- the pass itself -----

  method CollectLabels(code: seq<Instr>, imports: seq<ImportedFunc>) returns (r: Result<LabelMap>)
    ensures r == Collect(code, 0, ImportMap(imports))
  {
    var labelMap: LabelMap := map[];
    for i := 0 to |imports|
      invariant labelMap == ImportMap(imports[..i])
    {
      var imp := imports[i];
      assert imports[..i + 1][..i] == imports[..i];
      labelMap := labelMap[External(imp.slotNum) := ExternalPt(imp.slotNum)];
      labelMap := labelMap[Func(imp.nameId) := ExternalPt(imp.slotNum)];
    }
    assert imports[..|imports|] == imports;
    var afterCount: nat := 0;
    for i := 0 to |code|
      invariant Collect(code, 0, ImportMap(imports)) == Collect(code[i..], afterCount, labelMap)
    {
      var insn := code[i];
      assert code[i..][0] == insn && code[i..][1..] == code[i + 1..];
      if insn.op.LabelOp? {
        var l := insn.op.lab;
        if l in labelMap && labelMap[l].Internal? {
          return Err(DuplicateLabel(labelMap[l].pc));
        }
        labelMap := labelMap[l := Internal(afterCount)];
      } else {
        afterCount := afterCount + 1;
      }
    }
    r := Ok(labelMap);
  }

  method ReplaceLabelsIn(v: Value, m: LabelMap) returns (r: Result<Value>)
    ensures r == ReplaceLabels(v, m)
    decreases v
  {
    match v
    case LabelVal(l) =>
      if l in m { return Ok(CodePoint(m[l])); } else { return Err(UndefinedLabel(l)); }
    case Tuple(es) =>
      var newVec: seq<Value> := [];
      assert Prepended([], ReplaceAll(es, m)) == ReplaceAll(es, m) by { PrependNothing(ReplaceAll(es, m)); }
      for i := 0 to |es|
        invariant ReplaceAll(es, m) == Prepended(newVec, ReplaceAll(es[i..], m))
      {
        assert es[i..][0] == es[i] && es[i..][1..] == es[i + 1..];
        var x := ReplaceLabelsIn(es[i], m);
        if x.Err? { return Err(x.error); }
        PrependOne(newVec, x.value, ReplaceAll(es[i + 1..], m));
        newVec := newVec + [x.value];
      }
      PrependNothing(Ok(newVec));
      r := Ok(Tuple(newVec));
    case _ =>
      r := Ok(v);
  }

  /** An accumulated prefix and the result for the rest. */
  function Prepended<T>(pre: seq<T>, r: Result<seq<T>>): Result<seq<T>> {
    if r.Ok? then Ok(pre + r.value) else r
  }

  lemma PrependNothing<T>(r: Result<seq<T>>)
    ensures Prepended([], r) == r
    ensures r.Ok? ==> r.value + [] == r.value
  {
    if r.Ok? { assert [] + r.value == r.value; }
  }

  lemma PrependOne<T>(pre: seq<T>, x: T, r: Result<seq<T>>)
    ensures Prepended(pre, Prepended([x], r)) == Prepended(pre + [x], r)
  {
    if r.Ok? { assert pre + ([x] + r.value) == pre + [x] + r.value; }
  }

  method StripLabelsPass(codeIn: seq<Instr>, jumpTable: seq<Label>, imports: seq<ImportedFunc>)
    returns (r: Result<Stripped>)
    ensures r == Strip(codeIn, jumpTable, imports)
  {
    var collected := CollectLabels(codeIn, imports);
    if collected.Err? { return Err(collected.error); }
    var labelMap := collected.value;
    var codeOut := StripInstructions(codeIn, labelMap);
    if codeOut.Err? { return Err(codeOut.error); }
    var tableOut := LookUpTable(jumpTable, labelMap);
    if tableOut.Err? { return Err(tableOut.error); }
    r := Ok(Stripped(codeOut.value, tableOut.value));
  }

  method StripInstructions(codeIn: seq<Instr>, m: LabelMap) returns (r: Result<seq<Instr>>)
    ensures r == StripCode(codeIn, m)
  {
    var codeOut: seq<Instr> := [];
    PrependNothing(StripCode(codeIn, m));
    for i := 0 to |codeIn|
      invariant StripCode(codeIn, m) == Prepended(codeOut, StripCode(codeIn[i..], m))
    {
      var insn := codeIn[i];
      assert codeIn[i..][0] == insn && codeIn[i..][1..] == codeIn[i + 1..];
      if !insn.op.LabelOp? {
        var x := insn;
        if insn.imm.Some? {
          var v := ReplaceLabelsIn(insn.imm.value, m);
          if v.Err? { return Err(v.error); }
          x := Instr(insn.op, Some(v.value), insn.loc);
        }
        PrependOne(codeOut, x, StripCode(codeIn[i + 1..], m));
        codeOut := codeOut + [x];
      }
    }
    PrependNothing(Ok(codeOut));
    r := Ok(codeOut);
  }

  method LookUpTable(jumpTable: seq<Label>, m: LabelMap) returns (r: Result<seq<CodePt>>)
    ensures r == StripTable(jumpTable, m)
  {
    var out: seq<CodePt> := [];
    PrependNothing(StripTable(jumpTable, m));
    for i := 0 to |jumpTable|
      invariant StripTable(jumpTable, m) == Prepended(out, StripTable(jumpTable[i..], m))
    {
      assert jumpTable[i..][0] == jumpTable[i] && jumpTable[i..][1..] == jumpTable[i + 1..];
      if jumpTable[i] !in m { return Err(UndefinedLabel(jumpTable[i])); }
      PrependOne(out, m[jumpTable[i]], StripTable(jumpTable[i + 1..], m));
      out := out + [m[jumpTable[i]]];
    }
    PrependNothing(Ok(out));
    r := Ok(out);
  }

  // ----- where labels go -----

  /** The instructions that remain before position i. */
  function Count(code: seq<Instr>, i: nat): nat
    requires i <= |code|
  {
    if i == 0 then 0 else Count(code, i - 1) + (if code[i - 1].op.LabelOp? then 0 else 1)
  }

  lemma {:induction false} CountTail(code: seq<Instr>, i: nat)
    requires 0 < i <= |code|
    ensures Count(code, i) == (if code[0].op.LabelOp? then 0 else 1) + Count(code[1..], i - 1)
  {
    if i > 1 { CountTail(code, i - 1); }
  }

  /** Each label of the code is mapped to the number of instructions before it. */
  ghost predicate Places(code: seq<Instr>, start: nat, m: LabelMap) {
    forall i :: 0 <= i < |code| ==> PlacedAt(code, start, m, i)
  }

  predicate PlacedAt(code: seq<Instr>, start: nat, m: LabelMap, i: nat)
    requires i < |code|
  {
    code[i].op.LabelOp? ==> code[i].op.lab in m && m[code[i].op.lab] == Internal(start + Count(code, i))
  }

  lemma {:induction false} CollectPlaces(code: seq<Instr>, start: nat, m: LabelMap)
    requires Collect(code, start, m).Ok?
    ensures var m' := Collect(code, start, m).value;
            && Places(code, start, m')
            && (forall l :: l in m && m[l].Internal? ==> l in m' && m'[l] == m[l])
            && (forall l :: l in m' && m'[l].Internal? ==> (l in m && m[l] == m'[l]) || HasLabel(code, l))
            && (forall l :: l in m ==> l in m')
  {
    if code != [] {
      var m' := Collect(code, start, m).value;
      var rest := code[1..];
      if code[0].op.LabelOp? {
        CollectPlaces(rest, start, m[code[0].op.lab := Internal(start)]);
      } else {
        CollectPlaces(rest, start + 1, m);
      }
      forall i | 0 <= i < |code| ensures PlacedAt(code, start, m', i) {
        if i > 0 {
          CountTail(code, i);
          assert PlacedAt(rest, if code[0].op.LabelOp? then start else start + 1, m', i - 1);
        }
      }
      forall l | l in m' && m'[l].Internal? ensures (l in m && m[l] == m'[l]) || HasLabel(code, l) {
        if HasLabel(rest, l) {
          var i :| 0 <= i < |rest| && rest[i].op == LabelOp(l);
          assert code[i + 1].op == LabelOp(l);
        } else if code[0].op == LabelOp(l) {
          assert HasLabel(code, l);
        }
      }
    }
  }
}
