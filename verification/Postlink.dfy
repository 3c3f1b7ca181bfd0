/** postlink_compile (src/link/mod.rs:232-341): the passes in order, and the jump table put into the
    value that initialises the register. */
module Postlink {
  import opened Avm
  import opened TupleTrees
  import opened Virtual
  import opened TupleCode
  import opened Lowering
  import opened Peephole
  import opened StripLabels
  import opened Nonforward

  /** What link puts before the program: it sets the register to an empty table of globals. */
  function Init(numGlobals: nat, testMode: bool): seq<Instr> {
    var table := MakeEmpty(TreeOf(numGlobals, false));
    if testMode then [WithImm(Noop, NONE, 0), WithImm(Noop, table, 0), Plain(Rset, 0)]
    else [Plain(Rpush, 0), WithImm(Noop, NONE, 0), WithImm(Rset, table, 0)]
  }

  /** Where the passes leave the instruction that sets the register. */
  function TableOffset(testMode: bool): nat { if testMode then 1 else 2 }

  function CodePointVals(table: seq<CodePt>): (vals: seq<Value>)
    ensures |vals| == |table|
  {
    seq(|table|, i requires 0 <= i < |table| => CodePoint(table[i]))
  }

  /** jump_table_to_value. */
  function JumpTableValue(table: seq<CodePt>): Value {
    ValueFromFieldList(CodePointVals(table))
  }

  function Hardcode(code: seq<Instr>, v: Value, testMode: bool): Result<seq<Instr>> {
    var k := TableOffset(testMode);
    if k >= |code| || code[k].imm.None? then Err(Panic)
    else
      var imm := ReplaceLastNone(code[k].imm.value, v);
      if imm.None? then Err(Panic) else Ok(code[k := Instr(code[k].op, imm, code[k].loc)])
  }

  function Real(code: seq<Instr>): Result<seq<Instr>> {
    if forall i :: 0 <= i < |code| ==> code[i].op.AVM? then Ok(code) else Err(VirtualOpcode)
  }

  function Compiled(code: seq<Instr>, imports: seq<ImportedFunc>, numGlobals: nat, testMode: bool): Result<seq<Instr>> {
    if numGlobals == 0 then Err(Panic)
    else
      var routed := Route(code, imports, numGlobals - 1);
      match Lower(routed.code, INITIAL_FRAME, numGlobals)
      case Err(e) => Err(e)
      case Ok(lowered) =>
        match Strip(Optimize(lowered), routed.table, imports)
        case Err(e) => Err(e)
        case Ok(stripped) =>
          match Hardcode(stripped.code, JumpTableValue(stripped.table), testMode)
          case Err(e) => Err(e)
          case Ok(final) => Real(final)
  }

  method HardcodeJumpTable(code: CodeVec, jumpTable: Value, testMode: bool) returns (e: Option<CompileError>)
    modifies code
    ensures match Hardcode(old(code.insns), jumpTable, testMode)
            case Ok(c) => e.None? && code.insns == c
            case Err(err) => e == Some(err)
  {
    var offset := if testMode then 1 else 2;
    if offset >= |code.insns| || code.insns[offset].imm.None? { return Some(Panic); }
    var oldInsn := code.insns[offset];
    var imm := ReplaceLastNone(oldInsn.imm.value, jumpTable);
    if imm.None? { return Some(Panic); }
    code.insns := code.insns[offset := Instr(oldInsn.op, imm, oldInsn.loc)];
    e := None;
  }

  method PostlinkCompile(code: seq<Instr>, imports: seq<ImportedFunc>, numGlobals: nat, testMode: bool)
    returns (r: Result<seq<Instr>>)
    ensures r == Compiled(code, imports, numGlobals, testMode)
  {
    if numGlobals == 0 { return Err(Panic); }
    var code2, jumpTable := FixNonforwardLabels(code, imports, numGlobals - 1);
    var code3 := FixTupleSize(code2, numGlobals);
    if code3.Err? { return Err(code3.error); }
    var code4 := PeepholePass(code3.value);
    var stripped := StripLabelsPass(code4, jumpTable, imports);
    if stripped.Err? { return Err(stripped.error); }
    r := Finish(stripped.value, testMode);
  }

  /** The last steps, on the stripped code. */
  method Finish(stripped: Stripped, testMode: bool) returns (r: Result<seq<Instr>>)
    ensures var h := Hardcode(stripped.code, JumpTableValue(stripped.table), testMode);
            r == if h.Ok? then Real(h.value) else h
  {
    var code5 := new CodeVec();
    code5.insns := stripped.code;
    var e := HardcodeJumpTable(code5, JumpTableValue(stripped.table), testMode);
    if e.Some? { return Err(e.value); }
    for i := 0 to |code5.insns|
      invariant forall j :: 0 <= j < i ==> code5.insns[j].op.AVM?
    {
      if !code5.insns[i].op.AVM? { return Err(VirtualOpcode); }
    }
    r := Ok(code5.insns);
  }
}
