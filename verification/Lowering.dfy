/** fix_tuple_size (src/link/xformcode.rs:15-244): flat locals, globals and tuples become paths
    through nested tuples. The emitted code simulates the flat machine. */
module Lowering {
  import opened Avm
  import opened TupleTrees
  import opened TupleCode
  import opened Virtual

  // ----- the translation -----

  function IndexOf(insn: Instr): Result<nat> {
    if insn.imm.None? then Err(MissingImmediate)
    else match ToUsize(insn.imm.value)
      case Some(i) => Ok(i)
      case None => Err(IndexTooLarge)
  }

  function WriteArgs(t: TupleTree, k: nat, nargs: nat, loc: nat): Result<seq<Instr>>
    requires k <= nargs
    decreases nargs - k
  {
    if k == nargs then Ok([])
    else
      match WriteCode(t, true, k, loc)
      case Err(e) => Err(e)
      case Ok(c) => Prepend(c, WriteArgs(t, k + 1, nargs, loc))
  }

  /** Saves the return address, and supplies the immediate as the first argument. */
  function SaveCode(returnAddress: bool, loc: nat): seq<Instr> {
    if returnAddress then [Plain(AuxPush, loc)] else []
  }

  function SupplyCode(imm: Option<Value>, loc: nat): seq<Instr> {
    if imm.Some? then [WithImm(Noop, imm.value, loc)] else []
  }

  function FrameHead(insn: Instr): seq<Instr>
    requires insn.op.MakeFrame?
  {
    SaveCode(insn.op.returnAddress, insn.loc) + SupplyCode(insn.imm, insn.loc)
    + [WithImm(AuxPush, MakeEmpty(TreeOf(insn.op.ntotal, true)), insn.loc)]
  }

  function FrameCode(insn: Instr): Result<seq<Instr>>
    requires insn.op.MakeFrame?
  {
    Prepend(FrameHead(insn), WriteArgs(TreeOf(insn.op.ntotal, true), 0, insn.op.nargs, insn.loc))
  }

  function SetGlobalCode(globals: TupleTree, i: nat, loc: nat): Result<seq<Instr>> {
    match WriteCode(globals, false, i, loc)
    case Err(e) => Err(e)
    case Ok(c) => Ok([Plain(Rpush, loc)] + c + [Plain(Rset, loc)])
  }

  function GetGlobalCode(globals: TupleTree, i: nat, loc: nat): Result<seq<Instr>> {
    Prepend([Plain(Rpush, loc)], ReadCode(globals, false, i, loc))
  }

  function ReturnCode(imm: Option<Value>, loc: nat): seq<Instr> {
    [Instr(AVM(AuxPop), imm, loc), Plain(Pop, loc), Plain(AuxPop, loc), Plain(Jump, loc)]
  }

  function IndexedCode(insn: Instr, t: TupleTree, isLocal: bool, read: bool): Result<seq<Instr>> {
    match IndexOf(insn)
    case Err(e) => Err(e)
    case Ok(i) => if read then ReadCode(t, isLocal, i, insn.loc) else WriteCode(t, isLocal, i, insn.loc)
  }

  /** One digit of a fixed-array index: from index and array to subindex and subarray. */
  function DigitCode(loc: nat): seq<Instr> {
    [WithImm(Dup1, Int(TUPLE_SIZE), loc), Plain(Bin(Mod), loc), Plain(Swap1, loc),
     WithImm(Swap1, Int(TUPLE_SIZE), loc), Plain(Bin(Div), loc),
     Plain(Swap2, loc), Plain(Swap1, loc), Plain(Tget, loc), Plain(Swap1, loc)]
  }

  function FixedGetCode(size: nat, loc: nat): seq<Instr>
    decreases size
  {
    if size > TUPLE_SIZE then DigitCode(loc) + FixedGetCode((size + (TUPLE_SIZE - 1)) / TUPLE_SIZE, loc)
    else [Plain(Tget, loc)]
  }

  function Prepend(pre: seq<Instr>, r: Result<seq<Instr>>): Result<seq<Instr>> {
    if r.Ok? then Ok(pre + r.value) else r
  }

  lemma PrependTwice(a: seq<Instr>, b: seq<Instr>, r: Result<seq<Instr>>)
    ensures Prepend(a, Prepend(b, r)) == Prepend(a + b, r)
    ensures Prepend([], r) == r
  {
    if r.Ok? {
      assert a + (b + r.value) == a + b + r.value;
      assert [] + r.value == r.value;
    }
  }

  function LowerOne(insn: Instr, frameSize: nat, numGlobals: nat): Result<seq<Instr>> {
    match insn.op
    case MakeFrame(_, _, _) => FrameCode(insn)
    case TupleGet(size) => IndexedCode(insn, TreeOf(size, false), false, true)
    case TupleSet(size) => IndexedCode(insn, TreeOf(size, false), false, false)
    case SetLocal => IndexedCode(insn, TreeOf(frameSize, true), true, false)
    case GetLocal => IndexedCode(insn, TreeOf(frameSize, true), true, true)
    case SetGlobalVar(i) => SetGlobalCode(TreeOf(numGlobals, false), i, insn.loc)
    case GetGlobalVar(i) => GetGlobalCode(TreeOf(numGlobals, false), i, insn.loc)
    case Return => Ok(ReturnCode(insn.imm, insn.loc))
    case UncheckedFixedArrayGet(size) => Ok(FixedGetCode(size, insn.loc))
    case _ => Ok([insn])
  }

  /** The whole pass; the frame size in force is that of the last MakeFrame seen. */
  function Lower(code: seq<Instr>, frameSize: nat, numGlobals: nat): Result<seq<Instr>> {
    if code == [] then Ok([])
    else
      match LowerOne(code[0], frameSize, numGlobals)
      case Err(e) => Err(e)
      case Ok(seg) => Prepend(seg, Lower(code[1..], FrameAfter(code[0], frameSize), numGlobals))
  }

  // ----- the pass itself -----

  method EmitFixedGet(size: nat, code: CodeVec, loc: nat)
    modifies code
    ensures code.insns == old(code.insns) + FixedGetCode(size, loc)
  {
    var remaining := size;
    while remaining > TUPLE_SIZE
      invariant remaining >= 0
      invariant code.insns + FixedGetCode(remaining, loc) == old(code.insns) + FixedGetCode(size, loc)
    {
      ghost var before := code.insns;
      EmitDigit(code, loc);
      ghost var rest := FixedGetCode((remaining + (TUPLE_SIZE - 1)) / TUPLE_SIZE, loc);
      assert before + (DigitCode(loc) + rest) == before + DigitCode(loc) + rest;
      remaining := (remaining + (TUPLE_SIZE - 1)) / TUPLE_SIZE;
    }
    code.Append(Plain(Tget, loc));
  }

  method EmitDigit(code: CodeVec, loc: nat)
    modifies code
    ensures code.insns == old(code.insns) + DigitCode(loc)
  {
    code.Append(WithImm(Dup1, Int(TUPLE_SIZE), loc));
    code.Append(Plain(Bin(Mod), loc));
    code.Append(Plain(Swap1, loc));
    code.Append(WithImm(Swap1, Int(TUPLE_SIZE), loc));
    code.Append(Plain(Bin(Div), loc));
    code.Append(Plain(Swap2, loc));
    code.Append(Plain(Swap1, loc));
    code.Append(Plain(Tget, loc));
    code.Append(Plain(Swap1, loc));
  }

  method EmitArgs(localsTree: TupleTree, nargs: nat, code: CodeVec, loc: nat) returns (e: Option<CompileError>)
    modifies code
    ensures Emitted(old(code.insns), code.insns, WriteArgs(localsTree, 0, nargs, loc), e)
  {
    ghost var done: seq<Instr> := [];
    PrependTwice([], [], WriteArgs(localsTree, 0, nargs, loc));
    for k := 0 to nargs
      invariant code.insns == old(code.insns) + done
      invariant WriteArgs(localsTree, 0, nargs, loc) == Prepend(done, WriteArgs(localsTree, k, nargs, loc))
    {
      e := EmitWrite(localsTree, true, k, code, loc);
      if e.Some? {
        return;
      }
      ghost var c := WriteCode(localsTree, true, k, loc).value;
      PrependTwice(done, c, WriteArgs(localsTree, k + 1, nargs, loc));
      done := done + c;
    }
    e := None;
  }

  lemma Join3(a: seq<Instr>, b: seq<Instr>, c: seq<Instr>, d: seq<Instr>)
    ensures a + b + c + d == a + (b + c + d)
  {
  }

  method EmitFrame(insn: Instr, localsTree: TupleTree, code: CodeVec) returns (e: Option<CompileError>)
    requires insn.op.MakeFrame? && localsTree == TreeOf(insn.op.ntotal, true)
    modifies code
    ensures Emitted(old(code.insns), code.insns, FrameCode(insn), e)
  {
    var loc := insn.loc;
    if insn.op.returnAddress {
      code.Append(Plain(AuxPush, loc));
    }
    assert code.insns == old(code.insns) + SaveCode(insn.op.returnAddress, loc);
    ghost var saved := code.insns;
    if insn.imm.Some? {
      code.Append(WithImm(Noop, insn.imm.value, loc));
    }
    assert code.insns == saved + SupplyCode(insn.imm, loc);
    code.Append(WithImm(AuxPush, MakeEmpty(localsTree), loc));
    Join3(old(code.insns), SaveCode(insn.op.returnAddress, loc), SupplyCode(insn.imm, loc),
          [WithImm(AuxPush, MakeEmpty(localsTree), loc)]);
    e := EmitArgs(localsTree, insn.op.nargs, code, loc);
  }

  method EmitSetGlobal(globalTree: TupleTree, idx: nat, code: CodeVec, loc: nat) returns (e: Option<CompileError>)
    modifies code
    ensures Emitted(old(code.insns), code.insns, SetGlobalCode(globalTree, idx, loc), e)
  {
    code.Append(Plain(Rpush, loc));
    e := EmitWrite(globalTree, false, idx, code, loc);
    if e.None? { code.Append(Plain(Rset, loc)); }
  }

  method EmitGetGlobal(globalTree: TupleTree, idx: nat, code: CodeVec, loc: nat) returns (e: Option<CompileError>)
    modifies code
    ensures Emitted(old(code.insns), code.insns, GetGlobalCode(globalTree, idx, loc), e)
  {
    code.Append(Plain(Rpush, loc));
    e := EmitRead(globalTree, false, idx, code, loc);
  }

  method EmitReturn(imm: Option<Value>, code: CodeVec, loc: nat)
    modifies code
    ensures code.insns == old(code.insns) + ReturnCode(imm, loc)
  {
    code.Append(Instr(AVM(AuxPop), imm, loc));
    code.Append(Plain(Pop, loc));
    code.Append(Plain(AuxPop, loc));
    code.Append(Plain(Jump, loc));
  }

  /** The accesses that take their index from the immediate. */
  method EmitAccess(insn: Instr, localsTree: TupleTree, ghost frameSize: nat, ghost numGlobals: nat, code: CodeVec)
    returns (e: Option<CompileError>)
    requires insn.op.TupleGet? || insn.op.TupleSet? || insn.op.GetLocal? || insn.op.SetLocal?
    requires localsTree == TreeOf(frameSize, true)
    modifies code
    ensures Emitted(old(code.insns), code.insns, LowerOne(insn, frameSize, numGlobals), e)
  {
    if insn.op.GetLocal? || insn.op.SetLocal? {
      e := EmitIndexed(insn, localsTree, true, insn.op.GetLocal?, code);
    } else {
      var ttree := New(insn.op.size, false);
      e := EmitIndexed(insn, ttree, false, insn.op.TupleGet?, code);
    }
  }

  /** Appends the translation of one instruction; localsTree is that of the frame in force after it. */
  method EmitOne(insn: Instr, localsTree: TupleTree, globalTree: TupleTree,
                 ghost frameSize: nat, ghost numGlobals: nat, code: CodeVec) returns (e: Option<CompileError>)
    requires localsTree == TreeOf(FrameAfter(insn, frameSize), true) && globalTree == TreeOf(numGlobals, false)
    modifies code
    ensures Emitted(old(code.insns), code.insns, LowerOne(insn, frameSize, numGlobals), e)
  {
    if insn.op.MakeFrame? {
      e := EmitFrame(insn, localsTree, code);
    } else if insn.op.TupleGet? || insn.op.TupleSet? || insn.op.GetLocal? || insn.op.SetLocal? {
      e := EmitAccess(insn, localsTree, frameSize, numGlobals, code);
    } else if insn.op.SetGlobalVar? {
      e := EmitSetGlobal(globalTree, insn.op.idx, code, insn.loc);
    } else if insn.op.GetGlobalVar? {
      e := EmitGetGlobal(globalTree, insn.op.idx, code, insn.loc);
    } else {
      e := None;
      if insn.op.Return? {
        EmitReturn(insn.imm, code, insn.loc);
      } else if insn.op.UncheckedFixedArrayGet? {
        EmitFixedGet(insn.op.size, code, insn.loc);
      } else {
        code.Append(insn);
      }
    }
  }

  /** Access by immediate index, with the source's two complaints about the immediate. */
  method EmitIndexed(insn: Instr, t: TupleTree, isLocal: bool, read: bool, code: CodeVec)
    returns (e: Option<CompileError>)
    modifies code
    ensures Emitted(old(code.insns), code.insns, IndexedCode(insn, t, isLocal, read), e)
  {
    if insn.imm.None? {
      return Some(MissingImmediate);
    }
    var i := ToUsize(insn.imm.value);
    if i.None? {
      return Some(IndexTooLarge);
    }
    if read {
      e := EmitRead(t, isLocal, i.value, code, insn.loc);
    } else {
      e := EmitWrite(t, isLocal, i.value, code, insn.loc);
    }
  }

  method FixTupleSize(codeIn: seq<Instr>, numGlobals: nat) returns (r: Result<seq<Instr>>)
    ensures r == Lower(codeIn, INITIAL_FRAME, numGlobals)
  {
    var codeOut := new CodeVec();
    var localsTree := New(1, true);
    var globalTree := New(numGlobals, false);
    ghost var frameSize := INITIAL_FRAME;
    PrependTwice([], [], Lower(codeIn, INITIAL_FRAME, numGlobals));
    for i := 0 to |codeIn|
      invariant frameSize >= 0 && localsTree == TreeOf(frameSize, true)
      invariant Lower(codeIn, INITIAL_FRAME, numGlobals) ==
                Prepend(codeOut.insns, Lower(codeIn[i..], frameSize, numGlobals))
    {
      var insn := codeIn[i];
      assert codeIn[i..][0] == insn && codeIn[i..][1..] == codeIn[i + 1..];
      if insn.op.MakeFrame? {
        localsTree := New(insn.op.ntotal, true);
      }
      ghost var before := codeOut.insns;
      var e := EmitOne(insn, localsTree, globalTree, frameSize, numGlobals, codeOut);
      if e.Some? {
        return Err(e.value);
      }
      PrependTwice(before, LowerOne(insn, frameSize, numGlobals).value,
                   Lower(codeIn[i + 1..], FrameAfter(insn, frameSize), numGlobals));
      frameSize := FrameAfter(insn, frameSize);
    }
    assert codeOut.insns + [] == codeOut.insns;
    r := Ok(codeOut.insns);
  }
}
