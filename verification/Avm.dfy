/** The values, opcodes and instructions the back end of the compiler works on (src/mavm.rs). */
module Avm {
  import Buffers

  datatype Option<+T> = None | Some(value: T)

  /** Panic stands for the places where the compiler stops instead of reporting an error. */
  datatype CompileError =
    | OutOfBoundsRead | OutOfBoundsWrite | IndexTooLarge | MissingImmediate
    | DuplicateLabel(pc: nat) | UndefinedLabel(lab: Label) | VirtualOpcode | UnknownLocal(name: nat) | Panic

  datatype Result<+T> = Ok(value: T) | Err(error: CompileError)

  function Max(a: nat, b: nat): (r: nat)
    ensures a <= r && b <= r && (r == a || r == b)
  {
    if a < b then b else a
  }

  lemma Reassociate<T>(a: seq<T>, b: seq<T>, c: seq<T>)
    ensures a + (b + c) == a + b + c
  {
  }

  datatype Label = Func(id: nat) | Anon(n: nat) | External(slot: nat) | Evm(evmPc: nat)

  datatype CodePt = Internal(pc: nat) | ExternalPt(slot: nat) | InSegment(seg: nat, offset: nat) | NullPt

  datatype Value =
    | Int(n: nat)
    | Tuple(elems: seq<Value>)
    | CodePoint(cp: CodePt)
    | LabelVal(lab: Label)
    | BufferVal(buf: Buffers.Buffer)

  const NONE: Value := Tuple([])

  const TUPLE_SIZE: nat := 8

  const USIZE_LIMIT: nat := Buffers.USIZE_LIMIT

  /** Value::to_usize. */
  function ToUsize(v: Value): Option<nat> {
    if v.Int? && v.n < USIZE_LIMIT then Some(v.n) else None
  }

  /** One-operand and two-operand opcodes on integers; their meaning is a parameter of the machine. */
  datatype UnOp = BitwiseNeg
  datatype BinOp =
    | Add | Mul | Sub | Div | Sdiv | Mod | Smod | Exp | SignExtend
    | LessThan | GreaterThan | SLessThan | SGreaterThan
    | BitwiseAnd | BitwiseOr | BitwiseXor | Byte | ShiftLeft | ShiftRight | ShiftArith | EthHash2

  /** Opcodes the machine gives no meaning to: hashing, precompiles, input and output, gas, error
      handlers, buffers, and instructions that inspect the machine or the program itself. */
  datatype MiscOp =
    | Zero | AddMod | MulMod | Hash | Type | Keccakf | Sha256f | Ripemd160f | Blake2f
    | Spush | StackEmpty | PCpush | AuxStackEmpty | ErrPush | ErrSet | Breakpoint | Log
    | Send | InboxPeek | Inbox | Error | SetGas | PushGas | ErrCodePoint | PushInsn | PushInsnImm
    | OpenInsn | Sideload | EcRecover | EcAdd | EcMul | EcPairing | DebugPrint
    | NewBuffer | GetBuffer8 | GetBuffer64 | GetBuffer256 | SetBuffer8 | SetBuffer64 | SetBuffer256

  datatype AvmOp =
    | Noop | Pop | Dup0 | Dup1 | Dup2 | Swap1 | Swap2
    | Tget | Tset | Tlen | Xget | Xset
    | Equal | IsZero
    | AuxPush | AuxPop | Rpush | Rset | Jump | Cjump | Halt
    | Un(un: UnOp) | Bin(bin: BinOp) | Misc(misc: MiscOp)

  /** Real opcodes and the virtual ones the post-link passes lower. */
  datatype Opcode =
    | AVM(op: AvmOp)
    | GetLocal | SetLocal
    | MakeFrame(nargs: nat, ntotal: nat, returnAddress: bool)
    | LabelOp(lab: Label)
    | PushExternal(idx: nat)
    | TupleGet(size: nat)
    | TupleSet(size: nat)
    | ArrayGet
    | UncheckedFixedArrayGet(size: nat)
    | GetGlobalVar(idx: nat)
    | SetGlobalVar(idx: nat)
    | Return | UnaryMinus | Len | LogicalAnd | LogicalOr

  /** loc stands for the debug info an instruction carries. */
  datatype Instr = Instr(op: Opcode, imm: Option<Value>, loc: nat)

  function Plain(op: AvmOp, loc: nat): Instr { Instr(AVM(op), None, loc) }

  function WithImm(op: AvmOp, v: Value, loc: nat): Instr { Instr(AVM(op), Some(v), loc) }

  /** The labels and code points inside a value, at any depth. */
  function RefsIn(v: Value): set<Value> {
    match v
    case LabelVal(_) => {v}
    case CodePoint(_) => {v}
    case Tuple(es) => set i, r | 0 <= i < |es| && r in RefsIn(es[i]) :: r
    case _ => {}
  }

  function ImmRefs(insn: Instr): set<Value> {
    if insn.imm.Some? then RefsIn(insn.imm.value) else {}
  }

  /** Instructions that are not labels and whose immediates refer to no other code than the given. */
  predicate Covered(seg: seq<Instr>, refs: set<Value>) {
    forall i :: 0 <= i < |seg| ==> !seg[i].op.LabelOp? && ImmRefs(seg[i]) <= refs
  }

  /** No label and no code point at any depth: comparing such values is meaningful before and
      after labels become code points. */
  predicate CodeFree(v: Value) {
    match v
    case LabelVal(_) => false
    case CodePoint(_) => false
    case Tuple(es) => forall i :: 0 <= i < |es| ==> CodeFree(es[i])
    case _ => true
  }

  predicate HasLabel(code: seq<Instr>, l: Label) {
    exists i :: 0 <= i < |code| && code[i].op == LabelOp(l)
  }
}
