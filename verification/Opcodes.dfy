/** The numbers of the opcodes (src/mavm.rs:1191-1366). */
module Opcodes {
  import opened Avm

  function ToNumber(op: AvmOp): (n: nat)
    ensures n < 256
  {
    match op
    case Misc(Zero) => 0x00
    case Bin(Add) => 0x01
    case Bin(Mul) => 0x02
    case Bin(Sub) => 0x03
    case Bin(Div) => 0x04
    case Bin(Sdiv) => 0x05
    case Bin(Mod) => 0x06
    case Bin(Smod) => 0x07
    case Misc(AddMod) => 0x08
    case Misc(MulMod) => 0x09
    case Bin(Exp) => 0x0a
    case Bin(SignExtend) => 0x0b
    case Bin(LessThan) => 0x10
    case Bin(GreaterThan) => 0x11
    case Bin(SLessThan) => 0x12
    case Bin(SGreaterThan) => 0x13
    case Equal => 0x14
    case IsZero => 0x15
    case Bin(BitwiseAnd) => 0x16
    case Bin(BitwiseOr) => 0x17
    case Bin(BitwiseXor) => 0x18
    case Un(BitwiseNeg) => 0x19
    case Bin(Byte) => 0x1a
    case Bin(ShiftLeft) => 0x1b
    case Bin(ShiftRight) => 0x1c
    case Bin(ShiftArith) => 0x1d
    case Misc(Hash) => 0x20
    case Misc(Type) => 0x21
    case Bin(EthHash2) => 0x22
    case Misc(Keccakf) => 0x23
    case Misc(Sha256f) => 0x24
    case Misc(Ripemd160f) => 0x25
    case Misc(Blake2f) => 0x26
    case Pop => 0x30
    case Misc(Spush) => 0x31
    case Rpush => 0x32
    case Rset => 0x33
    case Jump => 0x34
    case Cjump => 0x35
    case Misc(StackEmpty) => 0x36
    case Misc(PCpush) => 0x37
    case AuxPush => 0x38
    case AuxPop => 0x39
    case Misc(AuxStackEmpty) => 0x3a
    case Noop => 0x3b
    case Misc(ErrPush) => 0x3c
    case Misc(ErrSet) => 0x3d
    case Dup0 => 0x40
    case Dup1 => 0x41
    case Dup2 => 0x42
    case Swap1 => 0x43
    case Swap2 => 0x44
    case Tget => 0x50
    case Tset => 0x51
    case Tlen => 0x52
    case Xget => 0x53
    case Xset => 0x54
    case Misc(Breakpoint) => 0x60
    case Misc(Log) => 0x61
    case Misc(Send) => 0x70
    case Misc(InboxPeek) => 0x71
    case Misc(Inbox) => 0x72
    case Misc(Error) => 0x73
    case Halt => 0x74
    case Misc(SetGas) => 0x75
    case Misc(PushGas) => 0x76
    case Misc(ErrCodePoint) => 0x77
    case Misc(PushInsn) => 0x78
    case Misc(PushInsnImm) => 0x79
    case Misc(OpenInsn) => 0x7a
    case Misc(Sideload) => 0x7b
    case Misc(EcRecover) => 0x80
    case Misc(EcAdd) => 0x81
    case Misc(EcMul) => 0x82
    case Misc(EcPairing) => 0x83
    case Misc(DebugPrint) => 0x90
    case Misc(NewBuffer) => 0xa0
    case Misc(GetBuffer8) => 0xa1
    case Misc(GetBuffer64) => 0xa2
    case Misc(GetBuffer256) => 0xa3
    case Misc(SetBuffer8) => 0xa4
    case Misc(SetBuffer64) => 0xa5
    case Misc(SetBuffer256) => 0xa6
  }

  function FromNumber(num: nat): Option<AvmOp> {
    if num < 0x20 then FromArithmetic(num) else if num < 0x60 then FromStack(num) else FromRest(num)
  }

  function FromArithmetic(num: nat): Option<AvmOp> {
    match num
    case 0x00 => Some(Misc(Zero))
    case 0x01 => Some(Bin(Add))
    case 0x02 => Some(Bin(Mul))
    case 0x03 => Some(Bin(Sub))
    case 0x04 => Some(Bin(Div))
    case 0x05 => Some(Bin(Sdiv))
    case 0x06 => Some(Bin(Mod))
    case 0x07 => Some(Bin(Smod))
    case 0x08 => Some(Misc(AddMod))
    case 0x09 => Some(Misc(MulMod))
    case 0x0a => Some(Bin(Exp))
    case 0x0b => Some(Bin(SignExtend))
    case 0x10 => Some(Bin(LessThan))
    case 0x11 => Some(Bin(GreaterThan))
    case 0x12 => Some(Bin(SLessThan))
    case 0x13 => Some(Bin(SGreaterThan))
    case 0x14 => Some(Equal)
    case 0x15 => Some(IsZero)
    case 0x16 => Some(Bin(BitwiseAnd))
    case 0x17 => Some(Bin(BitwiseOr))
    case 0x18 => Some(Bin(BitwiseXor))
    case 0x19 => Some(Un(BitwiseNeg))
    case 0x1a => Some(Bin(Byte))
    case 0x1b => Some(Bin(ShiftLeft))
    case 0x1c => Some(Bin(ShiftRight))
    case 0x1d => Some(Bin(ShiftArith))
    case _ => None
  }

  function FromStack(num: nat): Option<AvmOp> {
    match num
    case 0x20 => Some(Misc(Hash))
    case 0x21 => Some(Misc(Type))
    case 0x22 => Some(Bin(EthHash2))
    case 0x23 => Some(Misc(Keccakf))
    case 0x24 => Some(Misc(Sha256f))
    case 0x25 => Some(Misc(Ripemd160f))
    case 0x26 => Some(Misc(Blake2f))
    case 0x30 => Some(Pop)
    case 0x31 => Some(Misc(Spush))
    case 0x32 => Some(Rpush)
    case 0x33 => Some(Rset)
    case 0x34 => Some(Jump)
    case 0x35 => Some(Cjump)
    case 0x36 => Some(Misc(StackEmpty))
    case 0x37 => Some(Misc(PCpush))
    case 0x38 => Some(AuxPush)
    case 0x39 => Some(AuxPop)
    case 0x3a => Some(Misc(AuxStackEmpty))
    case 0x3b => Some(Noop)
    case 0x3c => Some(Misc(ErrPush))
    case 0x3d => Some(Misc(ErrSet))
    case 0x40 => Some(Dup0)
    case 0x41 => Some(Dup1)
    case 0x42 => Some(Dup2)
    case 0x43 => Some(Swap1)
    case 0x44 => Some(Swap2)
    case 0x50 => Some(Tget)
    case 0x51 => Some(Tset)
    case 0x52 => Some(Tlen)
    case 0x53 => Some(Xget)
    case 0x54 => Some(Xset)
    case _ => None
  }

  function FromRest(num: nat): Option<AvmOp> {
    match num
    case 0x60 => Some(Misc(Breakpoint))
    case 0x61 => Some(Misc(Log))
    case 0x70 => Some(Misc(Send))
    case 0x71 => Some(Misc(InboxPeek))
    case 0x72 => Some(Misc(Inbox))
    case 0x73 => Some(Misc(Error))
    case 0x74 => Some(Halt)
    case 0x75 => Some(Misc(SetGas))
    case 0x76 => Some(Misc(PushGas))
    case 0x77 => Some(Misc(ErrCodePoint))
    case 0x78 => Some(Misc(PushInsn))
    case 0x79 => Some(Misc(PushInsnImm))
    case 0x7a => Some(Misc(OpenInsn))
    case 0x7b => Some(Misc(Sideload))
    case 0x80 => Some(Misc(EcRecover))
    case 0x81 => Some(Misc(EcAdd))
    case 0x82 => Some(Misc(EcMul))
    case 0x83 => Some(Misc(EcPairing))
    case 0x90 => Some(Misc(DebugPrint))
    case 0xa0 => Some(Misc(NewBuffer))
    case 0xa1 => Some(Misc(GetBuffer8))
    case 0xa2 => Some(Misc(GetBuffer64))
    case 0xa3 => Some(Misc(GetBuffer256))
    case 0xa4 => Some(Misc(SetBuffer8))
    case 0xa5 => Some(Misc(SetBuffer64))
    case 0xa6 => Some(Misc(SetBuffer256))
    case _ => None
  }

  /** Both tables agree: no two opcodes share a number, and no number is lost. */
  lemma NumbersRoundTrip(op: AvmOp)
    ensures FromNumber(ToNumber(op)) == Some(op)
  {
    var n := ToNumber(op);
    if n < 0x20 {
      ArithmeticRoundTrip(op);
    } else if n < 0x60 {
      StackRoundTrip(op);
    } else {
      RestRoundTrip(op);
    }
  }

  lemma ArithmeticRoundTrip(op: AvmOp)
    requires ToNumber(op) < 0x20
    ensures FromArithmetic(ToNumber(op)) == Some(op)
  {
    if op.Un? { assert op.un.BitwiseNeg?; }
  }

  lemma StackRoundTrip(op: AvmOp)
    requires 0x20 <= ToNumber(op) < 0x60
    ensures FromStack(ToNumber(op)) == Some(op)
  {
  }

  lemma RestRoundTrip(op: AvmOp)
    requires 0x60 <= ToNumber(op)
    ensures FromRest(ToNumber(op)) == Some(op)
  {
  }
}
