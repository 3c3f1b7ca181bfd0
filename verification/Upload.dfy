/** The uploader (src/upload.rs, the _upload encoders of src/mavm.rs and rlp_encode of
    src/uint256.rs): instructions are written last to first, and the byte stream can be read back. */
module Upload {
  import opened Avm
  import opened Opcodes
  import opened Nonforward
  import opened NonforwardCorrect
  import opened Postlink
  import opened Forward

  type Byte = Buffers.Byte

  // ----- RLP of an integer (Appendix B of the Ethereum Yellow Paper) -----

  const WORD_BYTES: nat := 32

  function Pow256(k: nat): (r: nat)
    ensures r > 0
  {
    if k == 0 then 1 else 256 * Pow256(k - 1)
  }

  /** The minimal big-endian bytes. */
  function BytesOf(n: nat): seq<Byte> {
    if n == 0 then [] else BytesOf(n / 256) + [n % 256]
  }

  function NumberOf(bs: seq<Byte>): nat {
    if bs == [] then 0 else NumberOf(bs[..|bs| - 1]) * 256 + bs[|bs| - 1]
  }

  lemma {:induction false} BytesRoundTrip(n: nat)
    ensures NumberOf(BytesOf(n)) == n
  {
    if n > 0 {
      BytesRoundTrip(n / 256);
      var bs := BytesOf(n);
      assert bs[..|bs| - 1] == BytesOf(n / 256);
    }
  }

  lemma {:induction false} BytesAreFew(n: nat, k: nat)
    requires n < Pow256(k)
    ensures |BytesOf(n)| <= k
    decreases k
  {
    if n > 0 { BytesAreFew(n / 256, k - 1); }
  }

  /** Integers of the machine fit in 32 bytes. */
  predicate IsWord(n: nat) {
    |BytesOf(n)| <= WORD_BYTES
  }

  lemma {:induction false} BytesAreMany(n: nat, k: nat)
    requires |BytesOf(n)| <= k
    ensures n < Pow256(k)
    decreases k
  {
    if n > 0 { BytesAreMany(n / 256, k - 1); }
  }

  lemma WordsAre256Bits(n: nat)
    ensures IsWord(n) <==> n < Pow256(WORD_BYTES)
  {
    if IsWord(n) { BytesAreMany(n, WORD_BYTES); } else if n < Pow256(WORD_BYTES) { BytesAreFew(n, WORD_BYTES); }
  }

  /** Byte strings of at most 55 bytes, which is all an integer needs. */
  function Rlp(n: nat): seq<Byte>
    requires IsWord(n)
  {
    var bs := BytesOf(n);
    if |bs| == 1 && bs[0] < 0x80 then bs else [0x80 + |bs|] + bs
  }

  datatype Parsed<+T> = Parsed(v: T, rest: seq<Byte>)

  function ReadRlp(bs: seq<Byte>): (r: Option<Parsed<nat>>)
    ensures r.Some? ==> |r.value.rest| < |bs|
  {
    if bs == [] then None
    else if bs[0] < 0x80 then Some(Parsed(bs[0], bs[1..]))
    else
      var n := bs[0] - 0x80;
      if n <= 55 && n < |bs| then Some(Parsed(NumberOf(bs[1..n + 1]), bs[n + 1..])) else None
  }

  lemma RlpRoundTrip(n: nat, rest: seq<Byte>)
    requires IsWord(n)
    ensures ReadRlp(Rlp(n) + rest) == Some(Parsed(n, rest))
  {
    var bs, all := BytesOf(n), Rlp(n) + rest;
    BytesRoundTrip(n);
    if |bs| == 1 && bs[0] < 0x80 {
      assert all[1..] == rest;
      assert bs[..0] == [] && NumberOf(bs) == bs[0];
    } else {
      assert all[1..|bs| + 1] == bs && all[|bs| + 1..] == rest;
    }
  }

  // ----- values -----

  /** The bytes of a value in a program of the given size; None where the uploader panics. */
  function ValueBytes(total: nat, v: Value): Option<seq<Byte>>
    decreases v, 1
  {
    match v
    case Int(n) => if IsWord(n) then Some([0] + Rlp(n)) else None
    case Tuple(es) =>
      var bs := AllBytes(total, es);
      if bs.Some? then Some([(10 + |es|) % 256] + bs.value) else None
    case CodePoint(Internal(pc)) =>
      if pc <= total && IsWord(total - pc) then Some([1] + Rlp(total - pc)) else None
    case BufferVal(b) => if b.size == 0 then Some([2]) else None
    case _ => None
  }

  function AllBytes(total: nat, es: seq<Value>): Option<seq<Byte>>
    decreases es, 0
  {
    if es == [] then Some([])
    else
      var first, rest := ValueBytes(total, es[0]), AllBytes(total, es[1..]);
      if first.Some? && rest.Some? then Some(first.value + rest.value) else None
  }

  function ReadValue(total: nat, bs: seq<Byte>): (r: Option<Parsed<Value>>)
    ensures r.Some? ==> |r.value.rest| < |bs|
    decreases |bs|, 0
  {
    if bs == [] then None else ReadTagged(total, bs[0], bs[1..])
  }

  /** The rest of a value, after its type byte. */
  function ReadTagged(total: nat, tag: Byte, bs: seq<Byte>): (r: Option<Parsed<Value>>)
    ensures r.Some? ==> |r.value.rest| <= |bs|
    decreases |bs|, tag + 1
  {
    if tag == 0 then
      var n := ReadRlp(bs);
      if n.Some? then Some(Parsed(Int(n.value.v), n.value.rest)) else None
    else if tag == 1 then
      var n := ReadRlp(bs);
      if n.Some? && n.value.v <= total then Some(Parsed(CodePoint(Internal(total - n.value.v)), n.value.rest)) else None
    else if tag == 2 then Some(Parsed(BufferVal(Buffers.NEW_EMPTY), bs))
    else if 10 <= tag <= 10 + TUPLE_SIZE then
      var es := ReadValues(total, tag - 10, bs);
      if es.Some? then Some(Parsed(Tuple(es.value.v), es.value.rest)) else None
    else None
  }

  function ReadValues(total: nat, k: nat, bs: seq<Byte>): (r: Option<Parsed<seq<Value>>>)
    ensures r.Some? ==> |r.value.rest| <= |bs|
    decreases |bs|, k + 1
  {
    if k == 0 then Some(Parsed([], bs))
    else
      var first := ReadValue(total, bs);
      if first.None? then None
      else
        var rest := ReadValues(total, k - 1, first.value.rest);
        if rest.Some? then Some(Parsed([first.value.v] + rest.value.v, rest.value.rest)) else None
  }

  /** Values as the machine has them: words, tuples of at most 8, positions in the program, and empty
      buffers. */
  predicate Uploadable(total: nat, v: Value) {
    match v
    case Int(n) => IsWord(n)
    case Tuple(es) => |es| <= TUPLE_SIZE && forall i :: 0 <= i < |es| ==> Uploadable(total, es[i])
    case CodePoint(Internal(pc)) => pc <= total
    case BufferVal(b) => b == Buffers.NEW_EMPTY
    case _ => false
  }

  /** Reading back any value leaves exactly what followed it: no encoding is a prefix of another. */
  lemma {:induction false} ValueRoundTrip(total: nat, v: Value, rest: seq<Byte>)
    requires total < USIZE_LIMIT && Uploadable(total, v)
    ensures ValueBytes(total, v).Some? && ReadValue(total, ValueBytes(total, v).value + rest) == Some(Parsed(v, rest))
    decreases v, 1
  {
    match v
    case Int(n) => IntRoundTrip(total, n, rest);
    case CodePoint(cp) => PointRoundTrip(total, cp.pc, rest);
    case BufferVal(b) =>
      TailOf(2, [], rest);
      assert [2] + [] == [2] && [] + rest == rest;
    case Tuple(es) =>
      AllRoundTrip(total, es, rest);
      TupleRoundTrip(total, es, rest);
  }

  lemma IntRoundTrip(total: nat, n: nat, rest: seq<Byte>)
    requires IsWord(n)
    ensures ValueBytes(total, Int(n)).Some?
    ensures ReadValue(total, ValueBytes(total, Int(n)).value + rest) == Some(Parsed(Int(n), rest))
  {
    TailOf(0, Rlp(n), rest);
    RlpRoundTrip(n, rest);
  }

  lemma PointRoundTrip(total: nat, pc: nat, rest: seq<Byte>)
    requires pc <= total < USIZE_LIMIT
    ensures ValueBytes(total, CodePoint(Internal(pc))).Some?
    ensures ReadValue(total, ValueBytes(total, CodePoint(Internal(pc))).value + rest)
            == Some(Parsed(CodePoint(Internal(pc)), rest))
  {
    var n := total - pc;
    UsizeIsWord(n);
    PointBytes(total, pc, n, Rlp(n));
    TaggedPoint(total, pc, n, Rlp(n) + rest, rest);
    ReadAfterTag(total, 1, Rlp(n), rest);
  }

  lemma PointBytes(total: nat, pc: nat, n: nat, bs: seq<Byte>)
    requires pc <= total && n == total - pc && IsWord(n) && bs == Rlp(n)
    ensures ValueBytes(total, CodePoint(Internal(pc))) == Some([1] + bs)
  {
  }

  lemma TaggedPoint(total: nat, pc: nat, n: nat, bs: seq<Byte>, rest: seq<Byte>)
    requires pc <= total && n == total - pc && IsWord(n) && bs == Rlp(n) + rest
    ensures ReadTagged(total, 1, bs) == Some(Parsed(CodePoint(Internal(pc)), rest))
  {
    RlpRoundTrip(n, rest);
  }

  lemma ReadAfterTag(total: nat, tag: Byte, bs: seq<Byte>, rest: seq<Byte>)
    ensures ReadValue(total, [tag] + bs + rest) == ReadTagged(total, tag, bs + rest)
  {
    TailOf(tag, bs, rest);
  }

  lemma TupleRoundTrip(total: nat, es: seq<Value>, rest: seq<Byte>)
    requires |es| <= TUPLE_SIZE && AllBytes(total, es).Some?
    requires ReadValues(total, |es|, AllBytes(total, es).value + rest) == Some(Parsed(es, rest))
    ensures ValueBytes(total, Tuple(es)).Some?
    ensures ReadValue(total, ValueBytes(total, Tuple(es)).value + rest) == Some(Parsed(Tuple(es), rest))
  {
    TailOf(10 + |es|, AllBytes(total, es).value, rest);
  }

  lemma {:induction false} AllRoundTrip(total: nat, es: seq<Value>, rest: seq<Byte>)
    requires total < USIZE_LIMIT && forall i :: 0 <= i < |es| ==> Uploadable(total, es[i])
    ensures AllBytes(total, es).Some?
    ensures ReadValues(total, |es|, AllBytes(total, es).value + rest) == Some(Parsed(es, rest))
    decreases es, 0
  {
    if es == [] {
      assert [] + rest == rest;
    } else {
      AllRoundTrip(total, es[1..], rest);
      var bs := AllBytes(total, es[1..]).value;
      ValueRoundTrip(total, es[0], bs + rest);
      Reassociate(ValueBytes(total, es[0]).value, bs, rest);
      assert es == [es[0]] + es[1..];
    }
  }

  lemma TailOf(tag: Byte, bs: seq<Byte>, rest: seq<Byte>)
    ensures ([tag] + bs + rest)[0] == tag && ([tag] + bs + rest)[1..] == bs + rest
  {
  }

  lemma UsizeIsWord(n: nat)
    requires n < USIZE_LIMIT
    ensures IsWord(n)
  {
    assert Pow256(8) == USIZE_LIMIT;
    BytesAreFew(n, 8);
  }

  // ----- instructions and programs -----

  function InsnBytes(total: nat, insn: Instr): Option<seq<Byte>> {
    if !insn.op.AVM? then None
    else if insn.imm.None? then Some([ToNumber(insn.op.op), 0])
    else
      var bs := ValueBytes(total, insn.imm.value);
      if bs.Some? then Some([ToNumber(insn.op.op), 1] + bs.value) else None
  }

  function ReadInsn(total: nat, bs: seq<Byte>): (r: Option<Parsed<Instr>>)
    ensures r.Some? ==> |r.value.rest| < |bs|
  {
    if |bs| < 2 || FromNumber(bs[0]).None? then None
    else
      var op := AVM(FromNumber(bs[0]).value);
      if bs[1] == 0 then Some(Parsed(Instr(op, None, 0), bs[2..]))
      else if bs[1] == 1 then
        var v := ReadValue(total, bs[2..]);
        if v.Some? then Some(Parsed(Instr(op, Some(v.value.v), 0), v.value.rest)) else None
      else None
  }

  ghost predicate UploadableInsn(total: nat, insn: Instr) {
    insn.op.AVM? && (insn.imm.Some? ==> Uploadable(total, insn.imm.value))
  }

  /** Debug info is not uploaded. */
  function Bare(insn: Instr): Instr { insn.(loc := 0) }

  lemma InsnRoundTrip(total: nat, insn: Instr, rest: seq<Byte>)
    requires total < USIZE_LIMIT && UploadableInsn(total, insn)
    ensures InsnBytes(total, insn).Some? && ReadInsn(total, InsnBytes(total, insn).value + rest)
            == Some(Parsed(Bare(insn), rest))
  {
    NumbersRoundTrip(insn.op.op);
    var n := ToNumber(insn.op.op);
    if insn.imm.None? {
      assert ([n, 0] + rest)[2..] == rest;
    } else {
      ValueRoundTrip(total, insn.imm.value, rest);
      ReadWithImmediate(total, n, insn.op.op, insn.imm.value, ValueBytes(total, insn.imm.value).value, rest);
    }
  }

  lemma ReadWithImmediate(total: nat, n: Byte, op: AvmOp, v: Value, bs: seq<Byte>, rest: seq<Byte>)
    requires FromNumber(n) == Some(op) && ReadValue(total, bs + rest) == Some(Parsed(v, rest))
    ensures ReadInsn(total, [n, 1] + bs + rest) == Some(Parsed(Instr(AVM(op), Some(v), 0), rest))
  {
    assert ([n, 1] + bs + rest)[2..] == bs + rest;
  }

  /** One batch of bytes per instruction, the last instruction first. */
  function Batches(total: nat, code: seq<Instr>): Option<seq<seq<Byte>>> {
    if code == [] then Some([])
    else
      var k := |code| - 1;
      var first, rest := InsnBytes(total, code[k]), Batches(total, code[..k]);
      if first.Some? && rest.Some? then Some([first.value] + rest.value) else None
  }

  function Flat(batches: seq<seq<Byte>>): seq<Byte> {
    if batches == [] then [] else batches[0] + Flat(batches[1..])
  }

  function ReadProgram(total: nat, bs: seq<Byte>): Option<seq<Instr>>
    decreases |bs|
  {
    if bs == [] then Some([])
    else
      var last := ReadInsn(total, bs);
      if last.None? then None
      else
        var rest := ReadProgram(total, last.value.rest);
        if rest.Some? then Some(rest.value + [last.value.v]) else None
  }

  function BareCode(code: seq<Instr>): (r: seq<Instr>)
    ensures |r| == |code|
  {
    seq(|code|, i requires 0 <= i < |code| => Bare(code[i]))
  }

  ghost predicate UploadableCode(total: nat, code: seq<Instr>) {
    forall i :: 0 <= i < |code| ==> UploadableInsn(total, code[i])
  }

  /** The main result on encodings: the flat byte stream determines the program. */
  lemma {:induction false} ProgramRoundTrip(total: nat, code: seq<Instr>)
    requires total < USIZE_LIMIT && UploadableCode(total, code)
    ensures Batches(total, code).Some?
    ensures ReadProgram(total, Flat(Batches(total, code).value)) == Some(BareCode(code))
  {
    if code == [] {
      assert BareCode(code) == [];
    } else {
      var k := |code| - 1;
      ProgramRoundTrip(total, code[..k]);
      var batches := Batches(total, code[..k]).value;
      InsnRoundTrip(total, code[k], Flat(batches));
      BatchesCons(total, code);
      FlatCons(InsnBytes(total, code[k]).value, batches);
      ReadOne(total, InsnBytes(total, code[k]).value + Flat(batches), Bare(code[k]), Flat(batches));
      BareSnoc(code);
    }
  }

  lemma BatchesCons(total: nat, code: seq<Instr>)
    requires code != [] && InsnBytes(total, code[|code| - 1]).Some? && Batches(total, code[..|code| - 1]).Some?
    ensures Batches(total, code) == Some([InsnBytes(total, code[|code| - 1]).value]
                                         + Batches(total, code[..|code| - 1]).value)
  {
  }

  lemma BareSnoc(code: seq<Instr>)
    requires code != []
    ensures BareCode(code) == BareCode(code[..|code| - 1]) + [Bare(code[|code| - 1])]
  {
  }

  lemma FlatCons(first: seq<Byte>, batches: seq<seq<Byte>>)
    ensures Flat([first] + batches) == first + Flat(batches)
  {
    assert ([first] + batches)[1..] == batches;
  }

  lemma ReadOne(total: nat, bs: seq<Byte>, insn: Instr, rest: seq<Byte>)
    requires ReadInsn(total, bs) == Some(Parsed(insn, rest)) && ReadProgram(total, rest).Some?
    ensures ReadProgram(total, bs) == Some(ReadProgram(total, rest).value + [insn])
  {
  }

  // What follows a value in the stream does not depend on the size of the program.

  lemma {:induction false} SameRest(t: nat, t': nat, bs: seq<Byte>)
    requires ReadValue(t, bs).Some? && ReadValue(t', bs).Some?
    ensures ReadValue(t, bs).value.rest == ReadValue(t', bs).value.rest
    decreases |bs|, 0
  {
    if bs[0] >= 10 { SameRests(t, t', bs[0] - 10, bs[1..]); }
  }

  lemma {:induction false} SameRests(t: nat, t': nat, k: nat, bs: seq<Byte>)
    requires ReadValues(t, k, bs).Some? && ReadValues(t', k, bs).Some?
    ensures ReadValues(t, k, bs).value.rest == ReadValues(t', k, bs).value.rest
    decreases |bs|, k + 1
  {
    if k > 0 {
      SameRest(t, t', bs);
      SameRests(t, t', k - 1, ReadValue(t, bs).value.rest);
    }
  }

  lemma {:induction false} SameLength(t: nat, t': nat, bs: seq<Byte>)
    requires ReadProgram(t, bs).Some? && ReadProgram(t', bs).Some?
    ensures |ReadProgram(t, bs).value| == |ReadProgram(t', bs).value|
    decreases |bs|
  {
    if bs != [] {
      if bs[1] == 1 { SameRest(t, t', bs[2..]); }
      SameLength(t, t', ReadInsn(t, bs).value.rest);
    }
  }

  /** Two programs, each uploaded with its own size, that give the same stream are the same program. */
  lemma UniquelyDecodable(a: seq<Instr>, b: seq<Instr>)
    requires |a| < USIZE_LIMIT && |b| < USIZE_LIMIT && UploadableCode(|a|, a) && UploadableCode(|b|, b)
    requires Batches(|a|, a).Some? && Batches(|b|, b).Some?
    requires Flat(Batches(|a|, a).value) == Flat(Batches(|b|, b).value)
    ensures BareCode(a) == BareCode(b)
  {
    ProgramRoundTrip(|a|, a);
    ProgramRoundTrip(|b|, b);
    SameLength(|a|, |b|, Flat(Batches(|a|, a).value));
  }

  // ----- the uploader -----

  class CodeUploader {
    var buildBuffer: seq<Byte>
    var instructions: seq<seq<Byte>>
    var numSoFar: nat
    var numTotal: nat

    constructor (total: nat)
      ensures buildBuffer == [] && instructions == [] && numSoFar == 0 && numTotal == total
    {
      buildBuffer, instructions, numSoFar, numTotal := [], [], 0, total;
    }

    method PushByte(b: Byte)
      modifies this`buildBuffer
      ensures buildBuffer == old(buildBuffer) + [b]
    {
      buildBuffer := buildBuffer + [b];
    }

    method PushBytes(bs: seq<Byte>)
      modifies this`buildBuffer
      ensures buildBuffer == old(buildBuffer) + bs
    {
      buildBuffer := buildBuffer + bs;
    }

    method UploadValue(v: Value) returns (ok: bool)
      modifies this`buildBuffer
      ensures ok == ValueBytes(numTotal, v).Some?
      ensures ok ==> buildBuffer == old(buildBuffer) + ValueBytes(numTotal, v).value
      decreases v, 1
    {
      match v
      case Int(n) =>
        if !IsWord(n) { return false; }
        Reassociate(buildBuffer, [0], Rlp(n));
        PushByte(0);
        PushBytes(Rlp(n));
        ok := true;
      case Tuple(es) =>
        ghost var start := buildBuffer;
        PushByte((10 + |es|) % 256);
        ok := UploadAll(es);
        if ok { Reassociate(start, [(10 + |es|) % 256], AllBytes(numTotal, es).value); }
      case CodePoint(cp) =>
        if !cp.Internal? || cp.pc > numTotal || !IsWord(numTotal - cp.pc) { return false; }
        Reassociate(buildBuffer, [1], Rlp(numTotal - cp.pc));
        PushByte(1);
        PushBytes(Rlp(numTotal - cp.pc));
        ok := true;
      case BufferVal(b) =>
        if b.size != 0 { return false; }
        PushByte(2);
        ok := true;
      case LabelVal(_) =>
        ok := false;
    }

    method UploadAll(es: seq<Value>) returns (ok: bool)
      modifies this`buildBuffer
      ensures ok == AllBytes(numTotal, es).Some?
      ensures ok ==> buildBuffer == old(buildBuffer) + AllBytes(numTotal, es).value
      decreases es, 0
    {
      assert es[..0] == [] && buildBuffer + [] == buildBuffer;
      for i := 0 to |es|
        invariant AllBytes(numTotal, es[..i]).Some?
        invariant buildBuffer == old(buildBuffer) + AllBytes(numTotal, es[..i]).value
      {
        ok := UploadValue(es[i]);
        if !ok {
          AllBytesFails(numTotal, es, i);
          return;
        }
        assert es[..i + 1] == es[..i] + [es[i]];
        AllBytesSnoc(numTotal, es[..i], es[i]);
        Reassociate(old(buildBuffer), AllBytes(numTotal, es[..i]).value, ValueBytes(numTotal, es[i]).value);
      }
      assert es[..|es|] == es;
      ok := true;
    }

    method SerializeOne(insn: Instr) returns (ok: bool)
      requires buildBuffer == []
      modifies this
      ensures numTotal == old(numTotal)
      ensures ok == InsnBytes(numTotal, insn).Some?
      ensures ok ==> && buildBuffer == [] && numSoFar == old(numSoFar) + 1
                     && instructions == old(instructions) + [InsnBytes(numTotal, insn).value]
    {
      if !insn.op.AVM? { return false; }
      PushByte(ToNumber(insn.op.op));
      if insn.imm.Some? {
        PushByte(1);
        assert buildBuffer == [ToNumber(insn.op.op), 1];
        ok := UploadValue(insn.imm.value);
        if !ok { return; }
      } else {
        PushByte(0);
        assert buildBuffer == [ToNumber(insn.op.op), 0];
      }
      numSoFar := numSoFar + 1;
      FinishBatch();
      ok := true;
    }

    method FinishBatch()
      modifies this`buildBuffer, this`instructions
      ensures buildBuffer == []
      ensures instructions == if old(buildBuffer) == [] then old(instructions)
                              else old(instructions) + [old(buildBuffer)]
    {
      if |buildBuffer| > 0 {
        instructions := instructions + [buildBuffer];
        buildBuffer := [];
      }
    }

    method ToFlatVec() returns (bytes: seq<Byte>)
      ensures bytes == Flat(instructions)
    {
      bytes := [];
      assert instructions[0..] == instructions && [] + Flat(instructions) == Flat(instructions);
      for i := 0 to |instructions|
        invariant bytes + Flat(instructions[i..]) == Flat(instructions)
      {
        assert instructions[i..][0] == instructions[i] && instructions[i..][1..] == instructions[i + 1..];
        Reassociate(bytes, instructions[i], Flat(instructions[i + 1..]));
        bytes := bytes + instructions[i];
      }
      assert bytes + [] == bytes;
    }
  }

  lemma {:induction false} AllBytesSnoc(total: nat, es: seq<Value>, x: Value)
    requires AllBytes(total, es).Some? && ValueBytes(total, x).Some?
    ensures AllBytes(total, es + [x]) == Some(AllBytes(total, es).value + ValueBytes(total, x).value)
  {
    if es == [] {
      assert es + [x] == [x] && [x][1..] == [] && AllBytes(total, []) == Some([]);
      assert ValueBytes(total, x).value + [] == ValueBytes(total, x).value;
      assert [] + ValueBytes(total, x).value == ValueBytes(total, x).value;
    } else {
      assert (es + [x])[0] == es[0] && (es + [x])[1..] == es[1..] + [x];
      AllBytesSnoc(total, es[1..], x);
      Reassociate(ValueBytes(total, es[0]).value, AllBytes(total, es[1..]).value, ValueBytes(total, x).value);
    }
  }

  lemma {:induction false} AllBytesFails(total: nat, es: seq<Value>, i: nat)
    requires i < |es| && ValueBytes(total, es[i]).None?
    ensures AllBytes(total, es).None?
  {
    if i > 0 { AllBytesFails(total, es[1..], i - 1); }
  }

  /** The whole loop of the uploader: last instruction first. */
  method UploadProgram(code: seq<Instr>) returns (u: CodeUploader, ok: bool)
    ensures ok == Batches(|code|, code).Some?
    ensures ok ==> u.instructions == Batches(|code|, code).value && u.numSoFar == u.numTotal == |code|
  {
    u := new CodeUploader(|code|);
    assert code[..|code|] == code;
    AfterNothing(Batches(|code|, code));
    for i := 0 to |code|
      invariant u.buildBuffer == [] && u.numTotal == |code| && u.numSoFar == i
      invariant Batches(|code|, code) == After(u.instructions, Batches(|code|, code[..|code| - i]))
    {
      var k := |code| - 1 - i;
      var insn := code[k];
      ghost var front := code[..k + 1];
      assert front[k] == insn && front[..k] == code[..k];
      AfterStep(|code|, u.instructions, front);
      ok := u.SerializeOne(insn);
      if !ok { return; }
    }
    assert code[..0] == [] && u.instructions + [] == u.instructions;
    ok := true;
  }

  /** The flat stream of a whole program, and what it is good for: whoever knows the number of
      instructions can read the program back. */
  method UploadStream(code: seq<Instr>) returns (bytes: seq<Byte>, ok: bool)
    ensures ok == Batches(|code|, code).Some?
    ensures ok ==> bytes == Flat(Batches(|code|, code).value)
    ensures |code| < USIZE_LIMIT && UploadableCode(|code|, code) ==>
              ok && ReadProgram(|code|, bytes) == Some(BareCode(code))
  {
    var u, uploaded := UploadProgram(code);
    if !uploaded {
      bytes, ok := [], false;
    } else {
      bytes := u.ToFlatVec();
      ok := true;
    }
    if |code| < USIZE_LIMIT && UploadableCode(|code|, code) { ProgramRoundTrip(|code|, code); }
  }

  lemma AfterNothing(rest: Option<seq<seq<Byte>>>)
    ensures After([], rest) == rest
  {
    if rest.Some? { assert [] + rest.value == rest.value; }
  }

  ghost function After(done: seq<seq<Byte>>, rest: Option<seq<seq<Byte>>>): Option<seq<seq<Byte>>> {
    if rest.Some? then Some(done + rest.value) else None
  }

  lemma AfterStep(total: nat, done: seq<seq<Byte>>, code: seq<Instr>)
    requires code != []
    ensures var k := |code| - 1;
            After(done, Batches(total, code))
            == if InsnBytes(total, code[k]).Some? then After(done + [InsnBytes(total, code[k]).value],
                                                             Batches(total, code[..k]))
               else None
  {
    var k := |code| - 1;
    var rest := Batches(total, code[..k]);
    if InsnBytes(total, code[k]).Some? && rest.Some? {
      var x := InsnBytes(total, code[k]).value;
      assert done + ([x] + rest.value) == done + [x] + rest.value;
    }
  }

  // ----- forward code only names what is already uploaded -----

  /** While position p is serialised, everything behind it has been; a code point is uploaded as the
      number, counted in upload order from 1, of an instruction among those (0 for the end). */
  ghost predicate NamesUploaded(insn: Instr, soFar: nat, total: nat) {
    forall q: nat :: CodePoint(Internal(q)) in ImmRefs(insn) ==> q <= total && total - q <= soFar
  }

  ghost predicate AllNamesUploaded(code: seq<Instr>) {
    forall p :: 0 <= p < |code| ==> NamesUploaded(code[p], |code| - 1 - p, |code|)
  }

  lemma ForwardNamesUploaded(code: seq<Instr>)
    ensures AllNamesUploaded(code) <==> PointsForward(code)
  {
    if PointsForward(code) {
      forall p | 0 <= p < |code| ensures NamesUploaded(code[p], |code| - 1 - p, |code|) {
        assert PointsPast(code[p], p, |code|);
      }
    }
    if AllNamesUploaded(code) {
      forall p | 0 <= p < |code| ensures PointsPast(code[p], p, |code|) {
        assert NamesUploaded(code[p], |code| - 1 - p, |code|);
      }
    }
  }

  /** At every step of the upload of a compiled program, exactly if the code looked ahead before
      labels were stripped; so always where nested labels are ahead. */
  lemma CompiledNamesUploaded(numGlobals: nat, testMode: bool, body: seq<Instr>, imports: seq<ImportedFunc>)
    requires Compiled(Init(numGlobals, testMode) + body, imports, numGlobals, testMode).Ok?
    ensures numGlobals > 0 && Unstripped(numGlobals, testMode, body, imports).Ok?
    ensures AllNamesUploaded(Compiled(Init(numGlobals, testMode) + body, imports, numGlobals, testMode).value)
            <==> LooksAhead(Unstripped(numGlobals, testMode, body, imports).value)
    ensures BareLabels(body) && NestedAhead(body) ==>
              AllNamesUploaded(Compiled(Init(numGlobals, testMode) + body, imports, numGlobals, testMode).value)
  {
    CompiledForwardExactly(numGlobals, testMode, body, imports);
    if BareLabels(body) && NestedAhead(body) { CompiledPointsForward(numGlobals, testMode, body, imports); }
    ForwardNamesUploaded(Compiled(Init(numGlobals, testMode) + body, imports, numGlobals, testMode).value);
  }
}
