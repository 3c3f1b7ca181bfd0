/** Fixed arrays: 8-ary trees indexed by base-8 digits, least significant first. The write emitted
    by codegen_fixed_array_mod_2 (src/compile/codegen.rs:2318-2434), the read that
    UncheckedFixedArrayGet becomes, and the arrays that newfixedarray and default_value build. */
module FixedArrays {
  import opened Avm
  import opened Machine
  import opened TupleCode
  import opened Virtual
  import opened Lowering
  import opened LoweringCorrect
  import Words

  /** The size of each subtree. */
  function Sub(size: nat): nat { (size + (TUPLE_SIZE - 1)) / TUPLE_SIZE }

  // ----- the emitted write -----

  /** Going down one level: save the tree, save the slot, find the index below, fetch the subtree. */
  function SaveTree(loc: nat): seq<Instr> {
    [WithImm(Dup2, Int(TUPLE_SIZE), loc), Plain(AuxPush, loc), Plain(Dup1, loc), Plain(Bin(Mod), loc)]
  }

  function SaveSlot(loc: nat): seq<Instr> {
    [Plain(Dup0, loc), Plain(AuxPush, loc), Plain(Swap1, loc)]
  }

  function NextIndex(loc: nat): seq<Instr> {
    [WithImm(Swap1, Int(TUPLE_SIZE), loc), Plain(Bin(Div), loc)]
  }

  function FetchSub(loc: nat): seq<Instr> {
    [Plain(Swap2, loc), Plain(Swap1, loc), Plain(Tget, loc), Plain(Swap1, loc)]
  }

  function DescendCode(loc: nat): seq<Instr> {
    SaveTree(loc) + SaveSlot(loc) + NextIndex(loc) + FetchSub(loc)
  }

  /** Puts the new subtree into the saved tree. */
  function AscendCode(loc: nat): seq<Instr> {
    [Plain(AuxPop, loc), Plain(AuxPop, loc), Plain(Swap1, loc), Plain(Tset, loc)]
  }

  function FixedSetCode(size: nat, loc: nat): seq<Instr>
    decreases size
  {
    if size <= TUPLE_SIZE then [Plain(Tset, loc)]
    else DescendCode(loc) + FixedSetCode(Sub(size), loc) + AscendCode(loc)
  }

  method EmitFixedSet(size: nat, code: CodeVec, loc: nat)
    modifies code
    ensures code.insns == old(code.insns) + FixedSetCode(size, loc)
    decreases size
  {
    if size <= TUPLE_SIZE {
      code.Append(Plain(Tset, loc));
    } else {
      EmitDescend(code, loc);
      ghost var start, inner := old(code.insns), FixedSetCode(Sub(size), loc);
      EmitFixedSet(Sub(size), code, loc);
      assert code.insns == start + (DescendCode(loc) + inner);
      code.Append(Plain(AuxPop, loc));
      code.Append(Plain(AuxPop, loc));
      code.Append(Plain(Swap1, loc));
      code.Append(Plain(Tset, loc));
      assert code.insns == start + (DescendCode(loc) + inner) + AscendCode(loc);
      assert code.insns == start + (DescendCode(loc) + inner + AscendCode(loc));
    }
  }

  method EmitDescend(code: CodeVec, loc: nat)
    modifies code
    ensures code.insns == old(code.insns) + DescendCode(loc)
  {
    code.Append(WithImm(Dup2, Int(TUPLE_SIZE), loc));
    code.Append(Plain(AuxPush, loc));
    code.Append(Plain(Dup1, loc));
    code.Append(Plain(Bin(Mod), loc));
    code.Append(Plain(Dup0, loc));
    code.Append(Plain(AuxPush, loc));
    code.Append(Plain(Swap1, loc));
    code.Append(WithImm(Swap1, Int(TUPLE_SIZE), loc));
    code.Append(Plain(Bin(Div), loc));
    code.Append(Plain(Swap2, loc));
    code.Append(Plain(Swap1, loc));
    code.Append(Plain(Tget, loc));
    code.Append(Plain(Swap1, loc));
    assert code.insns == old(code.insns) + DescendCode(loc);
  }

  // ----- arrays as values -----

  /** Division and remainder of words by 8. */
  ghost predicate Octal(isa: Isa) {
    forall x: nat :: x < Words.WORD ==>
      isa.bin(Mod, x, TUPLE_SIZE) == Some(x % TUPLE_SIZE) && isa.bin(Div, x, TUPLE_SIZE) == Some(x / TUPLE_SIZE)
  }

  /** The emulator's 256-bit arithmetic is such. */
  lemma EmulatorIsOctal(h: Words.Hash2, strict: set<nat>, symbolic: bool)
    ensures Octal(Words.Emulator(h, strict, symbolic))
  {
    forall x: nat | x < Words.WORD
      ensures Words.RunOp(h, Mod, x, TUPLE_SIZE) == Some(x % TUPLE_SIZE)
      ensures Words.RunOp(h, Div, x, TUPLE_SIZE) == Some(x / TUPLE_SIZE)
    {
    }
  }

  /** A tree of the depth that reads and writes of this size assume. */
  predicate IsArray(size: nat, v: Value)
    decreases size
  {
    && v.Tuple? && |v.elems| == TUPLE_SIZE
    && (size > TUPLE_SIZE ==> forall i :: 0 <= i < TUPLE_SIZE ==> IsArray(Sub(size), v.elems[i]))
  }

  /** The element at index idx. */
  function Element(size: nat, v: Value, idx: nat): Value
    requires IsArray(size, v) && idx < size
    decreases size
  {
    if size > TUPLE_SIZE then Element(Sub(size), v.elems[idx % TUPLE_SIZE], idx / TUPLE_SIZE) else v.elems[idx]
  }

  /** The array with another element at index idx. */
  function Update(size: nat, v: Value, idx: nat, x: Value): (r: Value)
    requires IsArray(size, v) && idx < size
    ensures IsArray(size, r)
    decreases size
  {
    if size > TUPLE_SIZE then
      var slot := idx % TUPLE_SIZE;
      Tuple(v.elems[slot := Update(Sub(size), v.elems[slot], idx / TUPLE_SIZE, x)])
    else Tuple(v.elems[idx := x])
  }

  /** Reading after writing: the new value at that index, and the old one at every other. */
  lemma {:induction false} ReadAfterWrite(size: nat, v: Value, i: nat, x: Value, j: nat)
    requires IsArray(size, v) && i < size && j < size
    ensures Element(size, Update(size, v, i, x), j) == if i == j then x else Element(size, v, j)
    decreases size
  {
    if size > TUPLE_SIZE && i % TUPLE_SIZE == j % TUPLE_SIZE {
      ReadAfterWrite(Sub(size), v.elems[i % TUPLE_SIZE], i / TUPLE_SIZE, x, j / TUPLE_SIZE);
    }
  }

  /** What UncheckedFixedArrayGet means on the flat machine is the element. */
  lemma {:induction false} FixedGetIsElement(isa: Isa, size: nat, v: Value, idx: nat)
    requires Octal(isa) && IsArray(size, v) && idx < size && idx < Words.WORD
    ensures FixedGet(isa, size, v, idx) == Some(Element(size, v, idx))
    decreases size
  {
    if size > TUPLE_SIZE { FixedGetIsElement(isa, Sub(size), v.elems[idx % TUPLE_SIZE], idx / TUPLE_SIZE); }
  }

  // ----- running the code -----

  lemma DescendRuns(isa: Isa, arr: Value, idx: nat, x: Value, st: Stack, aux: Stack, reg: Value, loc: nat)
    requires Octal(isa) && idx < Words.WORD && arr.Tuple? && |arr.elems| == TUPLE_SIZE
    ensures var slot := idx % TUPLE_SIZE;
            Run(isa, DescendCode(loc), State(Push(Int(idx), Push(arr, Push(x, st))), aux, reg))
            == Some(State(Push(Int(idx / TUPLE_SIZE), Push(arr.elems[slot], Push(x, st))),
                          Push(Int(slot), Push(arr, aux)), reg))
  {
    var slot, sub, base := idx % TUPLE_SIZE, idx / TUPLE_SIZE, Push(arr, Push(x, st));
    var aux2 := Push(Int(slot), Push(arr, aux));
    var s0 := State(Push(Int(idx), base), aux, reg);
    SaveTreeRuns(isa, arr, idx, Push(x, st), aux, reg, loc);
    SaveSlotRuns(isa, slot, idx, base, Push(arr, aux), reg, loc);
    NextIndexRuns(isa, idx, Push(Int(slot), base), aux2, reg, loc);
    FetchSubRuns(isa, arr, slot, sub, Push(x, st), aux2, reg, loc);
    RunAppend(isa, SaveTree(loc), SaveSlot(loc), s0);
    RunAppend(isa, SaveTree(loc) + SaveSlot(loc), NextIndex(loc), s0);
    RunAppend(isa, SaveTree(loc) + SaveSlot(loc) + NextIndex(loc), FetchSub(loc), s0);
  }

  lemma SaveTreeRuns(isa: Isa, arr: Value, idx: nat, st: Stack, aux: Stack, reg: Value, loc: nat)
    requires Octal(isa) && idx < Words.WORD
    ensures Run(isa, SaveTree(loc), State(Push(Int(idx), Push(arr, st)), aux, reg))
            == Some(State(Push(Int(idx % TUPLE_SIZE), Push(Int(idx), Push(arr, st))), Push(arr, aux), reg))
  {
    var c, below := SaveTree(loc), Push(Int(idx), Push(arr, st));
    assert isa.bin(Mod, idx, TUPLE_SIZE) == Some(idx % TUPLE_SIZE);
    Four(isa, c[0], c[1], c[2], c[3], State(below, aux, reg), State(Push(arr, Push(Int(TUPLE_SIZE), below)), aux, reg),
         State(Push(Int(TUPLE_SIZE), below), Push(arr, aux), reg),
         State(Push(Int(idx), Push(Int(TUPLE_SIZE), below)), Push(arr, aux), reg),
         State(Push(Int(idx % TUPLE_SIZE), below), Push(arr, aux), reg));
  }

  lemma SaveSlotRuns(isa: Isa, slot: nat, idx: nat, st: Stack, aux: Stack, reg: Value, loc: nat)
    ensures Run(isa, SaveSlot(loc), State(Push(Int(slot), Push(Int(idx), st)), aux, reg))
            == Some(State(Push(Int(idx), Push(Int(slot), st)), Push(Int(slot), aux), reg))
  {
    var c, now := SaveSlot(loc), Push(Int(slot), Push(Int(idx), st));
    Three(isa, c[0], c[1], c[2], State(now, aux, reg), State(Push(Int(slot), now), aux, reg),
          State(now, Push(Int(slot), aux), reg), State(Push(Int(idx), Push(Int(slot), st)), Push(Int(slot), aux), reg));
  }

  lemma NextIndexRuns(isa: Isa, idx: nat, st: Stack, aux: Stack, reg: Value, loc: nat)
    requires Octal(isa) && idx < Words.WORD
    ensures Run(isa, NextIndex(loc), State(Push(Int(idx), st), aux, reg))
            == Some(State(Push(Int(idx / TUPLE_SIZE), st), aux, reg))
  {
    var c := NextIndex(loc);
    assert isa.bin(Div, idx, TUPLE_SIZE) == Some(idx / TUPLE_SIZE);
    Two(isa, c[0], c[1], State(Push(Int(idx), st), aux, reg),
        State(Push(Int(idx), Push(Int(TUPLE_SIZE), st)), aux, reg), State(Push(Int(idx / TUPLE_SIZE), st), aux, reg));
  }

  lemma FetchSubRuns(isa: Isa, arr: Value, slot: nat, sub: nat, st: Stack, aux: Stack, reg: Value, loc: nat)
    requires arr.Tuple? && slot < |arr.elems|
    ensures Run(isa, FetchSub(loc), State(Push(Int(sub), Push(Int(slot), Push(arr, st))), aux, reg))
            == Some(State(Push(Int(sub), Push(arr.elems[slot], st)), aux, reg))
  {
    var c := FetchSub(loc);
    Four(isa, c[0], c[1], c[2], c[3], State(Push(Int(sub), Push(Int(slot), Push(arr, st))), aux, reg),
         State(Push(arr, Push(Int(slot), Push(Int(sub), st))), aux, reg),
         State(Push(Int(slot), Push(arr, Push(Int(sub), st))), aux, reg),
         State(Push(arr.elems[slot], Push(Int(sub), st)), aux, reg),
         State(Push(Int(sub), Push(arr.elems[slot], st)), aux, reg));
  }

  lemma Two(isa: Isa, a: Instr, b: Instr, s0: State, s1: State, s2: State)
    requires Exec(isa, a, s0) == Next(s1) && Exec(isa, b, s1) == Next(s2)
    ensures Run(isa, [a, b], s0) == Some(s2)
  {
    assert [a, b] == [a] + [b];
    RunCons(isa, a, [b], s0);
    RunOne(isa, b, s1);
  }

  lemma Three(isa: Isa, a: Instr, b: Instr, c: Instr, s0: State, s1: State, s2: State, s3: State)
    requires Exec(isa, a, s0) == Next(s1) && Exec(isa, b, s1) == Next(s2) && Exec(isa, c, s2) == Next(s3)
    ensures Run(isa, [a, b, c], s0) == Some(s3)
  {
    assert [a, b, c] == [a] + [b, c];
    RunCons(isa, a, [b, c], s0);
    Two(isa, b, c, s1, s2, s3);
  }

  lemma Four(isa: Isa, a: Instr, b: Instr, c: Instr, d: Instr, s0: State, s1: State, s2: State, s3: State, s4: State)
    requires Exec(isa, a, s0) == Next(s1) && Exec(isa, b, s1) == Next(s2) && Exec(isa, c, s2) == Next(s3)
             && Exec(isa, d, s3) == Next(s4)
    ensures Run(isa, [a, b, c, d], s0) == Some(s4)
  {
    assert [a, b, c, d] == [a] + [b, c, d];
    RunCons(isa, a, [b, c, d], s0);
    Three(isa, b, c, d, s1, s2, s3, s4);
  }

  lemma AscendRuns(isa: Isa, arr: Value, slot: nat, sub: Value, st: Stack, aux: Stack, reg: Value, loc: nat)
    requires arr.Tuple? && slot < |arr.elems|
    ensures Run(isa, AscendCode(loc), State(Push(sub, st), Push(Int(slot), Push(arr, aux)), reg))
            == Some(State(Push(Tuple(arr.elems[slot := sub]), st), aux, reg))
  {
    var c := AscendCode(loc);
    Four(isa, c[0], c[1], c[2], c[3], State(Push(sub, st), Push(Int(slot), Push(arr, aux)), reg),
         State(Push(Int(slot), Push(sub, st)), Push(arr, aux), reg),
         State(Push(arr, Push(Int(slot), Push(sub, st))), aux, reg),
         State(Push(Int(slot), Push(arr, Push(sub, st))), aux, reg),
         State(Push(Tuple(arr.elems[slot := sub]), st), aux, reg));
  }

  /** The emitted write replaces index, array and value on the stack by the updated array, and leaves
      both stacks otherwise as they were. */
  lemma {:induction false} FixedSetRuns(isa: Isa, size: nat, arr: Value, idx: nat, x: Value, st: Stack, aux: Stack,
                                        reg: Value, loc: nat)
    requires Octal(isa) && IsArray(size, arr) && idx < size && idx < Words.WORD
    ensures Run(isa, FixedSetCode(size, loc), State(Push(Int(idx), Push(arr, Push(x, st))), aux, reg))
            == Some(State(Push(Update(size, arr, idx, x), st), aux, reg))
    decreases size
  {
    var s := State(Push(Int(idx), Push(arr, Push(x, st))), aux, reg);
    if size <= TUPLE_SIZE {
      RunOne(isa, Plain(Tset, loc), s);
    } else {
      var slot, sub := idx % TUPLE_SIZE, idx / TUPLE_SIZE;
      var aux2 := Push(Int(slot), Push(arr, aux));
      DescendRuns(isa, arr, idx, x, st, aux, reg, loc);
      FixedSetRuns(isa, Sub(size), arr.elems[slot], sub, x, st, aux2, reg, loc);
      AscendRuns(isa, arr, slot, Update(Sub(size), arr.elems[slot], sub, x), st, aux, reg, loc);
      RunAppend(isa, DescendCode(loc), FixedSetCode(Sub(size), loc), s);
      RunAppend(isa, DescendCode(loc) + FixedSetCode(Sub(size), loc), AscendCode(loc), s);
    }
  }

  /** The main result: for every size and all indices in range that are words, the code for a read after the code
      for a write yields the new value at the index written and the old value at any other. */
  lemma GetAfterSet(isa: Isa, size: nat, arr: Value, i: nat, x: Value, j: nat, st: Stack, aux: Stack, reg: Value,
                    loc: nat)
    requires Octal(isa) && IsArray(size, arr) && i < size && j < size && i < Words.WORD && j < Words.WORD
    ensures var w := Run(isa, FixedSetCode(size, loc), State(Push(Int(i), Push(arr, Push(x, st))), aux, reg));
            && w.Some? && w.value.stack.Push? && w.value == State(Push(w.value.stack.top, st), aux, reg)
            && Run(isa, FixedGetCode(size, loc), State(Push(Int(j), w.value.stack), aux, reg))
               == Some(State(Push(if i == j then x else Element(size, arr, j), st), aux, reg))
            && Run(isa, FixedGetCode(size, loc), State(Push(Int(j), Push(arr, st)), aux, reg))
               == Some(State(Push(Element(size, arr, j), st), aux, reg))
  {
    var arr' := Update(size, arr, i, x);
    FixedSetRuns(isa, size, arr, i, x, st, aux, reg, loc);
    ReadAfterWrite(size, arr, i, x, j);
    FixedGetIsElement(isa, size, arr, j);
    FixedGetIsElement(isa, size, arr', j);
    FixedGetRuns(isa, size, arr, j, st, aux, reg, loc);
    FixedGetRuns(isa, size, arr', j, st, aux, reg, loc);
  }

  // ----- new arrays -----

  function Eight(v: Value): (vs: seq<Value>)
    ensures |vs| == TUPLE_SIZE && forall i :: 0 <= i < TUPLE_SIZE ==> vs[i] == v
  {
    seq(TUPLE_SIZE, _ => v)
  }

  /** Eight copies around eight copies, d times. */
  function Layers(d: nat, v: Value): Value {
    if d == 0 then v else Tuple(Eight(Layers(d - 1, v)))
  }

  /** The depth that reads and writes of this size go down. */
  function Depth(size: nat): (d: nat)
    ensures d >= 1
    decreases size
  {
    if size > TUPLE_SIZE then 1 + Depth(Sub(size)) else 1
  }

  function Pow8(d: nat): (p: nat)
    ensures p >= 1
  {
    if d == 0 then 1 else TUPLE_SIZE * Pow8(d - 1)
  }

  /** That depth is the least whose tree has room. */
  lemma {:induction false} DepthIsLeast(size: nat, d: nat)
    requires d >= 1
    ensures Depth(size) <= d <==> size <= Pow8(d)
    decreases size
  {
    assert Pow8(1) == TUPLE_SIZE * Pow8(0);
    if size > TUPLE_SIZE {
      if d > 1 { DepthIsLeast(Sub(size), d - 1); }
    } else {
      PowAtLeast(d);
    }
  }

  lemma {:induction false} PowAtLeast(d: nat)
    requires d >= 1
    ensures Pow8(d) >= TUPLE_SIZE
  {
    if d > 1 { PowAtLeast(d - 1); }
  }

  lemma {:induction false} LayersAreArray(size: nat, v: Value)
    ensures IsArray(size, Layers(Depth(size), v))
    decreases size
  {
    if size > TUPLE_SIZE { LayersAreArray(Sub(size), v); }
  }

  lemma {:induction false} LayersElement(size: nat, v: Value, idx: nat)
    requires idx < size && IsArray(size, Layers(Depth(size), v))
    ensures Element(size, Layers(Depth(size), v), idx) == v
    decreases size
  {
    if size > TUPLE_SIZE {
      LayersAreArray(Sub(size), v);
      LayersElement(Sub(size), v, idx / TUPLE_SIZE);
    } else {
      assert Layers(1, v) == Tuple(Eight(Layers(0, v)));
    }
  }

  /** The loop of default_value builds an array of the depth both loops assume, with the default
      everywhere. */
  method DefaultArray(size: nat, element: Value) returns (v: Value)
    ensures v == Layers(Depth(size), element) && IsArray(size, v)
    ensures forall i :: 0 <= i < size ==> Element(size, v, i) == element
  {
    v := Tuple(Eight(element));
    var chunkSize := 1;
    ghost var d: nat := 1;
    while chunkSize * TUPLE_SIZE < size
      invariant d >= 1 && chunkSize == Pow8(d - 1) && v == Layers(d, element)
      invariant d > 1 ==> size > Pow8(d - 1)
      decreases size - chunkSize
    {
      v := Tuple(Eight(v));
      chunkSize := chunkSize * TUPLE_SIZE;
      d := d + 1;
    }
    DepthIsLeast(size, d);
    if d > 1 { DepthIsLeast(size, d - 1); }
    LayersAreArray(size, element);
    forall i | 0 <= i < size ensures Element(size, v, i) == element { LayersElement(size, element, i); }
  }

  // ----- the code of newfixedarray -----

  function Dups(n: nat, loc: nat): seq<Instr> {
    if n == 0 then [] else [Plain(Dup0, loc)] + Dups(n - 1, loc)
  }

  function Tsets(i: nat, loc: nat): seq<Instr>
    requires i <= TUPLE_SIZE
    decreases TUPLE_SIZE - i
  {
    if i == TUPLE_SIZE then [] else [WithImm(Tset, Int(i), loc)] + Tsets(i + 1, loc)
  }

  /** Turns the value on the stack into a tuple of eight of it. */
  function WrapCode(loc: nat): seq<Instr> {
    Dups(7, loc) + [WithImm(Noop, Tuple(Eight(NONE)), loc)] + Tsets(0, loc)
  }

  function Repeat(n: nat, seg: seq<Instr>): seq<Instr> {
    if n == 0 then [] else seg + Repeat(n - 1, seg)
  }

  function Wraps(n: nat, loc: nat): seq<Instr> { Repeat(n, WrapCode(loc)) }

  /** The code after the initial value, if there is one: without it, the innermost tuple is a
      constant. */
  function NewArrayCode(size: nat, filled: bool, loc: nat): seq<Instr> {
    (if filled then WrapCode(loc) else [WithImm(Noop, Tuple(Eight(NONE)), loc)]) + Wraps(Depth(size) - 1, loc)
  }

  method EmitNewArray(size: nat, filled: bool, code: CodeVec, loc: nat)
    modifies code
    ensures code.insns == old(code.insns) + NewArrayCode(size, filled, loc)
  {
    ghost var wrap := WrapCode(loc);
    ghost var first := if filled then wrap else [WithImm(Noop, Tuple(Eight(NONE)), loc)];
    if filled { EmitWrap(code, loc); } else { code.Append(WithImm(Noop, Tuple(Eight(NONE)), loc)); }
    ghost var start := code.insns;
    assert start == old(code.insns) + first;
    var tupleSize := TUPLE_SIZE;
    ghost var d: nat := 0;
    assert start + [] == start;
    while tupleSize < size
      invariant tupleSize == Pow8(d + 1) && code.insns == start + Repeat(d, wrap)
      invariant d > 0 ==> size > Pow8(d)
      decreases size - tupleSize
    {
      EmitWrap(code, loc);
      RepeatSnoc(d, wrap);
      Reassociate(start, Repeat(d, wrap), wrap);
      tupleSize := tupleSize * TUPLE_SIZE;
      d := d + 1;
    }
    DepthIsLeast(size, d + 1);
    if d > 0 { DepthIsLeast(size, d); }
    Reassociate(old(code.insns), first, Repeat(d, wrap));
  }

  lemma RepeatOnce(seg: seq<Instr>)
    ensures Repeat(1, seg) == seg
  {
    assert Repeat(1, seg) == seg + Repeat(0, seg) && seg + [] == seg;
  }

  lemma {:induction false} RepeatSnoc(n: nat, seg: seq<Instr>)
    ensures Repeat(n + 1, seg) == Repeat(n, seg) + seg
  {
    if n == 0 {
      RepeatOnce(seg);
      assert [] + seg == seg;
    } else {
      RepeatSnoc(n - 1, seg);
      Reassociate(seg, Repeat(n - 1, seg), seg);
    }
  }

  method EmitWrap(code: CodeVec, loc: nat)
    modifies code
    ensures code.insns == old(code.insns) + WrapCode(loc)
  {
    ghost var start := code.insns;
    for i := 0 to 7
      invariant code.insns + Dups(7 - i, loc) == start + Dups(7, loc)
    {
      Reassociate(code.insns, [Plain(Dup0, loc)], Dups(6 - i, loc));
      code.Append(Plain(Dup0, loc));
    }
    assert code.insns + [] == code.insns;
    ghost var empty := [WithImm(Noop, Tuple(Eight(NONE)), loc)];
    code.Append(WithImm(Noop, Tuple(Eight(NONE)), loc));
    ghost var mid := code.insns;
    for i := 0 to TUPLE_SIZE
      invariant code.insns + Tsets(i, loc) == mid + Tsets(0, loc)
    {
      Reassociate(code.insns, [WithImm(Tset, Int(i), loc)], Tsets(i + 1, loc));
      code.Append(WithImm(Tset, Int(i), loc));
    }
    assert code.insns + [] == code.insns;
    Reassociate(start, Dups(7, loc), empty);
    Reassociate(start, Dups(7, loc) + empty, Tsets(0, loc));
  }

  /** n copies on top of a stack. */
  function Copies(n: nat, v: Value, st: Stack): Stack {
    if n == 0 then st else Push(v, Copies(n - 1, v, st))
  }

  lemma {:induction false} DupsRun(isa: Isa, n: nat, k: nat, v: Value, st: Stack, aux: Stack, reg: Value, loc: nat)
    ensures Run(isa, Dups(n, loc), State(Copies(k + 1, v, st), aux, reg))
            == Some(State(Copies(k + 1 + n, v, st), aux, reg))
    decreases n
  {
    if n > 0 {
      var s := State(Copies(k + 1, v, st), aux, reg);
      assert Exec(isa, Plain(Dup0, loc), s) == Next(State(Copies(k + 2, v, st), aux, reg));
      RunCons(isa, Plain(Dup0, loc), Dups(n - 1, loc), s);
      DupsRun(isa, n - 1, k + 1, v, st, aux, reg, loc);
    }
  }

  lemma {:induction false} TsetsRun(isa: Isa, i: nat, es: seq<Value>, v: Value, st: Stack, aux: Stack, reg: Value,
                                    loc: nat)
    requires i <= TUPLE_SIZE == |es| && forall j :: 0 <= j < i ==> es[j] == v
    ensures Run(isa, Tsets(i, loc), State(Push(Tuple(es), Copies(TUPLE_SIZE - i, v, st)), aux, reg))
            == Some(State(Push(Tuple(Eight(v)), st), aux, reg))
    decreases TUPLE_SIZE - i
  {
    if i == TUPLE_SIZE {
      assert es == Eight(v);
    } else {
      var s := State(Push(Tuple(es), Copies(TUPLE_SIZE - i, v, st)), aux, reg);
      var es' := es[i := v];
      assert Exec(isa, WithImm(Tset, Int(i), loc), s) == Next(State(Push(Tuple(es'),
                                                                         Copies(TUPLE_SIZE - i - 1, v, st)), aux, reg));
      RunCons(isa, WithImm(Tset, Int(i), loc), Tsets(i + 1, loc), s);
      TsetsRun(isa, i + 1, es', v, st, aux, reg, loc);
    }
  }

  lemma WrapRuns(isa: Isa, v: Value, st: Stack, aux: Stack, reg: Value, loc: nat)
    ensures Run(isa, WrapCode(loc), State(Push(v, st), aux, reg)) == Some(State(Push(Tuple(Eight(v)), st), aux, reg))
  {
    var s, empty := State(Push(v, st), aux, reg), [WithImm(Noop, Tuple(Eight(NONE)), loc)];
    assert Copies(1, v, st) == Push(v, Copies(0, v, st));
    DupsRun(isa, 7, 0, v, st, aux, reg, loc);
    RunOne(isa, empty[0], State(Copies(8, v, st), aux, reg));
    TsetsRun(isa, 0, Eight(NONE), v, st, aux, reg, loc);
    RunAppend(isa, Dups(7, loc), empty, s);
    RunAppend(isa, Dups(7, loc) + empty, Tsets(0, loc), s);
  }

  lemma {:induction false} LayersOut(d: nat, v: Value)
    ensures Layers(d, Tuple(Eight(v))) == Layers(d + 1, v)
  {
    if d > 0 { LayersOut(d - 1, v); } else { assert Layers(1, v) == Tuple(Eight(Layers(0, v))); }
  }

  lemma {:induction false} WrapsRun(isa: Isa, n: nat, v: Value, st: Stack, aux: Stack, reg: Value, loc: nat)
    ensures Run(isa, Wraps(n, loc), State(Push(v, st), aux, reg)) == Some(State(Push(Layers(n, v), st), aux, reg))
    decreases n
  {
    if n > 0 {
      var s := State(Push(v, st), aux, reg);
      WrapRuns(isa, v, st, aux, reg, loc);
      WrapsRun(isa, n - 1, Tuple(Eight(v)), st, aux, reg, loc);
      RunAppend(isa, WrapCode(loc), Wraps(n - 1, loc), s);
      LayersOut(n - 1, v);
    }
  }

  /** newfixedarray leaves an array of the depth that reads and writes assume, with the value at
      every index, or none where no value was given. */
  lemma NewArrayRuns(isa: Isa, size: nat, v: Value, i: nat, st: Stack, aux: Stack, reg: Value, loc: nat)
    requires i < size
    ensures var r, empty := Layers(Depth(size), v), Layers(Depth(size), NONE);
            && Run(isa, NewArrayCode(size, true, loc), State(Push(v, st), aux, reg))
               == Some(State(Push(r, st), aux, reg))
            && Run(isa, NewArrayCode(size, false, loc), State(st, aux, reg)) == Some(State(Push(empty, st), aux, reg))
            && IsArray(size, r) && Element(size, r, i) == v
            && IsArray(size, empty) && Element(size, empty, i) == NONE
  {
    FilledRuns(isa, size, v, st, aux, reg, loc);
    UnfilledRuns(isa, size, st, aux, reg, loc);
    LayersAreArray(size, v);
    LayersElement(size, v, i);
    LayersAreArray(size, NONE);
    LayersElement(size, NONE, i);
  }

  lemma FilledRuns(isa: Isa, size: nat, v: Value, st: Stack, aux: Stack, reg: Value, loc: nat)
    ensures Run(isa, NewArrayCode(size, true, loc), State(Push(v, st), aux, reg))
            == Some(State(Push(Layers(Depth(size), v), st), aux, reg))
  {
    var d, s := Depth(size) - 1, State(Push(v, st), aux, reg);
    WrapRuns(isa, v, st, aux, reg, loc);
    WrapsRun(isa, d, Tuple(Eight(v)), st, aux, reg, loc);
    RunAppend(isa, WrapCode(loc), Wraps(d, loc), s);
    LayersOut(d, v);
  }

  lemma UnfilledRuns(isa: Isa, size: nat, st: Stack, aux: Stack, reg: Value, loc: nat)
    ensures Run(isa, NewArrayCode(size, false, loc), State(st, aux, reg))
            == Some(State(Push(Layers(Depth(size), NONE), st), aux, reg))
  {
    var d, s, first := Depth(size) - 1, State(st, aux, reg), [WithImm(Noop, Tuple(Eight(NONE)), loc)];
    RunOne(isa, first[0], s);
    WrapsRun(isa, d, Tuple(Eight(NONE)), st, aux, reg, loc);
    RunAppend(isa, first, Wraps(d, loc), s);
    LayersOut(d, NONE);
  }
}
