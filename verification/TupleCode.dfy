/** The access code that TupleTree::read_code and TupleTree::write_code emit, and what it does
    (src/link/xformcode.rs:353-498). */
module TupleCode {
  import opened Avm
  import opened Machine
  import opened TupleTrees

  /** A vector of instructions that emitters append to. */
  class CodeVec {
    var insns: seq<Instr>

    constructor ()
      ensures insns == []
    {
      insns := [];
    }

    method Append(insn: Instr)
      modifies this
      ensures insns == old(insns) + [insn]
    {
      insns := insns + [insn];
    }
  }

  // ----- the code emitted, as functions -----

  function ReadCode(t: TupleTree, isLocal: bool, index: nat, loc: nat): Result<seq<Instr>>
    decreases t, 1
  {
    match t
    case Single => Ok(if isLocal then [Plain(AuxPop, loc), Plain(Dup0, loc), Plain(AuxPush, loc)] else [])
    case Tree(_, kids) => ReadKids(kids, isLocal, index, 0, loc)
  }

  function ReadKids(kids: seq<TupleTree>, isLocal: bool, index: nat, slot: nat, loc: nat): Result<seq<Instr>>
    decreases kids, 0
  {
    if kids == [] then Err(OutOfBoundsRead)
    else if index < Tsize(kids[0]) then
      match ReadCode(kids[0], false, index, loc)
      case Ok(sub) => Ok([WithImm(if isLocal then Xget else Tget, Int(slot), loc)] + sub)
      case Err(e) => Err(e)
    else ReadKids(kids[1..], isLocal, index - Tsize(kids[0]), slot + 1, loc)
  }

  /** Code before and after the write into the child in the given slot. */
  function Open(isLocal: bool, slot: nat, loc: nat): seq<Instr> {
    if isLocal then [WithImm(Xget, Int(slot), loc)]
    else [Plain(Swap1, loc), Plain(Dup1, loc), WithImm(Tget, Int(slot), loc)]
  }

  function Close(isLocal: bool, slot: nat, loc: nat): seq<Instr> {
    if isLocal then [WithImm(Xset, Int(slot), loc)]
    else [Plain(Swap1, loc), WithImm(Tset, Int(slot), loc)]
  }

  function WriteCode(t: TupleTree, isLocal: bool, index: nat, loc: nat): Result<seq<Instr>>
    decreases t, 1
  {
    match t
    case Single => Ok([Plain(Pop, loc)])
    case Tree(_, kids) => WriteKids(kids, isLocal, index, 0, loc)
  }

  function WriteKids(kids: seq<TupleTree>, isLocal: bool, index: nat, slot: nat, loc: nat): Result<seq<Instr>>
    decreases kids, 0
  {
    if kids == [] then Err(OutOfBoundsWrite)
    else if index < Tsize(kids[0]) then
      if kids[0].Single? then Ok([WithImm(if isLocal then Xset else Tset, Int(slot), loc)])
      else
        match WriteCode(kids[0], false, index, loc)
        case Ok(sub) => Ok(Open(isLocal, slot, loc) + sub + Close(isLocal, slot, loc))
        case Err(e) => Err(e)
    else WriteKids(kids[1..], isLocal, index - Tsize(kids[0]), slot + 1, loc)
  }

  // ----- the emitters -----

  /** What an emitter does: append the code, or report the error. */
  predicate Emitted(before: seq<Instr>, after: seq<Instr>, spec: Result<seq<Instr>>, e: Option<CompileError>) {
    match spec
    case Ok(c) => e.None? && after == before + c
    case Err(err) => e == Some(err)
  }

  method EmitRead(t: TupleTree, isLocal: bool, index: nat, code: CodeVec, loc: nat) returns (e: Option<CompileError>)
    modifies code
    ensures Emitted(old(code.insns), code.insns, ReadCode(t, isLocal, index, loc), e)
    decreases t
  {
    if t.Single? {
      if isLocal {
        code.Append(Plain(AuxPop, loc));
        code.Append(Plain(Dup0, loc));
        code.Append(Plain(AuxPush, loc));
      }
      return None;
    }
    var rest := index;
    for slot := 0 to |t.kids|
      invariant rest >= 0 && code.insns == old(code.insns)
      invariant ReadCode(t, isLocal, index, loc) == ReadKids(t.kids[slot..], isLocal, rest, slot, loc)
    {
      var subtree := t.kids[slot];
      assert t.kids[slot..][0] == subtree && t.kids[slot..][1..] == t.kids[slot + 1..];
      if rest < Tsize(subtree) {
        code.Append(WithImm(if isLocal then Xget else Tget, Int(slot), loc));
        e := EmitRead(subtree, false, rest, code, loc);
        return;
      }
      rest := rest - Tsize(subtree);
    }
    e := Some(OutOfBoundsRead);
  }

  method EmitWrite(t: TupleTree, isLocal: bool, indexIn: nat, code: CodeVec, loc: nat) returns (e: Option<CompileError>)
    modifies code
    ensures Emitted(old(code.insns), code.insns, WriteCode(t, isLocal, indexIn, loc), e)
    decreases t
  {
    if t.Single? {
      code.Append(Plain(Pop, loc));
      return None;
    }
    var index := indexIn;
    for slot := 0 to |t.kids|
      invariant index >= 0 && code.insns == old(code.insns)
      invariant WriteCode(t, isLocal, indexIn, loc) == WriteKids(t.kids[slot..], isLocal, index, slot, loc)
    {
      var subtree := t.kids[slot];
      assert t.kids[slot..][0] == subtree && t.kids[slot..][1..] == t.kids[slot + 1..];
      if index < Tsize(subtree) {
        if subtree.Single? {
          code.Append(WithImm(if isLocal then Xset else Tset, Int(slot), loc));
          return None;
        }
        EmitOpen(isLocal, slot, code, loc);
        e := EmitWrite(subtree, false, index, code, loc);
        if e.Some? {
          return;
        }
        EmitClose(isLocal, slot, code, loc);
        return None;
      }
      index := index - Tsize(subtree);
    }
    e := Some(OutOfBoundsWrite);
  }

  method EmitOpen(isLocal: bool, slot: nat, code: CodeVec, loc: nat)
    modifies code
    ensures code.insns == old(code.insns) + Open(isLocal, slot, loc)
  {
    if isLocal {
      code.Append(WithImm(Xget, Int(slot), loc));
    } else {
      code.Append(Plain(Swap1, loc));
      code.Append(Plain(Dup1, loc));
      code.Append(WithImm(Tget, Int(slot), loc));
    }
  }

  method EmitClose(isLocal: bool, slot: nat, code: CodeVec, loc: nat)
    modifies code
    ensures code.insns == old(code.insns) + Close(isLocal, slot, loc)
  {
    if isLocal {
      code.Append(WithImm(Xset, Int(slot), loc));
    } else {
      code.Append(Plain(Swap1, loc));
      code.Append(WithImm(Tset, Int(slot), loc));
    }
  }

  // ----- what the code does -----

  /** The machine with the tuple being accessed in place: on top of the aux stack for locals, on
      top of the data stack otherwise; st and aux are what lies below. */
  function Holding(isLocal: bool, v: Value, st: Stack, aux: Stack, reg: Value): State {
    if isLocal then State(st, Push(v, aux), reg) else State(Push(v, st), aux, reg)
  }

  lemma RunOne(isa: Isa, x: Instr, s: State)
    ensures Run(isa, [x], s) == (var o := Exec(isa, x, s); if o.Next? then Some(o.s) else None)
  {
    assert [x][1..] == [];
  }

  lemma RunCons(isa: Isa, x: Instr, seg: seq<Instr>, s: State)
    ensures Run(isa, [x] + seg, s) == (var o := Exec(isa, x, s); if o.Next? then Run(isa, seg, o.s) else None)
  {
    assert ([x] + seg)[1..] == seg;
  }

  /** Reading pushes the slot's value; a local read keeps the frame. */
  lemma {:induction false} ReadCorrect(isa: Isa, t: TupleTree, index: nat, vals: seq<Value>,
                                       st: Stack, aux: Stack, reg: Value, loc: nat)
    requires WellFormed(t) && |vals| == Tsize(t) && index < |vals|
    ensures var c := ReadCode(t, false, index, loc);
            c.Ok? && Run(isa, c.value, State(Push(MakeValue(t, vals), st), aux, reg))
                     == Some(State(Push(vals[index], st), aux, reg))
    decreases t, 1
  {
    match t
    case Single =>
    case Tree(_, kids) =>
      ReadKidsCorrect(isa, kids, false, index, 0, MakeValues(kids, vals), vals, st, aux, reg, loc);
  }

  lemma ReadLocalCorrect(isa: Isa, t: TupleTree, index: nat, vals: seq<Value>,
                         st: Stack, aux: Stack, reg: Value, loc: nat)
    requires WellFormed(t) && t.Tree? && |vals| == Tsize(t) && index < |vals|
    ensures var c := ReadCode(t, true, index, loc);
            c.Ok? && Run(isa, c.value, State(st, Push(MakeValue(t, vals), aux), reg))
                     == Some(State(Push(vals[index], st), Push(MakeValue(t, vals), aux), reg))
  {
    ReadKidsCorrect(isa, t.kids, true, index, 0, MakeValues(t.kids, vals), vals, st, aux, reg, loc);
  }

  lemma {:induction false} ReadKidsCorrect(isa: Isa, kids: seq<TupleTree>, isLocal: bool, index: nat, slot: nat,
                                           whole: seq<Value>, vals: seq<Value>,
                                           st: Stack, aux: Stack, reg: Value, loc: nat)
    requires AllWellFormed(kids) && |vals| == SumSizes(kids) && index < |vals|
    requires slot + |kids| == |whole| && whole[slot..] == MakeValues(kids, vals)
    ensures var c := ReadKids(kids, isLocal, index, slot, loc);
            c.Ok? && Run(isa, c.value, Holding(isLocal, Tuple(whole), st, aux, reg))
                     == Some(State(Push(vals[index], st), if isLocal then Push(Tuple(whole), aux) else aux, reg))
    decreases kids, 0
  {
    var n := Tsize(kids[0]);
    var first := MakeValue(kids[0], vals[..n]);
    assert whole[slot] == first;
    if index < n {
      var aux' := if isLocal then Push(Tuple(whole), aux) else aux;
      ReadCorrect(isa, kids[0], index, vals[..n], st, aux', reg, loc);
      var sub := ReadCode(kids[0], false, index, loc).value;
      var get := WithImm(if isLocal then Xget else Tget, Int(slot), loc);
      assert Exec(isa, get, Holding(isLocal, Tuple(whole), st, aux, reg)) == Next(State(Push(first, st), aux', reg));
      RunCons(isa, get, sub, Holding(isLocal, Tuple(whole), st, aux, reg));
    } else {
      assert whole[slot + 1..] == MakeValues(kids[1..], vals[n..]);
      ReadKidsCorrect(isa, kids[1..], isLocal, index - n, slot + 1, whole, vals[n..], st, aux, reg, loc);
    }
  }

  /** Writing takes the tuple and the new value and leaves the tuple with that slot replaced. */
  lemma {:induction false} WriteCorrect(isa: Isa, t: TupleTree, index: nat, vals: seq<Value>, x: Value,
                                        st: Stack, aux: Stack, reg: Value, loc: nat)
    requires WellFormed(t) && |vals| == Tsize(t) && index < |vals|
    ensures var c := WriteCode(t, false, index, loc);
            c.Ok? && Run(isa, c.value, State(Push(MakeValue(t, vals), Push(x, st)), aux, reg))
                     == Some(State(Push(MakeValue(t, vals[index := x]), st), aux, reg))
    decreases t, 1
  {
    match t
    case Single =>
      RunOne(isa, Plain(Pop, loc), State(Push(MakeValue(t, vals), Push(x, st)), aux, reg));
    case Tree(_, kids) =>
      WriteKidsCorrect(isa, kids, false, index, [], vals, x, st, aux, reg, loc);
      assert [] + MakeValues(kids, vals) == MakeValues(kids, vals);
      assert [] + MakeValues(kids, vals[index := x]) == MakeValues(kids, vals[index := x]);
  }

  lemma WriteLocalCorrect(isa: Isa, t: TupleTree, index: nat, vals: seq<Value>, x: Value,
                          st: Stack, aux: Stack, reg: Value, loc: nat)
    requires WellFormed(t) && t.Tree? && |vals| == Tsize(t) && index < |vals|
    ensures var c := WriteCode(t, true, index, loc);
            c.Ok? && Run(isa, c.value, State(Push(x, st), Push(MakeValue(t, vals), aux), reg))
                     == Some(State(st, Push(MakeValue(t, vals[index := x]), aux), reg))
  {
    WriteKidsCorrect(isa, t.kids, true, index, [], vals, x, st, aux, reg, loc);
    assert [] + MakeValues(t.kids, vals) == MakeValues(t.kids, vals);
    assert [] + MakeValues(t.kids, vals[index := x]) == MakeValues(t.kids, vals[index := x]);
  }

  /** The code around the write into a child, given what the inner code does. */
  lemma WriteThrough(isa: Isa, isLocal: bool, slot: nat, sub: seq<Instr>, whole: seq<Value>, kid': Value, x: Value,
                     st: Stack, aux: Stack, reg: Value, loc: nat)
    requires slot < |whole|
    requires isLocal ==> Run(isa, sub, State(Push(whole[slot], Push(x, st)), Push(Tuple(whole), aux), reg))
                         == Some(State(Push(kid', st), Push(Tuple(whole), aux), reg))
    requires !isLocal ==> Run(isa, sub, State(Push(whole[slot], Push(x, Push(Tuple(whole), st))), aux, reg))
                          == Some(State(Push(kid', Push(Tuple(whole), st)), aux, reg))
    ensures Run(isa, Open(isLocal, slot, loc) + sub + Close(isLocal, slot, loc),
                Holding(isLocal, Tuple(whole), Push(x, st), aux, reg))
            == Some(Holding(isLocal, Tuple(whole[slot := kid']), st, aux, reg))
  {
    var open, close := Open(isLocal, slot, loc), Close(isLocal, slot, loc);
    var s0 := Holding(isLocal, Tuple(whole), Push(x, st), aux, reg);
    var s1 := if isLocal then State(Push(whole[slot], Push(x, st)), Push(Tuple(whole), aux), reg)
              else State(Push(whole[slot], Push(x, Push(Tuple(whole), st))), aux, reg);
    OpenRuns(isa, isLocal, slot, whole, x, st, aux, reg, loc);
    RunAppend(isa, open, sub, s0);
    RunAppend(isa, open + sub, close, s0);
    CloseRuns(isa, isLocal, slot, whole, kid', st, aux, reg, loc);
  }

  lemma OpenRuns(isa: Isa, isLocal: bool, slot: nat, whole: seq<Value>, x: Value,
                 st: Stack, aux: Stack, reg: Value, loc: nat)
    requires slot < |whole|
    ensures Run(isa, Open(isLocal, slot, loc), Holding(isLocal, Tuple(whole), Push(x, st), aux, reg)) ==
            Some(if isLocal then State(Push(whole[slot], Push(x, st)), Push(Tuple(whole), aux), reg)
                 else State(Push(whole[slot], Push(x, Push(Tuple(whole), st))), aux, reg))
  {
    var s := Holding(isLocal, Tuple(whole), Push(x, st), aux, reg);
    var open := Open(isLocal, slot, loc);
    if isLocal {
      RunOne(isa, open[0], s);
    } else {
      assert open[1..] == [open[1], open[2]] && open[1..][1..] == [open[2]];
      RunOne(isa, open[2], State(Push(Tuple(whole), Push(x, Push(Tuple(whole), st))), aux, reg));
    }
  }

  lemma CloseRuns(isa: Isa, isLocal: bool, slot: nat, whole: seq<Value>, kid': Value,
                  st: Stack, aux: Stack, reg: Value, loc: nat)
    requires slot < |whole|
    ensures Run(isa, Close(isLocal, slot, loc),
                if isLocal then State(Push(kid', st), Push(Tuple(whole), aux), reg)
                else State(Push(kid', Push(Tuple(whole), st)), aux, reg))
            == Some(Holding(isLocal, Tuple(whole[slot := kid']), st, aux, reg))
  {
    var close := Close(isLocal, slot, loc);
    if isLocal {
      RunOne(isa, close[0], State(Push(kid', st), Push(Tuple(whole), aux), reg));
    } else {
      assert close[1..] == [close[1]];
      RunOne(isa, close[1], State(Push(Tuple(whole), Push(kid', st)), aux, reg));
    }
  }

  lemma {:induction false} WriteKidsCorrect(isa: Isa, kids: seq<TupleTree>, isLocal: bool, index: nat,
                                            done: seq<Value>, vals: seq<Value>, x: Value,
                                            st: Stack, aux: Stack, reg: Value, loc: nat)
    requires AllWellFormed(kids) && |vals| == SumSizes(kids) && index < |vals|
    ensures var c := WriteKids(kids, isLocal, index, |done|, loc);
            c.Ok? && Run(isa, c.value, Holding(isLocal, Tuple(done + MakeValues(kids, vals)), Push(x, st), aux, reg))
                     == Some(Holding(isLocal, Tuple(done + MakeValues(kids, vals[index := x])), st, aux, reg))
    decreases kids, 0
  {
    var n := Tsize(kids[0]);
    UpdateFirst(kids, done, vals, index, x);
    if index < n {
      WriteFirstKid(isa, kids[0], isLocal, index, |done|, done + MakeValues(kids, vals), vals[..n], x, st, aux, reg,
                    loc);
    } else {
      WriteKidsCorrect(isa, kids[1..], isLocal, index - n, done + [MakeValue(kids[0], vals[..n])], vals[n..], x,
                       st, aux, reg, loc);
    }
  }

  /** How an update shows in the nested values, seen from the first child. */
  lemma UpdateFirst(kids: seq<TupleTree>, done: seq<Value>, vals: seq<Value>, index: nat, x: Value)
    requires AllWellFormed(kids) && |vals| == SumSizes(kids) && index < |vals|
    ensures var n, whole := Tsize(kids[0]), done + MakeValues(kids, vals);
            var whole' := done + MakeValues(kids, vals[index := x]);
            var first := MakeValue(kids[0], vals[..n]);
            && n <= |vals|
            && whole[|done|] == first
            && if index < n then whole' == whole[|done| := MakeValue(kids[0], vals[..n][index := x])]
               else && whole == (done + [first]) + MakeValues(kids[1..], vals[n..])
                    && whole' == (done + [first]) + MakeValues(kids[1..], vals[n..][index - n := x])
  {
    var n := Tsize(kids[0]);
    var first, rest := MakeValue(kids[0], vals[..n]), MakeValues(kids[1..], vals[n..]);
    if index < n {
      assert vals[index := x][..n] == vals[..n][index := x] && vals[index := x][n..] == vals[n..];
      Splice(done, first, MakeValue(kids[0], vals[..n][index := x]), rest);
    } else {
      assert vals[index := x][..n] == vals[..n] && vals[index := x][n..] == vals[n..][index - n := x];
      Splice(done, first, first, rest);
      Splice(done, first, first, MakeValues(kids[1..], vals[n..][index - n := x]));
    }
  }

  lemma Splice(done: seq<Value>, a: Value, b: Value, rest: seq<Value>)
    ensures var whole := done + ([a] + rest);
            && whole[|done|] == a
            && whole[|done| := b] == done + ([b] + rest)
            && whole == (done + [a]) + rest
  {
  }

  lemma WriteFirstKid(isa: Isa, kid: TupleTree, isLocal: bool, index: nat, slot: nat, whole: seq<Value>,
                      vals: seq<Value>, x: Value, st: Stack, aux: Stack, reg: Value, loc: nat)
    requires WellFormed(kid) && |vals| == Tsize(kid) && index < |vals|
    requires slot < |whole| && whole[slot] == MakeValue(kid, vals)
    ensures var c := WriteKids([kid], isLocal, index, slot, loc);
            c.Ok? && Run(isa, c.value, Holding(isLocal, Tuple(whole), Push(x, st), aux, reg))
                     == Some(Holding(isLocal, Tuple(whole[slot := MakeValue(kid, vals[index := x])]), st, aux, reg))
    decreases kid, 2
  {
    if kid.Single? {
      var set' := WithImm(if isLocal then Xset else Tset, Int(slot), loc);
      RunOne(isa, set', Holding(isLocal, Tuple(whole), Push(x, st), aux, reg));
    } else {
      if isLocal {
        WriteCorrect(isa, kid, index, vals, x, st, Push(Tuple(whole), aux), reg, loc);
      } else {
        WriteCorrect(isa, kid, index, vals, x, Push(Tuple(whole), st), aux, reg, loc);
      }
      var sub := WriteCode(kid, false, index, loc);
      WriteThrough(isa, isLocal, slot, sub.value, whole, MakeValue(kid, vals[index := x]), x, st, aux, reg, loc);
    }
  }
}
