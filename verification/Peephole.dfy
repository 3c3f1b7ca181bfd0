/** The peephole optimiser (src/link/optimize.rs) and its correctness on whole programs. */
module Peephole {
  import opened Avm
  import opened Machine
  import opened Expansion

  /** Instructions without effect: a bare Noop, and a Pop of its own immediate. */
  predicate Useless(insn: Instr) {
    || (insn.op == AVM(Noop) && insn.imm.None?)
    || (insn.op == AVM(Pop) && insn.imm.Some?)
  }

  function Supply(imm: Option<Value>, loc: nat): seq<Instr> {
    if imm.Some? then [WithImm(Noop, imm.value, loc)] else []
  }

  /** What the last two instructions of the output are replaced by, or None to leave them. */
  function Rewrite(a: Instr, b: Instr): Option<seq<Instr>> {
    var constant := a.op == AVM(Noop) && a.imm.Some?;
    if !b.op.AVM? then None
    else match b.op.op
      case Pop =>
        if b.imm.None? && a.op == AVM(Dup0) && a.imm.None? then Some([]) else None
      case AuxPush =>
        if b.imm.Some? then None
        else if a.op == AVM(AuxPop) then Some(Supply(a.imm, a.loc))
        else if constant then Some([WithImm(AuxPush, a.imm.value, b.loc)])
        else None
      case AuxPop =>
        if b.imm.Some? then
          if a.op == AVM(AuxPush) && a.imm.None? then Some([Instr(AVM(Swap1), b.imm, b.loc)]) else None
        else if a.op == AVM(AuxPush) then Some(Supply(a.imm, a.loc))
        else if constant then Some([WithImm(AuxPop, a.imm.value, b.loc)])
        else None
      case IsZero =>
        if b.imm.None? && a.op == AVM(IsZero) then Some(Supply(a.imm, a.loc)) else None
      case op =>
        if b.imm.None? && constant then Some([WithImm(op, a.imm.value, b.loc)]) else None
  }

  /** The inner loop: every rewrite leaves at most one instruction in place of two, so it ends. */
  function Settle(out: seq<Instr>): seq<Instr>
    decreases |out|
  {
    var n := |out|;
    if n > 1 && Rewrite(out[n - 2], out[n - 1]).Some? then
      Settle(out[..n - 2] + Rewrite(out[n - 2], out[n - 1]).value)
    else out
  }

  function OptimizeFrom(out: seq<Instr>, code: seq<Instr>): seq<Instr>
    decreases code
  {
    if code == [] then out
    else if Useless(code[0]) then OptimizeFrom(out, code[1..])
    else OptimizeFrom(Settle(out + [code[0]]), code[1..])
  }

  function Optimize(code: seq<Instr>): seq<Instr> {
    OptimizeFrom([], code)
  }

  method PeepholePass(codeIn: seq<Instr>) returns (codeOut: seq<Instr>)
    ensures codeOut == Optimize(codeIn)
  {
    codeOut := [];
    for i := 0 to |codeIn|
      invariant OptimizeFrom(codeOut, codeIn[i..]) == Optimize(codeIn)
    {
      var insn := codeIn[i];
      assert codeIn[i..][0] == insn && codeIn[i..][1..] == codeIn[i + 1..];
      if !Useless(insn) {
        codeOut := SettleEnd(codeOut + [insn]);
      }
    }
  }

  method SettleEnd(codeIn: seq<Instr>) returns (codeOut: seq<Instr>)
    ensures codeOut == Settle(codeIn)
  {
    codeOut := codeIn;
    var done := false;
    while !done && |codeOut| > 1
      invariant Settle(codeOut) == Settle(codeIn)
      invariant done ==> codeOut == Settle(codeIn)
      decreases |codeOut|, !done
    {
      var n := |codeOut|;
      var r := Rewrite(codeOut[n - 2], codeOut[n - 1]);
      if r.Some? {
        codeOut := codeOut[..n - 2] + r.value;
      } else {
        done := true;
      }
    }
  }

  // ----- the IsZero pairs that get cancelled -----

  predicate CancelsTest(a: Instr, b: Instr) {
    a.op == AVM(IsZero) && b.op == AVM(IsZero) && b.imm.None?
  }

  ghost function SettleCancels(out: seq<Instr>): set<nat>
    decreases |out|
  {
    var n := |out|;
    if n > 1 && Rewrite(out[n - 2], out[n - 1]).Some? then
      (if CancelsTest(out[n - 2], out[n - 1]) then {out[n - 2].loc} else {})
      + SettleCancels(out[..n - 2] + Rewrite(out[n - 2], out[n - 1]).value)
    else {}
  }

  /** The locations of the first test of every cancelled pair. */
  ghost function CancelledFrom(out: seq<Instr>, code: seq<Instr>): set<nat>
    decreases code
  {
    if code == [] then {}
    else if Useless(code[0]) then CancelledFrom(out, code[1..])
    else SettleCancels(out + [code[0]]) + CancelledFrom(Settle(out + [code[0]]), code[1..])
  }

  ghost function Cancelled(code: seq<Instr>): set<nat> {
    CancelledFrom([], code)
  }

  // ----- one rewrite -----

  /** Executing a and then b. */
  function PairOutcome(isa: Isa, a: Instr, b: Instr, s: State): Outcome<State> {
    match Exec(isa, a, s)
    case Next(s1) => Exec(isa, b, s1)
    case _ => Fault
  }

  /** The replacement does what the pair did, unless the pair faults. */
  lemma RewriteRefines(isa: Isa, a: Instr, b: Instr, s: State)
    requires Rewrite(a, b).Some? && (CancelsTest(a, b) ==> a.loc in isa.strict)
    requires !PairOutcome(isa, a, b, s).Fault?
    ensures Yields(isa, Rewrite(a, b).value, s, PairOutcome(isa, a, b, s))
  {
    var r, o := Rewrite(a, b).value, PairOutcome(isa, a, b, s);
    if r == [] {
      assert o == Next(s);
    } else {
      ReplacementExec(isa, a, b, s);
      YieldsOne(isa, r[0], s);
      assert r == [r[0]];
    }
  }

  lemma ReplacementExec(isa: Isa, a: Instr, b: Instr, s: State)
    requires Rewrite(a, b).Some? && (CancelsTest(a, b) ==> a.loc in isa.strict)
    requires !PairOutcome(isa, a, b, s).Fault? && Rewrite(a, b).value != []
    ensures Exec(isa, Rewrite(a, b).value[0], s) == PairOutcome(isa, a, b, s)
  {
  }

  /** Two tests leave an integer alone exactly when it is 0 or 1: the hypothesis on cancelled
      pairs cannot be weakened. */
  lemma CancellingExact(isa: Isa, a: Instr, b: Instr, n: nat, st: Stack, aux: Stack, reg: Value)
    requires CancelsTest(a, b) && a.imm.None? && a.loc !in isa.strict && b.loc !in isa.strict
    ensures Rewrite(a, b) == Some([])
    ensures var s := State(Push(Int(n), st), aux, reg);
            PairOutcome(isa, a, b, s) == Next(s) <==> n <= 1
  {
    assert Exec(isa, a, State(Push(Int(n), st), aux, reg)) == Next(State(Push(BoolVal(n == 0), st), aux, reg));
  }

  // ----- a rewrite inside a program -----

  /** Where a position of A + seg + B is after seg has been replaced. */
  function Shift(start: nat, old': nat, new': nat, pc: nat): nat
    requires pc <= start || pc >= start + old'
  {
    if pc <= start then pc else pc - old' + new'
  }

  lemma FindLabelReplaced(A: seq<Instr>, seg: seq<Instr>, seg': seq<Instr>, B: seq<Instr>, l: Label)
    requires NoLabelOp(seg) && NoLabelOp(seg') && seg != []
    ensures var r, r' := FindLabel(A + seg + B, l), FindLabel(A + seg' + B, l);
            && (r.Some? <==> r'.Some?)
            && (r.Some? ==> (r.value < |A| || r.value >= |A| + |seg|) && r'.value == Shift(|A|, |seg|, |seg'|, r.value))
  {
    FindLabelAppend(A, seg, l);
    FindLabelAppend(A, seg', l);
    FindLabelAppend(A + seg, B, l);
    FindLabelAppend(A + seg', B, l);
  }

  /** The two kinds of replacement the pass makes. */
  ghost predicate Replaces(isa: Isa, seg: seq<Instr>, seg': seq<Instr>) {
    || (|seg| == 1 && Useless(seg[0]) && seg' == [])
    || (&& |seg| == 2 && Rewrite(seg[0], seg[1]) == Some(seg')
        && (CancelsTest(seg[0], seg[1]) ==> seg[0].loc in isa.strict))
  }

  /** A step taken outside the replaced segment. */
  lemma OutsideStep(isa: Isa, A: seq<Instr>, seg: seq<Instr>, seg': seq<Instr>, B: seq<Instr>, c: Config<State>)
    requires isa.symbolic && NoLabelOp(seg) && NoLabelOp(seg') && seg != []
    requires c.pc < |A| || |A| + |seg| <= c.pc < |A + seg + B|
    ensures var c' := Config(Shift(|A|, |seg|, |seg'|, c.pc), c.s);
            && c'.pc < |A + seg' + B| && (A + seg' + B)[c'.pc] == (A + seg + B)[c.pc]
            && var next, next' := Step(isa, A + seg + B, c), Step(isa, A + seg' + B, c');
               next.Some? ==>
                 && (next.value.pc <= |A| || next.value.pc >= |A| + |seg|)
                 && next' == Some(Config(Shift(|A|, |seg|, |seg'|, next.value.pc), next.value.s))
  {
    var insn := (A + seg + B)[c.pc];
    var r := Exec(isa, insn, c.s);
    if r.Goto? && r.target.LabelVal? { FindLabelReplaced(A, seg, seg', B, r.target.lab); }
  }

  /** Neither instruction of a rewritten pair, except the second, can leave the straight line. */
  lemma FirstGoesOn(isa: Isa, a: Instr, b: Instr, s: State)
    requires Rewrite(a, b).Some? || Useless(a)
    ensures Exec(isa, a, s).Next? || Exec(isa, a, s).Fault?
    ensures Useless(a) && Exec(isa, a, s).Next? ==> Exec(isa, a, s) == Next(s)
    ensures Rewrite(a, b).Some? ==> NoLabelOp([a, b]) && NoLabelOp(Rewrite(a, b).value) && |Rewrite(a, b).value| <= 1
  {
  }

  lemma {:induction false} ReplaceSimulates(isa: Isa, A: seq<Instr>, seg: seq<Instr>, seg': seq<Instr>, B: seq<Instr>,
                                            n: nat, c: Config<State>, o: Obs<State>)
    requires isa.symbolic && Replaces(isa, seg, seg')
    requires !o.AtPc? && (c.pc <= |A| || c.pc >= |A| + |seg|)
    requires ArrivesIn(isa, A + seg + B, n, c, o)
    ensures Arrives(isa, A + seg' + B, Config(Shift(|A|, |seg|, |seg'|, c.pc), c.s), o)
    decreases n
  {
    var P, P' := A + seg + B, A + seg' + B;
    var c' := Config(Shift(|A|, |seg|, |seg'|, c.pc), c.s);
    FirstGoesOn(isa, seg[0], if |seg| == 2 then seg[1] else seg[0], c.s);
    if c.pc != |A| {
      OutsideStep(isa, A, seg, seg', B, c);
      if n == 0 {
        ArrivesNow(isa, P', c', o);
      } else {
        ReplaceSimulates(isa, A, seg, seg', B, n - 1, Step(isa, P, c).value, o);
        ArrivesStep(isa, P', c', o);
      }
    } else if |seg| == 1 {
      assert P[c.pc] == seg[0];
      ReplaceSimulates(isa, A, seg, seg', B, n - 1, Step(isa, P, c).value, o);
    } else {
      PairSimulates(isa, A, seg, seg', B, n, c, o);
    }
  }

  /** The run enters the pair. */
  lemma {:induction false} PairSimulates(isa: Isa, A: seq<Instr>, seg: seq<Instr>, seg': seq<Instr>, B: seq<Instr>,
                                         n: nat, c: Config<State>, o: Obs<State>)
    requires isa.symbolic && Replaces(isa, seg, seg') && |seg| == 2 && c.pc == |A| && !o.AtPc?
    requires ArrivesIn(isa, A + seg + B, n, c, o)
    ensures Arrives(isa, A + seg' + B, c, o)
    decreases n, 0
  {
    var P := A + seg + B;
    FirstGoesOn(isa, seg[0], seg[1], c.s);
    assert P[|A|] == seg[0] && P[|A| + 1] == seg[1];
    var c1 := Step(isa, P, c).value;
    var r := Exec(isa, seg[1], c1.s);
    if n > 1 {
      var c2 := Step(isa, P, c1).value;
      if r.Goto? { FindLabelReplaced(A, seg, seg', B, r.target.lab); }
      ReplaceSimulates(isa, A, seg, seg', B, n - 2, c2, o);
    }
    RewriteRefines(isa, seg[0], seg[1], c.s);
    LeavePair(isa, A, seg', B, c.s, r, o);
  }

  /** The run leaves the replacement where it left the pair. */
  lemma LeavePair(isa: Isa, A: seq<Instr>, seg': seq<Instr>, B: seq<Instr>, s: State, r: Outcome<State>, o: Obs<State>)
    requires Yields(isa, seg', s, r) && !r.Fault?
    requires r.Next? ==> Arrives(isa, A + seg' + B, Config(|A| + |seg'|, r.s), o)
    requires r.Goto? ==> var t := Target(isa, A + seg' + B, r.target);
                         t.Some? && Arrives(isa, A + seg' + B, Config(t.value, r.s), o)
    requires r.Stop? ==> o == Halted(r.s)
    ensures Arrives(isa, A + seg' + B, Config(|A|, s), o)
  {
    var P' := A + seg' + B;
    assert P'[|A|..|A| + |seg'|] == seg';
    YieldsArrives(isa, P', |A|, seg', s, r, o);
  }

  // ----- the whole pass -----

  lemma {:induction false} SettlePreserves(isa: Isa, out: seq<Instr>, B: seq<Instr>, s: State, o: Obs<State>)
    requires isa.symbolic && SettleCancels(out) <= isa.strict && !o.AtPc?
    requires Arrives(isa, out + B, Config(0, s), o)
    ensures Arrives(isa, Settle(out) + B, Config(0, s), o)
    decreases |out|
  {
    var n := |out|;
    if n > 1 && Rewrite(out[n - 2], out[n - 1]).Some? {
      var A, seg, seg' := out[..n - 2], out[n - 2..], Rewrite(out[n - 2], out[n - 1]).value;
      assert out + B == A + seg + B;
      var k: nat :| ArrivesIn(isa, out + B, k, Config(0, s), o);
      ReplaceSimulates(isa, A, seg, seg', B, k, Config(0, s), o);
      FirstGoesOn(isa, seg[0], seg[1], s);
      SettlePreserves(isa, A + seg', B, s, o);
    }
  }

  lemma {:induction false} OptimizeFromPreserves(isa: Isa, out: seq<Instr>, code: seq<Instr>, s: State, o: Obs<State>)
    requires isa.symbolic && CancelledFrom(out, code) <= isa.strict && !o.AtPc?
    requires Arrives(isa, out + code, Config(0, s), o)
    ensures Arrives(isa, OptimizeFrom(out, code), Config(0, s), o)
    decreases code
  {
    if code == [] {
      assert out + [] == out;
    } else {
      var rest := code[1..];
      assert out + code == out + [code[0]] + rest;
      if Useless(code[0]) {
        var k: nat :| ArrivesIn(isa, out + code, k, Config(0, s), o);
        assert out + [] + rest == out + rest;
        ReplaceSimulates(isa, out, [code[0]], [], rest, k, Config(0, s), o);
        OptimizeFromPreserves(isa, out, rest, s, o);
      } else {
        SettlePreserves(isa, out + [code[0]], rest, s, o);
        OptimizeFromPreserves(isa, Settle(out + [code[0]]), rest, s, o);
      }
    }
  }

  /** Any run of a labelled program that does not fault, and in which the tests at the location of a
      cancelled pair see 0 or 1, makes the same observations after the pass. */
  lemma OptimizePreserves(isa: Isa, code: seq<Instr>, s: State, o: Obs<State>)
    requires isa.symbolic && Cancelled(code) <= isa.strict && !o.AtPc?
    requires Arrives(isa, code, Config(0, s), o)
    ensures Arrives(isa, Optimize(code), Config(0, s), o)
  {
    assert [] + code == code;
    OptimizeFromPreserves(isa, [], code, s, o);
  }

  // ----- a location of a cancelled pair is that of a test -----

  ghost predicate TestsWithin(code: seq<Instr>, locs: set<nat>) {
    forall i :: 0 <= i < |code| && code[i].op == AVM(IsZero) ==> code[i].loc in locs
  }

  lemma RewriteMakesNoTest(a: Instr, b: Instr)
    requires Rewrite(a, b).Some?
    ensures TestsWithin(Rewrite(a, b).value, {})
  {
  }

  lemma {:induction false} SettleCancelsTests(out: seq<Instr>, locs: set<nat>)
    requires TestsWithin(out, locs)
    ensures SettleCancels(out) <= locs && TestsWithin(Settle(out), locs)
    decreases |out|
  {
    var n := |out|;
    if n > 1 && Rewrite(out[n - 2], out[n - 1]).Some? {
      RewriteMakesNoTest(out[n - 2], out[n - 1]);
      SettleCancelsTests(out[..n - 2] + Rewrite(out[n - 2], out[n - 1]).value, locs);
    }
  }

  lemma {:induction false} CancelledAreTests(out: seq<Instr>, code: seq<Instr>, locs: set<nat>)
    requires TestsWithin(out, locs) && TestsWithin(code, locs)
    ensures CancelledFrom(out, code) <= locs
    decreases code
  {
    if code != [] {
      if Useless(code[0]) {
        CancelledAreTests(out, code[1..], locs);
      } else {
        SettleCancelsTests(out + [code[0]], locs);
        CancelledAreTests(Settle(out + [code[0]]), code[1..], locs);
      }
    }
  }
}
