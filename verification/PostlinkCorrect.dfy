/** The post-link passes together preserve the meaning of a linked program. */
module PostlinkCorrect {
  import opened Avm
  import opened Machine
  import opened TupleTrees
  import opened Virtual
  import opened TupleCode
  import opened Lowering
  import opened LoweringCorrect
  import opened Peephole
  import opened StripLabels
  import opened StripCorrect
  import opened Renaming
  import opened Nonforward
  import opened NonforwardCorrect
  import opened Postlink
  import opened Occurrences

  // ----- the passes leave the initialising instructions in front -----

  /** No labels, no references, and nothing to lower. */
  ghost predicate Inert(pre: seq<Instr>) {
    forall i :: 0 <= i < |pre| ==>
      pre[i].op.AVM? && (pre[i].imm.Some? ==> !pre[i].imm.value.LabelVal?)
  }

  ghost predicate AllAvm(pre: seq<Instr>) {
    forall i :: 0 <= i < |pre| ==> pre[i].op.AVM?
  }

  lemma InitInert(numGlobals: nat, testMode: bool)
    ensures Inert(Init(numGlobals, testMode))
  {
    EmptyHasNoLabels(TreeOf(numGlobals, false));
  }

  lemma DetoursInert(x: Instr, rest: seq<Instr>, away: set<Label>, table: seq<Label>, slot: nat)
    requires Inert([x])
    ensures Detours([x] + rest, away, table, slot) == Onto([x], Detours(rest, away, table, slot))
  {
    assert [x][0] == x && ([x] + rest)[1..] == rest;
  }

  lemma {:induction false} DetoursPrefix(pre: seq<Instr>, body: seq<Instr>, away: set<Label>, table: seq<Label>,
                                         slot: nat)
    requires Inert(pre)
    ensures Detours(pre + body, away, table, slot) == Onto(pre, Detours(body, away, table, slot))
  {
    var d := Detours(body, away, table, slot);
    if pre == [] {
      assert pre + body == body && [] + d.code == d.code;
    } else {
      DetoursPrefix(pre[1..], body, away, table, slot);
      DetoursInert(pre[0], pre[1..] + body, away, table, slot);
      assert pre == [pre[0]] + pre[1..];
      Reassociate([pre[0]], pre[1..], body);
      Reassociate([pre[0]], pre[1..], d.code);
    }
  }

  lemma {:induction false} FetchAllInert(pre: seq<Instr>, size: nat)
    requires Inert(pre)
    ensures FetchAll(pre, size) == pre
  {
    if pre != [] {
      FetchAllInert(pre[1..], size);
      assert pre == [pre[0]] + pre[1..];
    }
  }

  lemma RoutePrefix(pre: seq<Instr>, body: seq<Instr>, imports: seq<ImportedFunc>, slot: nat)
    requires Inert(pre)
    ensures Route(pre + body, imports, slot) == Onto(pre, Route(body, imports, slot))
  {
    var away := ImportedLabels(imports);
    var d := Detours(body, away, [], slot);
    DetoursPrefix(pre, body, away, [], slot);
    FetchAllAppend(pre, d.code, |d.table|);
    FetchAllInert(pre, |d.table|);
  }

  lemma {:induction false} LowerPrefix(pre: seq<Instr>, body: seq<Instr>, frameSize: nat, numGlobals: nat)
    requires Inert(pre)
    ensures Lower(pre + body, frameSize, numGlobals) == Prepend(pre, Lower(body, frameSize, numGlobals))
  {
    if pre == [] {
      assert pre + body == body;
      PrependTwice([], [], Lower(body, frameSize, numGlobals));
    } else {
      assert (pre + body)[0] == pre[0] && (pre + body)[1..] == pre[1..] + body;
      LowerPrefix(pre[1..], body, frameSize, numGlobals);
      PrependTwice([pre[0]], pre[1..], Lower(body, frameSize, numGlobals));
      assert pre == [pre[0]] + pre[1..];
    }
  }

  /** The initialising instructions after the peephole pass, with a given value for the register. */
  function Packed(v: Value, testMode: bool): seq<Instr> {
    if testMode then [WithImm(Noop, NONE, 0), WithImm(Rset, v, 0)]
    else [Plain(Rpush, 0), WithImm(Noop, NONE, 0), WithImm(Rset, v, 0)]
  }

  /** Nothing is ever rewritten across the instruction that sets the register. */
  ghost predicate Barrier(pre: seq<Instr>) {
    && pre != [] && pre[|pre| - 1].op == AVM(Rset) && pre[|pre| - 1].imm.Some?
    && Settle(pre) == pre
  }

  lemma SettleStep(A: seq<Instr>, x: Instr, y: Instr)
    requires Rewrite(x, y).Some?
    ensures Settle(A + [x, y]) == Settle(A + Rewrite(x, y).value)
  {
    assert (A + [x, y])[..|A|] == A;
  }

  lemma SettleStuck(A: seq<Instr>, x: Instr, y: Instr)
    requires Rewrite(x, y).None?
    ensures Settle(A + [x, y]) == A + [x, y]
  {
  }

  lemma SettleOne(x: Instr)
    ensures Settle([x]) == [x]
  {
  }

  lemma BarrierStops(pre: seq<Instr>, x: Instr)
    requires Barrier(pre)
    ensures Settle(pre + [x]) == pre + Settle([x])
  {
    var k := |pre| - 1;
    assert pre + [x] == pre[..k] + [pre[k], x];
    SettleStuck(pre[..k], pre[k], x);
    SettleOne(x);
  }

  lemma BarrierPair(pre: seq<Instr>, A: seq<Instr>, x: Instr, y: Instr)
    requires Rewrite(x, y).None?
    ensures Settle(pre + (A + [x, y])) == pre + Settle(A + [x, y])
  {
    SettleStuck(A, x, y);
    SettleStuck(pre + A, x, y);
    assert pre + (A + [x, y]) == pre + A + [x, y];
  }

  lemma {:induction false} SettleBarrier(pre: seq<Instr>, out: seq<Instr>)
    requires Barrier(pre)
    ensures Settle(pre + out) == pre + Settle(out)
    decreases |out|
  {
    var n := |out|;
    if n == 0 {
      assert pre + out == pre;
    } else if n == 1 {
      BarrierStops(pre, out[0]);
      assert out == [out[0]];
    } else {
      var A, x, y := out[..n - 2], out[n - 2], out[n - 1];
      assert out == A + [x, y];
      if Rewrite(x, y).Some? {
        var r := Rewrite(x, y).value;
        SettleBarrier(pre, A + r);
        SettleStep(A, x, y);
        SettleStep(pre + A, x, y);
        Reassociate(pre, A, [x, y]);
        Reassociate(pre, A, r);
      } else {
        BarrierPair(pre, A, x, y);
      }
    }
  }

  lemma {:induction false} OptimizeBarrier(pre: seq<Instr>, out: seq<Instr>, code: seq<Instr>)
    requires Barrier(pre)
    ensures OptimizeFrom(pre + out, code) == pre + OptimizeFrom(out, code)
    decreases code
  {
    if code != [] {
      if Useless(code[0]) {
        OptimizeBarrier(pre, out, code[1..]);
      } else {
        assert pre + out + [code[0]] == pre + (out + [code[0]]);
        SettleBarrier(pre, out + [code[0]]);
        OptimizeBarrier(pre, Settle(out + [code[0]]), code[1..]);
      }
    }
  }

  lemma PackedBarrier(v: Value, testMode: bool)
    ensures Barrier(Packed(v, testMode))
  {
  }

  lemma OptimizeStep(out: seq<Instr>, x: Instr, code: seq<Instr>)
    requires !Useless(x)
    ensures OptimizeFrom(out, [x] + code) == OptimizeFrom(Settle(out + [x]), code)
  {
    assert ([x] + code)[1..] == code;
  }

  lemma OptimizeInit(numGlobals: nat, testMode: bool, body: seq<Instr>)
    ensures var table := MakeEmpty(TreeOf(numGlobals, false));
            Optimize(Init(numGlobals, testMode) + body) == Packed(table, testMode) + Optimize(body)
  {
    var table := MakeEmpty(TreeOf(numGlobals, false));
    var i := Init(numGlobals, testMode);
    var packed := Packed(table, testMode);
    assert i + body == [i[0]] + ([i[1]] + ([i[2]] + body));
    OptimizeStep([], i[0], [i[1]] + ([i[2]] + body));
    assert [] + [i[0]] == [i[0]];
    SettleOne(i[0]);
    OptimizeStep([i[0]], i[1], [i[2]] + body);
    SettleStuck([], i[0], i[1]);
    assert [] + [i[0], i[1]] == [i[0]] + [i[1]];
    OptimizeStep([i[0]] + [i[1]], i[2], body);
    assert [i[0]] + [i[1]] + [i[2]] == [i[0]] + [i[1], i[2]];
    SettleInit(table, testMode);
    PackedBarrier(table, testMode);
    OptimizeBarrier(packed, [], body);
    assert packed + [] == packed;
  }

  lemma SettleInit(table: Value, testMode: bool)
    ensures testMode ==>
              Settle([WithImm(Noop, NONE, 0)] + [WithImm(Noop, table, 0), Plain(Rset, 0)]) == Packed(table, true)
    ensures !testMode ==>
              Settle([Plain(Rpush, 0)] + [WithImm(Noop, NONE, 0), WithImm(Rset, table, 0)]) == Packed(table, false)
  {
    if testMode {
      SettleStep([WithImm(Noop, NONE, 0)], WithImm(Noop, table, 0), Plain(Rset, 0));
      SettleTest(table);
    } else {
      SettleStuck([Plain(Rpush, 0)], WithImm(Noop, NONE, 0), WithImm(Rset, table, 0));
    }
  }

  lemma SettleTest(table: Value)
    ensures Settle([WithImm(Noop, NONE, 0)] + [WithImm(Rset, table, 0)]) == Packed(table, true)
  {
    var a, b := WithImm(Noop, NONE, 0), WithImm(Rset, table, 0);
    assert [a] + [b] == [] + [a, b];
    SettleStuck([], a, b);
  }

  // ----- runs through the initialising instructions -----

  /** The state in which the program proper starts. */
  function Entered(numGlobals: nat, testMode: bool, s: VState): VState {
    VState(Push(NONE, if testMode then s.stack else Push(RegValue(s.reg), s.stack)), s.aux, Globals(Nones(numGlobals)))
  }

  /** The code around a position of the program proper does not depend on what stands in front. */
  lemma SameBehindPrefix(isa: Isa, numGlobals: nat, pre: seq<Instr>, body: seq<Instr>, pc: nat)
    requires Inert(pre) && pc < |body|
    ensures (pre + body)[|pre| + pc] == body[pc]
    ensures FrameAt(pre + body, INITIAL_FRAME, |pre| + pc) == FrameAt(body, INITIAL_FRAME, pc)
  {
    FrameAtAppend(pre, body, INITIAL_FRAME, pc);
    FrameInside(pre, INITIAL_FRAME, |pre|);
  }

  lemma {:induction false} VDropPrefix(isa: Isa, numGlobals: nat, pre: seq<Instr>, body: seq<Instr>,
                                       n: nat, pc: nat, s: VState, o: Obs<VState>)
    requires isa.symbolic && Inert(pre)
    requires VArrivesIn(isa, numGlobals, pre + body, n, Config(|pre| + pc, s), o)
    ensures VArrivesIn(isa, numGlobals, body, n, Config(pc, s), o)
    decreases n
  {
    var all := pre + body;
    SameBehindPrefix(isa, numGlobals, pre, body, pc);
    var r := VExec(isa, numGlobals, FrameAt(body, INITIAL_FRAME, pc), body[pc], s);
    assert n > 0 ==> VStep(isa, numGlobals, body, Config(pc, s)) == After(isa, body, pc, r);
    if n > 0 {
      var c := VStep(isa, numGlobals, all, Config(|pre| + pc, s)).value;
      assert Some(c) == After(isa, all, |pre| + pc, r);
      StepDropsPrefix(isa, pre, body, pc, r);
      VDropPrefix(isa, numGlobals, pre, body, n - 1, c.pc - |pre|, c.s, o);
    }
  }

  lemma {:induction false} VAddPrefix(isa: Isa, numGlobals: nat, pre: seq<Instr>, body: seq<Instr>,
                                      n: nat, pc: nat, s: VState, o: Obs<VState>)
    requires isa.symbolic && Inert(pre)
    requires VArrivesIn(isa, numGlobals, body, n, Config(pc, s), o)
    ensures VArrivesIn(isa, numGlobals, pre + body, n, Config(|pre| + pc, s), o)
    decreases n
  {
    var all := pre + body;
    SameBehindPrefix(isa, numGlobals, pre, body, pc);
    if n > 0 {
      var r := VExec(isa, numGlobals, FrameAt(body, INITIAL_FRAME, pc), body[pc], s);
      var c := VStep(isa, numGlobals, body, Config(pc, s)).value;
      assert Some(c) == After(isa, body, pc, r);
      StepDropsPrefix(isa, pre, body, pc, r);
      VAddPrefix(isa, numGlobals, pre, body, n - 1, c.pc, c.s, o);
      assert VStep(isa, numGlobals, all, Config(|pre| + pc, s)) == After(isa, all, |pre| + pc, r);
    }
  }

  lemma FindLabelPrefix(pre: seq<Instr>, body: seq<Instr>, l: Label)
    requires AllAvm(pre)
    ensures FindLabel(pre + body, l)
            == var r := FindLabel(body, l); if r.Some? then Some(|pre| + r.value) else None
  {
    FindLabelAppend(pre, body, l);
  }

  lemma StepDropsPrefix<S>(isa: Isa, pre: seq<Instr>, body: seq<Instr>, pc: nat, r: Outcome<S>)
    requires isa.symbolic && AllAvm(pre)
    ensures var a, b := After(isa, pre + body, |pre| + pc, r), After(isa, body, pc, r);
            a.Some? == b.Some? && (a.Some? ==> a.value == Config(|pre| + b.value.pc, b.value.s))
  {
    if r.Goto? && r.target.LabelVal? { FindLabelPrefix(pre, body, r.target.lab); }
  }

  lemma {:induction false} AddPrefix(isa: Isa, pre: seq<Instr>, body: seq<Instr>, n: nat, c: Config<State>,
                                     o: Obs<State>)
    requires isa.symbolic && AllAvm(pre) && !o.AtPc? && ArrivesIn(isa, body, n, c, o)
    ensures ArrivesIn(isa, pre + body, n, Config(|pre| + c.pc, c.s), o)
    decreases n
  {
    assert (pre + body)[|pre| + c.pc] == body[c.pc];
    if n > 0 {
      StepDropsPrefix(isa, pre, body, c.pc, Exec(isa, body[c.pc], c.s));
      AddPrefix(isa, pre, body, n - 1, Step(isa, body, c).value, o);
    }
  }

  lemma DecodeEmpty(numGlobals: nat)
    ensures DecodeReg(numGlobals, MakeEmpty(TreeOf(numGlobals, false))) == Globals(Nones(numGlobals))
  {
    FlattenMake(TreeOf(numGlobals, false), Nones(numGlobals));
  }

  lemma VInitStep(isa: Isa, numGlobals: nat, code: seq<Instr>, pc: nat, s: VState, s': VState, o: Obs<VState>)
    requires pc < |code| && code[pc].op.AVM? && VArrives(isa, numGlobals, code, Config(pc, s), o)
    requires VExec(isa, numGlobals, FrameAt(code, INITIAL_FRAME, pc), code[pc], s) == Next(s')
    ensures VArrives(isa, numGlobals, code, Config(pc + 1, s'), o)
  {
    var n: nat :| VArrivesIn(isa, numGlobals, code, n, Config(pc, s), o);
    assert n > 0 && VArrivesIn(isa, numGlobals, code, n - 1, Config(pc + 1, s'), o);
  }

  /** The states between the initialising instructions. */
  function Entering(numGlobals: nat, testMode: bool, s: VState, k: nat): VState {
    var table := MakeEmpty(TreeOf(numGlobals, false));
    if k == 0 then s
    else if k == 1 then s.(stack := Push(if testMode then NONE else RegValue(s.reg), s.stack))
    else if k == 2 then
      s.(stack := if testMode then Push(table, Push(NONE, s.stack)) else Push(NONE, Push(RegValue(s.reg), s.stack)))
    else Entered(numGlobals, testMode, s)
  }

  lemma InitExec(isa: Isa, numGlobals: nat, testMode: bool, s: VState, frameSize: nat, k: nat)
    requires k < 3
    ensures VExec(isa, numGlobals, frameSize, Init(numGlobals, testMode)[k], Entering(numGlobals, testMode, s, k))
            == Next(Entering(numGlobals, testMode, s, k + 1))
  {
    DecodeEmpty(numGlobals);
  }

  lemma {:induction false} VInitFrom(isa: Isa, numGlobals: nat, testMode: bool, code: seq<Instr>, s: VState,
                                     o: Obs<VState>, k: nat)
    requires k <= 3 && |code| >= 3 && code[..3] == Init(numGlobals, testMode)
    requires VArrives(isa, numGlobals, code, Config(k, Entering(numGlobals, testMode, s, k)), o)
    ensures VArrives(isa, numGlobals, code, Config(3, Entering(numGlobals, testMode, s, 3)), o)
    decreases 3 - k
  {
    if k < 3 {
      assert code[k] == Init(numGlobals, testMode)[k];
      InitExec(isa, numGlobals, testMode, s, FrameAt(code, INITIAL_FRAME, k), k);
      VInitStep(isa, numGlobals, code, k, Entering(numGlobals, testMode, s, k),
                Entering(numGlobals, testMode, s, k + 1), o);
      VInitFrom(isa, numGlobals, testMode, code, s, o, k + 1);
    }
  }

  /** Any run of the linked program enters the program proper with empty globals. */
  lemma VInitRuns(isa: Isa, numGlobals: nat, testMode: bool, body: seq<Instr>, s: VState, o: Obs<VState>)
    requires isa.symbolic && VArrives(isa, numGlobals, Init(numGlobals, testMode) + body, Config(0, s), o)
    ensures VArrives(isa, numGlobals, body, Config(0, Entered(numGlobals, testMode, s)), o)
  {
    var init := Init(numGlobals, testMode);
    assert (init + body)[..3] == init;
    VInitFrom(isa, numGlobals, testMode, init + body, s, o, 0);
    var n: nat :| VArrivesIn(isa, numGlobals, init + body, n, Config(3, Entered(numGlobals, testMode, s)), o);
    InitInert(numGlobals, testMode);
    VDropPrefix(isa, numGlobals, init, body, n, 0, Entered(numGlobals, testMode, s), o);
  }

  /** The packed instructions set the register and leave the stack as Entered says. */
  lemma PackedRuns(isa: Isa, v: Value, testMode: bool, s: State)
    ensures Run(isa, Packed(v, testMode), s)
            == Some(State(Push(NONE, if testMode then s.stack else Push(s.reg, s.stack)), s.aux, v))
  {
    var rest, last := [WithImm(Rset, v, 0)], WithImm(Noop, NONE, 0);
    RunOne(isa, rest[0], s.(stack := Push(NONE, s.stack)));
    if testMode {
      assert Packed(v, true) == [last] + rest;
      RunCons(isa, last, rest, s);
    } else {
      assert Packed(v, false) == [Plain(Rpush, 0)] + ([last] + rest);
      var s1 := s.(stack := Push(s.reg, s.stack));
      RunCons(isa, Plain(Rpush, 0), [last] + rest, s);
      RunCons(isa, last, rest, s1);
      RunOne(isa, rest[0], s1.(stack := Push(NONE, s1.stack)));
    }
  }

  // ----- the hard-coded table is the translation of a table of labels -----

  lemma {:induction false} StripTableAt(table: seq<Label>, m: LabelMap)
    requires StripTable(table, m).Ok?
    ensures var t := StripTable(table, m).value;
            |t| == |table| && forall i :: 0 <= i < |table| ==> table[i] in m && t[i] == m[table[i]]
  {
    if table != [] { StripTableAt(table[1..], m); }
  }

  /** The register value with a table of labels in the last global. */
  function Loaded(numGlobals: nat, x: Value): Value
    requires numGlobals > 0
  {
    MakeValue(TreeOf(numGlobals, false), Nones(numGlobals)[numGlobals - 1 := x])
  }

  lemma XlateTable(m: LabelMap, table: seq<Label>)
    requires StripTable(table, m).Ok?
    ensures Xlate(m, TableValue(table)) == JumpTableValue(StripTable(table, m).value)
  {
    StripTableAt(table, m);
    var t := StripTable(table, m).value;
    var ls, ps := LabelVals(table), CodePointVals(t);
    assert RenamedAll(PointTo(m), ls) == ps by {
      forall i | 0 <= i < |ls| ensures RenamedAll(PointTo(m), ls)[i] == ps[i] { assert table[i] in m; }
    }
    MakeRenamed(PointTo(m), TreeOf(|table|, false), ls);
  }

  lemma NonesRenamed(h: Naming, n: nat)
    ensures RenamedAll(h, Nones(n)) == Nones(n)
  {
    RenamedNone(h);
  }

  lemma XlateLoaded(m: LabelMap, numGlobals: nat, x: Value)
    requires numGlobals > 0
    ensures Xlate(m, Loaded(numGlobals, x)) == Loaded(numGlobals, Xlate(m, x))
  {
    var h, k, nones := PointTo(m), numGlobals - 1, Nones(numGlobals);
    NonesRenamed(h, numGlobals);
    assert RenamedAll(h, nones[k := x]) == nones[k := Xlate(m, x)];
    MakeRenamed(h, TreeOf(numGlobals, false), nones[k := x]);
  }

  lemma XlateEmpty(m: LabelMap, numGlobals: nat)
    ensures Xlate(m, MakeEmpty(TreeOf(numGlobals, false))) == MakeEmpty(TreeOf(numGlobals, false))
  {
    NonesRenamed(PointTo(m), numGlobals);
    MakeRenamed(PointTo(m), TreeOf(numGlobals, false), Nones(numGlobals));
  }

  lemma {:induction false} CountSame(a: seq<Instr>, b: seq<Instr>, i: nat)
    requires |a| == |b| && i <= |a| && forall j :: 0 <= j < |a| ==> a[j].op == b[j].op
    ensures Count(a, i) == Count(b, i)
  {
    if i > 0 { CountSame(a, b, i - 1); }
  }

  lemma {:induction false} CountPrefix(pre: seq<Instr>, body: seq<Instr>, i: nat)
    requires AllAvm(pre) && i <= |pre|
    ensures Count(pre + body, i) == i
  {
    if i > 0 { CountPrefix(pre, body, i - 1); }
  }

  lemma PackedIsAvm(v: Value, testMode: bool)
    ensures AllAvm(Packed(v, testMode))
  {
  }

  /** Overwriting one remaining instruction, before and after translation. */
  lemma PatchTranslates(code: seq<Instr>, m: LabelMap, out: seq<Instr>, k: nat, x: Instr)
    requires k < |code| && !code[k].op.LabelOp? && x.op == code[k].op
    requires Places(code, 0, m) && Translates(code, m, out) && Count(code, k) == k < |out|
    ensures Places(code[k := x], 0, m) && Translates(code[k := x], m, out[k := XlateInsn(m, x)])
  {
    var code', out' := code[k := x], out[k := XlateInsn(m, x)];
    forall i | 0 <= i < |code'| ensures PlacedAt(code', 0, m, i) && TranslatedAt(code', m, out', i) {
      CountSame(code, code', i);
      assert PlacedAt(code, 0, m, i) && TranslatedAt(code, m, out, i);
      if i != k && !code[i].op.LabelOp? { CountElsewhere(code, i, k); }
    }
  }

  /** What hard-coding makes of the instruction that sets the register. */
  lemma HardcodeIs(numGlobals: nat, testMode: bool, out: seq<Instr>, table: seq<Label>, m: LabelMap)
    requires numGlobals > 0 && StripTable(table, m).Ok? && TableOffset(testMode) < |out|
    requires out[TableOffset(testMode)] == XlateInsn(m, WithImm(Rset, MakeEmpty(TreeOf(numGlobals, false)), 0))
    ensures var x := WithImm(Rset, Loaded(numGlobals, TableValue(table)), 0);
            Hardcode(out, JumpTableValue(StripTable(table, m).value), testMode)
            == Ok(out[TableOffset(testMode) := XlateInsn(m, x)])
  {
    var x := JumpTableValue(StripTable(table, m).value);
    XlateEmpty(m, numGlobals);
    ReplaceLastNoneFillsLastSlot(TreeOf(numGlobals, false), x);
    XlateLoaded(m, numGlobals, TableValue(table));
    XlateTable(m, table);
  }

  /** The instruction that sets the register stands at the table's offset. */
  lemma PackedAt(v: Value, v': Value, testMode: bool, body: seq<Instr>)
    ensures var code, k := Packed(v, testMode) + body, TableOffset(testMode);
            && k < |code| && code[k] == WithImm(Rset, v, 0) && Count(code, k) == k
            && code[k := WithImm(Rset, v', 0)] == Packed(v', testMode) + body
  {
    var code, k := Packed(v, testMode) + body, TableOffset(testMode);
    PackedIsAvm(v, testMode);
    CountPrefix(Packed(v, testMode), body, k);
    assert Packed(v, testMode)[k := WithImm(Rset, v', 0)] == Packed(v', testMode);
  }

  /** Hard-coding after stripping is stripping after hard-coding: the final code is the translation
      of the labelled code with a table of labels in the register value. */
  lemma HardcodeTranslates(numGlobals: nat, testMode: bool, body: seq<Instr>, table: seq<Label>, m: LabelMap)
    requires numGlobals > 0 && StripTable(table, m).Ok?
    requires var code := Packed(MakeEmpty(TreeOf(numGlobals, false)), testMode) + body;
             StripCode(code, m).Ok? && Places(code, 0, m)
    ensures var code := Packed(MakeEmpty(TreeOf(numGlobals, false)), testMode) + body;
            var code' := Packed(Loaded(numGlobals, TableValue(table)), testMode) + body;
            var h := Hardcode(StripCode(code, m).value, JumpTableValue(StripTable(table, m).value), testMode);
            h.Ok? && Places(code', 0, m) && Translates(code', m, h.value)
  {
    var empty, full, k := MakeEmpty(TreeOf(numGlobals, false)), Loaded(numGlobals, TableValue(table)),
        TableOffset(testMode);
    var code := Packed(empty, testMode) + body;
    var out := StripCode(code, m).value;
    PackedAt(empty, full, testMode, body);
    StripTranslates(code, m);
    assert TranslatedAt(code, m, out, k);
    HardcodeIs(numGlobals, testMode, out, table, m);
    PatchTranslates(code, m, out, k, WithImm(Rset, full, 0));
  }

  /** Two remaining instructions do not share a position. */
  lemma {:induction false} CountElsewhere(code: seq<Instr>, i: nat, k: nat)
    requires i < |code| && k < |code| && i != k && !code[k].op.LabelOp? && !code[i].op.LabelOp?
    ensures Count(code, i) != Count(code, k)
  {
    if i < k { CountIncreases(code, i, k); } else { CountIncreases(code, k, i); }
  }

  lemma {:induction false} CountIncreases(code: seq<Instr>, i: nat, j: nat)
    requires i < j <= |code| && !code[i].op.LabelOp?
    ensures Count(code, i) < Count(code, j)
  {
    if i < j - 1 { CountIncreases(code, i, j - 1); }
  }

  // ----- the whole of postlink_compile -----

  /** What the stages make of a linked program. */
  lemma Stages(numGlobals: nat, testMode: bool, body: seq<Instr>, imports: seq<ImportedFunc>)
    requires Compiled(Init(numGlobals, testMode) + body, imports, numGlobals, testMode).Ok?
    ensures numGlobals > 0
    ensures var routed := Route(body, imports, numGlobals - 1);
            var lowered := Lower(routed.code, INITIAL_FRAME, numGlobals);
            lowered.Ok?
            && var empty := MakeEmpty(TreeOf(numGlobals, false));
               var code := Packed(empty, testMode) + Optimize(lowered.value);
               var m := Collect(code, 0, ImportMap(imports));
               m.Ok? && StripCode(code, m.value).Ok? && StripTable(routed.table, m.value).Ok?
               && Hardcode(StripCode(code, m.value).value, JumpTableValue(StripTable(routed.table, m.value).value),
                           testMode)
                  == Compiled(Init(numGlobals, testMode) + body, imports, numGlobals, testMode)
  {
    var init := Init(numGlobals, testMode);
    InitInert(numGlobals, testMode);
    RoutePrefix(init, body, imports, numGlobals - 1);
    var routed := Route(body, imports, numGlobals - 1);
    LowerPrefix(init, routed.code, INITIAL_FRAME, numGlobals);
    var lowered := Lower(routed.code, INITIAL_FRAME, numGlobals).value;
    OptimizeInit(numGlobals, testMode, lowered);
  }

  /** The code each stage works on, for a program that links. */
  function Table(numGlobals: nat, body: seq<Instr>, imports: seq<ImportedFunc>): seq<Label>
    requires numGlobals > 0
  {
    Route(body, imports, numGlobals - 1).table
  }

  function Lowered(numGlobals: nat, body: seq<Instr>, imports: seq<ImportedFunc>): seq<Instr>
    requires numGlobals > 0
  {
    var l := Lower(Route(body, imports, numGlobals - 1).code, INITIAL_FRAME, numGlobals);
    if l.Ok? then l.value else []
  }

  /** Where each label ends up. */
  function FinalMap(numGlobals: nat, testMode: bool, body: seq<Instr>, imports: seq<ImportedFunc>): LabelMap
    requires numGlobals > 0
  {
    var empty := MakeEmpty(TreeOf(numGlobals, false));
    var m := Collect(Packed(empty, testMode) + Optimize(Lowered(numGlobals, body, imports)), 0, ImportMap(imports));
    if m.Ok? then m.value else map[]
  }

  /** What the linker may assume of compiled code. */
  ghost predicate Linkable(body: seq<Instr>, numGlobals: nat) {
    BareLabels(body) && AllUndisturbing(body, numGlobals)
  }

  /** From the flat machine to labelled AVM code. */
  lemma LoweredPreserves(isa: Isa, numGlobals: nat, body: seq<Instr>, imports: seq<ImportedFunc>, s: VState,
                         o: Obs<VState>)
    requires isa.symbolic && numGlobals > 0 && Linkable(body, numGlobals)
    requires |Table(numGlobals, body, imports)| <= USIZE_LIMIT
    requires Lower(Route(body, imports, numGlobals - 1).code, INITIAL_FRAME, numGlobals).Ok?
    requires HasGlobals(numGlobals, s) && VArrives(isa, numGlobals, body, Config(0, s), o)
    ensures var table := Table(numGlobals, body, imports);
            Arrives(isa, Lowered(numGlobals, body, imports), Config(0, Rep(Tabled(table, s))),
                    RepObs(TabledObs(table, o)))
  {
    RoutingPreserves(isa, numGlobals, body, imports, s, o);
    var r := Route(body, imports, numGlobals - 1);
    var n: nat :| VArrivesIn(isa, numGlobals, r.code, n, Config(0, Tabled(r.table, s)), TabledObs(r.table, o));
    LoweringSimulates(isa, numGlobals, r.code, n, Config(0, Tabled(r.table, s)), TabledObs(r.table, o));
  }

  /** Running the packed instructions leads to the entered state with the table in place. */
  lemma EnterArrives(isa: Isa, numGlobals: nat, testMode: bool, opt: seq<Instr>, table: seq<Label>, s: VState,
                     o: Obs<State>)
    requires isa.symbolic && numGlobals > 0 && !o.AtPc?
    requires Arrives(isa, opt, Config(0, Rep(Tabled(table, Entered(numGlobals, testMode, s)))), o)
    ensures Arrives(isa, Packed(Loaded(numGlobals, TableValue(table)), testMode) + opt, Config(0, Rep(s)), o)
  {
    var full, e := Loaded(numGlobals, TableValue(table)), Rep(Tabled(table, Entered(numGlobals, testMode, s)));
    var pre := Packed(full, testMode);
    PackedIsAvm(full, testMode);
    var n: nat :| ArrivesIn(isa, opt, n, Config(0, e), o);
    AddPrefix(isa, pre, opt, n, Config(0, e), o);
    PackedRuns(isa, full, testMode, Rep(s));
    EnteredRep(numGlobals, testMode, table, s);
    assert (pre + opt)[0..|pre|] == pre;
    RunSegment(isa, pre + opt, 0, pre, Rep(s), o);
  }

  lemma EnteredRep(numGlobals: nat, testMode: bool, table: seq<Label>, s: VState)
    requires numGlobals > 0
    ensures Rep(Tabled(table, Entered(numGlobals, testMode, s)))
            == State(Push(NONE, if testMode then s.stack else Push(Rep(s).reg, s.stack)), Rep(s).aux,
                     Loaded(numGlobals, TableValue(table)))
  {
  }

  /** From the optimised program proper, entered with the table, to the final code. */
  lemma FinalPreserves(isa: Isa, numGlobals: nat, testMode: bool, body: seq<Instr>, imports: seq<ImportedFunc>,
                       s: VState, o: Obs<State>)
    requires isa.symbolic && numGlobals > 0 && !o.AtPc?
    requires Compiled(Init(numGlobals, testMode) + body, imports, numGlobals, testMode).Ok?
    requires var e := Rep(Tabled(Table(numGlobals, body, imports), Entered(numGlobals, testMode, s)));
             Arrives(isa, Optimize(Lowered(numGlobals, body, imports)), Config(0, e), o)
    ensures var m := FinalMap(numGlobals, testMode, body, imports);
            Arrives(Concrete(isa), Compiled(Init(numGlobals, testMode) + body, imports, numGlobals, testMode).value,
                    Config(0, XlateState(m, Rep(s))), XlateObs(m, o))
  {
    var table, opt := Table(numGlobals, body, imports), Optimize(Lowered(numGlobals, body, imports));
    var m := FinalMap(numGlobals, testMode, body, imports);
    var out := Compiled(Init(numGlobals, testMode) + body, imports, numGlobals, testMode).value;
    var code := Packed(Loaded(numGlobals, TableValue(table)), testMode) + opt;
    EnterArrives(isa, numGlobals, testMode, opt, table, s, o);
    Stages(numGlobals, testMode, body, imports);
    CollectPlaces(Packed(MakeEmpty(TreeOf(numGlobals, false)), testMode) + opt, 0, ImportMap(imports));
    HardcodeTranslates(numGlobals, testMode, opt, table, m);
    var k: nat :| ArrivesIn(isa, code, k, Config(0, Rep(s)), o);
    StripSimulates(isa, code, m, out, k, Config(0, Rep(s)), o);
  }

  /** The program proper, entered with empty globals. */
  lemma BodyPreserves(isa: Isa, numGlobals: nat, testMode: bool, body: seq<Instr>, imports: seq<ImportedFunc>,
                      s: VState, o: Obs<VState>)
    requires isa.symbolic && Linkable(body, numGlobals) && numGlobals > 0
    requires |Table(numGlobals, body, imports)| <= USIZE_LIMIT
    requires Compiled(Init(numGlobals, testMode) + body, imports, numGlobals, testMode).Ok?
    requires Cancelled(Lowered(numGlobals, body, imports)) <= isa.strict
    requires VArrives(isa, numGlobals, body, Config(0, Entered(numGlobals, testMode, s)), o)
    ensures var m, table := FinalMap(numGlobals, testMode, body, imports), Table(numGlobals, body, imports);
            Arrives(Concrete(isa), Compiled(Init(numGlobals, testMode) + body, imports, numGlobals, testMode).value,
                    Config(0, XlateState(m, Rep(s))), XlateObs(m, RepObs(TabledObs(table, o))))
  {
    var e, table := Entered(numGlobals, testMode, s), Table(numGlobals, body, imports);
    Stages(numGlobals, testMode, body, imports);
    NoAtPc(isa, numGlobals, body, Config(0, e), o);
    LoweredPreserves(isa, numGlobals, body, imports, e, o);
    OptimizePreserves(isa, Lowered(numGlobals, body, imports), Rep(Tabled(table, e)), RepObs(TabledObs(table, o)));
    FinalPreserves(isa, numGlobals, testMode, body, imports, s, RepObs(TabledObs(table, o)));
  }

  /** The positions in the program of the first test of every pair that is cancelled. */
  ghost function CancelledTests(numGlobals: nat, body: seq<Instr>, imports: seq<ImportedFunc>): set<nat>
    requires numGlobals > 0
  {
    Cancelled(Lowered(numGlobals, Numbered(body), imports))
  }

  lemma CancelledTestsAreTests(numGlobals: nat, body: seq<Instr>, imports: seq<ImportedFunc>)
    requires numGlobals > 0
    ensures forall i :: i in CancelledTests(numGlobals, body, imports) ==> IsTest(body, i)
  {
    var code, tests := Route(Numbered(body), imports, numGlobals - 1).code, TestsOf(body);
    NumberedTests(body);
    RouteTests(Numbered(body), imports, numGlobals - 1, tests);
    if Lower(code, INITIAL_FRAME, numGlobals).Ok? { LowerTests(code, INITIAL_FRAME, numGlobals, tests); }
    CancelledAreTests([], Lowered(numGlobals, Numbered(body), imports), tests);
  }

  /** Numbering changes nothing but locations. */
  lemma NumberedStages(numGlobals: nat, testMode: bool, body: seq<Instr>, imports: seq<ImportedFunc>)
    requires numGlobals > 0
    ensures Table(numGlobals, Numbered(body), imports) == Table(numGlobals, body, imports)
    ensures FinalMap(numGlobals, testMode, Numbered(body), imports) == FinalMap(numGlobals, testMode, body, imports)
    ensures AlikeResults(Compiled(Init(numGlobals, testMode) + Numbered(body), imports, numGlobals, testMode),
                         Compiled(Init(numGlobals, testMode) + body, imports, numGlobals, testMode))
  {
    var init := Init(numGlobals, testMode);
    var pre, a, b := Packed(MakeEmpty(TreeOf(numGlobals, false)), testMode),
        Lowered(numGlobals, Numbered(body), imports),
                     Lowered(numGlobals, body, imports);
    RouteAlike(Numbered(body), body, imports, numGlobals - 1);
    LowerAlike(Route(Numbered(body), imports, numGlobals - 1).code, Route(body, imports, numGlobals - 1).code,
               INITIAL_FRAME, numGlobals);
    OptimizeAlike(a, b);
    AlikeAppend(pre, Optimize(a), pre, Optimize(b));
    CollectAlike(pre + Optimize(a), pre + Optimize(b), 0, ImportMap(imports));
    AlikeAppend(init, Numbered(body), init, body);
    CompiledAlike(init + Numbered(body), init + body, imports, numGlobals, testMode);
  }

  /** The same for a numbered program, as a statement on the program itself. */
  lemma BodyRefines(isa: Isa, numGlobals: nat, testMode: bool, body: seq<Instr>, imports: seq<ImportedFunc>,
                    s: VState, o: Obs<VState>)
    requires isa.symbolic && Linkable(body, numGlobals) && numGlobals > 0
    requires |Table(numGlobals, body, imports)| <= USIZE_LIMIT
    requires Compiled(Init(numGlobals, testMode) + body, imports, numGlobals, testMode).Ok?
    requires VArrives(Checking(isa, CancelledTests(numGlobals, body, imports)), numGlobals, Numbered(body),
                      Config(0, Entered(numGlobals, testMode, s)), o)
    ensures var m, table := FinalMap(numGlobals, testMode, body, imports), Table(numGlobals, body, imports);
            Arrives(Concrete(Unchecked(isa)), Compiled(Init(numGlobals, testMode) + body, imports, numGlobals,
                                                       testMode).value,
                    Config(0, XlateState(m, Rep(s))), XlateObs(m, RepObs(TabledObs(table, o))))
  {
    var checking := Checking(isa, CancelledTests(numGlobals, body, imports));
    var m, table := FinalMap(numGlobals, testMode, body, imports), Table(numGlobals, body, imports);
    NumberedStages(numGlobals, testMode, body, imports);
    NumberedLinkable(body, numGlobals);
    BodyPreserves(checking, numGlobals, testMode, Numbered(body), imports, s, o);
    ArrivesAlike(Concrete(checking), {},
                 Compiled(Init(numGlobals, testMode) + Numbered(body), imports, numGlobals, testMode).value,
                 Compiled(Init(numGlobals, testMode) + body, imports, numGlobals, testMode).value,
                 Config(0, XlateState(m, Rep(s))), XlateObs(m, RepObs(TabledObs(table, o))));
  }

  lemma NumberedLinkable(body: seq<Instr>, numGlobals: nat)
    requires Linkable(body, numGlobals)
    ensures Linkable(Numbered(body), numGlobals)
  {
    forall i | 0 <= i < |body|
      ensures Undisturbing(Numbered(body)[i], numGlobals)
      ensures Numbered(body)[i].op.LabelOp? ==> Numbered(body)[i].imm.None?
    {
      assert Same(body[i], Numbered(body)[i]) && Undisturbing(body[i], numGlobals);
    }
  }

  /** The main result. Every observation of the linked program on the flat machine, from any stacks
      and register, is an observation of the final code from the same start: it halts in the same
      state, or reaches the code point of the label that was reached. The first test of each
      cancelled pair must see 0 or 1; the final code runs on a machine that checks nothing. */
  lemma PostlinkPreserves(isa: Isa, numGlobals: nat, testMode: bool, body: seq<Instr>, imports: seq<ImportedFunc>,
                          s: VState, o: Obs<VState>)
    requires isa.symbolic && Linkable(body, numGlobals) && numGlobals > 0
    requires |Table(numGlobals, body, imports)| <= USIZE_LIMIT
    requires Compiled(Init(numGlobals, testMode) + body, imports, numGlobals, testMode).Ok?
    requires VArrives(Checking(isa, CancelledTests(numGlobals, body, imports)), numGlobals,
                      Init(numGlobals, testMode) + Numbered(body), Config(0, s), o)
    ensures var m, table := FinalMap(numGlobals, testMode, body, imports), Table(numGlobals, body, imports);
            Arrives(Concrete(Unchecked(isa)), Compiled(Init(numGlobals, testMode) + body, imports, numGlobals,
                                                       testMode).value,
                    Config(0, XlateState(m, Rep(s))), XlateObs(m, RepObs(TabledObs(table, o))))
    ensures forall i :: i in CancelledTests(numGlobals, body, imports) ==> IsTest(body, i)
  {
    VInitRuns(Checking(isa, CancelledTests(numGlobals, body, imports)), numGlobals, testMode, Numbered(body), s, o);
    BodyRefines(isa, numGlobals, testMode, body, imports, s, o);
    CancelledTestsAreTests(numGlobals, body, imports);
  }

  lemma {:induction false} NoAtPcIn(isa: Isa, numGlobals: nat, code: seq<Instr>, n: nat, c: Config<VState>,
                                    o: Obs<VState>)
    requires VArrivesIn(isa, numGlobals, code, n, c, o)
    ensures !o.AtPc?
    decreases n
  {
    if n > 0 { NoAtPcIn(isa, numGlobals, code, n - 1, VStep(isa, numGlobals, code, c).value, o); }
  }

  lemma NoAtPc(isa: Isa, numGlobals: nat, code: seq<Instr>, c: Config<VState>, o: Obs<VState>)
    requires VArrives(isa, numGlobals, code, c, o)
    ensures !o.AtPc?
  {
    var n: nat :| VArrivesIn(isa, numGlobals, code, n, c, o);
    NoAtPcIn(isa, numGlobals, code, n, c, o);
  }
}
