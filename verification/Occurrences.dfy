/** Programs that differ only in the debug locations of their instructions: the passes treat them
    alike and they run alike, so a location can be used to tell instructions apart. */
module Occurrences {
  import opened Avm
  import opened Machine
  import opened TupleTrees
  import opened TupleCode
  import opened Virtual
  import opened Lowering
  import opened Peephole
  import opened StripLabels
  import opened Nonforward
  import opened Postlink

  predicate Same(a: Instr, b: Instr) { a.op == b.op && a.imm == b.imm }

  predicate Alike(a: seq<Instr>, b: seq<Instr>) {
    |a| == |b| && forall i :: 0 <= i < |a| ==> Same(a[i], b[i])
  }

  predicate AlikeResults(a: Result<seq<Instr>>, b: Result<seq<Instr>>) {
    if a.Ok? then b.Ok? && Alike(a.value, b.value) else a == b
  }

  /** The program with every instruction located at its own position. */
  function Numbered(code: seq<Instr>): (r: seq<Instr>)
    ensures |r| == |code| && Alike(code, r) && forall i :: 0 <= i < |code| ==> r[i].loc == i
  {
    seq(|code|, i requires 0 <= i < |code| => code[i].(loc := i))
  }

  lemma AlikeAppend(a: seq<Instr>, b: seq<Instr>, a': seq<Instr>, b': seq<Instr>)
    requires Alike(a, a') && Alike(b, b')
    ensures Alike(a + b, a' + b')
  {
  }

  lemma AlikeTails(a: seq<Instr>, b: seq<Instr>)
    requires Alike(a, b) && a != []
    ensures Same(a[0], b[0]) && Alike(a[1..], b[1..])
  {
    assert Same(a[0], b[0]);
    forall i | 0 <= i < |a[1..]| ensures Same(a[1..][i], b[1..][i]) { assert Same(a[i + 1], b[i + 1]); }
  }

  // ----- fix_nonforward_labels -----

  lemma {:induction false} DetoursAlike(a: seq<Instr>, b: seq<Instr>, away: set<Label>, table: seq<Label>, slot: nat)
    requires Alike(a, b)
    ensures Alike(Detours(a, away, table, slot).code, Detours(b, away, table, slot).code)
    ensures Detours(a, away, table, slot).table == Detours(b, away, table, slot).table
    decreases |a|
  {
    if a != [] {
      AlikeTails(a, b);
      var away', table' := AwayAfter(a[0], away), TableAfter(a[0], away, table);
      assert Alike(Detour(a[0], away, table', slot), Detour(b[0], away, table', slot));
      DetoursAlike(a[1..], b[1..], away', table', slot);
      AlikeAppend(Detour(a[0], away, table', slot), Detours(a[1..], away', table', slot).code,
                  Detour(b[0], away, table', slot), Detours(b[1..], away', table', slot).code);
    }
  }

  lemma {:induction false} FetchAllAlike(a: seq<Instr>, b: seq<Instr>, size: nat)
    requires Alike(a, b)
    ensures Alike(FetchAll(a, size), FetchAll(b, size))
  {
    if a != [] {
      AlikeTails(a, b);
      FetchAllAlike(a[1..], b[1..], size);
      AlikeAppend(Fetch(a[0], size), FetchAll(a[1..], size), Fetch(b[0], size), FetchAll(b[1..], size));
    }
  }

  lemma RouteAlike(a: seq<Instr>, b: seq<Instr>, imports: seq<ImportedFunc>, slot: nat)
    requires Alike(a, b)
    ensures Alike(Route(a, imports, slot).code, Route(b, imports, slot).code)
    ensures Route(a, imports, slot).table == Route(b, imports, slot).table
  {
    var da, db := Detours(a, ImportedLabels(imports), [], slot), Detours(b, ImportedLabels(imports), [], slot);
    DetoursAlike(a, b, ImportedLabels(imports), [], slot);
    FetchAllAlike(da.code, db.code, |da.table|);
  }

  // ----- fix_tuple_size -----

  lemma {:induction false} ReadAlike(t: TupleTree, isLocal: bool, index: nat, loc: nat, loc': nat)
    ensures AlikeResults(ReadCode(t, isLocal, index, loc), ReadCode(t, isLocal, index, loc'))
    decreases t, 1
  {
    if t.Tree? { ReadKidsAlike(t.kids, isLocal, index, 0, loc, loc'); }
  }

  lemma {:induction false} ReadKidsAlike(kids: seq<TupleTree>, isLocal: bool, index: nat, slot: nat, loc: nat,
                                         loc': nat)
    ensures AlikeResults(ReadKids(kids, isLocal, index, slot, loc), ReadKids(kids, isLocal, index, slot, loc'))
    decreases kids, 0
  {
    if kids != [] {
      if index < Tsize(kids[0]) {
        ReadAlike(kids[0], false, index, loc, loc');
      } else {
        ReadKidsAlike(kids[1..], isLocal, index - Tsize(kids[0]), slot + 1, loc, loc');
      }
    }
  }

  lemma {:induction false} WriteAlike(t: TupleTree, isLocal: bool, index: nat, loc: nat, loc': nat)
    ensures AlikeResults(WriteCode(t, isLocal, index, loc), WriteCode(t, isLocal, index, loc'))
    decreases t, 1
  {
    if t.Tree? { WriteKidsAlike(t.kids, isLocal, index, 0, loc, loc'); }
  }

  lemma {:induction false} WriteKidsAlike(kids: seq<TupleTree>, isLocal: bool, index: nat, slot: nat, loc: nat,
                                          loc': nat)
    ensures AlikeResults(WriteKids(kids, isLocal, index, slot, loc), WriteKids(kids, isLocal, index, slot, loc'))
    decreases kids, 0
  {
    if kids != [] {
      if index < Tsize(kids[0]) {
        WriteAlike(kids[0], false, index, loc, loc');
      } else {
        WriteKidsAlike(kids[1..], isLocal, index - Tsize(kids[0]), slot + 1, loc, loc');
      }
    }
  }

  lemma {:induction false} WriteArgsAlike(t: TupleTree, k: nat, nargs: nat, loc: nat, loc': nat)
    requires k <= nargs
    ensures AlikeResults(WriteArgs(t, k, nargs, loc), WriteArgs(t, k, nargs, loc'))
    decreases nargs - k
  {
    if k < nargs {
      WriteAlike(t, true, k, loc, loc');
      WriteArgsAlike(t, k + 1, nargs, loc, loc');
    }
  }

  lemma {:induction false} FixedGetAlike(size: nat, loc: nat, loc': nat)
    ensures Alike(FixedGetCode(size, loc), FixedGetCode(size, loc'))
    decreases size
  {
    if size > TUPLE_SIZE {
      var sub := (size + (TUPLE_SIZE - 1)) / TUPLE_SIZE;
      FixedGetAlike(sub, loc, loc');
      AlikeAppend(DigitCode(loc), FixedGetCode(sub, loc), DigitCode(loc'), FixedGetCode(sub, loc'));
    }
  }

  lemma LowerOneAlike(a: Instr, b: Instr, frameSize: nat, numGlobals: nat)
    requires Same(a, b)
    ensures AlikeResults(LowerOne(a, frameSize, numGlobals), LowerOne(b, frameSize, numGlobals))
  {
    match a.op
    case MakeFrame(_, _, _) => FrameAlike(a, b);
    case UncheckedFixedArrayGet(size) => FixedGetAlike(size, a.loc, b.loc);
    case GetGlobalVar(i) => GetGlobalAlike(TreeOf(numGlobals, false), i, a.loc, b.loc);
    case SetGlobalVar(i) => SetGlobalAlike(TreeOf(numGlobals, false), i, a.loc, b.loc);
    case TupleGet(size) => IndexedAlike(a, b, TreeOf(size, false), false, true);
    case TupleSet(size) => IndexedAlike(a, b, TreeOf(size, false), false, false);
    case GetLocal => IndexedAlike(a, b, TreeOf(frameSize, true), true, true);
    case SetLocal => IndexedAlike(a, b, TreeOf(frameSize, true), true, false);
    case _ =>
  }

  lemma FrameAlike(a: Instr, b: Instr)
    requires Same(a, b) && a.op.MakeFrame?
    ensures AlikeResults(FrameCode(a), FrameCode(b))
  {
    WriteArgsAlike(TreeOf(a.op.ntotal, true), 0, a.op.nargs, a.loc, b.loc);
    FrameHeadAlike(a, b);
  }

  lemma FrameHeadAlike(a: Instr, b: Instr)
    requires Same(a, b) && a.op.MakeFrame?
    ensures Alike(FrameHead(a), FrameHead(b))
  {
  }

  lemma GetGlobalAlike(t: TupleTree, i: nat, loc: nat, loc': nat)
    ensures AlikeResults(GetGlobalCode(t, i, loc), GetGlobalCode(t, i, loc'))
  {
    ReadAlike(t, false, i, loc, loc');
  }

  lemma SetGlobalAlike(t: TupleTree, i: nat, loc: nat, loc': nat)
    ensures AlikeResults(SetGlobalCode(t, i, loc), SetGlobalCode(t, i, loc'))
  {
    WriteAlike(t, false, i, loc, loc');
  }

  lemma IndexedAlike(a: Instr, b: Instr, t: TupleTree, isLocal: bool, read: bool)
    requires Same(a, b)
    ensures AlikeResults(IndexedCode(a, t, isLocal, read), IndexedCode(b, t, isLocal, read))
  {
    if IndexOf(a).Ok? {
      var i := IndexOf(a).value;
      if read { ReadAlike(t, isLocal, i, a.loc, b.loc); } else { WriteAlike(t, isLocal, i, a.loc, b.loc); }
    }
  }

  lemma {:induction false} LowerAlike(a: seq<Instr>, b: seq<Instr>, frameSize: nat, numGlobals: nat)
    requires Alike(a, b)
    ensures AlikeResults(Lower(a, frameSize, numGlobals), Lower(b, frameSize, numGlobals))
    decreases |a|
  {
    if a != [] {
      AlikeTails(a, b);
      LowerOneAlike(a[0], b[0], frameSize, numGlobals);
      LowerAlike(a[1..], b[1..], FrameAfter(a[0], frameSize), numGlobals);
    }
  }

  // ----- the peephole pass -----

  lemma RewriteAlike(a: Instr, b: Instr, a': Instr, b': Instr)
    requires Same(a, a') && Same(b, b')
    ensures Rewrite(a, b).Some? == Rewrite(a', b').Some?
    ensures Rewrite(a, b).Some? ==> Alike(Rewrite(a, b).value, Rewrite(a', b').value)
  {
  }

  lemma {:induction false} SettleAlike(a: seq<Instr>, b: seq<Instr>)
    requires Alike(a, b)
    ensures Alike(Settle(a), Settle(b))
    decreases |a|
  {
    var n := |a|;
    if n > 1 {
      assert Same(a[n - 2], b[n - 2]) && Same(a[n - 1], b[n - 1]);
      RewriteAlike(a[n - 2], a[n - 1], b[n - 2], b[n - 1]);
      if Rewrite(a[n - 2], a[n - 1]).Some? {
        AlikeAppend(a[..n - 2], Rewrite(a[n - 2], a[n - 1]).value, b[..n - 2], Rewrite(b[n - 2], b[n - 1]).value);
        SettleAlike(a[..n - 2] + Rewrite(a[n - 2], a[n - 1]).value, b[..n - 2] + Rewrite(b[n - 2], b[n - 1]).value);
      }
    }
  }

  lemma {:induction false} OptimizeFromAlike(out: seq<Instr>, out': seq<Instr>, a: seq<Instr>, b: seq<Instr>)
    requires Alike(out, out') && Alike(a, b)
    ensures Alike(OptimizeFrom(out, a), OptimizeFrom(out', b))
    decreases |a|
  {
    if a != [] {
      AlikeTails(a, b);
      if Useless(a[0]) {
        OptimizeFromAlike(out, out', a[1..], b[1..]);
      } else {
        AlikeAppend(out, [a[0]], out', [b[0]]);
        SettleAlike(out + [a[0]], out' + [b[0]]);
        OptimizeFromAlike(Settle(out + [a[0]]), Settle(out' + [b[0]]), a[1..], b[1..]);
      }
    }
  }

  lemma OptimizeAlike(a: seq<Instr>, b: seq<Instr>)
    requires Alike(a, b)
    ensures Alike(Optimize(a), Optimize(b))
  {
    OptimizeFromAlike([], [], a, b);
  }

  // ----- strip_labels and the rest -----

  lemma {:induction false} CollectAlike(a: seq<Instr>, b: seq<Instr>, count: nat, m: LabelMap)
    requires Alike(a, b)
    ensures Collect(a, count, m) == Collect(b, count, m)
    decreases |a|
  {
    if a != [] {
      AlikeTails(a, b);
      if a[0].op.LabelOp? {
        CollectAlike(a[1..], b[1..], count, m[a[0].op.lab := Internal(count)]);
      } else {
        CollectAlike(a[1..], b[1..], count + 1, m);
      }
    }
  }

  lemma {:induction false} StripCodeAlike(a: seq<Instr>, b: seq<Instr>, m: LabelMap)
    requires Alike(a, b)
    ensures AlikeResults(StripCode(a, m), StripCode(b, m))
    decreases |a|
  {
    if a != [] {
      AlikeTails(a, b);
      StripCodeAlike(a[1..], b[1..], m);
    }
  }

  lemma HardcodeAlike(a: seq<Instr>, b: seq<Instr>, v: Value, testMode: bool)
    requires Alike(a, b)
    ensures AlikeResults(Hardcode(a, v, testMode), Hardcode(b, v, testMode))
  {
    var k := TableOffset(testMode);
    if k < |a| { assert Same(a[k], b[k]); }
  }

  lemma RealAlike(a: seq<Instr>, b: seq<Instr>)
    requires Alike(a, b)
    ensures AlikeResults(Real(a), Real(b))
  {
    if Real(a).Ok? {
      forall i | 0 <= i < |b| ensures b[i].op.AVM? { assert Same(a[i], b[i]); }
    } else {
      var i :| 0 <= i < |a| && !a[i].op.AVM?;
      assert Same(a[i], b[i]);
    }
  }

  lemma StripAlike(a: seq<Instr>, b: seq<Instr>, table: seq<Label>, imports: seq<ImportedFunc>)
    requires Alike(a, b)
    ensures var x, y := Strip(a, table, imports), Strip(b, table, imports);
            if x.Ok? then y.Ok? && Alike(x.value.code, y.value.code) && x.value.table == y.value.table else x == y
  {
    CollectAlike(a, b, 0, ImportMap(imports));
    if Collect(a, 0, ImportMap(imports)).Ok? { StripCodeAlike(a, b, Collect(a, 0, ImportMap(imports)).value); }
  }

  /** The passes after lowering. */
  function Finished(code: seq<Instr>, table: seq<Label>, imports: seq<ImportedFunc>,
                    testMode: bool): Result<seq<Instr>> {
    match Strip(Optimize(code), table, imports)
    case Err(e) => Err(e)
    case Ok(stripped) =>
      match Hardcode(stripped.code, JumpTableValue(stripped.table), testMode)
      case Err(e) => Err(e)
      case Ok(final) => Real(final)
  }

  lemma FinishedAlike(a: seq<Instr>, b: seq<Instr>, table: seq<Label>, imports: seq<ImportedFunc>, testMode: bool)
    requires Alike(a, b)
    ensures AlikeResults(Finished(a, table, imports, testMode), Finished(b, table, imports, testMode))
  {
    OptimizeAlike(a, b);
    StripAlike(Optimize(a), Optimize(b), table, imports);
    var x, y := Strip(Optimize(a), table, imports), Strip(Optimize(b), table, imports);
    if x.Ok? {
      var v := JumpTableValue(x.value.table);
      HardcodeAlike(x.value.code, y.value.code, v, testMode);
      if Hardcode(x.value.code, v, testMode).Ok? {
        RealAlike(Hardcode(x.value.code, v, testMode).value, Hardcode(y.value.code, v, testMode).value);
      }
    }
  }

  lemma CompiledIsFinished(code: seq<Instr>, imports: seq<ImportedFunc>, numGlobals: nat, testMode: bool)
    requires numGlobals > 0
    ensures var r := Route(code, imports, numGlobals - 1);
            var l := Lower(r.code, INITIAL_FRAME, numGlobals);
            Compiled(code, imports, numGlobals, testMode)
            == if l.Ok? then Finished(l.value, r.table, imports, testMode) else l
  {
  }

  /** The passes make alike programs of alike programs, and report the same errors. */
  lemma CompiledAlike(a: seq<Instr>, b: seq<Instr>, imports: seq<ImportedFunc>, numGlobals: nat, testMode: bool)
    requires Alike(a, b) && numGlobals > 0
    ensures AlikeResults(Compiled(a, imports, numGlobals, testMode), Compiled(b, imports, numGlobals, testMode))
  {
    var ra, rb := Route(a, imports, numGlobals - 1), Route(b, imports, numGlobals - 1);
    var la, lb := Lower(ra.code, INITIAL_FRAME, numGlobals), Lower(rb.code, INITIAL_FRAME, numGlobals);
    CompiledIsFinished(a, imports, numGlobals, testMode);
    CompiledIsFinished(b, imports, numGlobals, testMode);
    RouteAlike(a, b, imports, numGlobals - 1);
    LowerAlike(ra.code, rb.code, INITIAL_FRAME, numGlobals);
    if la.Ok? { FinishedAlike(la.value, lb.value, ra.table, imports, testMode); }
  }

  // ----- runs -----

  /** Where b insists on a 0/1 operand, a does too. */
  ghost predicate NoStricter(a: seq<Instr>, strict: set<nat>, b: seq<Instr>, strict': set<nat>) {
    Alike(a, b) && forall i :: 0 <= i < |a| ==> NoStricterAt(a[i], strict, b[i], strict')
  }

  predicate NoStricterAt(a: Instr, strict: set<nat>, b: Instr, strict': set<nat>) {
    b.loc in strict' ==> a.loc in strict
  }

  lemma ExecAlike(isa: Isa, strict': set<nat>, a: Instr, b: Instr, s: State)
    requires Same(a, b) && NoStricterAt(a, isa.strict, b, strict') && !Exec(isa, a, s).Fault?
    ensures Exec(isa.(strict := strict'), b, s) == Exec(isa, a, s)
  {
  }

  lemma {:induction false} FindLabelAlike(a: seq<Instr>, b: seq<Instr>, l: Label)
    requires Alike(a, b)
    ensures FindLabel(a, l) == FindLabel(b, l)
    decreases |a|
  {
    if a != [] {
      AlikeTails(a, b);
      FindLabelAlike(a[1..], b[1..], l);
    }
  }

  lemma AfterAlike<S>(isa: Isa, strict': set<nat>, a: seq<Instr>, b: seq<Instr>, pc: nat, r: Outcome<S>)
    requires Alike(a, b)
    ensures After(isa.(strict := strict'), b, pc, r) == After(isa, a, pc, r)
  {
    if r.Goto? && r.target.LabelVal? { FindLabelAlike(a, b, r.target.lab); }
  }

  /** A run in which fewer tests must see 0 or 1. */
  lemma {:induction false} RunAlike(isa: Isa, strict': set<nat>, a: seq<Instr>, b: seq<Instr>, n: nat, c: Config<State>,
                                    o: Obs<State>)
    requires NoStricter(a, isa.strict, b, strict') && ArrivesIn(isa, a, n, c, o)
    ensures ArrivesIn(isa.(strict := strict'), b, n, c, o)
    decreases n
  {
    if c.pc < |a| {
      assert Same(a[c.pc], b[c.pc]) && NoStricterAt(a[c.pc], isa.strict, b[c.pc], strict');
      if n > 0 || o.Halted? { ExecAlike(isa, strict', a[c.pc], b[c.pc], c.s); }
      if n > 0 {
        AfterAlike(isa, strict', a, b, c.pc, Exec(isa, a[c.pc], c.s));
        RunAlike(isa, strict', a, b, n - 1, Step(isa, a, c).value, o);
      }
    }
  }

  lemma ArrivesAlike(isa: Isa, strict': set<nat>, a: seq<Instr>, b: seq<Instr>, c: Config<State>, o: Obs<State>)
    requires NoStricter(a, isa.strict, b, strict') && Arrives(isa, a, c, o)
    ensures Arrives(isa.(strict := strict'), b, c, o)
  {
    var n: nat :| ArrivesIn(isa, a, n, c, o);
    RunAlike(isa, strict', a, b, n, c, o);
  }

  // The same for the flat machine.

  lemma {:induction false} FixedGetIgnoresStrict(isa: Isa, strict': set<nat>, size: nat, arr: Value, idx: nat)
    ensures FixedGet(isa.(strict := strict'), size, arr, idx) == FixedGet(isa, size, arr, idx)
    decreases size
  {
    if size > TUPLE_SIZE {
      var slot, sub := isa.bin(Mod, idx, TUPLE_SIZE), isa.bin(Div, idx, TUPLE_SIZE);
      if slot.Some? && sub.Some? && arr.Tuple? && slot.value < |arr.elems| {
        FixedGetIgnoresStrict(isa, strict', (size + (TUPLE_SIZE - 1)) / TUPLE_SIZE, arr.elems[slot.value], sub.value);
      }
    }
  }

  lemma VExecAlike(isa: Isa, strict': set<nat>, n: nat, f: nat, a: Instr, b: Instr, s: VState)
    requires Same(a, b) && NoStricterAt(a, isa.strict, b, strict') && !VExec(isa, n, f, a, s).Fault?
    ensures VExec(isa.(strict := strict'), n, f, b, s) == VExec(isa, n, f, a, s)
  {
    if a.op.UncheckedFixedArrayGet? {
      FixedGetIgnoresStrict(isa, strict', a.op.size, s.stack.rest.top, s.stack.top.n);
    }
  }

  lemma {:induction false} FrameAtAlike(a: seq<Instr>, b: seq<Instr>, f: nat, i: nat)
    requires Alike(a, b) && i <= |a|
    ensures FrameAt(a, f, i) == FrameAt(b, f, i)
    decreases i
  {
    if i > 0 {
      AlikeTails(a, b);
      FrameAtAlike(a[1..], b[1..], FrameAfter(a[0], f), i - 1);
    }
  }

  lemma {:induction false} VRunAlike(isa: Isa, strict': set<nat>, numGlobals: nat, a: seq<Instr>, b: seq<Instr>, n: nat,
                                     c: Config<VState>, o: Obs<VState>)
    requires NoStricter(a, isa.strict, b, strict') && VArrivesIn(isa, numGlobals, a, n, c, o)
    ensures VArrivesIn(isa.(strict := strict'), numGlobals, b, n, c, o)
    decreases n
  {
    var f := FrameAt(a, INITIAL_FRAME, c.pc);
    assert Same(a[c.pc], b[c.pc]) && NoStricterAt(a[c.pc], isa.strict, b[c.pc], strict');
    FrameAtAlike(a, b, INITIAL_FRAME, c.pc);
    if n > 0 || o.Halted? { VExecAlike(isa, strict', numGlobals, f, a[c.pc], b[c.pc], c.s); }
    if n > 0 {
      AfterAlike(isa, strict', a, b, c.pc, VExec(isa, numGlobals, f, a[c.pc], c.s));
      VRunAlike(isa, strict', numGlobals, a, b, n - 1, VStep(isa, numGlobals, a, c).value, o);
    }
  }

  lemma VArrivesAlike(isa: Isa, strict': set<nat>, numGlobals: nat, a: seq<Instr>, b: seq<Instr>, c: Config<VState>,
                      o: Obs<VState>)
    requires NoStricter(a, isa.strict, b, strict') && VArrives(isa, numGlobals, a, c, o)
    ensures VArrives(isa.(strict := strict'), numGlobals, b, c, o)
  {
    var n: nat :| VArrivesIn(isa, numGlobals, a, n, c, o);
    VRunAlike(isa, strict', numGlobals, a, b, n, c, o);
  }

  // ----- which tests are cancelled -----

  /** The machine that checks the operands of the given tests, and the one that checks none. */
  function Checking(isa: Isa, tests: set<nat>): Isa { isa.(strict := tests) }

  function Unchecked(isa: Isa): Isa { isa.(strict := {}) }

  predicate IsTest(code: seq<Instr>, i: nat) { i < |code| && code[i].op == AVM(IsZero) }

  /** The positions of tests, as locations of the numbered program. */
  function TestsOf(code: seq<Instr>): (r: set<nat>)
    ensures forall i :: i in r <==> IsTest(code, i)
  {
    set i | 0 <= i < |code| && code[i].op == AVM(IsZero)
  }

  lemma NumberedTests(code: seq<Instr>)
    ensures TestsWithin(Numbered(code), TestsOf(code))
  {
  }

  /** Any run of a labelled program that does not fault, and in which the first test of every pair
      that gets cancelled sees 0 or 1, makes the same observations after the pass. The cancelled
      tests are named by their positions, so no other test is concerned. */
  lemma PeepholePreserves(isa: Isa, code: seq<Instr>, s: State, o: Obs<State>)
    requires isa.symbolic && !o.AtPc?
    requires Arrives(Checking(isa, Cancelled(Numbered(code))), Numbered(code), Config(0, s), o)
    ensures Arrives(Unchecked(isa), Optimize(code), Config(0, s), o)
    ensures forall i :: i in Cancelled(Numbered(code)) ==> IsTest(code, i)
  {
    var checking := Checking(isa, Cancelled(Numbered(code)));
    OptimizePreserves(checking, Numbered(code), s, o);
    OptimizeAlike(Numbered(code), code);
    ArrivesAlike(checking, {}, Optimize(Numbered(code)), Optimize(code), Config(0, s), o);
    NumberedTests(code);
    CancelledAreTests([], Numbered(code), TestsOf(code));
  }

  // The passes before it keep tests in place.

  lemma {:induction false} DetoursTests(code: seq<Instr>, away: set<Label>, table: seq<Label>, slot: nat,
                                        locs: set<nat>)
    requires TestsWithin(code, locs)
    ensures TestsWithin(Detours(code, away, table, slot).code, locs)
  {
    if code != [] {
      DetoursTests(code[1..], AwayAfter(code[0], away), TableAfter(code[0], away, table), slot, locs);
      assert TestsWithin(Detour(code[0], away, TableAfter(code[0], away, table), slot), locs);
    }
  }

  lemma {:induction false} FetchAllTests(code: seq<Instr>, size: nat, locs: set<nat>)
    requires TestsWithin(code, locs)
    ensures TestsWithin(FetchAll(code, size), locs)
  {
    if code != [] {
      FetchAllTests(code[1..], size, locs);
      assert TestsWithin(Fetch(code[0], size), locs);
    }
  }

  lemma RouteTests(code: seq<Instr>, imports: seq<ImportedFunc>, slot: nat, locs: set<nat>)
    requires TestsWithin(code, locs)
    ensures TestsWithin(Route(code, imports, slot).code, locs)
  {
    var d := Detours(code, ImportedLabels(imports), [], slot);
    DetoursTests(code, ImportedLabels(imports), [], slot, locs);
    FetchAllTests(d.code, |d.table|, locs);
  }

  ghost predicate NoTests(r: Result<seq<Instr>>) { r.Ok? ==> TestsWithin(r.value, {}) }

  lemma {:induction false} ReadHasNoTests(t: TupleTree, isLocal: bool, index: nat, loc: nat)
    ensures NoTests(ReadCode(t, isLocal, index, loc))
    decreases t, 1
  {
    if t.Tree? { ReadKidsHaveNoTests(t.kids, isLocal, index, 0, loc); }
  }

  lemma {:induction false} ReadKidsHaveNoTests(kids: seq<TupleTree>, isLocal: bool, index: nat, slot: nat, loc: nat)
    ensures NoTests(ReadKids(kids, isLocal, index, slot, loc))
    decreases kids, 0
  {
    if kids != [] {
      if index < Tsize(kids[0]) {
        ReadHasNoTests(kids[0], false, index, loc);
      } else {
        ReadKidsHaveNoTests(kids[1..], isLocal, index - Tsize(kids[0]), slot + 1, loc);
      }
    }
  }

  lemma {:induction false} WriteHasNoTests(t: TupleTree, isLocal: bool, index: nat, loc: nat)
    ensures NoTests(WriteCode(t, isLocal, index, loc))
    decreases t, 1
  {
    if t.Tree? { WriteKidsHaveNoTests(t.kids, isLocal, index, 0, loc); }
  }

  lemma {:induction false} WriteKidsHaveNoTests(kids: seq<TupleTree>, isLocal: bool, index: nat, slot: nat, loc: nat)
    ensures NoTests(WriteKids(kids, isLocal, index, slot, loc))
    decreases kids, 0
  {
    if kids != [] {
      if index < Tsize(kids[0]) {
        WriteHasNoTests(kids[0], false, index, loc);
      } else {
        WriteKidsHaveNoTests(kids[1..], isLocal, index - Tsize(kids[0]), slot + 1, loc);
      }
    }
  }

  lemma {:induction false} WriteArgsHaveNoTests(t: TupleTree, k: nat, nargs: nat, loc: nat)
    requires k <= nargs
    ensures NoTests(WriteArgs(t, k, nargs, loc))
    decreases nargs - k
  {
    if k < nargs {
      WriteHasNoTests(t, true, k, loc);
      WriteArgsHaveNoTests(t, k + 1, nargs, loc);
    }
  }

  lemma {:induction false} FixedGetHasNoTests(size: nat, loc: nat)
    ensures TestsWithin(FixedGetCode(size, loc), {})
    decreases size
  {
    if size > TUPLE_SIZE { FixedGetHasNoTests((size + (TUPLE_SIZE - 1)) / TUPLE_SIZE, loc); }
  }

  lemma LowerOneTests(insn: Instr, frameSize: nat, numGlobals: nat)
    requires LowerOne(insn, frameSize, numGlobals).Ok?
    ensures TestsWithin(LowerOne(insn, frameSize, numGlobals).value, if insn.op == AVM(IsZero) then {insn.loc} else {})
  {
    match insn.op
    case MakeFrame(nargs, ntotal, _) => WriteArgsHaveNoTests(TreeOf(ntotal, true), 0, nargs, insn.loc);
    case UncheckedFixedArrayGet(size) => FixedGetHasNoTests(size, insn.loc);
    case GetGlobalVar(i) => ReadHasNoTests(TreeOf(numGlobals, false), false, i, insn.loc);
    case SetGlobalVar(i) => WriteHasNoTests(TreeOf(numGlobals, false), false, i, insn.loc);
    case TupleGet(size) => IndexedHasNoTests(insn, TreeOf(size, false), false, true);
    case TupleSet(size) => IndexedHasNoTests(insn, TreeOf(size, false), false, false);
    case GetLocal => IndexedHasNoTests(insn, TreeOf(frameSize, true), true, true);
    case SetLocal => IndexedHasNoTests(insn, TreeOf(frameSize, true), true, false);
    case _ =>
  }

  lemma IndexedHasNoTests(insn: Instr, t: TupleTree, isLocal: bool, read: bool)
    ensures NoTests(IndexedCode(insn, t, isLocal, read))
  {
    if IndexOf(insn).Ok? {
      var i := IndexOf(insn).value;
      if read { ReadHasNoTests(t, isLocal, i, insn.loc); } else { WriteHasNoTests(t, isLocal, i, insn.loc); }
    }
  }

  lemma {:induction false} LowerTests(code: seq<Instr>, frameSize: nat, numGlobals: nat, locs: set<nat>)
    requires TestsWithin(code, locs) && Lower(code, frameSize, numGlobals).Ok?
    ensures TestsWithin(Lower(code, frameSize, numGlobals).value, locs)
    decreases |code|
  {
    if code != [] {
      LowerOneTests(code[0], frameSize, numGlobals);
      LowerTests(code[1..], FrameAfter(code[0], frameSize), numGlobals, locs);
    }
  }
}
