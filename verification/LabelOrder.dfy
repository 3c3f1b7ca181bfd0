/** The post-link passes keep the labels of a program, in order, so the only way to get a duplicate
    label is to have linked one. */
module LabelOrder {
  import opened Avm
  import opened Machine
  import opened Virtual
  import opened Lowering
  import opened LoweringCorrect
  import opened Peephole
  import opened Expansion
  import opened StripLabels
  import opened Nonforward
  import opened NonforwardCorrect
  import opened Postlink
  import opened PostlinkCorrect
  import opened Forward
  import opened Linker
  import opened LinkerCorrect

  function LabelsOf(code: seq<Instr>): seq<Label> {
    if code == [] then []
    else if code[0].op.LabelOp? then [code[0].op.lab] + LabelsOf(code[1..])
    else LabelsOf(code[1..])
  }

  lemma {:induction false} LabelsOfAppend(a: seq<Instr>, b: seq<Instr>)
    ensures LabelsOf(a + b) == LabelsOf(a) + LabelsOf(b)
  {
    if a == [] {
      assert a + b == b;
    } else {
      assert (a + b)[0] == a[0] && (a + b)[1..] == a[1..] + b;
      LabelsOfAppend(a[1..], b);
    }
  }

  lemma {:induction false} NoLabels(seg: seq<Instr>)
    requires NoLabelOp(seg)
    ensures LabelsOf(seg) == []
  {
    if seg != [] { NoLabels(seg[1..]); }
  }

  lemma {:induction false} ExpandKeepsOrder(code: seq<Instr>, segs: seq<seq<Instr>>)
    requires KeepsLabels(code, segs)
    ensures LabelsOf(Concat(segs)) == LabelsOf(code)
  {
    if code != [] {
      ExpandKeepsOrder(code[1..], segs[1..]);
      LabelsOfAppend(segs[0], Concat(segs[1..]));
      assert SegKeepsLabel(code[0], segs[0]);
      if code[0].op.LabelOp? { assert segs[0][1..] == []; } else { NoLabels(segs[0]); }
    }
  }

  lemma RouteKeepsOrder(code: seq<Instr>, imports: seq<ImportedFunc>, slot: nat)
    requires BareLabels(code)
    ensures LabelsOf(Route(code, imports, slot).code) == LabelsOf(code)
  {
    RouteIsRouted(code, imports, slot);
    ExpandKeepsOrder(code, SegsOf(code, imports, slot));
  }

  lemma LowerKeepsOrder(code: seq<Instr>, frameSize: nat, numGlobals: nat)
    requires Lower(code, frameSize, numGlobals).Ok?
    ensures LabelsOf(Lower(code, frameSize, numGlobals).value) == LabelsOf(code)
  {
    var segs := Segs(code, frameSize, numGlobals);
    LowerExpands(code, frameSize, numGlobals);
    forall i | 0 <= i < |code| ensures SegKeepsLabel(code[i], segs[i]) {
      assert if code[i].op.LabelOp? then segs[i] == [code[i]] else Covered(segs[i], ImmRefs(code[i]));
    }
    ExpandKeepsOrder(code, segs);
  }

  lemma {:induction false} SettleKeepsOrder(out: seq<Instr>)
    ensures LabelsOf(Settle(out)) == LabelsOf(out)
    decreases |out|
  {
    var n := |out|;
    if n > 1 && Rewrite(out[n - 2], out[n - 1]).Some? {
      var A, x, y := out[..n - 2], out[n - 2], out[n - 1];
      var r := Rewrite(x, y).value;
      RewriteCovered(x, y);
      NoLabels([x, y]);
      NoLabels(r);
      assert out == A + [x, y];
      LabelsOfAppend(A, [x, y]);
      LabelsOfAppend(A, r);
      SettleKeepsOrder(A + r);
    }
  }

  lemma {:induction false} OptimizeFromKeepsOrder(out: seq<Instr>, code: seq<Instr>)
    ensures LabelsOf(OptimizeFrom(out, code)) == LabelsOf(out) + LabelsOf(code)
    decreases code
  {
    if code != [] {
      assert code == [code[0]] + code[1..];
      LabelsOfAppend([code[0]], code[1..]);
      if Useless(code[0]) {
        OptimizeFromKeepsOrder(out, code[1..]);
        NoLabels([code[0]]);
      } else {
        OptimizeFromKeepsOrder(Settle(out + [code[0]]), code[1..]);
        SettleKeepsOrder(out + [code[0]]);
        LabelsOfAppend(out, [code[0]]);
      }
    }
  }

  /** The peephole pass neither loses, adds nor reorders labels. */
  lemma OptimizeKeepsOrder(code: seq<Instr>)
    ensures LabelsOf(Optimize(code)) == LabelsOf(code)
  {
    OptimizeFromKeepsOrder([], code);
  }

  // ----- duplicates -----

  predicate Distinct(ls: seq<Label>) {
    forall a, b :: 0 <= a < b < |ls| ==> ls[a] != ls[b]
  }

  ghost predicate Fresh(ls: seq<Label>, m: LabelMap) {
    forall a :: 0 <= a < |ls| ==> !(ls[a] in m && m[ls[a]].Internal?)
  }

  /** Collecting labels fails exactly on a duplicate. */
  lemma {:induction false} CollectSucceeds(code: seq<Instr>, start: nat, m: LabelMap)
    ensures Collect(code, start, m).Ok? <==> Distinct(LabelsOf(code)) && Fresh(LabelsOf(code), m)
  {
    if code != [] {
      var rest := LabelsOf(code[1..]);
      if code[0].op.LabelOp? {
        var l, ls := code[0].op.lab, LabelsOf(code);
        var m' := m[l := Internal(start)];
        CollectSucceeds(code[1..], start, m');
        assert ls == [l] + rest;
        FirstLabel(l, rest, m, start);
      } else {
        CollectSucceeds(code[1..], start + 1, m);
      }
    }
  }

  lemma FirstLabel(l: Label, rest: seq<Label>, m: LabelMap, start: nat)
    ensures Distinct([l] + rest) && Fresh([l] + rest, m)
            <==> !(l in m && m[l].Internal?) && Distinct(rest) && Fresh(rest, m[l := Internal(start)])
  {
    var ls, m' := [l] + rest, m[l := Internal(start)];
    assert ls[0] == l && forall a :: 0 <= a < |rest| ==> rest[a] == ls[a + 1];
    if Distinct(ls) && Fresh(ls, m) {
      forall a | 0 <= a < |rest| ensures !(rest[a] in m' && m'[rest[a]].Internal?) {
        assert ls[a + 1] == rest[a] != ls[0];
      }
    }
    if !(l in m && m[l].Internal?) && Distinct(rest) && Fresh(rest, m') {
      forall a | 0 <= a < |ls| ensures !(ls[a] in m && m[ls[a]].Internal?) {
        if a > 0 { assert !(rest[a - 1] in m' && m'[rest[a - 1]].Internal?); }
      }
      forall a, b | 0 <= a < b < |ls| ensures ls[a] != ls[b] {
        assert !(rest[b - 1] in m' && m'[rest[b - 1]].Internal?);
        if a > 0 { assert rest[a - 1] != rest[b - 1]; }
      }
    }
  }

  lemma {:induction false} UniqueIsDistinct(code: seq<Instr>)
    requires UniqueLabels(code)
    ensures Distinct(LabelsOf(code))
  {
    if code != [] {
      UniqueIsDistinct(code[1..]);
      if code[0].op.LabelOp? {
        var rest := LabelsOf(code[1..]);
        forall b | 0 <= b < |rest| ensures rest[b] != code[0].op.lab {
          var i := WhereLabel(code[1..], b);
          assert code[i + 1].op == LabelOp(rest[b]);
        }
      }
    }
  }

  lemma {:induction false} WhereLabel(code: seq<Instr>, b: nat) returns (i: nat)
    requires b < |LabelsOf(code)|
    ensures i < |code| && code[i].op == LabelOp(LabelsOf(code)[b])
  {
    if code[0].op.LabelOp? && b == 0 {
      i := 0;
    } else {
      i := WhereLabel(code[1..], if code[0].op.LabelOp? then b - 1 else b);
      i := i + 1;
    }
  }

  // ----- from modules to the final code -----

  ghost predicate Compilable(progs: seq<Program>) {
    && AllScoped(progs) && AllWellMade(progs)
    && forall i :: 0 <= i < |progs| ==> UniqueLabels(progs[i].code)
  }

  lemma LinkedLabels(progs: seq<Program>, testMode: bool)
    requires Compilable(progs)
    ensures BareLabels(Linked(progs, testMode).code) && Distinct(LabelsOf(Linked(progs, testMode).code))
  {
    var p := Linked(progs, testMode);
    var init := Init(|p.globals|, testMode);
    LinkedIsInitAndBody(progs, testMode);
    LinkedIsLinkable(progs, testMode);
    InitInert(|p.globals|, testMode);
    LabelsOfAppend(init, Body(progs));
    NoLabels(init);
    NoDuplicates(progs);
    UniqueIsDistinct(Body(progs));
    assert [] + LabelsOf(Body(progs)) == LabelsOf(Body(progs));
    forall i | 0 <= i < |p.code| && p.code[i].op.LabelOp? ensures p.code[i].imm.None? {
      if i >= |init| { assert p.code[i] == Body(progs)[i - |init|]; }
    }
  }

  /** Linking well-made modules never makes strip_labels find a duplicate label. */
  lemma LinkedHasNoDuplicates(progs: seq<Program>, testMode: bool)
    requires Compilable(progs)
    requires var p := Linked(progs, testMode);
             Lower(Route(p.code, p.imports, |p.globals| - 1).code, INITIAL_FRAME, |p.globals|).Ok?
    ensures var p := Linked(progs, testMode);
            var lowered := Lower(Route(p.code, p.imports, |p.globals| - 1).code, INITIAL_FRAME, |p.globals|).value;
            Collect(Optimize(lowered), 0, ImportMap(p.imports)).Ok?
  {
    var p := Linked(progs, testMode);
    var routed := Route(p.code, p.imports, |p.globals| - 1);
    var lowered := Lower(routed.code, INITIAL_FRAME, |p.globals|).value;
    LinkedLabels(progs, testMode);
    RouteKeepsOrder(p.code, p.imports, |p.globals| - 1);
    LowerKeepsOrder(routed.code, INITIAL_FRAME, |p.globals|);
    OptimizeKeepsOrder(lowered);
    var ls, m := LabelsOf(Optimize(lowered)), ImportMap(p.imports);
    forall a | 0 <= a < |ls| ensures !(ls[a] in m && m[ls[a]].Internal?) {
      if ls[a] in m { ImportsAreExternal(p.imports, ls[a]); }
    }
    CollectSucceeds(Optimize(lowered), 0, m);
  }

  /** In the final code of linked modules, internal code points only point ahead, exactly if no
      immediate looks back before labels are stripped; so always for well-made modules. */
  lemma LinkedPointsForward(progs: seq<Program>, testMode: bool)
    requires var p := Linked(progs, testMode); Compiled(p.code, p.imports, |p.globals|, testMode).Ok?
    ensures var p := Linked(progs, testMode);
            && Unstripped(|p.globals|, testMode, Body(progs), p.imports).Ok?
            && (PointsForward(Compiled(p.code, p.imports, |p.globals|, testMode).value)
                <==> LooksAhead(Unstripped(|p.globals|, testMode, Body(progs), p.imports).value))
            && (Compilable(progs) ==> PointsForward(Compiled(p.code, p.imports, |p.globals|, testMode).value))
  {
    var p := Linked(progs, testMode);
    LinkedIsInitAndBody(progs, testMode);
    CompiledForwardExactly(|p.globals|, testMode, Body(progs), p.imports);
    if Compilable(progs) {
      LinkedIsLinkable(progs, testMode);
      CompiledPointsForward(|p.globals|, testMode, Body(progs), p.imports);
    }
  }
}
