/** When every internal code point in the final code points ahead, so that an uploader that works from the
    last instruction to the first only ever names instructions it has already uploaded. */
module Forward {
  import opened Avm
  import opened TupleTrees
  import opened Virtual
  import opened Lowering
  import opened LoweringCorrect
  import opened Peephole
  import opened Expansion
  import opened StripLabels
  import opened StripCorrect
  import opened Nonforward
  import opened NonforwardCorrect
  import opened Postlink
  import opened PostlinkCorrect

  /** The references of instruction i are labels, none of which stands before it. */
  ghost predicate AheadAt(code: seq<Instr>, i: nat, insn: Instr)
    requires i <= |code|
  {
    forall r :: r in ImmRefs(insn) ==> r.LabelVal? && !HasLabel(code[..i], r.lab)
  }

  ghost predicate Ahead(code: seq<Instr>) {
    forall i :: 0 <= i < |code| ==> AheadAt(code, i, code[i])
  }

  // ----- passes that expand instructions -----

  ghost predicate SegAhead(code: seq<Instr>, i: nat, seg: seq<Instr>)
    requires i <= |code|
  {
    forall k :: 0 <= k < |seg| ==> AheadAt(code, i, seg[k])
  }

  /** A label in the expansion comes from the same label in the program. */
  lemma {:induction false} LabelsBefore(code: seq<Instr>, segs: seq<seq<Instr>>, i: nat, p: nat, l: Label)
    requires KeepsLabels(code, segs) && i < |segs| && Pos(segs, i) <= p < Pos(segs, i) + |segs[i]|
    requires p <= |Concat(segs)| && HasLabel(Concat(segs)[..p], l)
    ensures HasLabel(code[..i], l)
  {
    var q :| 0 <= q < p && Concat(segs)[q].op == LabelOp(l);
    var j := Locate(segs, q);
    assert SegKeepsLabel(code[j], segs[j]);
    assert code[j].op == LabelOp(l);
    if j >= i {
      PosMonotone(segs, i, j);
      if j > i { PosMonotone(segs, i + 1, j); SegPlaced(segs, i); }
      assert false;
    }
    assert code[..i][j].op == LabelOp(l);
  }

  lemma ExpandAhead(code: seq<Instr>, segs: seq<seq<Instr>>)
    requires KeepsLabels(code, segs)
    requires forall i :: 0 <= i < |code| ==> SegAhead(code, i, segs[i])
    ensures Ahead(Concat(segs))
  {
    var out := Concat(segs);
    forall p | 0 <= p < |out| ensures AheadAt(out, p, out[p]) {
      var i := Locate(segs, p);
      assert SegAhead(code, i, segs[i]);
      assert AheadAt(code, i, segs[i][p - Pos(segs, i)]);
      forall r | r in ImmRefs(out[p]) ensures r.LabelVal? && !HasLabel(out[..p], r.lab) {
        if HasLabel(out[..p], r.lab) { LabelsBefore(code, segs, i, p, r.lab); }
      }
    }
  }

  lemma LowerAhead(code: seq<Instr>, frameSize: nat, numGlobals: nat)
    requires Lower(code, frameSize, numGlobals).Ok? && Ahead(code)
    ensures Ahead(Lower(code, frameSize, numGlobals).value)
  {
    var segs := Segs(code, frameSize, numGlobals);
    LowerExpands(code, frameSize, numGlobals);
    forall i | 0 <= i < |code| ensures SegKeepsLabel(code[i], segs[i]) && SegAhead(code, i, segs[i]) {
      assert AheadAt(code, i, code[i]);
    }
    ExpandAhead(code, segs);
  }

  // ----- routing -----

  /** Immediates hold labels at top level, or inside a tuple if they are ahead, and no code points. */
  ghost predicate NestedAhead(code: seq<Instr>) {
    forall i :: 0 <= i < |code| ==> NestedAheadAt(code, i)
  }

  ghost predicate NestedAheadAt(code: seq<Instr>, i: nat)
    requires i < |code|
  {
    (code[i].imm.Some? && code[i].imm.value.LabelVal?) || AheadAt(code, i, code[i])
  }

  lemma HasLabelCons(x: Instr, rest: seq<Instr>, l: Label)
    ensures HasLabel([x] + rest, l) <==> x.op == LabelOp(l) || HasLabel(rest, l)
  {
    var all := [x] + rest;
    if HasLabel(rest, l) {
      var k :| 0 <= k < |rest| && rest[k].op == LabelOp(l);
      assert all[k + 1].op == LabelOp(l);
    }
    if x.op == LabelOp(l) { assert all[0].op == LabelOp(l); }
  }

  lemma {:induction false} AwayHasLabels(code: seq<Instr>, away: set<Label>, i: nat, l: Label)
    requires i <= |code|
    ensures l in AwayAt(code, away, i) <==> l in away || HasLabel(code[..i], l)
    decreases i
  {
    if i > 0 {
      AwayHasLabels(code[1..], AwayAfter(code[0], away), i - 1, l);
      assert code[..i] == [code[0]] + code[1..][..i - 1];
      HasLabelCons(code[0], code[1..][..i - 1], l);
    }
  }

  /** After routing, whatever is still named directly is ahead. */
  lemma SegForAhead(code: seq<Instr>, away: set<Label>, table: seq<Label>, slot: nat, i: nat)
    requires NestedAhead(code) && i < |code|
    requires var l := Fetched(code[i], AwayAt(code, away, i)); l.Some? ==> l.value in table
    ensures SegAhead(code, i, SegFor(code[i], AwayAt(code, away, i), table, slot))
  {
    var insn, a := code[i], AwayAt(code, away, i);
    var seg := SegFor(insn, a, table, slot);
    if Fetched(insn, a).Some? {
      var k := IndexIn(table, Fetched(insn, a).value);
      FetchAllThree(Instr(GetGlobalVar(slot), None, insn.loc), Instr(PushExternal(k), None, insn.loc),
                    Instr(insn.op, None, insn.loc), |table|);
      assert forall k :: 0 <= k < |seg| ==> ImmRefs(seg[k]) == {};
    } else {
      SegSame(insn, a, table, slot);
      assert forall k :: 0 <= k < |seg| ==> ImmRefs(seg[k]) <= ImmRefs(insn);
      forall r | r in ImmRefs(insn) ensures r.LabelVal? && !HasLabel(code[..i], r.lab) {
        assert NestedAheadAt(code, i);
        if insn.imm.value.LabelVal? { AwayHasLabels(code, away, i, insn.imm.value.lab); }
      }
    }
  }

  lemma RouteAhead(code: seq<Instr>, imports: seq<ImportedFunc>, slot: nat)
    requires BareLabels(code) && NestedAhead(code)
    ensures Ahead(Route(code, imports, slot).code)
  {
    var segs, away, table := SegsOf(code, imports, slot), ImportedLabels(imports), Route(code, imports, slot).table;
    RouteIsRouted(code, imports, slot);
    forall i | 0 <= i < |code| ensures SegAhead(code, i, segs[i]) {
      RouteSegsAt(code, away, table, slot, i);
      if Fetched(code[i], AwayAt(code, away, i)).Some? { FetchedInTable(code, away, [], slot, i); }
      SegForAhead(code, away, table, slot, i);
    }
    ExpandAhead(code, segs);
  }

  // ----- the peephole pass -----

  /** Replacing a stretch without labels, by no more references than it had. */
  lemma ReplaceAhead(A: seq<Instr>, seg: seq<Instr>, seg': seq<Instr>, B: seq<Instr>)
    requires NoLabelOp(seg) && Ahead(A + seg + B)
    requires Covered(seg', Refs(seg))
    ensures Ahead(A + seg' + B)
  {
    var P, P' := A + seg + B, A + seg' + B;
    forall p | 0 <= p < |P'| ensures AheadAt(P', p, P'[p]) {
      if p < |A| {
        assert AheadAt(P, p, P[p]);
        assert P[..p] == P'[..p];
      } else {
        forall r | r in ImmRefs(P'[p]) ensures r.LabelVal? && !HasLabel(P'[..p], r.lab) {
          var q := Origin(A, seg, seg', B, p, r);
          assert AheadAt(P, q, P[q]);
          if HasLabel(P'[..p], r.lab) { LabelsKept(A, seg, seg', B, p, q, r.lab); }
        }
      }
    }
  }

  lemma LabelsKept(A: seq<Instr>, seg: seq<Instr>, seg': seq<Instr>, B: seq<Instr>, p: nat, q: nat, l: Label)
    requires NoLabelOp(seg') && |A| <= p < |A + seg' + B| && |A| <= q < |A + seg + B|
    requires p >= |A| + |seg'| ==> q == p - |seg'| + |seg|
    requires HasLabel((A + seg' + B)[..p], l)
    ensures HasLabel((A + seg + B)[..q], l)
  {
    var j :| 0 <= j < p && (A + seg' + B)[..p][j].op == LabelOp(l);
    var j' := if j < |A| then j else j - |seg'| + |seg|;
    assert (A + seg + B)[..q][j'].op == LabelOp(l);
  }

  function Refs(seg: seq<Instr>): set<Value> {
    set k, r | 0 <= k < |seg| && r in ImmRefs(seg[k]) :: r
  }

  /** Where a reference of the new program was in the old one. */
  lemma Origin(A: seq<Instr>, seg: seq<Instr>, seg': seq<Instr>, B: seq<Instr>, p: nat, r: Value) returns (q: nat)
    requires |A| <= p < |A + seg' + B| && r in ImmRefs((A + seg' + B)[p]) && Covered(seg', Refs(seg))
    ensures q < |A + seg + B| && r in ImmRefs((A + seg + B)[q])
    ensures if p < |A| + |seg'| then |A| <= q < |A| + |seg| else q == p - |seg'| + |seg|
  {
    if p < |A| + |seg'| {
      assert ImmRefs(seg'[p - |A|]) <= Refs(seg);
      var k :| 0 <= k < |seg| && r in ImmRefs(seg[k]);
      q := |A| + k;
    } else {
      q := p - |seg'| + |seg|;
    }
  }

  lemma RewriteCovered(a: Instr, b: Instr)
    requires Rewrite(a, b).Some?
    ensures NoLabelOp([a, b]) && Covered(Rewrite(a, b).value, Refs([a, b]))
  {
    var r, refs := Rewrite(a, b).value, Refs([a, b]);
    assert forall x :: x in ImmRefs([a, b][0]) ==> x in refs;
    assert forall x :: x in ImmRefs([a, b][1]) ==> x in refs;
    assert a.op.AVM? && b.op.AVM? && |r| <= 1;
    if r != [] {
      assert ImmRefs(r[0]) <= ImmRefs(a) + ImmRefs(b);
    }
  }

  lemma {:induction false} SettleAhead(out: seq<Instr>, B: seq<Instr>)
    requires Ahead(out + B)
    ensures Ahead(Settle(out) + B)
    decreases |out|
  {
    var n := |out|;
    if n > 1 && Rewrite(out[n - 2], out[n - 1]).Some? {
      var A, x, y := out[..n - 2], out[n - 2], out[n - 1];
      RewriteCovered(x, y);
      assert out + B == A + [x, y] + B;
      ReplaceAhead(A, [x, y], Rewrite(x, y).value, B);
      SettleAhead(A + Rewrite(x, y).value, B);
    }
  }

  lemma {:induction false} OptimizeAhead(out: seq<Instr>, code: seq<Instr>)
    requires Ahead(out + code)
    ensures Ahead(OptimizeFrom(out, code))
    decreases code
  {
    if code == [] {
      assert out + code == out;
    } else {
      assert out + code == out + [code[0]] + code[1..];
      if Useless(code[0]) {
        ReplaceAhead(out, [code[0]], [], code[1..]);
        assert out + [] + code[1..] == out + code[1..];
        OptimizeAhead(out, code[1..]);
      } else {
        SettleAhead(out + [code[0]], code[1..]);
        OptimizeAhead(Settle(out + [code[0]]), code[1..]);
      }
    }
  }

  // ----- stripping -----

  /** Where a code point in a translated value can come from. */
  ghost predicate Stood(m: LabelMap, v: Value, cp: CodePt) {
    CodePoint(cp) in RefsIn(v) || exists l :: LabelVal(l) in RefsIn(v) && l in m && m[l] == cp
  }

  lemma {:induction false} XlateRefs(m: LabelMap, v: Value, cp: CodePt)
    requires cp.Internal?
    ensures CodePoint(cp) in RefsIn(Xlate(m, v)) <==> Stood(m, v, cp)
  {
    if v.Tuple? {
      var es, es' := v.elems, Xlate(m, v).elems;
      forall i | 0 <= i < |es| ensures CodePoint(cp) in RefsIn(es'[i]) <==> Stood(m, es[i], cp) {
        XlateRefs(m, es[i], cp);
      }
      if Stood(m, v, cp) { StoodInside(m, es, cp); }
    } else if v.LabelVal? {
      assert LabelVal(v.lab) in RefsIn(v);
    }
  }

  lemma StoodInside(m: LabelMap, es: seq<Value>, cp: CodePt)
    requires Stood(m, Tuple(es), cp)
    ensures exists i :: 0 <= i < |es| && Stood(m, es[i], cp)
  {
    if CodePoint(cp) in RefsIn(Tuple(es)) {
      var i :| 0 <= i < |es| && CodePoint(cp) in RefsIn(es[i]);
      assert Stood(m, es[i], cp);
    } else {
      var l :| LabelVal(l) in RefsIn(Tuple(es)) && l in m && m[l] == cp;
      var i :| 0 <= i < |es| && LabelVal(l) in RefsIn(es[i]);
      assert Stood(m, es[i], cp);
    }
  }

  lemma {:induction false} ImportsAreExternal(imports: seq<ImportedFunc>, l: Label)
    requires l in ImportMap(imports)
    ensures ImportMap(imports)[l].ExternalPt?
  {
    if imports != [] {
      var imp := imports[|imports| - 1];
      if l != External(imp.slotNum) && l != Func(imp.nameId) { ImportsAreExternal(imports[..|imports| - 1], l); }
    }
  }

  /** Code points that name an instruction from p on, or the end. */
  ghost predicate PointsPast(insn: Instr, p: nat, size: nat) {
    forall q: nat :: CodePoint(Internal(q)) in ImmRefs(insn) ==> p < q <= size
  }

  ghost predicate PointsForward(code: seq<Instr>) {
    forall p :: 0 <= p < |code| ==> PointsPast(code[p], p, |code|)
  }

  /** Every position of the stripped code is that of an instruction. */
  lemma {:induction false} Remaining(code: seq<Instr>, n: nat, p: nat) returns (i: nat)
    requires n <= |code| && p < Count(code, n)
    ensures i < n && !code[i].op.LabelOp? && Count(code, i) == p
  {
    if Count(code, n - 1) > p { i := Remaining(code, n - 1, p); } else { i := n - 1; }
  }

  lemma {:induction false} CountMonotone(code: seq<Instr>, i: nat, j: nat)
    requires i <= j <= |code|
    ensures Count(code, i) <= Count(code, j)
  {
    if i < j { CountMonotone(code, i, j - 1); }
  }

  /** A label of the code is mapped to a position past whatever stands before it. */
  lemma LabelPast(code: seq<Instr>, m0: LabelMap, l: Label, q: nat) returns (j: nat)
    requires Collect(code, 0, m0).Ok? && l in Collect(code, 0, m0).value
    requires Collect(code, 0, m0).value[l] == Internal(q)
    requires forall x :: x in m0 ==> !m0[x].Internal?
    ensures j < |code| && code[j].op == LabelOp(l) && q == Count(code, j) <= Count(code, |code|)
  {
    CollectPlaces(code, 0, m0);
    j :| 0 <= j < |code| && code[j].op == LabelOp(l);
    assert PlacedAt(code, 0, Collect(code, 0, m0).value, j);
    CountMonotone(code, j, |code|);
  }

  lemma StandsBefore(code: seq<Instr>, i: nat, j: nat, l: Label)
    requires j < i <= |code| && code[j].op == LabelOp(l)
    ensures HasLabel(code[..i], l)
  {
    assert code[..i][j].op == LabelOp(l);
  }

  /** Before labels are stripped: no immediate names a label that stands before it, and its code
      points, if it has any, name later positions of the stripped code. */
  ghost predicate LooksAhead(code: seq<Instr>) {
    forall i :: 0 <= i < |code| && !code[i].op.LabelOp? ==> LooksAheadAt(code, i)
  }

  ghost predicate LooksAheadAt(code: seq<Instr>, i: nat)
    requires i < |code|
  {
    && (forall l :: LabelVal(l) in ImmRefs(code[i]) ==> !HasLabel(code[..i], l))
    && (forall q: nat :: CodePoint(Internal(q)) in ImmRefs(code[i]) ==> Count(code, i) < q <= Count(code, |code|))
  }

  lemma AheadLooks(code: seq<Instr>)
    requires Ahead(code)
    ensures LooksAhead(code)
  {
    forall i | 0 <= i < |code| ensures LooksAheadAt(code, i) { assert AheadAt(code, i, code[i]); }
  }

  /** One instruction: its stripped form points ahead exactly if it looks ahead. */
  lemma StripInsnForward(code: seq<Instr>, m0: LabelMap, i: nat)
    requires Collect(code, 0, m0).Ok? && i < |code| && !code[i].op.LabelOp?
    requires forall x :: x in m0 ==> !m0[x].Internal?
    ensures PointsPast(XlateInsn(Collect(code, 0, m0).value, code[i]), Count(code, i), Count(code, |code|))
            <==> LooksAheadAt(code, i)
  {
    var m := Collect(code, 0, m0).value;
    var insn := XlateInsn(m, code[i]);
    if LooksAheadAt(code, i) {
      forall q: nat | CodePoint(Internal(q)) in ImmRefs(insn) ensures Count(code, i) < q <= Count(code, |code|) {
        PointIsAhead(code, m0, i, q);
      }
    }
    if PointsPast(insn, Count(code, i), Count(code, |code|)) {
      forall q: nat | CodePoint(Internal(q)) in ImmRefs(code[i]) ensures Count(code, i) < q <= Count(code, |code|) {
        XlateRefs(m, code[i].imm.value, Internal(q));
      }
      forall l | LabelVal(l) in ImmRefs(code[i]) ensures !HasLabel(code[..i], l) {
        if HasLabel(code[..i], l) { LabelPointsBack(code, m0, i, l); }
      }
    }
  }

  lemma PointIsAhead(code: seq<Instr>, m0: LabelMap, i: nat, q: nat)
    requires Collect(code, 0, m0).Ok? && i < |code| && !code[i].op.LabelOp? && LooksAheadAt(code, i)
    requires forall x :: x in m0 ==> !m0[x].Internal?
    requires CodePoint(Internal(q)) in ImmRefs(XlateInsn(Collect(code, 0, m0).value, code[i]))
    ensures Count(code, i) < q <= Count(code, |code|)
  {
    var m := Collect(code, 0, m0).value;
    XlateRefs(m, code[i].imm.value, Internal(q));
    if CodePoint(Internal(q)) !in ImmRefs(code[i]) {
      var l :| LabelVal(l) in ImmRefs(code[i]) && l in m && m[l] == Internal(q);
      var j := LabelPast(code, m0, l, q);
      if j < i { StandsBefore(code, i, j, l); }
      CountIncreases(code, i, j);
    }
  }

  lemma LabelPointsBack(code: seq<Instr>, m0: LabelMap, i: nat, l: Label)
    requires Collect(code, 0, m0).Ok? && i < |code| && LabelVal(l) in ImmRefs(code[i]) && HasLabel(code[..i], l)
    ensures !PointsPast(XlateInsn(Collect(code, 0, m0).value, code[i]), Count(code, i), Count(code, |code|))
  {
    var m := Collect(code, 0, m0).value;
    var j :| 0 <= j < i && code[..i][j].op == LabelOp(l);
    CollectPlaces(code, 0, m0);
    assert PlacedAt(code, 0, m, j);
    CountMonotone(code, j, i);
    XlateRefs(m, code[i].imm.value, Internal(Count(code, j)));
    assert CodePoint(Internal(Count(code, j))) in ImmRefs(XlateInsn(m, code[i]));
  }

  /** Stripping leaves code that points ahead exactly if the code looked ahead. */
  lemma StripForward(code: seq<Instr>, m0: LabelMap)
    requires Collect(code, 0, m0).Ok? && StripCode(code, Collect(code, 0, m0).value).Ok?
    requires forall x :: x in m0 ==> !m0[x].Internal?
    ensures PointsForward(StripCode(code, Collect(code, 0, m0).value).value) <==> LooksAhead(code)
  {
    var m := Collect(code, 0, m0).value;
    var out := StripCode(code, m).value;
    StripCodeAt(code, m, |code|);
    if LooksAhead(code) {
      forall p | 0 <= p < |out| ensures PointsPast(out[p], p, |out|) {
        var i := Remaining(code, |code|, p);
        StripCodeAt(code, m, i);
        StripInsnForward(code, m0, i);
      }
    }
    if PointsForward(out) {
      forall i | 0 <= i < |code| && !code[i].op.LabelOp? ensures LooksAheadAt(code, i) {
        StripCodeAt(code, m, i);
        assert PointsPast(out[Count(code, i)], Count(code, i), |out|);
        StripInsnForward(code, m0, i);
      }
    }
  }

  // ----- the hard-coded table -----

  lemma {:induction false} MakeRefs(t: TupleTree, vals: seq<Value>, r: Value)
    requires WellFormed(t) && |vals| == Tsize(t) && r in RefsIn(MakeValue(t, vals))
    ensures exists i :: 0 <= i < |vals| && r in RefsIn(vals[i])
    decreases t, 1
  {
    if t.Tree? {
      var es := MakeValues(t.kids, vals);
      var k :| 0 <= k < |es| && r in RefsIn(es[k]);
      MakeKidsRefs(t.kids, vals, k, r);
    }
  }

  lemma {:induction false} MakeKidsRefs(kids: seq<TupleTree>, vals: seq<Value>, k: nat, r: Value)
    requires AllWellFormed(kids) && |vals| == SumSizes(kids) && k < |kids| && r in RefsIn(MakeValues(kids, vals)[k])
    ensures exists i :: 0 <= i < |vals| && r in RefsIn(vals[i])
    decreases kids, 0
  {
    var n := Tsize(kids[0]);
    if k == 0 {
      MakeRefs(kids[0], vals[..n], r);
      var i :| 0 <= i < n && r in RefsIn(vals[..n][i]);
      assert r in RefsIn(vals[i]);
    } else {
      MakeKidsRefs(kids[1..], vals[n..], k - 1, r);
      var i :| 0 <= i < |vals| - n && r in RefsIn(vals[n..][i]);
      assert r in RefsIn(vals[n + i]);
    }
  }

  lemma {:induction false} ReplaceRefs(v: Value, x: Value, r: Value)
    requires ReplaceLastNone(v, x).Some?
    ensures r in RefsIn(ReplaceLastNone(v, x).value) <==> r in RefsIn(v) || r in RefsIn(x)
  {
    if v != NONE {
      var last, es := |v.elems| - 1, ReplaceLastNone(v, x).value.elems;
      ReplaceRefs(v.elems[last], x, r);
      if r in RefsIn(Tuple(es)) {
        var i :| 0 <= i < |es| && r in RefsIn(es[i]);
        assert i != last ==> r in RefsIn(v.elems[i]);
      }
      if r in RefsIn(v) {
        var i :| 0 <= i < |v.elems| && r in RefsIn(v.elems[i]);
        assert r in RefsIn(es[i]);
      }
      assert r in RefsIn(x) ==> r in RefsIn(es[last]);
    }
  }

  /** The table's own entries point past the instruction that holds it. */
  lemma TableForward(code: seq<Instr>, m0: LabelMap, table: seq<Label>, k: nat, q: nat)
    requires Collect(code, 0, m0).Ok? && StripTable(table, Collect(code, 0, m0).value).Ok?
    requires forall x :: x in m0 ==> !m0[x].Internal?
    requires k < |code| && AllAvm(code[..k + 1])
    requires CodePoint(Internal(q)) in RefsIn(JumpTableValue(StripTable(table, Collect(code, 0, m0).value).value))
    ensures k < q <= Count(code, |code|)
  {
    var m := Collect(code, 0, m0).value;
    var t := StripTable(table, m).value;
    StripTableAt(table, m);
    MakeRefs(TreeOf(|t|, false), CodePointVals(t), CodePoint(Internal(q)));
    var i :| 0 <= i < |t| && CodePoint(Internal(q)) in RefsIn(CodePointVals(t)[i]);
    var j := LabelPast(code, m0, table[i], q);
    if j <= k { StandsBefore(code, k + 1, j, table[i]); }
    assert code == code[..k + 1] + code[k + 1..];
    CountPrefix(code[..k + 1], code[k + 1..], k + 1);
    CountMonotone(code, k + 1, j);
  }

  lemma PrefixAhead(pre: seq<Instr>, code: seq<Instr>)
    requires AllAvm(pre) && Covered(pre, {}) && Ahead(code)
    ensures Ahead(pre + code)
  {
    forall p | 0 <= p < |pre + code| ensures AheadAt(pre + code, p, (pre + code)[p]) {
      if p < |pre| {
        assert ImmRefs(pre[p]) <= {};
      } else {
        var i := p - |pre|;
        assert AheadAt(code, i, code[i]);
        forall r | r in ImmRefs(code[i]) ensures r.LabelVal? && !HasLabel((pre + code)[..p], r.lab) {
          if HasLabel((pre + code)[..p], r.lab) { LabelBehind(pre, code, i, r.lab); }
        }
      }
    }
  }

  lemma LabelBehind(pre: seq<Instr>, code: seq<Instr>, i: nat, l: Label)
    requires AllAvm(pre) && i <= |code| && HasLabel((pre + code)[..|pre| + i], l)
    ensures HasLabel(code[..i], l)
  {
    var j :| 0 <= j < |pre| + i && (pre + code)[..|pre| + i][j].op == LabelOp(l);
    assert code[..i][j - |pre|].op == LabelOp(l);
  }

  lemma PackedCovered(numGlobals: nat, testMode: bool)
    ensures Covered(Packed(MakeEmpty(TreeOf(numGlobals, false)), testMode), {})
  {
    EmptyHasNoLabels(TreeOf(numGlobals, false));
  }

  lemma HardcodeForward(code: seq<Instr>, m0: LabelMap, table: seq<Label>, testMode: bool)
    requires Collect(code, 0, m0).Ok? && StripCode(code, Collect(code, 0, m0).value).Ok?
    requires StripTable(table, Collect(code, 0, m0).value).Ok?
    requires forall x :: x in m0 ==> !m0[x].Internal?
    requires TableOffset(testMode) < |code| && AllAvm(code[..TableOffset(testMode) + 1])
    requires var m := Collect(code, 0, m0).value;
             Hardcode(StripCode(code, m).value, JumpTableValue(StripTable(table, m).value), testMode).Ok?
    ensures var m := Collect(code, 0, m0).value;
            PointsForward(Hardcode(StripCode(code, m).value, JumpTableValue(StripTable(table, m).value),
                                   testMode).value)
            <==> LooksAhead(code)
  {
    var m, k := Collect(code, 0, m0).value, TableOffset(testMode);
    var out, x := StripCode(code, m).value, JumpTableValue(StripTable(table, m).value);
    var final := Hardcode(out, x, testMode).value;
    StripForward(code, m0);
    StripCodeAt(code, m, |code|);
    forall q: nat | CodePoint(Internal(q)) in RefsIn(x) ensures k < q <= |out| { TableForward(code, m0, table, k, q); }
    TableKeepsForward(out, final, k, x);
  }

  /** Putting a table that points ahead into instruction k changes nothing else. */
  lemma TableKeepsForward(out: seq<Instr>, final: seq<Instr>, k: nat, x: Value)
    requires k < |out| && out[k].imm.Some? && ReplaceLastNone(out[k].imm.value, x).Some?
    requires final == out[k := Instr(out[k].op, ReplaceLastNone(out[k].imm.value, x), out[k].loc)]
    requires forall q: nat :: CodePoint(Internal(q)) in RefsIn(x) ==> k < q <= |out|
    ensures PointsForward(final) <==> PointsForward(out)
  {
    forall q: nat ensures CodePoint(Internal(q)) in ImmRefs(final[k])
                          <==> CodePoint(Internal(q)) in ImmRefs(out[k]) || CodePoint(Internal(q)) in RefsIn(x) {
      ReplaceRefs(out[k].imm.value, x, CodePoint(Internal(q)));
    }
    assert PointsPast(final[k], k, |final|) <==> PointsPast(out[k], k, |out|);
    if PointsForward(final) {
      forall p | 0 <= p < |out| ensures PointsPast(out[p], p, |out|) { assert PointsPast(final[p], p, |final|); }
    }
    if PointsForward(out) {
      forall p | 0 <= p < |final| ensures PointsPast(final[p], p, |final|) { assert PointsPast(out[p], p, |out|); }
    }
  }

  lemma OptimizedAhead(numGlobals: nat, body: seq<Instr>, imports: seq<ImportedFunc>)
    requires BareLabels(body) && NestedAhead(body) && numGlobals > 0
    requires Lower(Route(body, imports, numGlobals - 1).code, INITIAL_FRAME, numGlobals).Ok?
    ensures Ahead(Optimize(Lower(Route(body, imports, numGlobals - 1).code, INITIAL_FRAME, numGlobals).value))
  {
    var routed := Route(body, imports, numGlobals - 1);
    var lowered := Lower(routed.code, INITIAL_FRAME, numGlobals).value;
    RouteAhead(body, imports, numGlobals - 1);
    LowerAhead(routed.code, INITIAL_FRAME, numGlobals);
    assert [] + lowered == lowered;
    OptimizeAhead([], lowered);
  }

  lemma PackedAhead(numGlobals: nat, testMode: bool, opt: seq<Instr>)
    ensures var code := Packed(MakeEmpty(TreeOf(numGlobals, false)), testMode) + opt;
            && TableOffset(testMode) < |code| && AllAvm(code[..TableOffset(testMode) + 1])
            && (Ahead(opt) ==> LooksAhead(code))
  {
    var pre := Packed(MakeEmpty(TreeOf(numGlobals, false)), testMode);
    PackedIsAvm(MakeEmpty(TreeOf(numGlobals, false)), testMode);
    PackedCovered(numGlobals, testMode);
    if Ahead(opt) {
      PrefixAhead(pre, opt);
      AheadLooks(pre + opt);
    }
    assert (pre + opt)[..TableOffset(testMode) + 1] == pre;
  }

  /** The code that is about to be stripped. */
  function Unstripped(numGlobals: nat, testMode: bool, body: seq<Instr>, imports: seq<ImportedFunc>): Result<seq<Instr>>
    requires numGlobals > 0
  {
    var lowered := Lower(Route(body, imports, numGlobals - 1).code, INITIAL_FRAME, numGlobals);
    if lowered.Err? then Err(lowered.error)
    else Ok(Packed(MakeEmpty(TreeOf(numGlobals, false)), testMode) + Optimize(lowered.value))
  }

  /** Exactly when every internal code point in an immediate of the final code, also inside the
      hard-coded jump table, names a later position: for any program whatever. */
  lemma CompiledForwardExactly(numGlobals: nat, testMode: bool, body: seq<Instr>, imports: seq<ImportedFunc>)
    requires Compiled(Init(numGlobals, testMode) + body, imports, numGlobals, testMode).Ok?
    ensures numGlobals > 0 && Unstripped(numGlobals, testMode, body, imports).Ok?
    ensures PointsForward(Compiled(Init(numGlobals, testMode) + body, imports, numGlobals, testMode).value)
            <==> LooksAhead(Unstripped(numGlobals, testMode, body, imports).value)
  {
    Stages(numGlobals, testMode, body, imports);
    var routed := Route(body, imports, numGlobals - 1);
    var opt := Optimize(Lower(routed.code, INITIAL_FRAME, numGlobals).value);
    PackedAhead(numGlobals, testMode, opt);
    forall l | l in ImportMap(imports) ensures !ImportMap(imports)[l].Internal? { ImportsAreExternal(imports, l); }
    HardcodeForward(Packed(MakeEmpty(TreeOf(numGlobals, false)), testMode) + opt, ImportMap(imports), routed.table,
                    testMode);
  }

  /** It holds of every program that holds no code points and whose labels are not inside tuples, or
      are there only ahead of where they stand. */
  lemma CompiledPointsForward(numGlobals: nat, testMode: bool, body: seq<Instr>, imports: seq<ImportedFunc>)
    requires BareLabels(body) && NestedAhead(body)
    requires Compiled(Init(numGlobals, testMode) + body, imports, numGlobals, testMode).Ok?
    ensures PointsForward(Compiled(Init(numGlobals, testMode) + body, imports, numGlobals, testMode).value)
  {
    CompiledForwardExactly(numGlobals, testMode, body, imports);
    OptimizedAhead(numGlobals, body, imports);
    PackedAhead(numGlobals, testMode, Optimize(Lower(Route(body, imports, numGlobals - 1).code, INITIAL_FRAME,
                                                     numGlobals).value));
  }

  // ----- the condition on nested labels is needed -----

  const LOOP: Label := Anon(0)

  /** A label nested in a tuple is not routed. */
  const NESTED: seq<Instr> := [Instr(LabelOp(LOOP), None, 0), WithImm(Dup0, Tuple([LabelVal(LOOP)]), 0)]

  lemma NestedRoute()
    ensures Route(NESTED, [], 0) == Routed(NESTED, [])
  {
    var x, y, none := NESTED[0], NESTED[1], ImportedLabels([]);
    assert NESTED == [x] + [y] && NESTED[1..] == [y] && [y][1..] == [];
    assert Detours([y], AwayAfter(x, none), [], 0) == Routed([y] + [], []);
    assert Detours(NESTED, none, [], 0) == Routed([x] + ([y] + []), []);
    FetchAllAppend([x], [y], 0);
    FetchAllOne(x, 0);
    FetchAllOne(y, 0);
  }

  lemma NestedLower()
    ensures Lower(NESTED, INITIAL_FRAME, 1) == Ok(NESTED)
  {
    var x, y := NESTED[0], NESTED[1];
    assert NESTED[1..] == [y] && [y][1..] == [];
    assert Lower([y], INITIAL_FRAME, 1) == Ok([y] + []);
    assert [x] + ([y] + []) == NESTED;
  }

  lemma NestedOptimize()
    ensures Optimize(NESTED) == NESTED
  {
    var x, y := NESTED[0], NESTED[1];
    assert NESTED == [x] + [y] && [y] == [y] + [];
    OptimizeStep([], x, [y]);
    assert [] + [x] == [x];
    SettleOne(x);
    OptimizeStep([x], y, []);
    SettleStuck([], x, y);
    assert [] + [x, y] == [x] + [y];
  }

  lemma CollectSkip(x: Instr, rest: seq<Instr>, n: nat, m: LabelMap)
    requires !x.op.LabelOp?
    ensures Collect([x] + rest, n, m) == Collect(rest, n + 1, m)
  {
    assert ([x] + rest)[1..] == rest;
  }

  lemma StripCons(x: Instr, x': Instr, rest: seq<Instr>, rest': seq<Instr>, m: LabelMap)
    requires !x.op.LabelOp? && StripInsn(x, m) == Ok(x') && StripCode(rest, m) == Ok(rest')
    ensures StripCode([x] + rest, m) == Ok([x'] + rest')
  {
    assert ([x] + rest)[1..] == rest;
  }

  /** Adding the initialising instructions, and stripping. */
  lemma NestedStrip(code: seq<Instr>)
    requires code == Packed(NONE, false) + NESTED
    ensures var m: LabelMap := map[LOOP := Internal(3)];
            Collect(code, 0, map[]) == Ok(m)
            && StripCode(code, m) == Ok(Packed(NONE, false) + [WithImm(Dup0, Tuple([CodePoint(Internal(3))]), 0)])
  {
    var m: LabelMap := map[LOOP := Internal(3)];
    var a, b, c, x, y := code[0], code[1], code[2], NESTED[0], NESTED[1];
    assert code == [a] + ([b] + ([c] + NESTED)) && NESTED == [x] + [y] && NESTED[1..] == [y] && [y] == [y] + [];
    CollectSkip(a, [b] + ([c] + NESTED), 0, map[]);
    CollectSkip(b, [c] + NESTED, 1, map[]);
    CollectSkip(c, NESTED, 2, map[]);
    assert map[][LOOP := Internal(3)] == m;
    CollectSkip(y, [], 3, m);
    NestedValue(m);
    var y' := WithImm(Dup0, Tuple([CodePoint(Internal(3))]), 0);
    StripCons(y, y', [], [], m);
    assert StripCode(NESTED, m) == Ok([y'] + []);
    StripCons(c, c, NESTED, [y'] + [], m);
    StripCons(b, b, [c] + NESTED, [c] + ([y'] + []), m);
    StripCons(a, a, [b] + ([c] + NESTED), [b] + ([c] + ([y'] + [])), m);
    assert [a] + ([b] + ([c] + ([y'] + []))) == Packed(NONE, false) + [y'];
  }

  lemma NestedValue(m: LabelMap)
    requires LOOP in m && m[LOOP] == Internal(3)
    ensures ReplaceLabels(Tuple([LabelVal(LOOP)]), m) == Ok(Tuple([CodePoint(Internal(3))]))
    ensures ReplaceLabels(NONE, m) == Ok(NONE)
  {
    assert [LabelVal(LOOP)][1..] == [] && NONE.elems == [] && ReplaceAll([], m) == Ok([]);
    assert ReplaceLabels(NONE, m) == Ok(Tuple([]));
    var es: seq<Value> := [LabelVal(LOOP)];
    assert ReplaceLabels(es[0], m) == Ok(CodePoint(Internal(3)));
    assert ReplaceAll(es, m) == Ok([CodePoint(Internal(3))] + []);
    assert [CodePoint(Internal(3))] + [] == [CodePoint(Internal(3))];
    assert ReplaceLabels(Tuple(es), m) == Ok(Tuple([CodePoint(Internal(3))]));
  }

  /** The final code of this program names its own position. */
  lemma NestedPointsBack()
    ensures var r := Compiled(Init(1, false) + NESTED, [], 1, false);
            r.Ok? && !PointsForward(r.value)
  {
    InitInert(1, false);
    NestedRoute();
    RoutePrefix(Init(1, false), NESTED, [], 0);
    NestedLower();
    LowerPrefix(Init(1, false), NESTED, INITIAL_FRAME, 1);
    NestedOptimize();
    OptimizeInit(1, false, NESTED);
    assert MakeEmpty(TreeOf(1, false)) == NONE;
    NestedStrip(Packed(NONE, false) + NESTED);
    var x, last := JumpTableValue([]), WithImm(Dup0, Tuple([CodePoint(Internal(3))]), 0);
    var out := Packed(NONE, false) + [last];
    var final := out[2 := WithImm(Rset, x, 0)];
    assert Strip(Packed(NONE, false) + NESTED, [], []) == Ok(Stripped(out, []));
    assert Hardcode(out, x, false) == Ok(final);
    assert Compiled(Init(1, false) + NESTED, [], 1, false) == Real(final);
    assert CodePoint(Internal(3)) in RefsIn(last.imm.value.elems[0]);
    assert CodePoint(Internal(3)) in ImmRefs(final[3]);
    assert !PointsPast(final[3], 3, |final|);
  }
}
