/** Passes that replace each instruction by a segment: where things end up. */
module Expansion {
  import opened Avm
  import opened Machine

  function Concat(segs: seq<seq<Instr>>): seq<Instr> {
    if segs == [] then [] else segs[0] + Concat(segs[1..])
  }

  /** The position at which segment i starts. */
  function Pos(segs: seq<seq<Instr>>, i: nat): nat
    requires i <= |segs|
  {
    if i == 0 then 0 else |segs[0]| + Pos(segs[1..], i - 1)
  }

  lemma {:induction false} SegPlaced(segs: seq<seq<Instr>>, i: nat)
    requires i < |segs|
    ensures SegAt(Concat(segs), Pos(segs, i), segs[i])
    ensures Pos(segs, i + 1) == Pos(segs, i) + |segs[i]|
  {
    var out, rest := Concat(segs), Concat(segs[1..]);
    if i == 0 {
      assert Pos(segs[1..], 0) == 0;
    } else {
      SegPlaced(segs[1..], i - 1);
      var n, p, k := |segs[0]|, Pos(segs[1..], i - 1), |segs[i]|;
      assert out[n + p..n + p + k] == rest[p..p + k];
    }
  }

  lemma {:induction false} PosTotal(segs: seq<seq<Instr>>)
    ensures Pos(segs, |segs|) == |Concat(segs)|
  {
    if segs != [] { PosTotal(segs[1..]); }
  }

  lemma {:induction false} PosMonotone(segs: seq<seq<Instr>>, i: nat, j: nat)
    requires i <= j <= |segs|
    ensures Pos(segs, i) <= Pos(segs, j)
  {
    if i > 0 { PosMonotone(segs[1..], i - 1, j - 1); }
  }

  /** Every position of the output belongs to a segment. */
  lemma {:induction false} Locate(segs: seq<seq<Instr>>, p: nat) returns (i: nat)
    requires p < |Concat(segs)|
    ensures i < |segs| && Pos(segs, i) <= p < Pos(segs, i) + |segs[i]|
    ensures Concat(segs)[p] == segs[i][p - Pos(segs, i)]
  {
    if p < |segs[0]| {
      i := 0;
    } else {
      var k := Locate(segs[1..], p - |segs[0]|);
      i := k + 1;
    }
  }

  /** Labels stand for themselves, and nothing else expands to a label or to an immediate that
      refers to code the instruction did not refer to. */
  predicate Expands(code: seq<Instr>, segs: seq<seq<Instr>>) {
    && |code| == |segs|
    && forall i :: 0 <= i < |code| ==>
         if code[i].op.LabelOp? then segs[i] == [code[i]] else Covered(segs[i], ImmRefs(code[i]))
  }

  predicate NoLabelOp(seg: seq<Instr>) {
    forall i :: 0 <= i < |seg| ==> !seg[i].op.LabelOp?
  }

  /** As Expands, without a claim on immediates. */
  predicate KeepsLabels(code: seq<Instr>, segs: seq<seq<Instr>>) {
    && |code| == |segs|
    && forall i :: 0 <= i < |code| ==> SegKeepsLabel(code[i], segs[i])
  }

  predicate SegKeepsLabel(insn: Instr, seg: seq<Instr>) {
    if insn.op.LabelOp? then seg == [insn] else NoLabelOp(seg)
  }

  lemma FindInSeg(insn: Instr, seg: seq<Instr>, l: Label)
    requires SegKeepsLabel(insn, seg)
    ensures FindLabel(seg, l) == if insn.op == LabelOp(l) then Some(0) else None
  {
    if insn.op.LabelOp? { assert seg[1..] == []; }
  }

  function Moved(code: seq<Instr>, segs: seq<seq<Instr>>, l: Label): Option<nat>
    requires |code| == |segs|
  {
    var r := FindLabel(code, l);
    if r.Some? then Some(Pos(segs, r.value)) else None
  }

  lemma MovedStep(code: seq<Instr>, segs: seq<seq<Instr>>, l: Label)
    requires |code| == |segs| && code != []
    ensures Moved(code, segs, l) ==
            if code[0].op == LabelOp(l) then Some(0)
            else var r := Moved(code[1..], segs[1..], l); if r.Some? then Some(|segs[0]| + r.value) else None
  {
  }

  /** Labels keep their place. */
  lemma {:induction false} FindLabelExpanded(code: seq<Instr>, segs: seq<seq<Instr>>, l: Label)
    requires KeepsLabels(code, segs)
    ensures FindLabel(Concat(segs), l) == Moved(code, segs, l)
  {
    if code != [] {
      MovedStep(code, segs, l);
      FindLabelExpanded(code[1..], segs[1..], l);
      FindInSeg(code[0], segs[0], l);
      FindLabelAppend(segs[0], Concat(segs[1..]), l);
    }
  }
}
