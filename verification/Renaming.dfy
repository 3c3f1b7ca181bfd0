/** Renaming the references inside values. The machine never looks into a reference, so renaming
    commutes with everything that only moves data. */
module Renaming {
  import opened Avm
  import opened Machine
  import opened TupleTrees

  /** What becomes of a label or a code point. */
  type Naming = Value -> Value

  predicate IsRef(v: Value) { v.LabelVal? || v.CodePoint? }

  ghost predicate KeepsRefs(h: Naming) {
    forall v :: IsRef(v) ==> IsRef(h(v))
  }

  function Renamed(h: Naming, v: Value): Value {
    match v
    case LabelVal(_) => h(v)
    case CodePoint(_) => h(v)
    case Tuple(es) => Tuple(seq(|es|, i requires 0 <= i < |es| => Renamed(h, es[i])))
    case _ => v
  }

  function RenamedStack(h: Naming, st: Stack): Stack {
    match st
    case Empty => Empty
    case Push(v, rest) => Push(Renamed(h, v), RenamedStack(h, rest))
  }

  function RenamedAll(h: Naming, vals: seq<Value>): (r: seq<Value>)
    ensures |r| == |vals| && forall i :: 0 <= i < |vals| ==> r[i] == Renamed(h, vals[i])
  {
    seq(|vals|, i requires 0 <= i < |vals| => Renamed(h, vals[i]))
  }

  lemma RenamedNone(h: Naming)
    ensures Renamed(h, NONE) == NONE
  {
  }

  lemma RenamedTuple(h: Naming, es: seq<Value>, i: nat, x: Value)
    requires i < |es|
    ensures Renamed(h, Tuple(es)).Tuple? && |Renamed(h, Tuple(es)).elems| == |es|
    ensures Renamed(h, Tuple(es)).elems[i] == Renamed(h, es[i])
    ensures Renamed(h, Tuple(es[i := x])) == Tuple(Renamed(h, Tuple(es)).elems[i := Renamed(h, x)])
  {
    assert Renamed(h, Tuple(es[i := x])).elems == Renamed(h, Tuple(es)).elems[i := Renamed(h, x)];
  }

  /** Values without references are left alone, and no others lose theirs. */
  lemma {:induction false} CodeFreeRenamed(h: Naming, v: Value)
    requires KeepsRefs(h)
    ensures CodeFree(Renamed(h, v)) == CodeFree(v)
    ensures CodeFree(v) ==> Renamed(h, v) == v
  {
    if v.Tuple? {
      var es, es' := v.elems, Renamed(h, v).elems;
      forall i | 0 <= i < |es| ensures CodeFree(es'[i]) == CodeFree(es[i]) && (CodeFree(es[i]) ==> es'[i] == es[i]) {
        CodeFreeRenamed(h, es[i]);
      }
      if CodeFree(v) { assert es' == es; }
    } else if IsRef(v) {
      assert IsRef(h(v));
    }
  }

  /** Machines that differ at most in how they jump. */
  ghost predicate SameData(a: Isa, b: Isa) { a.un == b.un && a.bin == b.bin && a.strict == b.strict }

  lemma DataRenamed(isa: Isa, isa': Isa, h: Naming, op: AvmOp, loc: nat, st: Stack)
    requires KeepsRefs(h) && SameData(isa, isa') && ExecData(isa, op, loc, st).Some?
    ensures ExecData(isa', op, loc, RenamedStack(h, st)) == Some(RenamedStack(h, ExecData(isa, op, loc, st).value))
  {
    if st.Push? && st.rest.Push? {
      assert RenamedStack(h, st.rest) == Push(Renamed(h, st.rest.top), RenamedStack(h, st.rest.rest));
      if st.rest.rest.Push? {
        var a, b, c, r := st.top, st.rest.top, st.rest.rest.top, st.rest.rest.rest;
        assert RenamedStack(h, Push(a, r)) == Push(Renamed(h, a), RenamedStack(h, r));
        assert RenamedStack(h, Push(b, Push(a, r))) == Push(Renamed(h, b), Push(Renamed(h, a), RenamedStack(h, r)));
        assert RenamedStack(h, st.rest.rest) == Push(Renamed(h, c), RenamedStack(h, r));
      }
    }
    match op
    case Tget => RenamedTuple(h, st.rest.top.elems, st.top.n, NONE);
    case Tset => RenamedTuple(h, st.rest.top.elems, st.top.n, st.rest.rest.top);
    case Equal =>
      CodeFreeRenamed(h, st.top);
      CodeFreeRenamed(h, st.rest.top);
    case _ =>
  }

  // ----- wide tuples -----

  lemma {:induction false} MakeRenamed(h: Naming, t: TupleTree, vals: seq<Value>)
    requires WellFormed(t) && |vals| == Tsize(t)
    ensures Renamed(h, MakeValue(t, vals)) == MakeValue(t, RenamedAll(h, vals))
    decreases t, 1
  {
    if t.Tree? {
      MakeKidsRenamed(h, t.kids, vals);
      var es := MakeValues(t.kids, vals);
      assert seq(|es|, i requires 0 <= i < |es| => Renamed(h, es[i])) == MakeValues(t.kids, RenamedAll(h, vals));
    }
  }

  lemma {:induction false} MakeKidsRenamed(h: Naming, kids: seq<TupleTree>, vals: seq<Value>)
    requires AllWellFormed(kids) && |vals| == SumSizes(kids)
    ensures forall i :: 0 <= i < |kids| ==>
              MakeValues(kids, RenamedAll(h, vals))[i] == Renamed(h, MakeValues(kids, vals)[i])
    decreases kids, 0
  {
    if kids != [] {
      var n, all := Tsize(kids[0]), RenamedAll(h, vals);
      assert all[..n] == RenamedAll(h, vals[..n]) && all[n..] == RenamedAll(h, vals[n..]);
      MakeRenamed(h, kids[0], vals[..n]);
      MakeKidsRenamed(h, kids[1..], vals[n..]);
    }
  }

  lemma FlattenRenamed(h: Naming, t: TupleTree, v: Value)
    requires WellFormed(t) && Flatten(t, v).Some?
    ensures Flatten(t, Renamed(h, v)) == Some(RenamedAll(h, Flatten(t, v).value))
  {
    var vals := Flatten(t, v).value;
    MakeRenamed(h, t, vals);
    FlattenMake(t, RenamedAll(h, vals));
  }
}
