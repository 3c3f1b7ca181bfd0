/** fix_nonforward_labels (src/link/striplabels.rs:88-186): a label that is not ahead is fetched
    from a jump table kept in the last global. */
module Nonforward {
  import opened Avm
  import opened Expansion
  import StripLabels

  type ImportedFunc = StripLabels.ImportedFunc

  datatype Routed = Routed(code: seq<Instr>, table: seq<Label>)

  // ----- the pass as functions -----

  function ImportedLabels(imports: seq<ImportedFunc>): set<Label> {
    set i | 0 <= i < |imports| :: External(imports[i].slotNum)
  }

  /** The label this instruction must fetch, if any. */
  function Fetched(insn: Instr, away: set<Label>): Option<Label> {
    if insn.imm.Some? && insn.imm.value.LabelVal? && insn.imm.value.lab in away then Some(insn.imm.value.lab)
    else None
  }

  function AddLabel(table: seq<Label>, l: Label): (table': seq<Label>)
    ensures table <= table' && l in table'
  {
    if l in table then table else table + [l]
  }

  function IndexIn(table: seq<Label>, l: Label): (k: nat)
    requires l in table
    ensures k < |table| && table[k] == l
  {
    if table[0] == l then 0 else 1 + IndexIn(table[1..], l)
  }

  function TableAfter(insn: Instr, away: set<Label>, table: seq<Label>): seq<Label> {
    var l := Fetched(insn, away);
    if l.Some? then AddLabel(table, l.value) else table
  }

  function AwayAfter(insn: Instr, away: set<Label>): set<Label> {
    if insn.op.LabelOp? then away + {insn.op.lab} else away
  }

  /** First loop: the detour, naming the table slot by an index. */
  function Detour(insn: Instr, away: set<Label>, table: seq<Label>, slot: nat): seq<Instr> {
    var l := Fetched(insn, away);
    if l.Some? && l.value in table then
      [Instr(GetGlobalVar(slot), None, insn.loc), Instr(PushExternal(IndexIn(table, l.value)), None, insn.loc),
       Instr(insn.op, None, insn.loc)]
    else [insn]
  }

  function Detours(code: seq<Instr>, away: set<Label>, table: seq<Label>, slot: nat): Routed {
    if code == [] then Routed([], table)
    else
      var table' := TableAfter(code[0], away, table);
      var rest := Detours(code[1..], AwayAfter(code[0], away), table', slot);
      Routed(Detour(code[0], away, table', slot) + rest.code, rest.table)
  }

  /** Second loop: the index becomes a read of a tuple as large as the finished table. */
  function Fetch(insn: Instr, size: nat): seq<Instr> {
    if insn.op.PushExternal? then
      (if insn.imm.Some? then [WithImm(Noop, insn.imm.value, insn.loc)] else [])
      + [Instr(TupleGet(size), Some(Int(insn.op.idx)), insn.loc)]
    else [insn]
  }

  function FetchAll(code: seq<Instr>, size: nat): seq<Instr> {
    if code == [] then [] else Fetch(code[0], size) + FetchAll(code[1..], size)
  }

  function Route(code: seq<Instr>, imports: seq<ImportedFunc>, slot: nat): Routed {
    var d := Detours(code, ImportedLabels(imports), [], slot);
    Routed(FetchAll(d.code, |d.table|), d.table)
  }

  // ----- the pass itself -----

  /** The index map of the source holds the position of every label in the table. */
  ghost predicate Indexes(index: map<Label, nat>, table: seq<Label>) {
    && (forall l :: l in index <==> l in table)
    && (forall l :: l in table ==> l in index && index[l] == IndexIn(table, l))
  }

  lemma {:induction false} IndexInAppend(table: seq<Label>, l: Label, x: Label)
    requires l in table
    ensures l in table + [x] && IndexIn(table + [x], l) == IndexIn(table, l)
  {
    if table[0] != l {
      assert (table + [x])[1..] == table[1..] + [x];
      IndexInAppend(table[1..], l, x);
    }
  }

  lemma {:induction false} IndexInLast(table: seq<Label>, x: Label)
    requires x !in table
    ensures IndexIn(table + [x], x) == |table|
  {
    if table != [] {
      assert (table + [x])[1..] == table[1..] + [x];
      IndexInLast(table[1..], x);
    }
  }

  lemma IndexesAppend(index: map<Label, nat>, table: seq<Label>, x: Label)
    requires Indexes(index, table) && x !in table
    ensures Indexes(index[x := |table|], table + [x])
  {
    IndexInLast(table, x);
    forall l | l in table ensures IndexIn(table + [x], l) == IndexIn(table, l) { IndexInAppend(table, l, x); }
  }

  function Onto(done: seq<Instr>, d: Routed): Routed {
    Routed(done + d.code, d.table)
  }

  lemma OntoStep(done: seq<Instr>, code: seq<Instr>, away: set<Label>, table: seq<Label>, slot: nat)
    requires code != []
    ensures var table' := TableAfter(code[0], away, table);
            Onto(done, Detours(code, away, table, slot))
            == Onto(done + Detour(code[0], away, table', slot),
                    Detours(code[1..], AwayAfter(code[0], away), table', slot))
  {
    var table' := TableAfter(code[0], away, table);
    var first, rest := Detour(code[0], away, table', slot), Detours(code[1..], AwayAfter(code[0], away), table', slot);
    assert done + (first + rest.code) == done + first + rest.code;
  }

  lemma ThreeAppended(done: seq<Instr>, x: Instr, y: Instr, z: Instr)
    ensures done + [x] + [y] + [z] == done + [x, y, z]
  {
  }

  method FixNonforwardLabels(codeIn: seq<Instr>, imports: seq<ImportedFunc>, slot: nat)
    returns (code: seq<Instr>, jumpTable: seq<Label>)
    ensures Routed(code, jumpTable) == Route(codeIn, imports, slot)
  {
    jumpTable := [];
    var index: map<Label, nat> := map[];
    var seen: set<Label> := {};
    var codeOut: seq<Instr> := [];
    var imported := ImportedSet(imports);
    ghost var goal := Detours(codeIn, imported, [], slot);
    assert [] + goal.code == goal.code && imported + seen == imported && codeIn[0..] == codeIn;
    for i := 0 to |codeIn|
      invariant Indexes(index, jumpTable)
      invariant goal == Onto(codeOut, Detours(codeIn[i..], imported + seen, jumpTable, slot))
    {
      var insn := codeIn[i];
      ghost var away, before, done := imported + seen, jumpTable, codeOut;
      assert codeIn[i..][0] == insn && codeIn[i..][1..] == codeIn[i + 1..];
      OntoStep(codeOut, codeIn[i..], away, jumpTable, slot);
      if insn.imm.Some? && insn.imm.value.LabelVal? && (insn.imm.value.lab in seen || insn.imm.value.lab in imported) {
        var l := insn.imm.value.lab;
        if l !in index {
          IndexesAppend(index, jumpTable, l);
          index := index[l := |jumpTable|];
          jumpTable := jumpTable + [l];
        }
        assert jumpTable == TableAfter(insn, away, before) && l in jumpTable;
        codeOut := codeOut + [Instr(GetGlobalVar(slot), None, insn.loc)];
        codeOut := codeOut + [Instr(PushExternal(index[l]), None, insn.loc)];
        codeOut := codeOut + [Instr(insn.op, None, insn.loc)];
        ThreeAppended(done, Instr(GetGlobalVar(slot), None, insn.loc), Instr(PushExternal(index[l]), None, insn.loc),
                      Instr(insn.op, None, insn.loc));
      } else {
        assert Fetched(insn, away).None? && jumpTable == TableAfter(insn, away, before);
        codeOut := codeOut + [insn];
      }
      assert codeOut == done + Detour(insn, away, jumpTable, slot);
      if insn.op.LabelOp? {
        seen := seen + {insn.op.lab};
      }
      assert imported + seen == AwayAfter(insn, away);
    }
    assert codeOut + [] == codeOut;
    code := ExpandFetches(codeOut, |jumpTable|);
    assert imported == ImportedLabels(imports);
  }

  method ImportedSet(imports: seq<ImportedFunc>) returns (s: set<Label>)
    ensures s == ImportedLabels(imports)
  {
    s := {};
    for i := 0 to |imports|
      invariant s == set j | 0 <= j < i :: External(imports[j].slotNum)
    {
      s := s + {External(imports[i].slotNum)};
    }
  }

  method ExpandFetches(codeIn: seq<Instr>, size: nat) returns (code: seq<Instr>)
    ensures code == FetchAll(codeIn, size)
  {
    code := [];
    for i := 0 to |codeIn|
      invariant code + FetchAll(codeIn[i..], size) == FetchAll(codeIn, size)
    {
      var insn := codeIn[i];
      assert codeIn[i..][0] == insn && codeIn[i..][1..] == codeIn[i + 1..];
      ghost var done, rest := code, FetchAll(codeIn[i + 1..], size);
      if insn.op.PushExternal? {
        if insn.imm.Some? {
          code := code + [WithImm(Noop, insn.imm.value, insn.loc)];
        }
        code := code + [Instr(TupleGet(size), Some(Int(insn.op.idx)), insn.loc)];
      } else {
        code := code + [insn];
      }
      assert code == done + Fetch(insn, size);
      Reassociate(done, Fetch(insn, size), rest);
    }
    assert code + [] == code;
  }

  // ----- what becomes of each instruction -----

  /** Labels defined before position i, or imported. */
  function AwayAt(code: seq<Instr>, away: set<Label>, i: nat): set<Label>
    requires i <= |code|
  {
    if i == 0 then away else AwayAt(code[1..], AwayAfter(code[0], away), i - 1)
  }

  /** The segment for an instruction, given the finished table. */
  function SegFor(insn: Instr, away: set<Label>, table: seq<Label>, slot: nat): seq<Instr> {
    FetchAll(Detour(insn, away, table, slot), |table|)
  }

  function RouteSegs(code: seq<Instr>, away: set<Label>, table: seq<Label>, slot: nat): (segs: seq<seq<Instr>>)
    ensures |segs| == |code|
  {
    if code == [] then []
    else [SegFor(code[0], away, table, slot)] + RouteSegs(code[1..], AwayAfter(code[0], away), table, slot)
  }

  lemma {:induction false} RouteSegsAt(code: seq<Instr>, away: set<Label>, table: seq<Label>, slot: nat, i: nat)
    requires i < |code|
    ensures RouteSegs(code, away, table, slot)[i] == SegFor(code[i], AwayAt(code, away, i), table, slot)
    decreases i
  {
    if i > 0 { RouteSegsAt(code[1..], AwayAfter(code[0], away), table, slot, i - 1); }
  }

  lemma {:induction false} FetchAllAppend(a: seq<Instr>, b: seq<Instr>, size: nat)
    ensures FetchAll(a + b, size) == FetchAll(a, size) + FetchAll(b, size)
  {
    if a == [] {
      assert a + b == b;
    } else {
      assert (a + b)[0] == a[0] && (a + b)[1..] == a[1..] + b;
      FetchAllAppend(a[1..], b, size);
    }
  }

  /** The table only grows, and keeps its first entries in place. */
  lemma {:induction false} TableGrows(code: seq<Instr>, away: set<Label>, table: seq<Label>, slot: nat)
    ensures table <= Detours(code, away, table, slot).table
  {
    if code != [] { TableGrows(code[1..], AwayAfter(code[0], away), TableAfter(code[0], away, table), slot); }
  }

  lemma {:induction false} IndexInPrefix(table: seq<Label>, bigger: seq<Label>, l: Label)
    requires l in table && table <= bigger
    ensures l in bigger && IndexIn(bigger, l) == IndexIn(table, l)
  {
    assert bigger[0] == table[0] && IndexIn(table, l) < |table|;
    assert bigger[IndexIn(table, l)] == l;
    if table[0] != l {
      assert table[1..] <= bigger[1..];
      IndexInPrefix(table[1..], bigger[1..], l);
    }
  }

  /** The emitted detours are those of the finished table. */
  lemma {:induction false} DetoursAreSegs(code: seq<Instr>, away: set<Label>, table: seq<Label>, slot: nat)
    ensures var d := Detours(code, away, table, slot);
            FetchAll(d.code, |d.table|) == Concat(RouteSegs(code, away, d.table, slot))
  {
    if code != [] {
      var d := Detours(code, away, table, slot);
      var table' := TableAfter(code[0], away, table);
      DetoursAreSegs(code[1..], AwayAfter(code[0], away), table', slot);
      TableGrows(code[1..], AwayAfter(code[0], away), table', slot);
      var first := Detour(code[0], away, table', slot);
      if Fetched(code[0], away).Some? { IndexInPrefix(table', d.table, Fetched(code[0], away).value); }
      assert first == Detour(code[0], away, d.table, slot);
      FetchAllAppend(first, Detours(code[1..], AwayAfter(code[0], away), table', slot).code, |d.table|);
    }
  }

  /** Every fetched label is in the finished table. */
  lemma {:induction false} FetchedInTable(code: seq<Instr>, away: set<Label>, table: seq<Label>, slot: nat, i: nat)
    requires i < |code| && Fetched(code[i], AwayAt(code, away, i)).Some?
    ensures Fetched(code[i], AwayAt(code, away, i)).value in Detours(code, away, table, slot).table
    decreases i
  {
    var table', away' := TableAfter(code[0], away, table), AwayAfter(code[0], away);
    if i == 0 {
      TableGrows(code[1..], away', table', slot);
      IndexInPrefix(table', Detours(code, away, table, slot).table, Fetched(code[0], away).value);
    } else {
      FetchedInTable(code[1..], away', table', slot, i - 1);
    }
  }

  /** The table holds only labels that are defined in the code or imported. */
  lemma {:induction false} TableLabels(code: seq<Instr>, away: set<Label>, table: seq<Label>, slot: nat)
    ensures forall l :: l in Detours(code, away, table, slot).table ==> l in table || l in away || HasLabel(code, l)
  {
    if code != [] {
      var away' := AwayAfter(code[0], away);
      TableLabels(code[1..], away', TableAfter(code[0], away, table), slot);
      forall l | l in Detours(code, away, table, slot).table ensures l in table || l in away || HasLabel(code, l) {
        if HasLabel(code[1..], l) {
          var i :| 0 <= i < |code[1..]| && code[1..][i].op == LabelOp(l);
          assert code[i + 1].op == LabelOp(l);
        } else if l in away' && l !in away {
          assert code[0].op == LabelOp(l);
        }
      }
    }
  }

  /** A fetched label is read from the table, and the instruction follows without its immediate. */
  lemma SegDetour(insn: Instr, away: set<Label>, table: seq<Label>, slot: nat)
    requires Fetched(insn, away).Some? && Fetched(insn, away).value in table && !insn.op.PushExternal?
    ensures SegFor(insn, away, table, slot)
            == [Instr(GetGlobalVar(slot), None, insn.loc),
                Instr(TupleGet(|table|), Some(Int(IndexIn(table, Fetched(insn, away).value))), insn.loc),
                Instr(insn.op, None, insn.loc)]
  {
    var k := IndexIn(table, Fetched(insn, away).value);
    FetchAllThree(Instr(GetGlobalVar(slot), None, insn.loc), Instr(PushExternal(k), None, insn.loc),
                  Instr(insn.op, None, insn.loc), |table|);
  }

  lemma SegSame(insn: Instr, away: set<Label>, table: seq<Label>, slot: nat)
    requires Fetched(insn, away).None?
    ensures SegFor(insn, away, table, slot) == Fetch(insn, |table|)
  {
    FetchAllOne(insn, |table|);
  }

  lemma FetchAllOne(x: Instr, size: nat)
    ensures FetchAll([x], size) == Fetch(x, size)
  {
    assert [x][1..] == [] && FetchAll([], size) == [];
  }

  lemma FetchAllThree(x: Instr, y: Instr, z: Instr, size: nat)
    ensures FetchAll([x, y, z], size) == Fetch(x, size) + Fetch(y, size) + Fetch(z, size)
  {
    assert [x, y, z] == [x] + [y] + [z];
    FetchAllAppend([x] + [y], [z], size);
    FetchAllAppend([x], [y], size);
    FetchAllOne(x, size);
    FetchAllOne(y, size);
    FetchAllOne(z, size);
  }
}
