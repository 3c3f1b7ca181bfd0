/** The nested 8-ary layout that stands in for tuples of any size (src/link/xformcode.rs). */
module TupleTrees {
  import opened Avm

  datatype TupleTree = Single | Tree(size: nat, kids: seq<TupleTree>)

  function Tsize(t: TupleTree): nat {
    if t.Single? then 1 else t.size
  }

  function SumSizes(kids: seq<TupleTree>): nat {
    if kids == [] then 0 else Tsize(kids[0]) + SumSizes(kids[1..])
  }

  /** Sizes add up, no node is wider than an AVM tuple, and no child is empty. */
  predicate WellFormed(t: TupleTree) {
    t.Tree? ==>
      && t.size == SumSizes(t.kids)
      && |t.kids| <= TUPLE_SIZE
      && forall i :: 0 <= i < |t.kids| ==> Tsize(t.kids[i]) >= 1 && WellFormed(t.kids[i])
  }

  predicate AllWellFormed(kids: seq<TupleTree>) {
    forall i :: 0 <= i < |kids| ==> Tsize(kids[i]) >= 1 && WellFormed(kids[i])
  }

  // ----- the shape of a tree: how many slots each child gets -----

  function StartChunk(size: nat, c: nat): (r: nat)
    requires c >= 1
    ensures r >= c && (c < size || c == 1 ==> r < size || r == 1)
    ensures size < r * (TUPLE_SIZE * TUPLE_SIZE)
    decreases size - c
  {
    if c * (TUPLE_SIZE * TUPLE_SIZE) <= size then StartChunk(size, c * TUPLE_SIZE) else c
  }

  /** What the free slots can take if each holds eight chunks: chunk * slots * TUPLE_SIZE. */
  function Room(chunk: nat, slots: nat): nat
    decreases slots
  {
    if slots == 0 then 0 else TUPLE_SIZE * chunk + Room(chunk, slots - 1)
  }

  /** What is covered if one slot takes a single chunk and every other slot eight. */
  function Reach(chunk: nat, slots: nat): nat
    requires slots >= 1
  {
    chunk + Room(chunk, slots - 1)
  }

  /** Reach is the product the source computes. */
  lemma {:induction false} ReachIsProduct(chunk: nat, slots: nat)
    requires slots >= 1
    ensures Reach(chunk, slots) == chunk * (1 + (slots - 1) * TUPLE_SIZE)
    decreases slots
  {
    if slots > 1 { ReachIsProduct(chunk, slots - 1); }
  }

  lemma {:induction false} RoomGrows(chunk: nat, slots: nat)
    ensures Room(chunk * TUPLE_SIZE, slots) == TUPLE_SIZE * Room(chunk, slots)
    ensures slots >= 1 ==> Room(chunk, slots) >= TUPLE_SIZE * chunk
    decreases slots
  {
    if slots > 0 { RoomGrows(chunk, slots - 1); }
  }

  predicate Fits(remaining: nat, chunk: nat, slots: nat) {
    chunk >= 1 && slots <= TUPLE_SIZE && remaining <= Room(chunk, slots)
  }

  lemma FitsStep(remaining: nat, chunk: nat, slots: nat)
    requires Fits(remaining, chunk, slots) && chunk < remaining
    ensures slots >= 1
    ensures Reach(chunk, slots) >= remaining ==> Fits(remaining - chunk, chunk, slots - 1)
    ensures Fits(remaining, chunk * TUPLE_SIZE, slots)
    ensures slots >= 2 && Reach(chunk, slots) < remaining ==> chunk * TUPLE_SIZE < remaining
  {
    RoomGrows(chunk, slots);
    if slots >= 2 { RoomGrows(chunk, slots - 1); }
  }

  function Sum(sizes: seq<nat>): nat {
    if sizes == [] then 0 else sizes[0] + Sum(sizes[1..])
  }

  /** The sizes the filling loop hands out. No subtraction of slots underflows, because Fits holds
      throughout, and the children never exceed the slots. */
  function Chunks(remaining: nat, chunk: nat, slots: nat): (sizes: seq<nat>)
    requires Fits(remaining, chunk, slots)
    ensures |sizes| <= slots && Sum(sizes) == remaining
    decreases remaining, if chunk >= remaining then 0 else remaining - chunk
  {
    if remaining == 0 then []
    else if chunk >= remaining then
      assert Room(chunk, 0) == 0;
      [remaining]
    else
      FitsStep(remaining, chunk, slots);
      if Reach(chunk, slots) >= remaining then
        [chunk] + Chunks(remaining - chunk, chunk, slots - 1)
      else
        Chunks(remaining, chunk * TUPLE_SIZE, slots)
  }

  /** No chunk is empty, and none is everything that remained if at least two slots were free. */
  lemma {:induction false} ChunkBounds(remaining: nat, chunk: nat, slots: nat)
    requires Fits(remaining, chunk, slots)
    ensures forall i :: 0 <= i < |Chunks(remaining, chunk, slots)| ==>
              && 1 <= Chunks(remaining, chunk, slots)[i] <= remaining
              && (chunk < remaining && slots >= 2 ==> Chunks(remaining, chunk, slots)[i] < remaining)
    decreases remaining, if chunk >= remaining then 0 else remaining - chunk
  {
    if chunk < remaining {
      FitsStep(remaining, chunk, slots);
      if Reach(chunk, slots) >= remaining {
        ChunkBounds(remaining - chunk, chunk, slots - 1);
      } else {
        ChunkBounds(remaining, chunk * TUPLE_SIZE, slots);
      }
    }
  }

  function ChildSizes(size: nat): (sizes: seq<nat>)
    ensures |sizes| <= TUPLE_SIZE && Sum(sizes) == size
  {
    Chunks(size, StartChunk(size, 1), TUPLE_SIZE)
  }

  /** A child is smaller than its parent, except the only slot of a one-slot frame. */
  predicate Smaller(sizes: seq<nat>, size: nat) {
    forall i :: 0 <= i < |sizes| ==> 1 <= sizes[i] < size || (sizes[i] == size == 1)
  }

  lemma ChildrenAreSmaller(size: nat)
    ensures Smaller(ChildSizes(size), size)
  {
    ChunkBounds(size, StartChunk(size, 1), TUPLE_SIZE);
  }

  /** The tree for size slots. Frames always get a proper tuple, even for one slot. */
  function TreeOf(size: nat, isLocal: bool): (t: TupleTree)
    ensures WellFormed(t) && Tsize(t) == size
    ensures isLocal || size != 1 ==> t.Tree?
    decreases size, isLocal, 1, 0
  {
    if size == 1 && !isLocal then Single
    else
      ChildrenAreSmaller(size);
      Tree(size, Trees(size, isLocal, ChildSizes(size)))
  }

  function Trees(size: nat, isLocal: bool, sizes: seq<nat>): (kids: seq<TupleTree>)
    requires isLocal || size != 1
    requires Smaller(sizes, size)
    ensures |kids| == |sizes| && SumSizes(kids) == Sum(sizes)
    ensures AllWellFormed(kids)
    decreases size, isLocal, 0, |sizes|
  {
    if sizes == [] then [] else [TreeOf(sizes[0], false)] + Trees(size, isLocal, sizes[1..])
  }

  /** Where the filling loop stands: the sizes handed out so far and what the rest will be. */
  ghost function Planned(sizes: seq<nat>, remaining: nat, chunk: nat, slots: nat): seq<nat>
    requires Fits(remaining, chunk, slots)
  {
    sizes + Chunks(remaining, chunk, slots)
  }

  ghost predicate Filling(size: nat, sizes: seq<nat>, remaining: nat, chunk: nat, slots: nat) {
    Fits(remaining, chunk, slots) && Planned(sizes, remaining, chunk, slots) == ChildSizes(size)
  }

  lemma TakeRest(size: nat, sizes: seq<nat>, remaining: nat, chunk: nat, slots: nat)
    requires Filling(size, sizes, remaining, chunk, slots) && 0 < remaining <= chunk
    ensures Filling(size, sizes + [remaining], 0, chunk, slots)
    ensures remaining < size || remaining == size == 1
  {
    ChildrenAreSmaller(size);
    assert ChildSizes(size)[|sizes|] == remaining;
    assert sizes + [remaining] + [] == ChildSizes(size);
  }

  lemma TakeChunk(size: nat, sizes: seq<nat>, remaining: nat, chunk: nat, slots: nat)
    requires Filling(size, sizes, remaining, chunk, slots) && chunk < remaining
    requires slots >= 1 && Reach(chunk, slots) >= remaining
    ensures Filling(size, sizes + [chunk], remaining - chunk, chunk, slots - 1)
    ensures chunk < size
  {
    FitsStep(remaining, chunk, slots);
    var rest := Chunks(remaining - chunk, chunk, slots - 1);
    assert ChildSizes(size) == sizes + ([chunk] + rest) == sizes + [chunk] + rest;
    ChildrenAreSmaller(size);
    assert ChildSizes(size)[|sizes|] == chunk;
  }

  lemma Widen(size: nat, sizes: seq<nat>, remaining: nat, chunk: nat, slots: nat)
    requires Filling(size, sizes, remaining, chunk, slots) && chunk < remaining
    requires slots >= 1 && Reach(chunk, slots) < remaining
    ensures Filling(size, sizes, remaining, chunk * TUPLE_SIZE, slots)
  {
    FitsStep(remaining, chunk, slots);
  }

  /** The first loop of TupleTree::new. */
  method FirstChunkSize(size: nat) returns (currentSize: nat)
    ensures currentSize == StartChunk(size, 1)
  {
    currentSize := 1;
    while currentSize * (TUPLE_SIZE * TUPLE_SIZE) <= size
      invariant currentSize >= 1
      invariant StartChunk(size, currentSize) == StartChunk(size, 1)
      decreases size - currentSize
    {
      currentSize := currentSize * TUPLE_SIZE;
    }
  }

  /** The trees built so far, in the order the loop appends them. */
  ghost function Built(sizes: seq<nat>): (kids: seq<TupleTree>)
    ensures |kids| == |sizes|
  {
    if sizes == [] then []
    else Built(sizes[..|sizes| - 1]) + [TreeOf(sizes[|sizes| - 1], false)]
  }

  lemma BuiltAppend(sizes: seq<nat>, n: nat)
    ensures Built(sizes + [n]) == Built(sizes) + [TreeOf(n, false)]
  {
    assert (sizes + [n])[..|sizes|] == sizes;
  }

  lemma {:induction false} BuiltAt(sizes: seq<nat>, i: nat)
    requires i < |sizes|
    ensures Built(sizes)[i] == TreeOf(sizes[i], false)
  {
    if i < |sizes| - 1 { BuiltAt(sizes[..|sizes| - 1], i); }
  }

  lemma {:induction false} TreesAt(size: nat, isLocal: bool, sizes: seq<nat>, i: nat)
    requires isLocal || size != 1
    requires Smaller(sizes, size)
    requires i < |sizes|
    ensures Trees(size, isLocal, sizes)[i] == TreeOf(sizes[i], false)
  {
    if i > 0 { TreesAt(size, isLocal, sizes[1..], i - 1); }
  }

  lemma KidsAreTrees(size: nat, isLocal: bool)
    requires isLocal || size != 1
    ensures Tree(size, Built(ChildSizes(size))) == TreeOf(size, isLocal)
  {
    var sizes := ChildSizes(size);
    ChildrenAreSmaller(size);
    var kids := Trees(size, isLocal, sizes);
    forall i | 0 <= i < |sizes| ensures Built(sizes)[i] == kids[i] {
      BuiltAt(sizes, i);
      TreesAt(size, isLocal, sizes, i);
    }
    assert Built(sizes) == kids;
  }

  /** TupleTree::new. */
  method New(size: nat, isLocal: bool) returns (t: TupleTree)
    ensures t == TreeOf(size, isLocal)
    decreases size, isLocal, 2
  {
    if size == 1 && !isLocal {
      return Single;
    }
    var v := FillSlots(size, isLocal);
    KidsAreTrees(size, isLocal);
    t := Tree(size, v);
  }

  /** v.push(TupleTree::new(n, false)). */
  method PushTree(v: seq<TupleTree>, n: nat, ghost sizes: seq<nat>, ghost size: nat, ghost isLocal: bool)
    returns (v': seq<TupleTree>)
    requires v == Built(sizes) && (n < size || (n == size && isLocal))
    ensures v' == Built(sizes + [n])
    decreases size, isLocal, 0
  {
    BuiltAppend(sizes, n);
    var kid := New(n, false);
    v' := v + [kid];
  }

  /** The filling loop of TupleTree::new. */
  method FillSlots(size: nat, isLocal: bool) returns (v: seq<TupleTree>)
    requires isLocal || size != 1
    ensures v == Built(ChildSizes(size))
    decreases size, isLocal, 1
  {
    var currentSize: nat := FirstChunkSize(size);
    v := [];
    var remainingSize: nat, remainingSlots: nat := size, TUPLE_SIZE;
    ghost var sizes: seq<nat> := [];
    while remainingSize > 0
      invariant Filling(size, sizes, remainingSize, currentSize, remainingSlots)
      invariant v == Built(sizes)
      decreases remainingSize, if currentSize >= remainingSize then 0 else remainingSize - currentSize
    {
      if currentSize >= remainingSize {
        TakeRest(size, sizes, remainingSize, currentSize, remainingSlots);
        v := PushTree(v, remainingSize, sizes, size, isLocal);
        sizes := sizes + [remainingSize];
        remainingSize := 0;
      } else {
        FitsStep(remainingSize, currentSize, remainingSlots);
        if Reach(currentSize, remainingSlots) >= remainingSize {
          TakeChunk(size, sizes, remainingSize, currentSize, remainingSlots);
          v := PushTree(v, currentSize, sizes, size, isLocal);
          sizes := sizes + [currentSize];
          remainingSize, remainingSlots := remainingSize - currentSize, remainingSlots - 1;
        } else {
          Widen(size, sizes, remainingSize, currentSize, remainingSlots);
          currentSize := currentSize * TUPLE_SIZE;
        }
      }
    }
    assert sizes == ChildSizes(size);
  }

  /** The bound behind the check on the number of globals: the first of at least two slots is a
      direct child exactly when there are at most 57. */
  lemma FirstSlotIsDirect(size: nat, isLocal: bool)
    requires size >= 2
    ensures TreeOf(size, isLocal).kids != []
    ensures TreeOf(size, isLocal).kids[0] == Single <==> size <= 57
  {
    var sizes := ChildSizes(size);
    assert sizes != [] by { assert Sum([]) == 0; }
    FirstChunk(size);
    ChildrenAreSmaller(size);
    var kids := Trees(size, isLocal, sizes);
    assert TreeOf(size, isLocal) == Tree(size, kids);
    TreesAt(size, isLocal, sizes, 0);
  }

  lemma FirstChunk(size: nat)
    requires size >= 2 && ChildSizes(size) != []
    ensures ChildSizes(size)[0] == 1 <==> size <= 57
  {
    var c := StartChunk(size, 1);
    if size > 57 {
      if size >= 64 { assert c == StartChunk(size, 8); }
      ChunksStartAt(size, c, 8);
    } else {
      assert c == 1;
      FitsStep(size, 1, 8);
    }
  }

  lemma ChunksStartAt(remaining: nat, chunk: nat, slots: nat)
    requires Fits(remaining, chunk, slots) && remaining > 57 && slots == 8
    requires chunk >= 8 || (chunk == 1 && remaining < 64)
    ensures Chunks(remaining, chunk, slots)[0] >= 8
    decreases remaining, if chunk >= remaining then 0 else remaining - chunk
  {
    if chunk < remaining {
      FitsStep(remaining, chunk, slots);
      if Reach(chunk, slots) < remaining {
        ChunksStartAt(remaining, chunk * TUPLE_SIZE, slots);
      }
    }
  }

  // ----- nested values -----

  /** The nested tuple whose leaves are vals from left to right. */
  function MakeValue(t: TupleTree, vals: seq<Value>): Value
    requires WellFormed(t) && |vals| == Tsize(t)
    decreases t, 1
  {
    match t
    case Single => vals[0]
    case Tree(_, kids) => Tuple(MakeValues(kids, vals))
  }

  function MakeValues(kids: seq<TupleTree>, vals: seq<Value>): (vs: seq<Value>)
    requires AllWellFormed(kids) && |vals| == SumSizes(kids)
    ensures |vs| == |kids|
    decreases kids, 0
  {
    if kids == [] then []
    else
      var n := Tsize(kids[0]);
      [MakeValue(kids[0], vals[..n])] + MakeValues(kids[1..], vals[n..])
  }

  /** The inverse view: the leaves of a value laid out as t, or None if it is not. */
  function Flatten(t: TupleTree, v: Value): (r: Option<seq<Value>>)
    requires WellFormed(t)
    ensures r.Some? ==> |r.value| == Tsize(t) && MakeValue(t, r.value) == v
    decreases t, 1
  {
    match t
    case Single => Some([v])
    case Tree(_, kids) =>
      if v.Tuple? && |v.elems| == |kids| then FlattenKids(kids, v.elems) else None
  }

  function FlattenKids(kids: seq<TupleTree>, vs: seq<Value>): (r: Option<seq<Value>>)
    requires AllWellFormed(kids) && |vs| == |kids|
    ensures r.Some? ==> |r.value| == SumSizes(kids) && MakeValues(kids, r.value) == vs
    decreases kids, 0
  {
    if kids == [] then Some([])
    else
      var first, rest := Flatten(kids[0], vs[0]), FlattenKids(kids[1..], vs[1..]);
      if first.Some? && rest.Some? then
        var vals := first.value + rest.value;
        assert vals[..Tsize(kids[0])] == first.value && vals[Tsize(kids[0])..] == rest.value;
        Some(vals)
      else None
  }

  lemma {:induction false} FlattenMake(t: TupleTree, vals: seq<Value>)
    requires WellFormed(t) && |vals| == Tsize(t)
    ensures Flatten(t, MakeValue(t, vals)) == Some(vals)
    decreases t, 1
  {
    match t
    case Single => assert vals == [vals[0]];
    case Tree(_, kids) => FlattenMakeKids(kids, vals);
  }

  lemma {:induction false} FlattenMakeKids(kids: seq<TupleTree>, vals: seq<Value>)
    requires AllWellFormed(kids) && |vals| == SumSizes(kids)
    ensures FlattenKids(kids, MakeValues(kids, vals)) == Some(vals)
    decreases kids, 0
  {
    if kids != [] {
      var n := Tsize(kids[0]);
      FlattenMake(kids[0], vals[..n]);
      FlattenMakeKids(kids[1..], vals[n..]);
      assert vals == vals[..n] + vals[n..];
    }
  }

  function Nones(n: nat): (vs: seq<Value>)
    ensures |vs| == n && forall i :: 0 <= i < n ==> vs[i] == NONE
  {
    seq(n, _ => NONE)
  }

  /** make_empty recurses like make_value with nothing at the leaves. */
  function MakeEmpty(t: TupleTree): (v: Value)
    requires WellFormed(t)
    ensures v == MakeValue(t, Nones(Tsize(t)))
    decreases t, 1
  {
    match t
    case Single => Tuple([])
    case Tree(_, kids) => Tuple(EmptyKids(kids))
  }

  function EmptyKids(kids: seq<TupleTree>): (vs: seq<Value>)
    requires AllWellFormed(kids)
    ensures vs == MakeValues(kids, Nones(SumSizes(kids)))
    decreases kids, 0
  {
    if kids == [] then []
    else
      var n, total := Tsize(kids[0]), SumSizes(kids);
      assert Nones(total)[..n] == Nones(n) && Nones(total)[n..] == Nones(total - n);
      [MakeEmpty(kids[0])] + EmptyKids(kids[1..])
  }

  lemma {:induction false} EmptyHasNoLabels(t: TupleTree)
    requires WellFormed(t)
    ensures RefsIn(MakeEmpty(t)) == {}
    decreases t, 1
  {
    if t.Tree? { EmptyKidsHaveNoLabels(t.kids); }
  }

  lemma {:induction false} EmptyKidsHaveNoLabels(kids: seq<TupleTree>)
    requires AllWellFormed(kids)
    ensures forall i :: 0 <= i < |kids| ==> RefsIn(EmptyKids(kids)[i]) == {}
    decreases kids, 0
  {
    if kids != [] {
      EmptyHasNoLabels(kids[0]);
      EmptyKidsHaveNoLabels(kids[1..]);
    }
  }

  /** The accumulating loops of make_value_2: the value built and the values not consumed. */
  method MakeValue2(t: TupleTree, vals: seq<Value>) returns (v: Value, rest: seq<Value>)
    requires WellFormed(t) && |vals| >= Tsize(t)
    ensures v == MakeValue(t, vals[..Tsize(t)]) && rest == vals[Tsize(t)..]
    decreases t
  {
    if t.Single? {
      return vals[0], vals[1..];
    }
    var ret: seq<Value> := [];
    rest := vals;
    ghost var used := 0;
    for i := 0 to |t.kids|
      invariant 0 <= used <= |vals| && rest == vals[used..]
      invariant used + SumSizes(t.kids[i..]) == t.size
      invariant MakeValues(t.kids, vals[..t.size]) == ret + MakeFront(t.kids[i..], rest)
    {
      ghost var kids := t.kids[i..];
      assert kids[0] == t.kids[i] && kids[1..] == t.kids[i + 1..];
      MakeFrontStep(kids, rest);
      var sub, newVals := MakeValue2(t.kids[i], rest);
      assert ret + ([sub] + MakeFront(kids[1..], newVals)) == ret + [sub] + MakeFront(kids[1..], newVals);
      used := used + Tsize(t.kids[i]);
      ret, rest := ret + [sub], newVals;
    }
    v := Tuple(ret);
  }

  /** MakeValues on as much of vals as the children need. */
  ghost function MakeFront(kids: seq<TupleTree>, vals: seq<Value>): (vs: seq<Value>)
    requires AllWellFormed(kids) && |vals| >= SumSizes(kids)
  {
    MakeValues(kids, vals[..SumSizes(kids)])
  }

  lemma MakeFrontStep(kids: seq<TupleTree>, vals: seq<Value>)
    requires AllWellFormed(kids) && kids != [] && |vals| >= SumSizes(kids)
    ensures var n := Tsize(kids[0]);
            MakeFront(kids, vals) == [MakeValue(kids[0], vals[..n])] + MakeFront(kids[1..], vals[n..])
  {
    var n, total := Tsize(kids[0]), SumSizes(kids);
    assert vals[..total][..n] == vals[..n] && vals[..total][n..] == vals[n..][..total - n];
  }

  /** value_from_field_list and jump_table_to_value build the tree for the list's own length. */
  function ValueFromFieldList(fields: seq<Value>): (v: Value)
    ensures Flatten(TreeOf(|fields|, false), v) == Some(fields)
  {
    FlattenMake(TreeOf(|fields|, false), fields);
    MakeValue(TreeOf(|fields|, false), fields)
  }

  // ----- replacing the last empty slot -----

  /** replace_last_none; None where the source panics. */
  function ReplaceLastNone(v: Value, x: Value): Option<Value> {
    if v == NONE then Some(x)
    else if v.Tuple? then
      var last := |v.elems| - 1;
      var r := ReplaceLastNone(v.elems[last], x);
      if r.Some? then Some(Tuple(v.elems[last := r.value])) else None
    else None
  }

  /** On an empty table it fills exactly the last slot. */
  lemma {:induction false} ReplaceLastNoneFillsLastSlot(t: TupleTree, x: Value)
    requires WellFormed(t) && Tsize(t) >= 1
    ensures var n := Tsize(t);
            ReplaceLastNone(MakeEmpty(t), x) == Some(MakeValue(t, Nones(n)[n - 1 := x]))
    decreases t
  {
    if t.Tree? {
      var k := |t.kids| - 1;
      assert k >= 0;
      LastKid(t.kids, x);
      ReplaceLastNoneFillsLastSlot(t.kids[k], x);
    }
  }

  lemma {:induction false} LastKid(kids: seq<TupleTree>, x: Value)
    requires AllWellFormed(kids) && kids != []
    ensures var n, k := SumSizes(kids), |kids| - 1;
            var m := Tsize(kids[k]);
            && n >= 1
            && MakeValues(kids, Nones(n))[k] == MakeEmpty(kids[k])
            && MakeValues(kids, Nones(n)[n - 1 := x]) ==
               MakeValues(kids, Nones(n))[k := MakeValue(kids[k], Nones(m)[m - 1 := x])]
  {
    var n, m := SumSizes(kids), Tsize(kids[0]);
    SplitNones(n, m, x);
    if |kids| > 1 { LastKid(kids[1..], x); }
  }

  lemma SplitNones(n: nat, m: nat, x: Value)
    requires 1 <= m <= n
    ensures Nones(n)[..m] == Nones(m) && Nones(n)[m..] == Nones(n - m)
    ensures if m == n then Nones(n)[n - 1 := x][..m] == Nones(m)[m - 1 := x] && Nones(n)[n - 1 := x][m..] == []
            else Nones(n)[n - 1 := x][..m] == Nones(m) && Nones(n)[n - 1 := x][m..] == Nones(n - m)[n - m - 1 := x]
  {
  }
}
