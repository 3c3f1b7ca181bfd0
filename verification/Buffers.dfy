/** The persistent Merkle buffer of src/mavm.rs: a binary tree whose root doubles when a write
    falls outside it and whose inner nodes cache a hash. Keccak is a parameter of the model. */
module Buffers {

  type Byte = b: nat | b < 256 witness 0

  const LEAF_SIZE: nat := 32

  /** One more than usize::MAX. */
  const USIZE_LIMIT: nat := 0x1_0000_0000_0000_0000

  /** The two uses of Keccak-256: on a leaf's bytes and on two concatenated child hashes. */
  datatype Hasher = Hasher(leaf: seq<Byte> -> nat, pair: (nat, nat) -> nat)

  datatype Node =
    | Leaf(bytes: seq<Byte>)
    | Internal(height: nat, capacity: nat, left: Node, right: Node, hash: nat)

  datatype Buffer = Buffer(root: Node, size: nat)

  datatype WriteOp = WriteOp(offset: nat, value: Byte)

  function Zeros(n: nat): (z: seq<Byte>)
    ensures |z| == n && forall i :: 0 <= i < n ==> z[i] == 0
  {
    seq(n, _ => 0)
  }

  // ----- the source's operations -----

  function HashOf(h: Hasher, n: Node): nat {
    if n.Leaf? then h.leaf(n.bytes) else n.hash
  }

  function NewInternal(h: Hasher, height: nat, capacity: nat, left: Node, right: Node): Node {
    Internal(height, capacity, left, right, h.pair(HashOf(h, left), HashOf(h, right)))
  }

  const EMPTY_LEAF: Node := Leaf(Zeros(LEAF_SIZE))

  /** An all-zero subtree. A node of height 1 already has two leaf children, so every leaf of
      such a subtree stores only 16 of its 32 bytes. */
  function NewEmptyInternal(h: Hasher, height: nat, capacity: nat): Node
    requires height >= 1
  {
    var child := if height == 1 then EMPTY_LEAF else NewEmptyInternal(h, height - 1, capacity / 2);
    NewInternal(h, height, capacity, child, child)
  }

  function Grow(h: Hasher, n: Node): Node
    requires n.Internal? && n.height >= 1
  {
    NewInternal(h, n.height + 1, n.capacity * 2, n, NewEmptyInternal(h, n.height, n.capacity))
  }

  function GrowFromLeaf(h: Hasher, n: Node): Node
    requires n.Leaf?
  {
    NewInternal(h, 2, 2 * LEAF_SIZE, n, EMPTY_LEAF)
  }

  /** The offsets a node can hold without growing. */
  function Extent(n: Node): nat {
    if n.Leaf? then LEAF_SIZE else n.capacity
  }

  /** What reading and writing need of a node: leaves hold 32 bytes, no internal node has height or
      capacity zero, and a child can hold its half. */
  predicate Sound(n: Node) {
    match n
    case Leaf(bytes) => |bytes| == LEAF_SIZE
    case Internal(height, capacity, left, right, _) =>
      && height >= 1 && capacity >= 1
      && Sound(left) && Sound(right)
      && capacity / 2 <= Extent(left)
      && capacity - capacity / 2 <= Extent(right)
  }

  function NodeRead(n: Node, offset: nat): Byte
    requires Sound(n) && offset < Extent(n)
  {
    match n
    case Leaf(bytes) => bytes[offset]
    case Internal(_, capacity, left, right, _) =>
      if offset < capacity / 2 then NodeRead(left, offset) else NodeRead(right, offset - capacity / 2)
  }

  lemma EmptyIsSound(h: Hasher, height: nat, capacity: nat)
    requires height >= 1 && capacity == Capacity(height)
    ensures Sound(NewEmptyInternal(h, height, capacity))
  {
  }

  /** Bytes held by a tree of the given height. */
  function Capacity(height: nat): (c: nat)
    requires height >= 1
    ensures c >= LEAF_SIZE
  {
    if height == 1 then LEAF_SIZE else 2 * Capacity(height - 1)
  }

  function Half(height: nat): (half: nat)
    requires height >= 1
    ensures Capacity(height) == 2 * half && Capacity(height) / 2 == half
  {
    if height == 1 then 16 else Capacity(height - 1)
  }

  /** Writing one byte. Only a node reached with an offset beyond its capacity grows; the last
      precondition says that a node that may have to grow has the capacity its height promises. */
  function NodeSet(h: Hasher, n: Node, offset: nat, value: Byte): Node
    requires Sound(n)
    requires offset >= Extent(n) && n.Internal? ==> n.capacity == Capacity(n.height)
    decreases if offset < Extent(n) then 0 else offset - Extent(n) + 1, n
  {
    match n
    case Leaf(bytes) =>
      if offset < LEAF_SIZE then Leaf(bytes[offset := value])
      else
        assert Capacity(2) == 2 * Capacity(1) && Sound(EMPTY_LEAF);
        NodeSet(h, GrowFromLeaf(h, n), offset, value)
    case Internal(height, capacity, left, right, _) =>
      if offset < capacity / 2 then
        NewInternal(h, height, capacity, NodeSet(h, left, offset, value), right)
      else if offset < capacity then
        NewInternal(h, height, capacity, left, NodeSet(h, right, offset - capacity / 2, value))
      else
        EmptyIsSound(h, height, capacity);
        NodeSet(h, Grow(h, n), offset, value)
  }

  /** Writing a byte into a tree that already covers it: no node of the tree is replaced by a
      larger one. */
  function SetWithin(h: Hasher, n: Node, offset: nat, value: Byte): Node
    requires Sound(n) && offset < Extent(n)
  {
    match n
    case Leaf(bytes) => Leaf(bytes[offset := value])
    case Internal(height, capacity, left, right, _) =>
      if offset < capacity / 2 then
        NewInternal(h, height, capacity, SetWithin(h, left, offset, value), right)
      else
        NewInternal(h, height, capacity, left, SetWithin(h, right, offset - capacity / 2, value))
  }

  /** Only a root grows: below an in-range offset every recursive call is in range. */
  lemma {:induction false} OnlyRootGrows(h: Hasher, n: Node, offset: nat, value: Byte)
    requires Sound(n) && offset < Extent(n)
    ensures NodeSet(h, n, offset, value) == SetWithin(h, n, offset, value)
  {
    if n.Internal? {
      if offset < n.capacity / 2 {
        OnlyRootGrows(h, n.left, offset, value);
      } else {
        OnlyRootGrows(h, n.right, offset - n.capacity / 2, value);
      }
    }
  }

  const NEW_EMPTY: Buffer := Buffer(EMPTY_LEAF, 0)

  predicate ValidBuffer(b: Buffer) {
    && Sound(b.root)
    && b.size <= Extent(b.root)
    && (b.root.Internal? ==> b.root.capacity == Capacity(b.root.height))
  }

  function ReadByte(b: Buffer, offset: nat): Byte
    requires ValidBuffer(b)
  {
    if offset >= b.size then 0 else NodeRead(b.root, offset)
  }

  function SetByte(h: Hasher, b: Buffer, offset: nat, value: Byte): Buffer
    requires ValidBuffer(b)
  {
    Buffer(NodeSet(h, b.root, offset, value), if offset >= b.size then offset + 1 else b.size)
  }

  // ----- the plain byte map and the canonical tree for it -----

  /** The reference: a byte string that a write past the end first pads with zeros. */
  function Write(data: seq<Byte>, offset: nat, value: Byte): seq<Byte> {
    if offset < |data| then data[offset := value]
    else data + Zeros(offset - |data|) + [value]
  }

  /** The height whose capacity first reaches size, starting the search at from. */
  function Levels(size: nat, from: nat): (height: nat)
    requires from >= 1
    ensures height >= from && size <= Capacity(height)
    ensures height > from ==> Capacity(height - 1) < size
    decreases if size <= Capacity(from) then 0 else size - Capacity(from)
  {
    if size <= Capacity(from) then from else Levels(size, from + 1)
  }

  /** The tree new_empty_internal makes, with bs as its contents. */
  function Fill(h: Hasher, height: nat, bs: seq<Byte>): Node
    requires height >= 1 && |bs| == Capacity(height)
  {
    var half := Half(height);
    if height == 1 then
      NewInternal(h, 1, |bs|, Leaf(bs[..half] + Zeros(16)), Leaf(bs[half..] + Zeros(16)))
    else
      NewInternal(h, height, |bs|, Fill(h, height - 1, bs[..half]), Fill(h, height - 1, bs[half..]))
  }

  /** The tree a root of the given height is, with bs as its contents. */
  function Root(h: Hasher, height: nat, bs: seq<Byte>): Node
    requires height >= 1 && |bs| == Capacity(height)
  {
    var half := Half(height);
    if height == 1 then Leaf(bs)
    else if height == 2 then NewInternal(h, 2, |bs|, Leaf(bs[..half]), Leaf(bs[half..]))
    else NewInternal(h, height, |bs|, Root(h, height - 1, bs[..half]), Fill(h, height - 1, bs[half..]))
  }

  function Padded(data: seq<Byte>, height: nat): (bs: seq<Byte>)
    requires height >= 1 && |data| <= Capacity(height)
    ensures |bs| == Capacity(height)
  {
    data + Zeros(Capacity(height) - |data|)
  }

  // ----- how the operations act on canonical trees -----

  lemma SetInHalf(h: Hasher, height: nat, cap: nat, l: Node, r: Node, offset: nat, value: Byte)
    requires Sound(NewInternal(h, height, cap, l, r)) && offset < cap
    ensures SetWithin(h, NewInternal(h, height, cap, l, r), offset, value) ==
            if offset < cap / 2 then NewInternal(h, height, cap, SetWithin(h, l, offset, value), r)
            else NewInternal(h, height, cap, l, SetWithin(h, r, offset - cap / 2, value))
  {
  }

  lemma {:induction false} FillReads(h: Hasher, height: nat, bs: seq<Byte>, offset: nat)
    requires height >= 1 && |bs| == Capacity(height) && offset < |bs|
    ensures Sound(Fill(h, height, bs)) && Fill(h, height, bs).capacity == |bs|
    ensures NodeRead(Fill(h, height, bs), offset) == bs[offset]
  {
    var half := Half(height);
    if height > 1 {
      FillReads(h, height - 1, bs[..half], if offset < half then offset else 0);
      FillReads(h, height - 1, bs[half..], if offset < half then 0 else offset - half);
    }
  }

  /** An update in one half of a byte string leaves the other half alone. */
  lemma UpdateHalves(bs: seq<Byte>, half: nat, offset: nat, value: Byte)
    requires half <= |bs| && offset < |bs|
    ensures var bs' := bs[offset := value];
            if offset < half then bs'[..half] == bs[..half][offset := value] && bs'[half..] == bs[half..]
            else bs'[..half] == bs[..half] && bs'[half..] == bs[half..][offset - half := value]
  {
  }

  lemma FillSetsBase(h: Hasher, bs: seq<Byte>, offset: nat, value: Byte)
    requires |bs| == Capacity(1) && offset < |bs| && Sound(Fill(h, 1, bs))
    ensures SetWithin(h, Fill(h, 1, bs), offset, value) == Fill(h, 1, bs[offset := value])
  {
    UpdateHalves(bs, 16, offset, value);
    var l, r := bs[..16], bs[16..];
    if offset < 16 {
      assert (l + Zeros(16))[offset := value] == l[offset := value] + Zeros(16);
    } else {
      assert (r + Zeros(16))[offset - 16 := value] == r[offset - 16 := value] + Zeros(16);
    }
  }

  lemma {:induction false} FillSets(h: Hasher, height: nat, bs: seq<Byte>, offset: nat, value: Byte)
    requires height >= 1 && |bs| == Capacity(height) && offset < |bs|
    ensures Sound(Fill(h, height, bs)) && Fill(h, height, bs).capacity == |bs|
    ensures SetWithin(h, Fill(h, height, bs), offset, value) == Fill(h, height, bs[offset := value])
  {
    FillReads(h, height, bs, offset);
    if height == 1 {
      FillSetsBase(h, bs, offset, value);
    } else {
      var half := Half(height);
      var bl, br := bs[..half], bs[half..];
      SetInHalf(h, height, |bs|, Fill(h, height - 1, bl), Fill(h, height - 1, br), offset, value);
      UpdateHalves(bs, half, offset, value);
      if offset < half {
        FillSets(h, height - 1, bl, offset, value);
      } else {
        FillSets(h, height - 1, br, offset - half, value);
      }
    }
  }

  lemma {:induction false} RootReads(h: Hasher, height: nat, bs: seq<Byte>, offset: nat)
    requires height >= 1 && |bs| == Capacity(height) && offset < |bs|
    ensures Sound(Root(h, height, bs)) && Extent(Root(h, height, bs)) == |bs|
    ensures NodeRead(Root(h, height, bs), offset) == bs[offset]
  {
    var half := Half(height);
    if height > 2 {
      RootReads(h, height - 1, bs[..half], if offset < half then offset else 0);
      FillReads(h, height - 1, bs[half..], if offset < half then 0 else offset - half);
    }
  }

  lemma RootSetsTwo(h: Hasher, bs: seq<Byte>, offset: nat, value: Byte)
    requires |bs| == Capacity(2) && offset < |bs| && Sound(Root(h, 2, bs))
    ensures SetWithin(h, Root(h, 2, bs), offset, value) == Root(h, 2, bs[offset := value])
  {
    SetInHalf(h, 2, 64, Leaf(bs[..32]), Leaf(bs[32..]), offset, value);
    UpdateHalves(bs, 32, offset, value);
  }

  lemma {:induction false} RootSets(h: Hasher, height: nat, bs: seq<Byte>, offset: nat, value: Byte)
    requires height >= 1 && |bs| == Capacity(height) && offset < |bs|
    ensures Sound(Root(h, height, bs)) && Extent(Root(h, height, bs)) == |bs|
    ensures SetWithin(h, Root(h, height, bs), offset, value) == Root(h, height, bs[offset := value])
  {
    RootReads(h, height, bs, offset);
    if height == 2 {
      RootSetsTwo(h, bs, offset, value);
    } else if height > 2 {
      var half := Half(height);
      var bl, br := bs[..half], bs[half..];
      SetInHalf(h, height, |bs|, Root(h, height - 1, bl), Fill(h, height - 1, br), offset, value);
      UpdateHalves(bs, half, offset, value);
      if offset < half {
        RootSets(h, height - 1, bl, offset, value);
      } else {
        FillSets(h, height - 1, br, offset - half, value);
      }
    }
  }

  lemma {:induction false} EmptyIsFill(h: Hasher, height: nat)
    requires height >= 1
    ensures NewEmptyInternal(h, height, Capacity(height)) == Fill(h, height, Zeros(Capacity(height)))
  {
    var zs := Zeros(Capacity(height));
    var half := Half(height);
    assert zs[..half] == zs[half..] == Zeros(half);
    if height == 1 {
      assert Zeros(half) + Zeros(16) == Zeros(LEAF_SIZE);
    } else {
      EmptyIsFill(h, height - 1);
    }
  }

  /** Growing a root keeps its bytes and adds as many zeros. */
  lemma GrowPads(h: Hasher, height: nat, bs: seq<Byte>)
    requires height >= 2 && |bs| == Capacity(height)
    ensures Grow(h, Root(h, height, bs)) == Root(h, height + 1, bs + Zeros(|bs|))
  {
    var bs' := bs + Zeros(|bs|);
    assert bs'[..|bs|] == bs && bs'[|bs|..] == Zeros(|bs|);
    EmptyIsFill(h, height);
  }

  lemma ZerosAppend(bs: seq<Byte>, a: nat, b: nat)
    ensures bs + Zeros(a) + Zeros(b) == bs + Zeros(a + b)
    ensures bs + Zeros(0) == bs
  {
  }

  /** The height and the bytes of a root. */
  datatype Contents = Contents(height: nat, bs: seq<Byte>)

  predicate Full(c: Contents) {
    c.height >= 1 && |c.bs| == Capacity(c.height)
  }

  function RootOf(h: Hasher, c: Contents): Node
    requires Full(c)
  {
    Root(h, c.height, c.bs)
  }

  /** Pads the contents to the height a write at offset needs, and writes the byte. */
  function Place(c: Contents, offset: nat, value: Byte): (c': Contents)
    requires Full(c)
    ensures Full(c')
  {
    var top := Levels(offset + 1, c.height);
    CapacityMonotone(c.height, top);
    Contents(top, (c.bs + Zeros(Capacity(top) - Capacity(c.height)))[offset := value])
  }

  function Doubled(c: Contents): (c': Contents)
    requires Full(c)
    ensures Full(c')
  {
    Contents(c.height + 1, c.bs + Zeros(|c.bs|))
  }

  lemma PlaceAfterGrowth(c: Contents, offset: nat, value: Byte)
    requires Full(c) && |c.bs| <= offset
    ensures Place(c, offset, value) == Place(Doubled(c), offset, value)
  {
    var top := Levels(offset + 1, c.height + 1);
    CapacityMonotone(c.height + 1, top);
    ZerosAppend(c.bs, |c.bs|, Capacity(top) - 2 * |c.bs|);
  }

  /** A root fit for writing anywhere. */
  lemma RootSound(h: Hasher, c: Contents)
    requires Full(c)
    ensures var n := RootOf(h, c);
            Sound(n) && Extent(n) == |c.bs| && (n.Internal? ==> n.capacity == Capacity(n.height))
  {
    RootReads(h, c.height, c.bs, 0);
  }

  lemma SetsInRange(h: Hasher, c: Contents, offset: nat, value: Byte)
    requires Full(c) && offset < |c.bs|
    requires Sound(RootOf(h, c)) && Extent(RootOf(h, c)) == |c.bs|
    ensures NodeSet(h, RootOf(h, c), offset, value) == RootOf(h, Place(c, offset, value))
  {
    ZerosAppend(c.bs, 0, 0);
    RootSets(h, c.height, c.bs, offset, value);
    OnlyRootGrows(h, RootOf(h, c), offset, value);
  }

  /** A write anywhere lands in the root of the smallest sufficient height. */
  lemma {:induction false} RootSetsAnywhere(h: Hasher, c: Contents, offset: nat, value: Byte)
    requires Full(c)
    requires var n := RootOf(h, c); Sound(n) && (n.Internal? ==> n.capacity == Capacity(n.height))
    ensures NodeSet(h, RootOf(h, c), offset, value) == RootOf(h, Place(c, offset, value))
    decreases if offset < |c.bs| then 0 else offset - |c.bs| + 1
  {
    RootSound(h, c);
    if offset < |c.bs| {
      SetsInRange(h, c, offset, value);
    } else {
      GrowStep(h, c, offset, value);
      RootSetsAnywhere(h, Doubled(c), offset, value);
      PlaceAfterGrowth(c, offset, value);
    }
  }

  /** A write past a root is the same write on the grown root. */
  lemma GrowStep(h: Hasher, c: Contents, offset: nat, value: Byte)
    requires Full(c) && |c.bs| <= offset
    requires Sound(RootOf(h, c)) && Extent(RootOf(h, c)) == |c.bs|
    ensures var n := RootOf(h, Doubled(c));
            && Sound(n) && n.capacity == Capacity(n.height)
            && NodeSet(h, RootOf(h, c), offset, value) == NodeSet(h, n, offset, value)
  {
    RootSound(h, Doubled(c));
    if c.height == 1 {
      var bs' := c.bs + Zeros(|c.bs|);
      assert bs'[..32] == c.bs && bs'[32..] == Zeros(32);
    } else {
      GrowPads(h, c.height, c.bs);
    }
  }

  lemma {:induction false} LevelsUnique(size: nat, from: nat, height: nat)
    requires 1 <= from <= height && size <= Capacity(height)
    requires height > from ==> Capacity(height - 1) < size
    ensures Levels(size, from) == height
    decreases height - from
  {
    if from < height {
      CapacityMonotone(from, height - 1);
      LevelsUnique(size, from + 1, height);
    }
  }

  lemma {:induction false} CapacityMonotone(a: nat, b: nat)
    requires 1 <= a <= b
    ensures Capacity(a) <= Capacity(b)
  {
    if a < b { CapacityMonotone(a, b - 1); }
  }

  // ----- main results -----

  function ContentsOf(data: seq<Byte>): (c: Contents)
    ensures Full(c)
  {
    var height := Levels(|data|, 1);
    Contents(height, Padded(data, height))
  }

  /** The only buffer that represents data. */
  function Canonical(h: Hasher, data: seq<Byte>): Buffer {
    Buffer(RootOf(h, ContentsOf(data)), |data|)
  }

  lemma CanonicalValid(h: Hasher, data: seq<Byte>)
    ensures ValidBuffer(Canonical(h, data))
  {
    RootSound(h, ContentsOf(data));
  }

  /** The padded contents after a write, and the height they need. */
  lemma PlaceIsWrite(data: seq<Byte>, offset: nat, value: Byte)
    ensures Place(ContentsOf(data), offset, value) == ContentsOf(Write(data, offset, value))
  {
    var height, data' := Levels(|data|, 1), Write(data, offset, value);
    var top := Levels(offset + 1, height);
    CapacityMonotone(height, top);
    LevelsUnique(|data'|, 1, top);
    ZerosAppend(data, Capacity(height) - |data|, Capacity(top) - Capacity(height));
    assert (data + Zeros(Capacity(top) - |data|))[offset := value] == Padded(data', top);
  }

  /** One write on the canonical buffer of data gives the canonical buffer of the written data:
      contents, size, shape and every cached hash. */
  lemma SetByteCanonical(h: Hasher, data: seq<Byte>, offset: nat, value: Byte)
    ensures ValidBuffer(Canonical(h, data))
    ensures SetByte(h, Canonical(h, data), offset, value) == Canonical(h, Write(data, offset, value))
  {
    CanonicalValid(h, data);
    RootSetsAnywhere(h, ContentsOf(data), offset, value);
    PlaceIsWrite(data, offset, value);
  }

  /** Reads return the byte at the offset, or zero past the end. */
  lemma ReadByteCanonical(h: Hasher, data: seq<Byte>, offset: nat)
    ensures ValidBuffer(Canonical(h, data))
    ensures ReadByte(Canonical(h, data), offset) == if offset < |data| then data[offset] else 0
  {
    var height := Levels(|data|, 1);
    RootReads(h, height, Padded(data, height), if offset < |data| then offset else 0);
  }

  /** Applies writes from first to last to the empty buffer. */
  function Replay(h: Hasher, ws: seq<WriteOp>): (b: Buffer)
    ensures b == Canonical(h, ReplayBytes(ws)) && ValidBuffer(b)
  {
    if ws == [] then
      assert Zeros(LEAF_SIZE) == Padded([], 1);
      NEW_EMPTY
    else
      var last := ws[|ws| - 1];
      var b := Replay(h, ws[..|ws| - 1]);
      SetByteCanonical(h, ReplayBytes(ws[..|ws| - 1]), last.offset, last.value);
      CanonicalValid(h, ReplayBytes(ws));
      SetByte(h, b, last.offset, last.value)
  }

  function ReplayBytes(ws: seq<WriteOp>): seq<Byte> {
    if ws == [] then []
    else var last := ws[|ws| - 1]; Write(ReplayBytes(ws[..|ws| - 1]), last.offset, last.value)
  }

  /** History independence: two write histories that agree on the size and on every readable byte
      build the same tree, node for node, with the same hashes. */
  lemma HistoryIndependent(h: Hasher, ws: seq<WriteOp>, ws': seq<WriteOp>)
    requires Replay(h, ws).size == Replay(h, ws').size
    requires forall i :: 0 <= i < Replay(h, ws).size ==>
                           ReadByte(Replay(h, ws), i) == ReadByte(Replay(h, ws'), i)
    ensures Replay(h, ws) == Replay(h, ws')
    ensures HashOf(h, Replay(h, ws).root) == HashOf(h, Replay(h, ws').root)
  {
    var d, d' := ReplayBytes(ws), ReplayBytes(ws');
    assert |d| == |d'|;
    forall i | 0 <= i < |d| ensures d[i] == d'[i] {
      ReadByteCanonical(h, d, i);
      ReadByteCanonical(h, d', i);
      assert ReadByte(Replay(h, ws), i) == ReadByte(Replay(h, ws'), i);
    }
    assert d == d';
  }

  /** Agreeing on every byte is not enough: writing a zero past the end changes the tree, because
      the size is part of a buffer and decides its height. */
  lemma SizeMatters(h: Hasher)
    ensures var b := Replay(h, [WriteOp(32, 0)]);
            (forall i :: ReadByte(b, i) == ReadByte(NEW_EMPTY, i)) && b.root != NEW_EMPTY.root
  {
    var ws := [WriteOp(32, 0)];
    assert ws[..0] == [];
    assert ReplayBytes(ws) == Zeros(32) + [0] == Zeros(33);
    forall i: nat ensures ReadByte(Replay(h, ws), i) == 0 { ReadByteCanonical(h, Zeros(33), i); }
  }

  /** Beyond one leaf the capacity is less than twice the size. */
  lemma ExtentBound(h: Hasher, data: seq<Byte>)
    ensures Extent(Canonical(h, data).root) == LEAF_SIZE || Extent(Canonical(h, data).root) < 2 * |data|
  {
    var height := Levels(|data|, 1);
    RootSound(h, ContentsOf(data));
    assert Extent(Canonical(h, data).root) == Capacity(height);
    assert height > 1 ==> Capacity(height) == 2 * Capacity(height - 1);
  }

  /** With offsets below 2^127 no capacity computed by growing overflows 128 bits. */
  lemma CapacityFits(h: Hasher, ws: seq<WriteOp>)
    requires forall w :: w in ws ==> w.offset < 0x8000_0000_0000_0000_0000_0000_0000_0000
    ensures Extent(Replay(h, ws).root) < 0x1_0000_0000_0000_0000_0000_0000_0000_0000
  {
    SizeBound(ws);
    ExtentBound(h, ReplayBytes(ws));
  }

  lemma {:induction false} SizeBound(ws: seq<WriteOp>)
    requires forall w :: w in ws ==> w.offset < 0x8000_0000_0000_0000_0000_0000_0000_0000
    ensures |ReplayBytes(ws)| <= 0x8000_0000_0000_0000_0000_0000_0000_0000
  {
    if ws != [] {
      assert ws[|ws| - 1] in ws;
      SizeBound(ws[..|ws| - 1]);
    }
  }

  method FromBytes(h: Hasher, contents: seq<Byte>) returns (b: Buffer)
    ensures b == Canonical(h, contents)
  {
    b := NEW_EMPTY;
    assert b == Replay(h, []);
    for i := 0 to |contents|
      invariant b == Canonical(h, contents[..i])
    {
      SetByteCanonical(h, contents[..i], i, contents[i]);
      assert Write(contents[..i], i, contents[i]) == contents[..i + 1];
      b := SetByte(h, b, i, contents[i]);
    }
    assert contents[..|contents|] == contents;
  }

  method AsBytes(b: Buffer, nbytes: nat) returns (bytes: seq<Byte>)
    requires ValidBuffer(b)
    ensures |bytes| == nbytes && forall i :: 0 <= i < nbytes ==> bytes[i] == ReadByte(b, i)
  {
    bytes := [];
    for i := 0 to nbytes
      invariant |bytes| == i && forall j :: 0 <= j < i ==> bytes[j] == ReadByte(b, j)
    {
      bytes := bytes + [ReadByte(b, i)];
    }
  }

  /** What serialising and reading back makes of a buffer: the size is a u128, and is cut to a usize
      to count the bytes that are written out. */
  function Reread(h: Hasher, data: seq<Byte>): Buffer {
    Canonical(h, data[..|data| % USIZE_LIMIT])
  }

  lemma RereadExact(h: Hasher, data: seq<Byte>)
    ensures Reread(h, data) == Canonical(h, data) <==> |data| < USIZE_LIMIT
  {
    if |data| < USIZE_LIMIT { assert data[..|data| % USIZE_LIMIT] == data; }
  }

  /** Serialising a buffer and reading it back gives the same buffer exactly when its size is a usize. */
  method SerializeRoundTrip(h: Hasher, ws: seq<WriteOp>) returns (b: Buffer)
    ensures b == Reread(h, ReplayBytes(ws))
    ensures b == Replay(h, ws) <==> Replay(h, ws).size < USIZE_LIMIT
  {
    var original := Replay(h, ws);
    ghost var data := ReplayBytes(ws);
    var bytes := Serialized(h, original, data);
    b := FromBytes(h, bytes);
    RereadExact(h, data);
  }

  method Serialized(h: Hasher, b: Buffer, ghost data: seq<Byte>) returns (bytes: seq<Byte>)
    requires b == Canonical(h, data) && ValidBuffer(b)
    ensures bytes == data[..|data| % USIZE_LIMIT]
  {
    bytes := AsBytes(b, b.size % USIZE_LIMIT);
    forall i | 0 <= i < |bytes| ensures bytes[i] == data[i] { ReadByteCanonical(h, data, i); }
  }

  /** One byte at the last offset a program can write to: nothing is read back. */
  lemma LastByteIsLost(h: Hasher, value: Byte)
    ensures var ws := [WriteOp(USIZE_LIMIT - 1, value)];
            Reread(h, ReplayBytes(ws)) == NEW_EMPTY && ReadByte(Replay(h, ws), USIZE_LIMIT - 1) == value
  {
    var ws := [WriteOp(USIZE_LIMIT - 1, value)];
    assert ws[..0] == [];
    assert ReplayBytes(ws) == Write([], USIZE_LIMIT - 1, value);
    ReadByteCanonical(h, ReplayBytes(ws), USIZE_LIMIT - 1);
    assert ReplayBytes(ws)[..0] == [];
    assert Replay(h, []) == Canonical(h, []);
  }
}
