/** Type::default_value (src/compile/ast.rs:530-579): default values have the layout that generated
    code assumes of structs and fixed arrays. */
module Defaults {
  import opened Avm
  import opened Machine
  import opened TupleTrees
  import opened Virtual
  import opened Mini
  import opened Codegen
  import opened Runs
  import opened CodegenCorrect
  import opened FixedArrays
  import Forward

  datatype Type =
    | Void | Uint | Int | Bool | Bytes32 | EthAddress | BufferType
    | TupleType(parts: seq<Type>)
    | ArrayType(part: Type)
    | FixedArray(part: Type, size: nat)
    | Struct(parts: seq<Type>)
    | OptionType(part: Type)
    | MapType | FuncType | Nominal | Any | Every | Union

  // ----- what the recursion computes -----

  function Default(t: Type): Value
    decreases t, 1
  {
    match t
    case BufferType => BufferVal(Buffers.NEW_EMPTY)
    case Uint => Value.Int(0)
    case Int => Value.Int(0)
    case Bool => Value.Int(0)
    case Bytes32 => Value.Int(0)
    case EthAddress => Value.Int(0)
    case TupleType(parts) => Tuple(DefaultsOf(parts))
    case ArrayType(part) => Tuple([Value.Int(1), Value.Int(1), Tuple([Default(part)])])
    case FixedArray(part, size) => Layers(Depth(size), Default(part))
    case Struct(parts) => ValueFromFieldList(DefaultsOf(parts))
    case OptionType(_) => Tuple([Value.Int(0)])
    case _ => NONE
  }

  function DefaultsOf(parts: seq<Type>): (r: seq<Value>)
    ensures |r| == |parts| && forall i :: 0 <= i < |parts| ==> r[i] == Default(parts[i])
    decreases parts, 0
  {
    if parts == [] then []
    else DefaultsOf(parts[..|parts| - 1]) + [Default(parts[|parts| - 1])]
  }

  /** Whether a default may be used without asking. */
  predicate Safe(t: Type) {
    match t
    case Void => false
    case TupleType(parts) => forall i :: 0 <= i < |parts| ==> Safe(parts[i])
    case ArrayType(part) => Safe(part)
    case FixedArray(part, _) => Safe(part)
    case Struct(parts) => forall i :: 0 <= i < |parts| ==> Safe(parts[i])
    case MapType => false
    case FuncType => false
    case Nominal => false
    case Every => false
    case Union => false
    case _ => true
  }

  method DefaultValue(t: Type) returns (v: Value, safe: bool)
    ensures v == Default(t) && safe == Safe(t)
    decreases t, 1
  {
    match t
    case BufferType => v, safe := BufferVal(Buffers.NEW_EMPTY), true;
    case Uint => v, safe := Value.Int(0), true;
    case Int => v, safe := Value.Int(0), true;
    case Bool => v, safe := Value.Int(0), true;
    case Bytes32 => v, safe := Value.Int(0), true;
    case EthAddress => v, safe := Value.Int(0), true;
    case TupleType(parts) =>
      var vals, s := DefaultValues(parts);
      v, safe := Tuple(vals), s;
    case ArrayType(part) =>
      var x, s := DefaultValue(part);
      v, safe := Tuple([Value.Int(1), Value.Int(1), Tuple([x])]), s;
    case FixedArray(part, size) =>
      var x, s := DefaultValue(part);
      var arr := DefaultArray(size, x);
      v, safe := arr, s;
    case Struct(parts) =>
      var vals, s := DefaultValues(parts);
      v, safe := ValueFromFieldList(vals), s;
    case OptionType(_) => v, safe := Tuple([Value.Int(0)]), true;
    case Any => v, safe := NONE, true;
    case _ => v, safe := NONE, false;
  }

  method DefaultValues(parts: seq<Type>) returns (vals: seq<Value>, safe: bool)
    ensures vals == DefaultsOf(parts) && (safe <==> forall i :: 0 <= i < |parts| ==> Safe(parts[i]))
    decreases parts, 0
  {
    vals, safe := [], true;
    for i := 0 to |parts|
      invariant |vals| == i && forall j :: 0 <= j < i ==> vals[j] == Default(parts[j])
      invariant safe <==> forall j :: 0 <= j < i ==> Safe(parts[j])
    {
      var x, s := DefaultValue(parts[i]);
      vals := vals + [x];
      safe := safe && s;
    }
  }

  // ----- layout -----

  /** What the library's array access finds (builtin/array.mini:40-53): down a tree of blocks by
      decreasing chunks. */
  function ArrayItem(block: Value, chunk: nat, index: nat): Option<Value>
    decreases chunk
  {
    if chunk == 0 then Some(block)
    else if block.Tuple? && index / chunk < |block.elems| then
      ArrayItem(block.elems[index / chunk], chunk / TUPLE_SIZE, index % chunk)
    else None
  }

  /** An array of unknown size: its size, the chunk of its top block, and the blocks, with an item at
      every index. */
  ghost predicate IsSizedArray(v: Value) {
    && v.Tuple? && |v.elems| == 3 && v.elems[0].Int? && v.elems[1].Int?
    && forall i :: 0 <= i < v.elems[0].n ==> ArrayItem(v.elems[2], v.elems[1].n, i).Some?
  }

  /** A value as reads, writes and updates of its type expect it, at every depth. */
  ghost predicate Shaped(t: Type, v: Value)
    decreases t
  {
    match t
    case BufferType => v.BufferVal?
    case Uint => v.Int?
    case Int => v.Int?
    case Bool => v.Int?
    case Bytes32 => v.Int?
    case EthAddress => v.Int?
    case TupleType(parts) =>
      v.Tuple? && |v.elems| == |parts| && forall i :: 0 <= i < |parts| ==> Shaped(parts[i], v.elems[i])
    case ArrayType(part) =>
      && IsSizedArray(v)
      && forall i :: 0 <= i < v.elems[0].n ==> Shaped(part, ArrayItem(v.elems[2], v.elems[1].n, i).value)
    case OptionType(part) =>
      v.Tuple? && (v.elems == [Value.Int(0)] || (|v.elems| == 2 && v.elems[0] == Value.Int(1)
                                                 && Shaped(part, v.elems[1])))
    case FixedArray(part, size) => IsArray(size, v) && forall i :: 0 <= i < size ==> Shaped(part, Element(size, v, i))
    case Struct(parts) =>
      var fields := Flatten(TreeOf(|parts|, false), v);
      fields.Some? && forall i :: 0 <= i < |parts| ==> Shaped(parts[i], fields.value[i])
    case _ => true
  }

  /** Every default value is so. */
  lemma {:induction false} DefaultIsShaped(t: Type)
    ensures Shaped(t, Default(t))
    decreases t
  {
    match t
    case TupleType(parts) =>
      forall i | 0 <= i < |parts| ensures Shaped(parts[i], Default(parts[i])) { DefaultIsShaped(parts[i]); }
    case ArrayType(part) =>
      DefaultIsShaped(part);
      OneItem(Default(part));
    case FixedArray(part, size) =>
      DefaultIsShaped(part);
      LayersAreArray(size, Default(part));
      forall i | 0 <= i < size ensures Element(size, Default(t), i) == Default(part) {
        LayersElement(size, Default(part), i);
      }
    case Struct(parts) =>
      forall i | 0 <= i < |parts| ensures Shaped(parts[i], Default(parts[i])) { DefaultIsShaped(parts[i]); }
    case _ =>
  }

  lemma OneItem(v: Value)
    ensures ArrayItem(Tuple([v]), 1, 0) == Some(v)
  {
    assert ArrayItem(v, 1 / TUPLE_SIZE, 0) == Some(v);
  }

  /** It can be an immediate of any code: it refers to none. */
  lemma {:induction false} DefaultHasNoRefs(t: Type)
    ensures RefsIn(Default(t)) == {}
    decreases t
  {
    match t
    case TupleType(parts) =>
      forall i | 0 <= i < |parts| ensures RefsIn(Default(parts[i])) == {} { DefaultHasNoRefs(parts[i]); }
    case ArrayType(part) => DefaultHasNoRefs(part);
    case FixedArray(part, size) =>
      DefaultHasNoRefs(part);
      LayersHaveNoRefs(Depth(size), Default(part));
    case Struct(parts) =>
      forall i | 0 <= i < |parts| ensures RefsIn(Default(parts[i])) == {} { DefaultHasNoRefs(parts[i]); }
      forall r | r in RefsIn(Default(t)) ensures false {
        Forward.MakeRefs(TreeOf(|parts|, false), DefaultsOf(parts), r);
      }
    case _ =>
  }

  lemma {:induction false} LayersHaveNoRefs(d: nat, v: Value)
    requires RefsIn(v) == {}
    ensures RefsIn(Layers(d, v)) == {}
  {
    if d > 0 { LayersHaveNoRefs(d - 1, v); }
  }

  // ----- one layout for four users -----

  /** The default of a struct is what the initialiser builds of its field defaults. */
  lemma DefaultIsInitialised(p: Prog, pc: nat, frame: nat, parts: seq<Type>, vals: seq<Value>, loc: nat, s: VState)
    requires vals == DefaultsOf(parts) && Runnable(p) && |vals| <= USIZE_LIMIT
             && Placed(p, pc, StructCode(|vals|, loc), frame)
    ensures Go(p, pc, s.(stack := PushAll(vals, s.stack)),
               pc + |StructCode(|vals|, loc)|, s.(stack := Push(Default(Struct(parts)), s.stack)))
  {
    StructRuns(p, pc, frame, vals, loc, s);
    assert Default(Struct(parts)) == ValueFromFieldList(vals);
  }

  /** An update keeps the layout and changes the one field: whatever the update and the field access
      agree on, the initialiser and the default do. */
  lemma UpdateKeepsShape(parts: seq<Type>, v: Value, slot: nat, x: Value)
    requires Shaped(Struct(parts), v) && slot < |parts| && slot < USIZE_LIMIT && Shaped(parts[slot], x)
    ensures var r := WithField(v, slot, |parts|, x);
            && r.Some? && Shaped(Struct(parts), r.value)
            && Flatten(TreeOf(|parts|, false), r.value) == Some(Flatten(TreeOf(|parts|, false), v).value[slot := x])
  {
  }
}
