/** The wire descriptor of a value: the element count, the wire type and the base
    address that `mpi_type_traits<T>` computes for a value of static type T.

    The C++ code dispatches at compile time on T; here the static type is a `Ty`
    and the run-time value a `Value`, and every trait takes both. Addresses are
    abstract integers. */
module TypeTraits {

  import opened Wrappers

  /** An abstract memory address. */
  type Addr = int

  /** The C++ scalar types listed in the primitive table. */
  datatype Scalar =
    | Char | WChar | Short | Int | Long | SignedChar | UnsignedChar | UnsignedShort
    | UnsignedInt | UnsignedLong | UnsignedLongLong
    | Float | Double | LongDouble
    | Bool | ComplexFloat | ComplexDouble | ComplexLongDouble

  /** The transport's predefined element types, named as the transport names them. */
  datatype MpiType =
    | CHAR | WCHAR | SHORT | INT | LONG | SIGNED_CHAR | UNSIGNED_CHAR | UNSIGNED_SHORT
    | UNSIGNED | UNSIGNED_LONG | UNSIGNED_LONG_LONG
    | FLOAT | DOUBLE | LONG_DOUBLE
    | BOOL | COMPLEX | DOUBLE_COMPLEX | LONG_DOUBLE_COMPLEX

  /** The static type T that selects a specialisation of the traits. */
  datatype Ty =
    | Prim(scalar: Scalar)        // one of the primitive scalars
    | ConstOf(base: Ty)           // const T
    | VectorOf(elem: Ty)          // std::vector<T>
    | ArrayOf(elem: Ty, n: nat)   // std::array<T, N>
    | ListOf(elem: Ty)            // std::list<T>

  /** A value: a scalar object at an address, or a container object at an address
      holding its elements in iteration order (for a list, the node payloads). */
  datatype Value = Leaf(at: Addr) | Group(at: Addr, items: seq<Value>)

  /** A wire type: a predefined element type, or a composite built from blocks. */
  datatype WireKind = Basic(mpi: MpiType) | Struct(layout: seq<Block>)

  /** One block of a composite type: its displacement from the first node, its
      element count and its element type. */
  datatype Block = Block(offset: int, count: int, kind: WireKind)

  // ---------------------------------------------------------------------------
  // The primitive table
  // ---------------------------------------------------------------------------

  /** The wire type of each primitive scalar. Every scalar gets its own wire type:
      `ScalarOf` recovers the scalar from it. */
  function PrimitiveType(s: Scalar): (k: MpiType)
    ensures ScalarOf(k) == s
  {
    match s
    case Char => CHAR
    case WChar => WCHAR
    case Short => SHORT
    case Int => INT
    case Long => LONG
    case SignedChar => SIGNED_CHAR
    case UnsignedChar => UNSIGNED_CHAR
    case UnsignedShort => UNSIGNED_SHORT
    case UnsignedInt => UNSIGNED
    case UnsignedLong => UNSIGNED_LONG
    case UnsignedLongLong => UNSIGNED_LONG_LONG
    case Float => FLOAT
    case Double => DOUBLE
    case LongDouble => LONG_DOUBLE
    case Bool => BOOL
    case ComplexFloat => COMPLEX
    case ComplexDouble => DOUBLE_COMPLEX
    case ComplexLongDouble => LONG_DOUBLE_COMPLEX
  }

  /** The inverse reading of the primitive table. */
  function ScalarOf(k: MpiType): (s: Scalar)
  {
    match k
    case CHAR => Char
    case WCHAR => WChar
    case SHORT => Short
    case INT => Int
    case LONG => Long
    case SIGNED_CHAR => SignedChar
    case UNSIGNED_CHAR => UnsignedChar
    case UNSIGNED_SHORT => UnsignedShort
    case UNSIGNED => UnsignedInt
    case UNSIGNED_LONG => UnsignedLong
    case UNSIGNED_LONG_LONG => UnsignedLongLong
    case FLOAT => Float
    case DOUBLE => Double
    case LONG_DOUBLE => LongDouble
    case BOOL => Bool
    case COMPLEX => ComplexFloat
    case DOUBLE_COMPLEX => ComplexDouble
    case LONG_DOUBLE_COMPLEX => ComplexLongDouble
  }

  /** No two primitive scalars share a wire type. */
  lemma PrimitiveTypesDistinct(a: Scalar, b: Scalar)
    ensures a != b ==> PrimitiveType(a) != PrimitiveType(b)
  {
    assert ScalarOf(PrimitiveType(a)) == a && ScalarOf(PrimitiveType(b)) == b;
  }

  // ---------------------------------------------------------------------------
  // Well-typed values and where the traits are defined
  // ---------------------------------------------------------------------------

  /** `v` is a value of static type `t` (what the C++ type checker guarantees). */
  predicate HasType(v: Value, t: Ty)
    decreases t
  {
    match t
    case Prim(_) => v.Leaf?
    case ConstOf(b) => HasType(v, b)
    case VectorOf(e) => v.Group? && forall i :: 0 <= i < |v.items| ==> HasType(v.items[i], e)
    case ArrayOf(e, n) =>
      v.Group? && |v.items| == n && forall i :: 0 <= i < |v.items| ==> HasType(v.items[i], e)
    case ListOf(e) => v.Group? && forall i :: 0 <= i < |v.items| ==> HasType(v.items[i], e)
  }

  /** `get_addr` is defined: every container on the way to the first scalar is
      non-empty (the source takes `front()` without a check). */
  predicate AddrDefined(t: Ty, v: Value)
    requires HasType(v, t)
    decreases t
  {
    match t
    case Prim(_) => true
    case ConstOf(b) => AddrDefined(b, v)
    case VectorOf(e) => |v.items| > 0 && AddrDefined(e, v.items[0])
    case ArrayOf(e, _) => |v.items| > 0 && AddrDefined(e, v.items[0])
    case ListOf(e) => |v.items| > 0 && AddrDefined(e, v.items[0])
  }

  /** The wire type `get_type(T())` of a default-constructed T, which the vector,
      array and const traits use. It is undefined (None) when T is a list: the
      layout of an empty list reads the front of the empty list. */
  function DefaultType(t: Ty): (k: Option<WireKind>)
    ensures k.Some? ==> k.value.Basic?
  {
    match t
    case Prim(s) => Some(Basic(PrimitiveType(s)))
    case ConstOf(b) => DefaultType(b)
    case VectorOf(e) => DefaultType(e)
    case ArrayOf(e, _) => DefaultType(e)
    case ListOf(_) => None
  }

  /** `get_type` is defined on `v`. */
  predicate TypeDefined(t: Ty, v: Value)
    requires HasType(v, t)
    decreases t
  {
    match t
    case Prim(_) => true
    case ConstOf(b) => TypeDefined(b, v)
    case VectorOf(e) => DefaultType(e).Some?
    case ArrayOf(e, _) => DefaultType(e).Some?
    case ListOf(e) =>
      |v.items| > 0 && forall i :: 0 <= i < |v.items| ==> TypeDefined(e, v.items[i])
  }

  /** Every trait is defined on `v`, so a message bound to it can be handed to the transport. */
  predicate Describable(t: Ty, v: Value)
  {
    HasType(v, t) && AddrDefined(t, v) && TypeDefined(t, v)
  }

  // ---------------------------------------------------------------------------
  // The three traits
  // ---------------------------------------------------------------------------

  /** `get_size`: how many elements of the wire type the value is sent as. */
  function GetSize(t: Ty, v: Value): (n: nat)
    requires HasType(v, t)
    decreases t
  {
    match t
    case Prim(_) => 1
    case ConstOf(b) => GetSize(b, v)
    case VectorOf(_) => |v.items|
    case ArrayOf(_, n) => n
    case ListOf(_) => 1
  }

  /** `get_addr`: the address the transport reads from or writes to. */
  function GetAddr(t: Ty, v: Value): (a: Addr)
    requires HasType(v, t) && AddrDefined(t, v)
    decreases t
  {
    match t
    case Prim(_) => v.at
    case ConstOf(b) => GetAddr(b, v)
    case VectorOf(e) => GetAddr(e, v.items[0])
    case ArrayOf(e, _) => GetAddr(e, v.items[0])
    case ListOf(e) => GetAddr(e, v.items[0])
  }

  /** `get_type`: the wire type. A list is described by a composite with one block
      per node, its displacement taken relative to the first node. */
  function GetType(t: Ty, v: Value): (k: WireKind)
    requires HasType(v, t) && TypeDefined(t, v)
    decreases t, 0
  {
    match t
    case Prim(s) => Basic(PrimitiveType(s))
    // The corrected `const T` rule: the type of the value itself. As written, the
    // source asks for the type of a default-constructed T instead
    // (`ConstTypeAsWritten`), which for a list is undefined; see Findings in README.md.
    case ConstOf(b) => GetType(b, v)
    case VectorOf(e) => DefaultType(e).value
    case ArrayOf(e, _) => DefaultType(e).value
    case ListOf(e) => Struct(Layout(e, v.items, v.items[0].at))
  }

  /** The blocks of a list's composite type, one per node, in iteration order. */
  function Layout(e: Ty, nodes: seq<Value>, base: Addr): (bs: seq<Block>)
    requires forall i :: 0 <= i < |nodes| ==> HasType(nodes[i], e) && TypeDefined(e, nodes[i])
    decreases e, |nodes| + 1
  {
    if nodes == [] then []
    else [Block(nodes[0].at - base, GetSize(e, nodes[0]), GetType(e, nodes[0]))]
         + Layout(e, nodes[1..], base)
  }

  /** `MPI_Type_create_struct`: the composite type built from the three arrays. */
  function CreateStruct(dimension: seq<int>, address: seq<int>, types: seq<WireKind>): (k: WireKind)
    requires |dimension| == |address| == |types|
    ensures k.Struct? && |k.layout| == |types|
    ensures forall i :: 0 <= i < |types| ==>
              k.layout[i] == Block(address[i], dimension[i], types[i])
  {
    Struct(seq(|types|, i requires 0 <= i < |types| => Block(address[i], dimension[i], types[i])))
  }

  // ---------------------------------------------------------------------------
  // The imperative list layout
  // ---------------------------------------------------------------------------

  /** `get_type` as the source computes it: for a list it runs the fill loop and
      builds the composite from the three arrays. */
  method ComputeType(t: Ty, v: Value) returns (k: WireKind)
    requires HasType(v, t) && TypeDefined(t, v)
    ensures k == GetType(t, v)
    decreases t, 0
  {
    match t
    case Prim(s) =>
      k := Basic(PrimitiveType(s));
    case ConstOf(b) =>
      k := ComputeType(b, v);
    case VectorOf(e) =>
      k := DefaultType(e).value;
    case ArrayOf(e, _) =>
      k := DefaultType(e).value;
    case ListOf(e) =>
      var address, dimension, types := BuildListLayout(e, v.items);
      k := CreateStruct(dimension[..], address[..], types[..]);
      LayoutLength(e, v.items, v.items[0].at);
      forall i | 0 <= i < |v.items|
        ensures k.layout[i] == Layout(e, v.items, v.items[0].at)[i]
      {
        LayoutAt(e, v.items, v.items[0].at, i);
      }
  }

  /** The loop of the list trait: three arrays of `l.size()` entries, entry 0 filled
      from the front node with displacement 0, then one entry per further node whose
      displacement is its address minus the front node's. Every write is in bounds. */
  method BuildListLayout(e: Ty, nodes: seq<Value>)
      returns (address: array<int>, dimension: array<int>, types: array<WireKind>)
    requires |nodes| > 0
    requires forall i :: 0 <= i < |nodes| ==> HasType(nodes[i], e) && TypeDefined(e, nodes[i])
    ensures address.Length == dimension.Length == types.Length == |nodes|
    ensures forall i :: 0 <= i < |nodes| ==>
              && address[i] == nodes[i].at - nodes[0].at
              && dimension[i] == GetSize(e, nodes[i])
              && types[i] == GetType(e, nodes[i])
    decreases e, 1
  {
    var n := |nodes|;
    address := new int[n];
    dimension := new int[n];
    types := new WireKind[n](_ => Basic(CHAR));
    var base := nodes[0].at;
    types[0] := ComputeType(e, nodes[0]);
    dimension[0] := GetSize(e, nodes[0]);
    address[0] := 0;
    var i := 1;
    while i < n
      invariant 1 <= i <= n
      invariant forall k :: 0 <= k < i ==>
                  && address[k] == nodes[k].at - base
                  && dimension[k] == GetSize(e, nodes[k])
                  && types[k] == GetType(e, nodes[k])
    {
      address[i] := nodes[i].at;
      address[i] := address[i] - base;
      types[i] := ComputeType(e, nodes[i]);
      dimension[i] := GetSize(e, nodes[i]);
      i := i + 1;
    }
  }

  // ---------------------------------------------------------------------------
  // Properties of the layout
  // ---------------------------------------------------------------------------

  lemma {:induction false} LayoutLength(e: Ty, nodes: seq<Value>, base: Addr)
    requires forall i :: 0 <= i < |nodes| ==> HasType(nodes[i], e) && TypeDefined(e, nodes[i])
    ensures |Layout(e, nodes, base)| == |nodes|
    decreases |nodes|
  {
    if nodes != [] {
      LayoutLength(e, nodes[1..], base);
    }
  }

  /** Block i of the layout describes node i. */
  lemma {:induction false} LayoutAt(e: Ty, nodes: seq<Value>, base: Addr, i: nat)
    requires forall j :: 0 <= j < |nodes| ==> HasType(nodes[j], e) && TypeDefined(e, nodes[j])
    requires i < |nodes|
    ensures |Layout(e, nodes, base)| == |nodes|
    ensures Layout(e, nodes, base)[i]
            == Block(nodes[i].at - base, GetSize(e, nodes[i]), GetType(e, nodes[i]))
    decreases i
  {
    LayoutLength(e, nodes, base);
    if i > 0 {
      LayoutAt(e, nodes[1..], base, i - 1);
    }
  }

  /** The list trait: count 1; the composite has one block per node; block 0 has
      displacement 0; block i has node i's address minus node 0's, and node i's own
      count and wire type; the address is that of the front node's payload. */
  lemma ListDescriptor(e: Ty, v: Value)
    requires HasType(v, ListOf(e)) && TypeDefined(ListOf(e), v)
    ensures GetSize(ListOf(e), v) == 1
    ensures GetType(ListOf(e), v).Struct?
    ensures |GetType(ListOf(e), v).layout| == |v.items|
    ensures GetType(ListOf(e), v).layout[0].offset == 0
    ensures forall i :: 0 <= i < |v.items| ==>
              GetType(ListOf(e), v).layout[i]
              == Block(v.items[i].at - v.items[0].at, GetSize(e, v.items[i]), GetType(e, v.items[i]))
    ensures AddrDefined(ListOf(e), v) ==> GetAddr(ListOf(e), v) == GetAddr(e, v.items[0])
  {
    var base := v.items[0].at;
    LayoutLength(e, v.items, base);
    forall i | 0 <= i < |v.items|
      ensures Layout(e, v.items, base)[i]
              == Block(v.items[i].at - base, GetSize(e, v.items[i]), GetType(e, v.items[i]))
    {
      LayoutAt(e, v.items, base, i);
    }
  }

  // ---------------------------------------------------------------------------
  // The scalar, vector, array and const traits
  // ---------------------------------------------------------------------------

  /** A scalar: count 1, its own address, the wire type from the primitive table. */
  lemma ScalarDescriptor(s: Scalar, v: Value)
    requires HasType(v, Prim(s))
    ensures Describable(Prim(s), v)
    ensures GetSize(Prim(s), v) == 1
    ensures GetAddr(Prim(s), v) == v.at
    ensures GetType(Prim(s), v) == Basic(PrimitiveType(s))
  {
  }

  /** A vector: count = length, the element's wire type, the front element's address,
      which exists only when the vector is non-empty. */
  lemma VectorDescriptor(e: Ty, v: Value)
    requires HasType(v, VectorOf(e))
    ensures GetSize(VectorOf(e), v) == |v.items|
    ensures TypeDefined(VectorOf(e), v) <==> DefaultType(e).Some?
    ensures TypeDefined(VectorOf(e), v) ==> GetType(VectorOf(e), v) == DefaultType(e).value
    ensures AddrDefined(VectorOf(e), v) <==> |v.items| > 0 && AddrDefined(e, v.items[0])
    ensures AddrDefined(VectorOf(e), v) ==> GetAddr(VectorOf(e), v) == GetAddr(e, v.items[0])
  {
  }

  /** An array of N elements: count N, the element's wire type, the front element's address. */
  lemma ArrayDescriptor(e: Ty, n: nat, v: Value)
    requires HasType(v, ArrayOf(e, n))
    ensures GetSize(ArrayOf(e, n), v) == n == |v.items|
    ensures TypeDefined(ArrayOf(e, n), v) ==> GetType(ArrayOf(e, n), v) == DefaultType(e).value
    ensures AddrDefined(ArrayOf(e, n), v) <==> n > 0 && AddrDefined(e, v.items[0])
    ensures AddrDefined(ArrayOf(e, n), v) ==> GetAddr(ArrayOf(e, n), v) == GetAddr(e, v.items[0])
  {
  }

  /** `const T` yields the same count, address and wire type as T. */
  lemma ConstDescriptor(t: Ty, v: Value)
    requires HasType(v, ConstOf(t))
    ensures HasType(v, t)
    ensures Describable(ConstOf(t), v) <==> Describable(t, v)
    ensures GetSize(ConstOf(t), v) == GetSize(t, v)
    ensures AddrDefined(t, v) ==> GetAddr(ConstOf(t), v) == GetAddr(t, v)
    ensures TypeDefined(t, v) ==> GetType(ConstOf(t), v) == GetType(t, v)
  {
  }

  // ---------------------------------------------------------------------------
  // The const trait as the source writes it
  // ---------------------------------------------------------------------------

  /** `mpi_type_traits<const T>::get_type` as written: it ignores the value and asks
      for the type of a default-constructed T. */
  function ConstTypeAsWritten(b: Ty): (k: Option<WireKind>)
  {
    DefaultType(b)
  }

  /** For a const list, the type as written is undefined: the layout would be built
      from an empty list. It is so for every list, also those whose corrected type
      is defined. */
  lemma ConstListTypeAsWrittenUndefined(e: Ty, v: Value)
    requires HasType(v, ListOf(e)) && TypeDefined(ListOf(e), v)
    ensures ConstTypeAsWritten(ListOf(e)).None?
    ensures TypeDefined(ConstOf(ListOf(e)), v)
  {
  }

  /** `t` is a list once its const qualifiers are stripped. */
  predicate IsList(t: Ty)
  {
    match t
    case ConstOf(b) => IsList(b)
    case ListOf(_) => true
    case _ => false
  }

  /** Only a list (possibly const) is described by a composite type. */
  lemma {:induction false} ListTypeIsComposite(t: Ty, v: Value)
    requires HasType(v, t) && TypeDefined(t, v)
    ensures GetType(t, v).Struct? <==> IsList(t)
    decreases t
  {
    if t.ConstOf? {
      ListTypeIsComposite(t.base, v);
    }
  }

  /** Outside lists the value does not matter to the type, so the const trait as
      written and the corrected one agree. */
  lemma {:induction false} ConstTypeAsWrittenAgrees(t: Ty, v: Value)
    requires HasType(v, t) && !IsList(t)
    ensures DefaultType(t).Some? <==> TypeDefined(t, v)
    ensures TypeDefined(t, v) ==> ConstTypeAsWritten(t) == Some(GetType(t, v))
    decreases t
  {
    match t
    case ConstOf(b) => ConstTypeAsWrittenAgrees(b, v);
    case _ =>
  }

  // ---------------------------------------------------------------------------
  // What a descriptor covers
  // ---------------------------------------------------------------------------

  /** The addresses of the scalars a value holds, in iteration order. */
  function Leaves(t: Ty, v: Value): (leaves: seq<Addr>)
    requires HasType(v, t)
    decreases t, 0
  {
    match t
    case Prim(_) => [v.at]
    case ConstOf(b) => Leaves(b, v)
    case VectorOf(e) => LeavesOf(e, v.items)
    case ArrayOf(e, _) => LeavesOf(e, v.items)
    case ListOf(e) => LeavesOf(e, v.items)
  }

  function LeavesOf(e: Ty, items: seq<Value>): (leaves: seq<Addr>)
    requires forall i :: 0 <= i < |items| ==> HasType(items[i], e)
    decreases e, |items| + 1
  {
    if items == [] then [] else Leaves(e, items[0]) + LeavesOf(e, items[1..])
  }

  /** The base address is the address of the value's first scalar. */
  lemma {:induction false} AddrIsFirstLeaf(t: Ty, v: Value)
    requires HasType(v, t) && AddrDefined(t, v)
    ensures |Leaves(t, v)| > 0 && GetAddr(t, v) == Leaves(t, v)[0]
    decreases t
  {
    match t
    case Prim(_) =>
    case ConstOf(b) => AddrIsFirstLeaf(b, v);
    case VectorOf(e) => AddrIsFirstLeaf(e, v.items[0]);
    case ArrayOf(e, _) => AddrIsFirstLeaf(e, v.items[0]);
    case ListOf(e) => AddrIsFirstLeaf(e, v.items[0]);
  }

  /** The number of scalars one element of a wire type stands for. */
  function Width(k: WireKind): (w: nat)
    decreases k
  {
    match k
    case Basic(_) => 1
    case Struct(bs) => BlocksWidth(k, bs)
  }

  function BlocksWidth(ghost k: WireKind, bs: seq<Block>): (w: nat)
    requires forall i :: 0 <= i < |bs| ==> bs[i].kind < k
    decreases k, bs
  {
    if bs == [] then 0
    else (if bs[0].count < 0 then 0 else bs[0].count) * Width(bs[0].kind) + BlocksWidth(k, bs[1..])
  }

  /** `t` is a type whose descriptor is meant to cover its scalars: a scalar, a
      vector or array of scalars, or a list of such. */
  predicate Flat(t: Ty)
  {
    match t
    case Prim(_) => true
    case ConstOf(b) => Flat(b)
    case VectorOf(e) => IsScalar(e)
    case ArrayOf(e, _) => IsScalar(e)
    case ListOf(e) => Flat(e)
  }

  predicate IsScalar(t: Ty)
  {
    match t
    case Prim(_) => true
    case ConstOf(b) => IsScalar(b)
    case _ => false
  }

  lemma {:induction false} ScalarLeaves(t: Ty, v: Value)
    requires IsScalar(t) && HasType(v, t)
    ensures TypeDefined(t, v) && GetType(t, v).Basic? && DefaultType(t) == Some(GetType(t, v))
    ensures Leaves(t, v) == [v.at]
    decreases t
  {
    if t.ConstOf? {
      ScalarLeaves(t.base, v);
    }
  }

  lemma {:induction false} ScalarsLeaves(e: Ty, items: seq<Value>)
    requires IsScalar(e) && forall i :: 0 <= i < |items| ==> HasType(items[i], e)
    ensures |LeavesOf(e, items)| == |items|
    decreases |items|
  {
    if items != [] {
      ScalarLeaves(e, items[0]);
      ScalarsLeaves(e, items[1..]);
    }
  }

  /** For a type meant to be sent whole, count times width of the wire type is the
      number of scalars the value holds: the descriptor covers the whole value. */
  lemma {:induction false} DescriptorCoversScalars(t: Ty, v: Value)
    requires Flat(t) && HasType(v, t) && TypeDefined(t, v)
    ensures GetSize(t, v) * Width(GetType(t, v)) == |Leaves(t, v)|
    decreases t, 0
  {
    match t
    case Prim(_) =>
    case ConstOf(b) => DescriptorCoversScalars(b, v);
    case VectorOf(e) => ScalarsLeaves(e, v.items);
    case ArrayOf(e, _) => ScalarsLeaves(e, v.items);
    case ListOf(e) =>
      var k := GetType(t, v);
      LayoutCoversScalars(e, v.items, v.items[0].at, k);
  }

  lemma {:induction false} LayoutCoversScalars(e: Ty, nodes: seq<Value>, base: Addr, k: WireKind)
    requires Flat(e)
    requires forall i :: 0 <= i < |nodes| ==> HasType(nodes[i], e) && TypeDefined(e, nodes[i])
    requires forall i :: 0 <= i < |Layout(e, nodes, base)| ==> Layout(e, nodes, base)[i].kind < k
    ensures BlocksWidth(k, Layout(e, nodes, base)) == |LeavesOf(e, nodes)|
    decreases e, |nodes|
  {
    if nodes != [] {
      var bs := Layout(e, nodes, base);
      assert bs[1..] == Layout(e, nodes[1..], base);
      DescriptorCoversScalars(e, nodes[0]);
      LayoutCoversScalars(e, nodes[1..], base, k);
    }
  }
}
