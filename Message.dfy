/** `msg_impl<T>`: a value bound together with a tag. The binding never changes
    once made; the tag can be set in place. */
module Message {

  import opened TypeTraits

  class Message {
    /** The static type T of the bound value. */
    const ty: Ty
    /** The bound value. */
    const data: Value
    var tag: int

    /** The binding is a value of the message's type. */
    predicate Valid()
    {
      HasType(data, ty)
    }

    /** `msg_impl(v, tag = 0)`. */
    constructor (ty: Ty, v: Value, tag: int := 0)
      requires HasType(v, ty)
      ensures Valid()
      ensures this.ty == ty && data == v && this.tag == tag
    {
      this.ty := ty;
      data := v;
      this.tag := tag;
    }

    /** The move constructor: same binding, same tag. */
    constructor Move(other: Message)
      requires other.Valid()
      ensures Valid()
      ensures ty == other.ty && data == other.data && tag == other.tag
    {
      ty := other.ty;
      data := other.data;
      tag := other.tag;
    }

    /** `addr()`: the traits' address of the bound value. */
    function Addr(): (a: Addr)
      requires Valid() && AddrDefined(ty, data)
    {
      GetAddr(ty, data)
    }

    /** `size()`: the traits' count of the bound value. */
    function Size(): (n: nat)
      requires Valid()
    {
      GetSize(ty, data)
    }

    /** `type()`: asks the traits each time; for a list this runs the layout loop
        again and builds a new composite with the same layout. */
    method Type() returns (k: WireKind)
      requires Valid() && TypeDefined(ty, data)
      ensures k == GetType(ty, data)
    {
      k := ComputeType(ty, data);
    }

    /** `get()`: the bound value. */
    function Get(): (v: Value)
    {
      data
    }

    /** The const `tag()`. */
    function Tag(): (t: int)
      reads this
    {
      tag
    }

    /** An assignment through the non-const `tag()`: only the tag changes (the
        binding is constant, so `Get()` is what it was). */
    method SetTag(t: int)
      modifies this`tag
      ensures tag == t
    {
      tag := t;
    }
  }

  /** The `msg(raw, tag = 0)` factory: the same as the constructor. */
  method Msg(ty: Ty, raw: Value, tag: int := 0) returns (m: Message)
    requires HasType(raw, ty)
    ensures fresh(m) && m.Valid()
    ensures m.ty == ty && m.data == raw && m.tag == tag
  {
    m := new Message(ty, raw, tag);
  }

  /** Two calls of `type()` on one message build composites with the same layout. */
  method TypeTwice(m: Message) returns (k1: WireKind, k2: WireKind)
    requires m.Valid() && TypeDefined(m.ty, m.data)
    ensures k1 == k2
    ensures k1.Struct? <==> IsList(m.ty)
  {
    k1 := m.Type();
    k2 := m.Type();
    ListTypeIsComposite(m.ty, m.data);
  }
}
