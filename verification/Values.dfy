/** The typed value model: what crosses the bridge by value, and the handles that
    stand for everything else. */
module Values {
  import opened Bits
  import opened Bytes
  import opened Options

  /** An int: a machine word, or a big integer when it does not fit in one. */
  datatype IntValue = IntValue(i: i64, big: Option<int>) {
    /** The mathematical integer (BigInt). */
    function Denotes(): int {
      match big
      case None => i
      case Some(n) => n
    }

    /** `big` is set exactly when the value does not fit in an int64. */
    predicate Canonical() {
      match big
      case None => true
      case Some(n) => i == 0 && !IsInt64(n)
    }

    /** Int64: the word and true, or 0 and false for a big value. */
    function Int64(): (i64, bool) {
      if big.Some? then (0, false) else (i, true)
    }
  }

  predicate IsInt64(n: int) { -TWO_63 <= n < TWO_63 }

  /** Int64 succeeds exactly on the integers that fit, with the integer itself. */
  lemma Int64Iff(v: IntValue)
    requires v.Canonical()
    ensures v.Int64().1 <==> IsInt64(v.Denotes())
    ensures v.Int64().1 ==> v.Int64().0 == v.Denotes()
  {}

  function IntFromBig(n: int): (r: IntValue)
    ensures r.Canonical() && r.Denotes() == n
    ensures r.big == None <==> -0x8000_0000_0000_0000 <= n <= 0x7fff_ffff_ffff_ffff
  {
    if IsInt64(n) then IntValue(n, None) else IntValue(0, Some(n))
  }

  function IntFromUint64(u: u64): (r: IntValue)
    ensures r.Canonical() && r.Denotes() == u
    ensures r.big == None <==> u <= 0x7fff_ffff_ffff_ffff
  {
    if u < TWO_63 then IntValue(u, None) else IntValue(0, Some(u))
  }

  /** Canonical ints are determined by the integer they denote. */
  lemma CanonicalUnique(a: IntValue, b: IntValue)
    requires a.Canonical() && b.Canonical() && a.Denotes() == b.Denotes()
    ensures a == b
  {}

  /** The concrete handle types; `object` is the one for every other kind byte. */
  datatype Concrete = PlainObject | List | Tuple | Dict | Set | FrozenSet | Function | Class | Module

  /** A wrapper's facts, with the state of its released flag when it is read. */
  datatype Handle = Handle(owner: nat, id: u64, kind: byte, callable: bool, typeName: seq<byte>, released: bool)

  datatype Value =
    | Nil
    | NoneValue
    | BoolValue(b: bool)
    | Int(num: IntValue)
    | FloatValue(bits: u64)
    | ComplexValue(re: u64, im: u64)
    | StrValue(s: seq<byte>)
    | BytesValue(bytes: seq<byte>)
    | ObjectValue(concrete: Concrete, handle: Option<Handle>)

  /** The concrete type a kind byte names. */
  function ConcreteOf(kind: byte): Concrete {
    match kind
    case 1 => List
    case 2 => Tuple
    case 3 => Dict
    case 4 => Set
    case 5 => FrozenSet
    case 6 => Function
    case 7 => Class
    case 8 => Module
    case _ => PlainObject
  }

  function ObjectFor(h: Handle): Value { ObjectValue(ConcreteOf(h.kind), Some(h)) }

  /** The wrapper's concrete type is the one its kind byte names, as every wrapper
      made by the bridge is. */
  predicate WellTyped(v: Value) {
    v.ObjectValue? && v.handle.Some? ==> v.concrete == ConcreteOf(v.handle.value.kind)
  }
}
