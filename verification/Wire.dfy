/** The value codec: nodes, node lists and dict items, printed and parsed. */
module Wire {
  import opened Bits
  import opened Bytes
  import opened Options
  import opened Values
  import opened Errors
  import opened NodeReaders

  // ---- what a value looks like on the wire ----------------------------------

  function Abs(n: int): nat { if n < 0 then -n else n }

  /** Magnitude of a big int, least significant byte first. */
  function Magnitude(n: int): seq<byte> { Reversed(BEMin(Abs(n))) }

  function Flag(on: bool): byte { if on then 1 else 0 }

  function ObjectNode(h: Handle): seq<byte> {
    [8] + (LE(8, h.id) + ([h.kind] + ([Flag(h.callable)] + LenPrefixed(2, h.typeName))))
  }

  function NodeBytes(v: Value): seq<byte> {
    match v
    case Nil | NoneValue => [0]
    case BoolValue(b) => [1, Flag(b)]
    case Int(n) =>
      (match n.big
       case None => [2] + LE(8, ToU64(n.i))
       case Some(big) => [3] + ([Flag(big < 0)] + LenPrefixed(4, Magnitude(big))))
    case FloatValue(bits) => [4] + LE(8, bits)
    case ComplexValue(re, im) => [5] + (LE(8, re) + LE(8, im))
    case StrValue(s) => [6] + LenPrefixed(4, s)
    case BytesValue(s) => [7] + LenPrefixed(4, s)
    case ObjectValue(_, None) => []
    case ObjectValue(_, Some(h)) => ObjectNode(h)
  }

  /** Type names travel from guest to host only. */
  function Sent(v: Value): Value {
    if v.ObjectValue? && v.handle.Some? then v.(handle := Some(v.handle.value.(typeName := []))) else v
  }

  /** What instance p decodes from v's node. */
  function Arrives(p: nat, v: Value): Value {
    match v
    case Nil => NoneValue
    case Int(n) => Int(IntFromBig(n.Denotes()))
    case ObjectValue(_, Some(h)) => ObjectFor(h.(owner := p, released := false))
    case _ => v
  }

  /** What p receives when v is sent and decoded: nil becomes None, an int becomes
      canonical, a handle loses its type name and arrives unreleased. */
  function Received(p: nat, v: Value): Value { Arrives(p, Sent(v)) }

  /** Receiving changes nothing but what the protocol does not carry. */
  lemma ReceivedIsFaithful(p: nat, v: Value)
    requires WellTyped(v)
    ensures (v.Int? && v.num.Canonical()) || (!v.Nil? && !v.Int? && !v.ObjectValue?) ==> Received(p, v) == v
    ensures v.ObjectValue? && v.handle.Some? && v.handle.value.owner == p && !v.handle.value.released ==>
      Received(p, v) == v.(handle := Some(v.handle.value.(typeName := [])))
  {
    if v.Int? && v.num.Canonical() {
      CanonicalUnique(v.num, IntFromBig(v.num.Denotes()));
    }
  }

  /** Lengths fit the widths they travel in. */
  predicate Fits(v: Value) {
    match v
    case StrValue(s) => |s| < TWO_32
    case BytesValue(s) => |s| < TWO_32
    case Int(n) => n.big.Some? ==> |Magnitude(n.big.value)| < TWO_32
    case ObjectValue(_, Some(h)) => |h.typeName| < 65536
    case _ => true
  }

  predicate Sendable(v: Value) { Fits(v) && !(v.ObjectValue? && v.handle == None) }

  /** p may send v: a handle must be there, live and p's own. */
  predicate Encodable(p: nat, v: Value) {
    v.ObjectValue? ==> v.handle.Some? && !v.handle.value.released && v.handle.value.owner == p
  }

  function EncodeNode(p: nat, v: Value): (r: Result<seq<byte>>)
    ensures r.Ok? <==> Encodable(p, v)
  {
    if v.ObjectValue? && (v.handle == None || v.handle.value.released) then Err(HandleReleased)
    else if v.ObjectValue? && v.handle.value.owner != p then Err(ForeignHandle)
    else Ok(NodeBytes(Sent(v)))
  }

  function EncodeNodes(p: nat, vs: seq<Value>): Result<seq<byte>> {
    if vs == [] then Ok([])
    else
      var front := EncodeNodes(p, vs[..|vs| - 1]);
      if front.Err? then front
      else
        var last := EncodeNode(p, vs[|vs| - 1]);
        if last.Err? then last else Ok(front.value + last.value)
  }

  /** A u32 count, then the nodes. */
  function EncodeListSpec(p: nat, vs: seq<Value>): Result<seq<byte>> {
    var nodes := EncodeNodes(p, vs);
    if nodes.Err? then nodes else Ok(LE(4, |vs| % TWO_32) + nodes.value)
  }

  // ---- the encoders ---------------------------------------------------------

  method EncodeHandle(p: nat, b: seq<byte>, h: Option<Handle>) returns (r: Result<seq<byte>>)
    ensures forall c :: var e := EncodeNode(p, ObjectValue(c, h));
      r == if e.Ok? then Ok(b + e.value) else e
  {
    if h == None || h.value.released { return Err(HandleReleased); }
    if h.value.owner != p { return Err(ForeignHandle); }
    var out := b + [8];
    out := out + LE(8, h.value.id);
    out := out + [h.value.kind];
    var flags: byte := 0;
    if h.value.callable { flags := Or(flags, 1); }
    out := out + [flags];
    out := out + LE(2, 0);
    assert out == b + ObjectNode(h.value.(typeName := []));
    r := Ok(out);
  }

  method EncodeValue(p: nat, b: seq<byte>, v: Value) returns (r: Result<seq<byte>>)
    ensures var e := EncodeNode(p, v); r == if e.Ok? then Ok(b + e.value) else e
  {
    match v {
      case Nil => r := Ok(b + [0]);
      case NoneValue => r := Ok(b + [0]);
      case BoolValue(x) =>
        var out := b + [1];
        out := out + (if x then [1] else [0]);
        assert out == b + NodeBytes(v);
        r := Ok(out);
      case Int(n) =>
        if n.big == None {
          var out := b + [2];
          Associative(b, [2], LE(8, ToU64(n.i)));
          r := Ok(out + LE(8, ToU64(n.i)));
        } else {
          var out := EncodeBig(b, n.big.value);
          r := Ok(out);
        }
      case FloatValue(bits) =>
        var out := b + [4];
        Associative(b, [4], LE(8, bits));
        r := Ok(out + LE(8, bits));
      case ComplexValue(re, im) =>
        var out := b + [5] + LE(8, re);
        Associative(b + [5], LE(8, re), LE(8, im));
        Associative(b, [5], LE(8, re) + LE(8, im));
        r := Ok(out + LE(8, im));
      case StrValue(s) =>
        var out := b + [6];
        Associative(b, [6], LenPrefixed(4, s));
        r := Ok(out + LenPrefixed(4, s));
      case BytesValue(s) =>
        var out := b + [7];
        Associative(b, [7], LenPrefixed(4, s));
        r := Ok(out + LenPrefixed(4, s));
      case ObjectValue(_, h) => r := EncodeHandle(p, b, h);
    }
  }

  method EncodeBig(b: seq<byte>, n: int) returns (out: seq<byte>)
    ensures out == b + NodeBytes(Int(IntValue(0, Some(n))))
  {
    var be := BEMin(Abs(n));
    var mag := new byte[|be|](i requires 0 <= i < |be| => be[i]);
    assert mag[..] == be;
    ReverseInPlace(mag);
    out := b + [3];
    out := out + (if n < 0 then [1] else [0]);
    out := out + LenPrefixed(4, mag[..]);
    BigNode(b, n, LenPrefixed(4, Magnitude(n)));
  }

  lemma BigNode(b: seq<byte>, n: int, mag: seq<byte>)
    requires mag == LenPrefixed(4, Magnitude(n))
    ensures b + [3] + [Flag(n < 0)] + mag == b + NodeBytes(Int(IntValue(0, Some(n))))
  {
    Associative(b + [3], [Flag(n < 0)], mag);
    Associative(b, [3], [Flag(n < 0)] + mag);
  }

  /** b holds the header and the nodes of the first i values. */
  ghost predicate Progress(p: nat, vs: seq<Value>, i: nat, head: seq<byte>, b: seq<byte>)
    requires i <= |vs|
  {
    EncodeNodes(p, vs[..i]).Ok? && b == head + EncodeNodes(p, vs[..i]).value
  }

  lemma EncodeStep(p: nat, vs: seq<Value>, i: nat, head: seq<byte>, b: seq<byte>)
    requires i < |vs| && Progress(p, vs, i, head, b)
    ensures EncodeNode(p, vs[i]).Ok? ==> Progress(p, vs, i + 1, head, b + EncodeNode(p, vs[i]).value)
    ensures EncodeNode(p, vs[i]).Err? ==> EncodeNodes(p, vs) == EncodeNode(p, vs[i])
  {
    assert vs[..i + 1][..i] == vs[..i];
    if EncodeNode(p, vs[i]).Ok? {
      Associative(head, EncodeNodes(p, vs[..i]).value, EncodeNode(p, vs[i]).value);
    } else {
      FirstFailureWins(p, vs, i);
    }
  }

  method EncodeList(p: nat, vals: seq<Value>) returns (r: Result<seq<byte>>)
    ensures r == EncodeListSpec(p, vals)
  {
    var head := LE(4, |vals| % TWO_32);
    var b := head;
    for i := 0 to |vals|
      invariant Progress(p, vals, i, head, b)
    {
      EncodeStep(p, vals, i, head, b);
      var next := EncodeValue(p, b, vals[i]);
      if next.Err? { return next; }
      b := next.value;
    }
    assert vals[..|vals|] == vals;
    r := Ok(b);
  }

  lemma {:induction false} FirstFailureWins(p: nat, vs: seq<Value>, i: nat)
    requires i < |vs| && EncodeNodes(p, vs[..i]).Ok? && EncodeNode(p, vs[i]).Err?
    ensures EncodeNodes(p, vs) == EncodeNode(p, vs[i])
    decreases |vs|
  {
    var front := vs[..|vs| - 1];
    if i < |vs| - 1 {
      assert front[..i] == vs[..i];
      FirstFailureWins(p, front, i);
    }
  }

  // ---- the decoder ----------------------------------------------------------

  function Signed(neg: bool, n: nat): int { if neg then -(n as int) else n as int }

  function ParseNode(p: nat, c: Cursor): (r: (Result<Value>, Cursor))
    requires c.Valid()
    ensures Advances(c, r.1)
    ensures r.0.Ok? ==> !c.fail && c.pos < r.1.pos
  {
    var (tag, c1) := c.Word(1);
    if c1.fail then (Err(MalformedNode), c1)
    else if tag == 0 then (Ok(NoneValue), c1)
    else if tag == 1 then
      var (x, c2) := c1.Word(1);
      (Ok(BoolValue(x != 0)), c2)
    else if tag == 2 then
      var (x, c2) := c1.Word(8);
      WordSizes();
      (Ok(Int(IntValue(ToI64(x), None))), c2)
    else if tag == 3 then
      var (neg, c2) := c1.Word(1);
      var (mag, c3) := c2.LenBytes(4);
      if c3.fail then (Err(MalformedNode), c3)
      else (Ok(Int(IntFromBig(Signed(neg != 0, LEVal(mag))))), c3)
    else if tag == 4 then
      var (x, c2) := c1.Word(8);
      WordSizes();
      (Ok(FloatValue(x)), c2)
    else if tag == 5 then
      var (re, c2) := c1.Word(8);
      var (im, c3) := c2.Word(8);
      WordSizes();
      (Ok(ComplexValue(re, im)), c3)
    else if tag == 6 then
      var (s, c2) := c1.LenBytes(4);
      (if c2.fail then Err(MalformedNode) else Ok(StrValue(s)), c2)
    else if tag == 7 then
      var (s, c2) := c1.LenBytes(4);
      (if c2.fail then Err(MalformedNode) else Ok(BytesValue(s)), c2)
    else if tag == 8 then ParseObject(p, c1)
    else (Err(UnknownTag(tag)), c1)
  }

  function ParseObject(p: nat, c: Cursor): (r: (Result<Value>, Cursor))
    requires c.Valid()
    ensures Advances(c, r.1)
    ensures r.0.Ok? ==> !r.1.fail
  {
    var (id, c1) := c.Word(8);
    var (kind, c2) := c1.Word(1);
    var (flags, c3) := c2.Word(1);
    var (name, c4) := c3.LenBytes(2);
    WordSizes();
    (if c4.fail then Err(MalformedNode) else Ok(ObjectFor(Handle(p, id, kind, flags % 2 == 1, name, false))), c4)
  }

  method DecodeNode(p: nat, r: NodeReader) returns (v: Result<Value>)
    requires r.Cur().Valid()
    modifies r
    ensures (v, r.Cur()) == ParseNode(p, old(r.Cur()))
  {
    WordSizes();
    var tag := r.ReadWord(1);
    if r.fail { return Err(MalformedNode); }
    match tag {
      case 0 => v := Ok(NoneValue);
      case 1 =>
        var x := r.ReadWord(1);
        v := Ok(BoolValue(x != 0));
      case 2 =>
        var x := r.ReadWord(8);
        v := Ok(Int(IntValue(ToI64(x), None)));
      case 3 =>
        var neg := r.ReadWord(1);
        var mag := r.ReadLenBytes(4);
        if r.fail { return Err(MalformedNode); }
        var be := ReversedCopy(mag);
        BEValReversed(mag);
        var n: int := BEVal(be[..]);
        if neg != 0 { n := -n; }
        assert n == Signed(neg != 0, LEVal(mag));
        v := Ok(Int(IntFromBig(n)));
      case 4 =>
        var x := r.ReadWord(8);
        v := Ok(FloatValue(x));
      case 5 =>
        var re := r.ReadWord(8);
        var im := r.ReadWord(8);
        v := Ok(ComplexValue(re, im));
      case 6 =>
        var s := r.ReadLenBytes(4);
        if r.fail { return Err(MalformedNode); }
        v := Ok(StrValue(s));
      case 7 =>
        var s := r.ReadLenBytes(4);
        if r.fail { return Err(MalformedNode); }
        v := Ok(BytesValue(s));
      case 8 =>
        var id := r.ReadWord(8);
        var kind := r.ReadWord(1);
        var flags := r.ReadWord(1);
        var name := r.ReadLenBytes(2);
        if r.fail { return Err(MalformedNode); }
        v := Ok(ObjectFor(Handle(p, id, kind, flags % 2 == 1, name, false)));
      case _ => v := Err(UnknownTag(tag));
    }
  }

  // ---- round trip -----------------------------------------------------------

  /** The node of v parses to what arrives of v and stops at the node's end. */
  ghost predicate Returns(p: nat, v: Value, c: Cursor)
    requires c.Valid()
  {
    ParseNode(p, c) == (Ok(Arrives(p, v)), Past(c, NodeBytes(v)))
  }

  /** Decoding a node, wherever it stands and whatever follows it, yields the value
      and stops at its end, exactly when its lengths fit. */
  lemma NodeRoundTrip(p: nat, v: Value, c: Cursor)
    requires !(v.ObjectValue? && v.handle == None)
    requires At(c, NodeBytes(v))
    ensures c.Valid()
    ensures Returns(p, v, c) <==> Fits(v)
  {
    match v {
      case StrValue(s) =>
        TagAt(c, 6, LenPrefixed(4, s));
        LenBytesAt(Past(c, [6]), 4, s);
        WordSizes();
      case BytesValue(s) =>
        TagAt(c, 7, LenPrefixed(4, s));
        LenBytesAt(Past(c, [7]), 4, s);
        WordSizes();
      case ObjectValue(_, h) => ObjectRoundTrip(p, v, h.value, c);
      case Int(n) => if n.big.Some? { BigRoundTrip(p, n, c); } else { ScalarRoundTrip(p, v, c); }
      case _ => ScalarRoundTrip(p, v, c);
    }
  }

  lemma ScalarRoundTrip(p: nat, v: Value, c: Cursor)
    requires !v.StrValue? && !v.BytesValue? && !v.ObjectValue? && (v.Int? ==> v.num.big.None?)
    requires At(c, NodeBytes(v))
    ensures c.Valid() && Returns(p, v, c)
  {
    match v {
      case Nil => NoneRoundTrip(p, v, c);
      case NoneValue => NoneRoundTrip(p, v, c);
      case BoolValue(b) =>
        assert NodeBytes(v) == [1] + [Flag(b)];
        TagAt(c, 1, [Flag(b)]);
        WordAt1(Past(c, [1]), Flag(b));
      case Int(n) =>
        TagAt(c, 2, LE(8, ToU64(n.i)));
        U64At(Past(c, [2]), ToU64(n.i));
      case FloatValue(bits) =>
        TagAt(c, 4, LE(8, bits));
        U64At(Past(c, [4]), bits);
      case ComplexValue(re, im) => ComplexRoundTrip(p, re, im, c);
    }
  }

  lemma ComplexRoundTrip(p: nat, re: u64, im: u64, c: Cursor)
    requires At(c, NodeBytes(ComplexValue(re, im)))
    ensures c.Valid() && Returns(p, ComplexValue(re, im), c)
  {
    TagAt(c, 5, LE(8, re) + LE(8, im));
    AtSplit(Past(c, [5]), LE(8, re), LE(8, im));
    U64At(Past(c, [5]), re);
    U64At(Past(Past(c, [5]), LE(8, re)), im);
  }

  lemma NoneRoundTrip(p: nat, v: Value, c: Cursor)
    requires (v.Nil? || v.NoneValue?) && At(c, NodeBytes(v))
    ensures c.Valid() && Returns(p, v, c)
  {
    assert NodeBytes(v) == [0];
    WordAt1(c, 0);
  }

  lemma WordAt1(c: Cursor, x: byte)
    requires At(c, [x])
    ensures c.Valid() && c.Word(1) == (x, Past(c, [x]))
  {
    assert LE(1, x) == [x];
    assert Pow256(1) == 256;
    WordAt(c, 1, x);
  }

  lemma U64At(c: Cursor, x: u64)
    requires At(c, LE(8, x))
    ensures c.Valid() && c.Word(8) == (x, Past(c, LE(8, x)))
  {
    WordSizes();
    WordAt(c, 8, x);
  }

  lemma TagAt(c: Cursor, tag: byte, rest: seq<byte>)
    requires At(c, [tag] + rest)
    ensures c.Valid() && c.Word(1) == (tag, Past(c, [tag]))
    ensures At(Past(c, [tag]), rest) && Past(Past(c, [tag]), rest) == Past(c, [tag] + rest)
  {
    AtSplit(c, [tag], rest);
    WordAt1(c, tag);
  }

  lemma BigRoundTrip(p: nat, n: IntValue, c: Cursor)
    requires n.big.Some? && At(c, NodeBytes(Int(n)))
    ensures c.Valid()
    ensures Returns(p, Int(n), c) <==> Fits(Int(n))
  {
    var big := n.big.value;
    MagnitudeRoundTrip(Abs(big));
    SignedBytesAt(c, Flag(big < 0), Magnitude(big));
    WordSizes();
  }

  lemma SignedBytesAt(c: Cursor, sign: byte, mag: seq<byte>)
    requires At(c, [3] + ([sign] + LenPrefixed(4, mag)))
    ensures c.Valid() && c.Word(1) == (3, Past(c, [3])) && Past(c, [3]).Word(1) == (sign, Past(Past(c, [3]), [sign]))
    ensures var r := Past(Past(c, [3]), [sign]).LenBytes(4);
      if |mag| < Pow256(4) then r == (mag, Past(c, [3] + ([sign] + LenPrefixed(4, mag))))
      else r.1 != Past(c, [3] + ([sign] + LenPrefixed(4, mag)))
  {
    TagAt(c, 3, [sign] + LenPrefixed(4, mag));
    TagAt(Past(c, [3]), sign, LenPrefixed(4, mag));
    LenBytesAt(Past(Past(c, [3]), [sign]), 4, mag);
  }

  lemma ObjectRoundTrip(p: nat, v: Value, h: Handle, c: Cursor)
    requires v.ObjectValue? && v.handle == Some(h) && At(c, NodeBytes(v))
    ensures c.Valid()
    ensures Returns(p, v, c) <==> Fits(v)
  {
    var name := LenPrefixed(2, h.typeName);
    var rest := [h.kind] + ([Flag(h.callable)] + name);
    TagAt(c, 8, LE(8, h.id) + rest);
    var c1 := Past(c, [8]);
    AtSplit(c1, LE(8, h.id), rest);
    U64At(c1, h.id);
    var c2 := Past(c1, LE(8, h.id));
    TagAt(c2, h.kind, [Flag(h.callable)] + name);
    TagAt(Past(c2, [h.kind]), Flag(h.callable), name);
    LenBytesAt(Past(Past(c2, [h.kind]), [Flag(h.callable)]), 2, h.typeName);
    assert Pow256(2) == 65536 by { WordSizes(); }
  }

  /** What was encoded by p decodes to what p is promised to receive. */
  lemma EncodeDecode(p: nat, v: Value, c: Cursor)
    requires EncodeNode(p, v).Ok? && Fits(Sent(v)) && At(c, EncodeNode(p, v).value)
    ensures c.Valid() && ParseNode(p, c) == (Ok(Received(p, v)), Past(c, EncodeNode(p, v).value))
  {
    NodeRoundTrip(p, Sent(v), c);
  }

  /** Every int that comes out of the decoder, from any bytes, is canonical, and a
      magnitude node denotes its signed little-endian sum. */
  lemma DecodedIntsCanonical(p: nat, c: Cursor)
    requires c.Valid() && ParseNode(p, c).0.Ok? && ParseNode(p, c).0.value.Int?
    ensures ParseNode(p, c).0.value.num.Canonical()
    ensures c.Word(1).0 == 3 ==>
      var (neg, c2) := c.Word(1).1.Word(1);
      ParseNode(p, c).0.value.num.Denotes() == (if neg != 0 then -1 else 1) * LEVal(c2.LenBytes(4).0)
  {}

  lemma {:induction false} BEMinLength(v: nat, n: nat)
    requires v < Pow256(n)
    ensures |BEMin(v)| <= n
  {
    if v != 0 { BEMinLength(v / 256, n - 1); }
  }

  /** Whatever bytes a value was decoded from, its lengths fit the widths they would
      travel in again. */
  lemma DecodedFits(p: nat, c: Cursor)
    requires c.Valid() && ParseNode(p, c).0.Ok?
    ensures Fits(ParseNode(p, c).0.value)
  {
    WordSizes();
    if c.Word(1).0 == 3 {
      var mag := c.Word(1).1.Word(1).1.LenBytes(4).0;
      LEValBound(mag);
      BEMinLength(LEVal(mag), |mag|);
    }
  }

  /** Decoding whatever bytes, encoding the result and decoding again changes
      nothing: re-encoding normalises padded or negative-zero magnitudes. */
  lemma ReencodingIsStable(p: nat, c: Cursor, d: Cursor)
    requires c.Valid() && ParseNode(p, c).0.Ok?
    requires At(d, EncodeNode(p, ParseNode(p, c).0.value).value)
    ensures var v := ParseNode(p, c).0.value;
      d.Valid() && ParseNode(p, d).0 == Ok(Sent(v)) && (v.Int? ==> Sent(v) == v)
  {
    hide ParseNode, Fits, EncodeNode, Received, Sent, At;
    DecodedFits(p, c);
    DecodedIsOwn(p, c);
    EncodeDecode(p, ParseNode(p, c).0.value, d);
  }

  /** A decoded value may be sent again, and arrives unchanged but for its type name. */
  lemma DecodedIsOwn(p: nat, c: Cursor)
    requires c.Valid() && ParseNode(p, c).0.Ok?
    ensures var v := ParseNode(p, c).0.value;
      EncodeNode(p, v).Ok? && (Fits(v) ==> Fits(Sent(v))) && Received(p, v) == Sent(v) && (v.Int? ==> Sent(v) == v)
  {
    ReceivedIsFaithful(p, ParseNode(p, c).0.value);
  }

  // ---- nodes, byte for byte -------------------------------------------------

  /** p encodes v as these bytes, and where they stand they decode to v. */
  ghost predicate OnTheWire(p: nat, v: Value, b: seq<byte>, c: Cursor) {
    EncodeNode(p, v) == Ok(b) && (At(c, b) ==> c.Valid() && ParseNode(p, c) == (Ok(v), Past(c, b)))
  }

  /** None, and nil, which arrives as None. */
  lemma NoneOnTheWire(p: nat, c: Cursor)
    ensures OnTheWire(p, NoneValue, [0], c)
    ensures EncodeNode(p, Nil) == Ok([0]) && Received(p, Nil) == NoneValue
  {
    if At(c, [0]) { NodeRoundTrip(p, NoneValue, c); }
  }

  lemma BoolOnTheWire(p: nat, b: bool, c: Cursor)
    ensures OnTheWire(p, BoolValue(b), if b then [1, 1] else [1, 0], c)
  {
    if At(c, NodeBytes(BoolValue(b))) { NodeRoundTrip(p, BoolValue(b), c); }
  }

  /** An int that fits 64 bits, in two's complement. */
  lemma IntOnTheWire(p: nat, i: i64, c: Cursor)
    ensures OnTheWire(p, Int(IntValue(i, None)), [2] + LE(8, if i >= 0 then i else i + 0x1_0000_0000_0000_0000), c)
  {
    var v := Int(IntValue(i, None));
    if At(c, NodeBytes(v)) { NodeRoundTrip(p, v, c); }
  }

  /** Any other: its sign, and its magnitude from the least significant byte to a last one
      that is not zero. */
  lemma BigOnTheWire(p: nat, n: int, c: Cursor) returns (mag: seq<byte>)
    requires n < -0x8000_0000_0000_0000 || n > 0x7fff_ffff_ffff_ffff
    ensures LEVal(mag) == (if n < 0 then -n else n) && mag != [] && mag[|mag| - 1] != 0
    ensures |mag| < TWO_32 ==>
      OnTheWire(p, Int(IntValue(0, Some(n))), [3] + ([if n < 0 then 1 else 0] + (LE(4, |mag|) + mag)), c)
  {
    mag := Magnitude(n);
    MagnitudeRoundTrip(Abs(n));
    BEMinLeading(Abs(n));
    WordSizes();
    var v := Int(IntValue(0, Some(n)));
    if |mag| < TWO_32 {
      SmallMod(|mag|, Pow256(4));
      if At(c, NodeBytes(v)) { NodeRoundTrip(p, v, c); }
    }
  }

  /** Floats travel as their bits. */
  lemma FloatOnTheWire(p: nat, re: u64, im: u64, c: Cursor)
    ensures OnTheWire(p, FloatValue(re), [4] + LE(8, re), c)
    ensures OnTheWire(p, ComplexValue(re, im), [5] + (LE(8, re) + LE(8, im)), c)
  {
    if At(c, NodeBytes(FloatValue(re))) { NodeRoundTrip(p, FloatValue(re), c); }
    if At(c, NodeBytes(ComplexValue(re, im))) { NodeRoundTrip(p, ComplexValue(re, im), c); }
  }

  lemma TextOnTheWire(p: nat, s: seq<byte>, c: Cursor)
    requires |s| < TWO_32
    ensures OnTheWire(p, StrValue(s), [6] + (LE(4, |s|) + s), c)
    ensures OnTheWire(p, BytesValue(s), [7] + (LE(4, |s|) + s), c)
  {
    hide ParseNode, LE, At, LEVal;
    WordSizes();
    SmallMod(|s|, Pow256(4));
    if At(c, NodeBytes(StrValue(s))) { NodeRoundTrip(p, StrValue(s), c); }
    if At(c, NodeBytes(BytesValue(s))) { NodeRoundTrip(p, BytesValue(s), c); }
  }

  /** A handle is sent by its id, kind and flags, without a type name. */
  lemma HandleOnTheWire(p: nat, x: Concrete, h: Handle)
    requires h.owner == p && !h.released
    ensures EncodeNode(p, ObjectValue(x, Some(h))) ==
      Ok([8] + (LE(8, h.id) + ([h.kind] + ([if h.callable then 1 else 0] + [0, 0]))))
  {
    assert LE(2, 0) + [] == [0, 0];
  }

  /** The bytes of an object node decode to a fresh wrapper of this instance, of the
      concrete type its kind byte names. */
  lemma ObjectNodeParses(p: nat, c: Cursor, id: u64, kind: byte, flags: byte, name: seq<byte>) returns (x: Concrete)
    requires |name| < 65536
    requires At(c, [8] + (LE(8, id) + ([kind] + ([flags] + (LE(2, |name|) + name)))))
    ensures c.Valid() && ParseNode(p, c).0 == Ok(ObjectValue(x, Some(Handle(p, id, kind, flags % 2 == 1, name, false))))
    ensures ParseNode(p, c).1 == Cursor(c.buf, c.pos + 13 + |name|, false)
    ensures (x == List <==> kind == 1) && (x == Tuple <==> kind == 2) && (x == Dict <==> kind == 3)
    ensures (x == Set <==> kind == 4) && (x == FrozenSet <==> kind == 5) && (x == Function <==> kind == 6)
    ensures (x == Class <==> kind == 7) && (x == Module <==> kind == 8) && (x == PlainObject <==> kind == 0 || kind > 8)
  {
    x := ObjectFor(Handle(p, id, kind, flags % 2 == 1, name, false)).concrete;
    var tail := LenPrefixed(2, name);
    WordSizes();
    SmallMod(|name|, Pow256(2));
    TagAt(c, 8, LE(8, id) + ([kind] + ([flags] + tail)));
    ObjectFieldsParse(p, Past(c, [8]), id, kind, flags, name);
  }

  lemma ObjectFieldsParse(p: nat, c: Cursor, id: u64, kind: byte, flags: byte, name: seq<byte>)
    requires |name| < 65536 && At(c, LE(8, id) + ([kind] + ([flags] + LenPrefixed(2, name))))
    ensures c.Valid()
    ensures ParseObject(p, c) == (Ok(ObjectFor(Handle(p, id, kind, flags % 2 == 1, name, false))),
                                  Cursor(c.buf, c.pos + 12 + |name|, false))
  {
    var tail := LenPrefixed(2, name);
    AtSplit(c, LE(8, id), [kind] + ([flags] + tail));
    U64At(c, id);
    var c1 := Past(c, LE(8, id));
    TagAt(c1, kind, [flags] + tail);
    TagAt(Past(c1, [kind]), flags, tail);
    WordSizes();
    LenBytesAt(Past(Past(c1, [kind]), [flags]), 2, name);
  }

  /** So a wrapper keeps its concrete type when it is sent and comes back, given the kind
      the protocol has for that type. */
  lemma ConcreteTypeSurvives(p: nat, x: Concrete, kind: byte, id: u64, callable: bool, name: seq<byte>)
    requires (x == List <==> kind == 1) && (x == Tuple <==> kind == 2) && (x == Dict <==> kind == 3)
    requires (x == Set <==> kind == 4) && (x == FrozenSet <==> kind == 5) && (x == Function <==> kind == 6)
    requires (x == Class <==> kind == 7) && (x == Module <==> kind == 8)
    requires x == PlainObject <==> kind == 0 || kind > 8
    ensures Received(p, ObjectValue(x, Some(Handle(p, id, kind, callable, name, false)))) ==
      ObjectValue(x, Some(Handle(p, id, kind, callable, [], false)))
  {}

  /** Why a value is refused: its handle is gone, or it is another instance's. */
  lemma WhyRefused(p: nat, v: Value)
    ensures EncodeNode(p, v) == Err(HandleReleased) <==>
      v.ObjectValue? && (v.handle == None || v.handle.value.released)
    ensures EncodeNode(p, v) == Err(ForeignHandle) <==>
      v.ObjectValue? && v.handle.Some? && !v.handle.value.released && v.handle.value.owner != p
  {}

  /** Tags above the object tag are refused by name, that of host functions included. */
  lemma UnknownTagsRefused(p: nat, c: Cursor)
    requires c.Valid() && !c.Word(1).1.fail && c.Word(1).0 > 8
    ensures ParseNode(p, c).0 == Err(UnknownTag(c.Word(1).0))
  {}

  // ---- truncation -----------------------------------------------------------

  /** A node that parses without overrun parses the same on any cut past its end;
      on any earlier cut it is an error or leaves `fail` set. */
  lemma NodeCut(p: nat, c: Cursor, k: nat)
    requires c.Valid() && c.pos <= k <= |c.buf.bytes|
    requires ParseNode(p, c).0.Ok? && !ParseNode(p, c).1.fail
    ensures var (v, c') := ParseNode(p, c);
      var (w, d) := ParseNode(p, c.Cut(k));
      if c'.pos <= k then (w, d) == (v, c'.Cut(k)) else w.Err? || d.fail
  {
    WordCut(c, 1, k);
    var (tag, c1) := c.Word(1);
    if c1.pos <= k {
      if tag == 1 {
        WordCut(c1, 1, k);
      } else if tag == 2 || tag == 4 {
        WordCut(c1, 8, k);
      } else if tag == 3 {
        WordCut(c1, 1, k);
        var c2 := c1.Word(1).1;
        if c2.pos <= k { LenBytesCut(c2, 4, k); }
      } else if tag == 5 {
        WordCut(c1, 8, k);
        var c2 := c1.Word(8).1;
        if c2.pos <= k { WordCut(c2, 8, k); }
      } else if tag == 6 || tag == 7 {
        LenBytesCut(c1, 4, k);
      } else if tag == 8 {
        ObjectCut(p, c1, k);
      }
    }
  }

  lemma ObjectCut(p: nat, c: Cursor, k: nat)
    requires c.Valid() && c.pos <= k <= |c.buf.bytes| && !ParseObject(p, c).1.fail
    ensures var (v, c') := ParseObject(p, c);
      var (w, d) := ParseObject(p, c.Cut(k));
      if c'.pos <= k then (w, d) == (v, c'.Cut(k)) else w.Err? && d.fail
  {
    var c1 := c.Word(8).1;
    var c2 := c1.Word(1).1;
    var c3 := c2.Word(1).1;
    WordCut(c, 8, k);
    if c1.pos <= k { WordCut(c1, 1, k); }
    if c2.pos <= k { WordCut(c2, 1, k); }
    if c3.pos <= k { LenBytesCut(c3, 2, k); }
  }

  /** Fixed-size scalars do not check for overrun. */
  predicate FixedSize(v: Value) { v.BoolValue? || (v.Int? && v.num.big.None?) || v.FloatValue? || v.ComplexValue? }

  /** Cut anywhere inside, a node decodes without an error exactly when its tag is
      there and it is a fixed-size scalar. */
  lemma NodePrefixDecodesIff(p: nat, v: Value, c: Cursor, k: nat)
    requires Sendable(v) && At(c, NodeBytes(v)) && c.pos <= k < c.pos + |NodeBytes(v)|
    ensures c.Valid() && (ParseNode(p, c.Cut(k)).0.Ok? <==> k > c.pos && FixedSize(v))
  {
    TagDecides(p, v, c, k);
    CutInside(p, v, c, k);
  }

  lemma CutInside(p: nat, v: Value, c: Cursor, k: nat)
    requires Sendable(v) && At(c, NodeBytes(v)) && c.pos <= k < c.pos + |NodeBytes(v)|
    ensures c.Valid() && (ParseNode(p, c.Cut(k)).0.Err? || ParseNode(p, c.Cut(k)).1.fail)
  {
    NodeRoundTrip(p, v, c);
    NodeCut(p, c, k);
  }

  /** The tag byte alone decides whether overrun is an error. */
  lemma TagDecides(p: nat, v: Value, c: Cursor, k: nat)
    requires Sendable(v) && At(c, NodeBytes(v)) && c.pos <= k <= |c.buf.bytes|
    ensures c.Valid()
    ensures var (w, d) := ParseNode(p, c.Cut(k));
      if k > c.pos && FixedSize(v) then w.Ok? else d.fail ==> w.Err?
  {
    var tag: byte := NodeBytes(v)[0];
    assert NodeBytes(v) == [tag] + NodeBytes(v)[1..];
    TagAt(c, tag, NodeBytes(v)[1..]);
    WordCut(c, 1, k);
  }

  // ---- node lists -----------------------------------------------------------

  function NodesBytes(vs: seq<Value>): seq<byte> {
    if vs == [] then [] else NodeBytes(vs[0]) + NodesBytes(vs[1..])
  }

  /** A u32 count, then the nodes. */
  function ListBytes(vs: seq<Value>): seq<byte> { LE(4, |vs| % TWO_32) + NodesBytes(vs) }

  lemma CountAt(c: Cursor, n: nat, rest: seq<byte>)
    requires n < TWO_32 && At(c, LE(4, n % TWO_32) + rest)
    ensures c.Valid() && c.Word(4) == (n, Past(c, LE(4, n % TWO_32)))
    ensures At(Past(c, LE(4, n % TWO_32)), rest)
      && Past(Past(c, LE(4, n % TWO_32)), rest) == Past(c, LE(4, n % TWO_32) + rest)
  {
    AtSplit(c, LE(4, n), rest);
    WordSizes();
    WordAt(c, 4, n);
  }

  function ArriveAll(p: nat, vs: seq<Value>): (r: seq<Value>)
    ensures |r| == |vs| && forall i :: 0 <= i < |vs| ==> r[i] == Arrives(p, vs[i])
  {
    seq(|vs|, i requires 0 <= i < |vs| => Arrives(p, vs[i]))
  }

  function SentAll(vs: seq<Value>): (r: seq<Value>)
    ensures |r| == |vs| && forall i :: 0 <= i < |vs| ==> r[i] == Sent(vs[i])
  {
    seq(|vs|, i requires 0 <= i < |vs| => Sent(vs[i]))
  }

  /** n nodes in a row. */
  function ParseNodes(p: nat, c: Cursor, n: nat): (r: (Result<seq<Value>>, Cursor))
    requires c.Valid()
    ensures Advances(c, r.1)
    ensures r.0.Ok? ==> |r.0.value| == n && n <= r.1.pos - c.pos
    decreases n
  {
    if n == 0 then (Ok([]), c)
    else
      var (v, c1) := ParseNode(p, c);
      if v.Err? then (Err(v.error), c1)
      else
        var (vs, c2) := ParseNodes(p, c1, n - 1);
        if vs.Err? then (vs, c2) else (Ok([v.value] + vs.value), c2)
  }

  /** The nodes still to come, put behind those already decoded. */
  function Joined(out: seq<Value>, rest: (Result<seq<Value>>, Cursor)): (Result<seq<Value>>, Cursor) {
    (if rest.0.Ok? then Ok(out + rest.0.value) else rest.0, rest.1)
  }

  lemma JoinedStep(p: nat, out: seq<Value>, c: Cursor, n: nat)
    requires c.Valid() && n > 0
    ensures var (v, c1) := ParseNode(p, c);
      Joined(out, ParseNodes(p, c, n)) ==
        if v.Err? then (Err(v.error), c1) else Joined(out + [v.value], ParseNodes(p, c1, n - 1))
  {
    var (v, c1) := ParseNode(p, c);
    if v.Ok? {
      var rest := ParseNodes(p, c1, n - 1).0;
      if rest.Ok? { Associative(out, [v.value], rest.value); }
    }
  }

  /** The nodes decoded so far and the n to come make up `whole`. */
  ghost predicate Leads(p: nat, c: Cursor, n: nat, out: seq<Value>, whole: (Result<seq<Value>>, Cursor)) {
    c.Valid() && whole == Joined(out, ParseNodes(p, c, n))
  }

  lemma LeadsFromStart(p: nat, c: Cursor, n: nat)
    requires c.Valid()
    ensures Leads(p, c, n, [], ParseNodes(p, c, n))
  {
    var rest := ParseNodes(p, c, n);
    if rest.0.Ok? { assert [] + rest.0.value == rest.0.value; }
  }

  lemma LeadsToEnd(p: nat, c: Cursor, out: seq<Value>, whole: (Result<seq<Value>>, Cursor))
    requires Leads(p, c, 0, out, whole)
    ensures whole == (Ok(out), c)
  {
    assert out + [] == out;
  }

  /** One round of the node loop, with n rounds to go. */
  method DecodeNextNode(p: nat, r: NodeReader, out: seq<Value>, ghost n: nat, ghost whole: (Result<seq<Value>>, Cursor))
    returns (next: Result<seq<Value>>)
    requires n > 0 && Leads(p, r.Cur(), n, out, whole)
    modifies r
    ensures if next.Err? then whole == (next, r.Cur()) else Leads(p, r.Cur(), n - 1, next.value, whole)
  {
    JoinedStep(p, out, r.Cur(), n);
    var v := DecodeNode(p, r);
    next := if v.Err? then Err(v.error) else Ok(out + [v.value]);
  }

  /** The decoding loop of list results and callback arguments. */
  method DecodeNodes(p: nat, r: NodeReader, count: nat) returns (vs: Result<seq<Value>>)
    requires r.Cur().Valid()
    modifies r
    ensures (vs, r.Cur()) == ParseNodes(p, old(r.Cur()), count)
  {
    hide ParseNode, ParseNodes, Leads;
    var out: seq<Value> := [];
    ghost var whole := ParseNodes(p, r.Cur(), count);
    ghost var left := count;
    LeadsFromStart(p, r.Cur(), count);
    for i := 0 to count
      invariant left == count - i && Leads(p, r.Cur(), left, out, whole)
    {
      var next := DecodeNextNode(p, r, out, left, whole);
      if next.Err? { return next; }
      out, left := next.value, left - 1;
    }
    LeadsToEnd(p, r.Cur(), out, whole);
    vs := Ok(out);
  }

  /** How many nodes a list of claimed length n decodes before it ends or fails. */
  function Decoded(p: nat, c: Cursor, n: nat): nat
    requires c.Valid()
    decreases n
  {
    if n == 0 then 0
    else
      var (v, c1) := ParseNode(p, c);
      if v.Err? then 0 else 1 + Decoded(p, c1, n - 1)
  }

  /** Whatever 32-bit count is claimed, the work is bounded by the data. */
  lemma {:induction false} DecodedWithinData(p: nat, c: Cursor, n: nat)
    requires c.Valid()
    ensures Decoded(p, c, n) <= |c.buf.bytes| - c.pos
    ensures ParseNodes(p, c, n).0.Ok? <==> Decoded(p, c, n) == n
    decreases n
  {
    hide ParseNode;
    if n > 0 {
      var (v, c1) := ParseNode(p, c);
      if v.Ok? { DecodedWithinData(p, c1, n - 1); }
    }
  }

  lemma {:induction false} NodesRoundTrip(p: nat, vs: seq<Value>, c: Cursor)
    requires forall i :: 0 <= i < |vs| ==> Sendable(vs[i])
    requires At(c, NodesBytes(vs))
    ensures c.Valid() && ParseNodes(p, c, |vs|) == (Ok(ArriveAll(p, vs)), Past(c, NodesBytes(vs)))
    decreases |vs|
  {
    if vs != [] {
      var v, rest := vs[0], vs[1..];
      var c1 := FirstNode(p, v, NodesBytes(rest), c);
      NodesRoundTrip(p, rest, c1);
      ConsNodes(p, c, Arrives(p, v), c1, ArriveAll(p, rest), Past(c1, NodesBytes(rest)));
      ArriveCons(p, vs);
    }
  }

  lemma FirstNode(p: nat, v: Value, rest: seq<byte>, c: Cursor) returns (c1: Cursor)
    requires Sendable(v) && At(c, NodeBytes(v) + rest)
    ensures c.Valid() && c1.Valid() && ParseNode(p, c) == (Ok(Arrives(p, v)), c1)
    ensures At(c1, rest) && Past(c1, rest) == Past(c, NodeBytes(v) + rest)
  {
    AtSplit(c, NodeBytes(v), rest);
    NodeRoundTrip(p, v, c);
    c1 := Past(c, NodeBytes(v));
  }

  /** The cut is n bytes into the nodes, inside the payload of the last, which is a
      fixed-size scalar. */
  predicate CutInLast(vs: seq<Value>, n: int) {
    vs != [] && FixedSize(vs[|vs| - 1]) && n > |NodesBytes(vs)| - |NodeBytes(vs[|vs| - 1])|
  }

  lemma {:induction false} LastWithin(vs: seq<Value>)
    requires vs != []
    ensures |NodesBytes(vs)| >= |NodeBytes(vs[|vs| - 1])|
    decreases |vs|
  {
    if |vs| > 1 { LastWithin(vs[1..]); }
  }

  lemma {:induction false} CutInLastCons(vs: seq<Value>, n: nat)
    requires vs != []
    ensures |NodesBytes(vs)| == |NodeBytes(vs[0])| + |NodesBytes(vs[1..])|
    ensures |vs| == 1 ==> (CutInLast(vs, n) <==> n > 0 && FixedSize(vs[0]))
    ensures |vs| > 1 && n < |NodeBytes(vs[0])| ==> !CutInLast(vs, n)
    ensures |vs| > 1 ==> (CutInLast(vs, n) <==> CutInLast(vs[1..], n - |NodeBytes(vs[0])|))
  {
    if |vs| == 1 {
      assert vs[1..] == [];
    } else {
      LastWithin(vs[1..]);
    }
  }

  /** Cut anywhere inside, a node list decodes without an error exactly when the cut is in
      the payload of its last node and that is a fixed-size scalar. */
  lemma {:induction false} NodesPrefixIff(p: nat, vs: seq<Value>, c: Cursor, k: nat)
    requires forall i :: 0 <= i < |vs| ==> Sendable(vs[i])
    requires At(c, NodesBytes(vs)) && c.pos <= k < c.pos + |NodesBytes(vs)|
    ensures c.Valid()
    ensures var r := ParseNodes(p, c.Cut(k), |vs|); (r.0.Ok? <==> CutInLast(vs, k - c.pos)) && (r.0.Ok? ==> r.1.fail)
    decreases |vs|
  {
    hide ParseNode, NodeBytes, FixedSize;
    var n := |NodeBytes(vs[0])|;
    CutInLastCons(vs, k - c.pos);
    if c.pos + n <= k {
      var c1 := NodeKept(p, vs[0], NodesBytes(vs[1..]), c, k);
      NodesPrefixIff(p, vs[1..], c1, k);
      NodesStep(p, c.Cut(k), |vs|);
    } else {
      NodeLost(p, vs[0], NodesBytes(vs[1..]), c, k);
      NodesLost(p, c.Cut(k), |vs|);
    }
  }

  lemma NodeKept(p: nat, v: Value, rest: seq<byte>, c: Cursor, k: nat) returns (c1: Cursor)
    requires Sendable(v) && At(c, NodeBytes(v) + rest) && c.pos + |NodeBytes(v)| <= k <= |c.buf.bytes|
    ensures c.Valid() && c1.buf == c.buf && c1.pos == c.pos + |NodeBytes(v)| && c1.Valid() && At(c1, rest)
    ensures ParseNode(p, c.Cut(k)) == (Ok(Arrives(p, v)), c1.Cut(k))
  {
    AtSplit(c, NodeBytes(v), rest);
    CutAt(c, NodeBytes(v), k);
    NodeRoundTrip(p, v, c.Cut(k));
    c1 := Past(c, NodeBytes(v));
  }

  lemma NodeLost(p: nat, v: Value, rest: seq<byte>, c: Cursor, k: nat)
    requires Sendable(v) && At(c, NodeBytes(v) + rest) && c.pos <= k < c.pos + |NodeBytes(v)|
    ensures c.Valid()
    ensures ParseNode(p, c.Cut(k)).0.Ok? <==> k > c.pos && FixedSize(v)
    ensures ParseNode(p, c.Cut(k)).0.Ok? ==> ParseNode(p, c.Cut(k)).1.fail
  {
    AtSplit(c, NodeBytes(v), rest);
    NodePrefixDecodesIff(p, v, c, k);
    CutInside(p, v, c, k);
  }

  /** After a node that overran, only the end of the list is no error. */
  lemma NodesLost(p: nat, c: Cursor, n: nat)
    requires c.Valid() && n > 0 && (ParseNode(p, c).0.Ok? ==> ParseNode(p, c).1.fail)
    ensures var r := ParseNodes(p, c, n);
      (r.0.Ok? <==> n == 1 && ParseNode(p, c).0.Ok?) && (r.0.Ok? ==> r.1.fail)
  {
    NodesStep(p, c, n);
    if n > 1 { NodesStep(p, ParseNode(p, c).1, n - 1); }
  }

  lemma NodesStep(p: nat, c: Cursor, n: nat)
    requires c.Valid() && n > 0
    ensures var (v, c1) := ParseNode(p, c);
      var (vs, c2) := ParseNodes(p, c, n);
      if v.Err? then vs.Err? else vs.Ok? == ParseNodes(p, c1, n - 1).0.Ok? && c2 == ParseNodes(p, c1, n - 1).1
    ensures c.fail ==> ParseNodes(p, c, n).0.Err?
  {}

  lemma ArriveCons(p: nat, vs: seq<Value>)
    requires vs != []
    ensures ArriveAll(p, vs) == [Arrives(p, vs[0])] + ArriveAll(p, vs[1..])
  {}

  lemma ConsNodes(p: nat, c: Cursor, v: Value, c1: Cursor, vs: seq<Value>, c2: Cursor)
    requires c.Valid() && ParseNode(p, c) == (Ok(v), c1)
    requires ParseNodes(p, c1, |vs|) == (Ok(vs), c2)
    ensures ParseNodes(p, c, |vs| + 1) == (Ok([v] + vs), c2)
  {}

  lemma {:induction false} NodesAppend(vs: seq<Value>, v: Value)
    ensures NodesBytes(vs + [v]) == NodesBytes(vs) + NodeBytes(v)
  {
    if vs == [] {
      assert (vs + [v])[1..] == [];
    } else {
      assert (vs + [v])[1..] == vs[1..] + [v];
      NodesAppend(vs[1..], v);
      Associative(NodeBytes(vs[0]), NodesBytes(vs[1..]), NodeBytes(v));
    }
  }

  /** A list encodes exactly when every element may be sent. */
  lemma {:induction false} EncodesIff(p: nat, vs: seq<Value>)
    ensures EncodeNodes(p, vs).Ok? <==> forall i :: 0 <= i < |vs| ==> Encodable(p, vs[i])
    ensures EncodeNodes(p, vs).Ok? ==> EncodeNodes(p, vs).value == NodesBytes(SentAll(vs))
    decreases |vs|
  {
    if vs != [] {
      var front, last := vs[..|vs| - 1], vs[|vs| - 1];
      EncodesIff(p, front);
      assert SentAll(vs) == SentAll(front) + [Sent(last)];
      NodesAppend(SentAll(front), Sent(last));
    }
  }

  // ---- dict items -----------------------------------------------------------

  datatype DictItem = DictItem(key: Value, value: Value)

  function Flatten(items: seq<DictItem>): (r: seq<Value>)
    ensures |r| == 2 * |items|
  {
    if items == [] then []
    else
      var last := items[|items| - 1];
      Flatten(items[..|items| - 1]) + [last.key, last.value]
  }

  lemma {:induction false} FlattenAt(items: seq<DictItem>, i: nat)
    requires i < |items|
    ensures Flatten(items)[2 * i] == items[i].key && Flatten(items)[2 * i + 1] == items[i].value
  {
    if i < |items| - 1 { FlattenAt(items[..|items| - 1], i); }
  }

  lemma FlattenInjective(a: seq<DictItem>, b: seq<DictItem>)
    requires Flatten(a) == Flatten(b)
    ensures a == b
  {
    forall i | 0 <= i < |a| ensures a[i] == b[i] {
      FlattenAt(a, i);
      FlattenAt(b, i);
    }
  }

  /** The flat 2n-node list of n items. */
  method EncodeDictItems(p: nat, items: seq<DictItem>) returns (r: Result<seq<byte>>)
    ensures r == EncodeListSpec(p, Flatten(items))
  {
    ghost var flat := Flatten(items);
    var head := LE(4, 2 * |items| % TWO_32);
    var b := head;
    for i := 0 to |items|
      invariant Progress(p, flat, 2 * i, head, b)
    {
      FlattenAt(items, i);
      EncodeStep(p, flat, 2 * i, head, b);
      var key := EncodeValue(p, b, items[i].key);
      if key.Err? { return key; }
      b := key.value;
      EncodeStep(p, flat, 2 * i + 1, head, b);
      var value := EncodeValue(p, b, items[i].value);
      if value.Err? { return value; }
      b := value.value;
    }
    assert flat[..2 * |items|] == flat;
    r := Ok(b);
  }

  /** DictValue.Items: pair up a flat list, refusing an odd one. */
  method PairItems(flat: seq<Value>) returns (r: Result<seq<DictItem>>)
    ensures r.Ok? <==> |flat| % 2 == 0
    ensures r.Ok? ==> Flatten(r.value) == flat
  {
    if |flat| % 2 != 0 { return Err(OddItems); }
    var items: seq<DictItem> := [];
    var i := 0;
    while i + 1 < |flat|
      invariant 0 <= i <= |flat| && i == 2 * |items|
      invariant Flatten(items) == flat[..i]
    {
      var more := items + [DictItem(flat[i], flat[i + 1])];
      assert more[..|items|] == items;
      assert flat[..i + 2] == flat[..i] + [flat[i], flat[i + 1]];
      items, i := more, i + 2;
    }
    assert flat[..i] == flat;
    r := Ok(items);
  }
}
