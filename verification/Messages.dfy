/** The message writers, and what the scans of module Protobuf recover from what
    they wrote. */
module Messages {
  import opened Bits
  import opened Bytes
  import opened Options
  import opened Varint
  import opened Protobuf

  datatype Field =
    | VarintField(num: u32, v: u64)
    | LenField(num: u32, data: seq<byte>)
    | Fixed32Field(num: u32, word: u32)
    | Fixed64Field(num: u32, dword: u64)
  {
    function Wire(): nat {
      match this
      case VarintField(_, _) => 0
      case LenField(_, _) => 2
      case Fixed32Field(_, _) => 5
      case Fixed64Field(_, _) => 1
    }

    function Payload(): seq<byte> {
      match this
      case VarintField(_, v) => VarintBytes(v)
      case LenField(_, data) => VarintBytes(|data|) + data
      case Fixed32Field(_, w) => LE(4, w)
      case Fixed64Field(_, w) => LE(8, w)
    }

    /** The field number survives the tag's 32-bit shift, and the length is a u64. */
    predicate WellFormed() {
      num < 0x2000_0000 && (LenField? ==> |data| < TWO_63)
    }

    function Encoded(): seq<byte> { TagBytes(num, Wire()) + Payload() }

    /** The payload is of the wire type that `kind` reads. */
    predicate Holds(kind: Kind) {
      match kind
      case AsBytes => LenField?
      case AsFloat => Fixed32Field?
      case AsDouble => Fixed64Field?
      case _ => VarintField?
    }

    function As(kind: Kind): Scalar
      requires Holds(kind)
    {
      match kind
      case AsBytes => Text(data)
      case AsFloat => Pattern(word)
      case AsDouble => Pattern(dword)
      case AsBool => Flag(v != 0)
      case AsInt32 => Integer(ToI32(v))
      case AsInt64 => Integer(ToI64(v))
      case AsUint32 => Integer(v % TWO_32)
      case AsUint64 => Integer(v)
    }
  }

  /** field<<3|wireType in uint32 arithmetic. */
  function TagBytes(num: u32, wire: nat): seq<byte> {
    VarintBytes(Or(num * 8 % TWO_32, wire))
  }

  function Message(fs: seq<Field>): seq<byte> {
    if fs == [] then [] else fs[0].Encoded() + Message(fs[1..])
  }

  predicate WellFormedFields(fs: seq<Field>) {
    |Message(fs)| < TWO_63 && forall i :: 0 <= i < |fs| ==> fs[i].WellFormed()
  }

  /** The first field numbered f. */
  function First(fs: seq<Field>, f: u32): (r: Option<Field>)
    ensures r.Some? ==> r.value in fs && r.value.num == f
    ensures r.None? <==> forall i :: 0 <= i < |fs| ==> fs[i].num != f
  {
    if fs == [] then None
    else if fs[0].num == f then Some(fs[0])
    else First(fs[1..], f)
  }

  // ---- the writers --------------------------------------------------------

  lemma OrCommutes(a: nat, b: nat)
    ensures Or(a, b) == Or(b, a)
    decreases a
  {}

  lemma OrLowBits(hi: nat, m: nat, wire: nat)
    requires hi == m * 8 && wire < 8
    ensures Or(hi, wire) == hi + wire
  {
    Pow2Words();
    OrDisjoint(wire, m, 3);
    OrCommutes(hi, wire);
  }

  lemma ShiftedTag(num: u32)
    ensures num * 8 % TWO_32 == num % 0x2000_0000 * 8
  {}

  lemma TagWord(num: u32, wire: nat)
    requires wire < 8
    ensures Or(num * 8 % TWO_32, wire) == num * 8 % TWO_32 + wire < TWO_32
  {
    ShiftedTag(num);
    OrLowBits(num * 8 % TWO_32, num % 0x2000_0000, wire);
  }

  method AppendTag(buf: seq<byte>, num: u32, wire: nat) returns (out: seq<byte>)
    requires wire < 8
    ensures out == buf + TagBytes(num, wire)
  {
    TagWord(num, wire);
    out := AppendVarint(buf, Or(num * 8 % TWO_32, wire));
  }

  lemma {:induction false} MessageAppend(fs: seq<Field>, f: Field)
    ensures Message(fs + [f]) == Message(fs) + f.Encoded()
  {
    if fs == [] {
      assert fs + [f] == [f];
      assert Message([f]) == f.Encoded() + Message([f][1..]);
    } else {
      assert (fs + [f])[1..] == fs[1..] + [f];
      MessageAppend(fs[1..], f);
    }
  }

  /** A tag and a payload appended to a message add one field. */
  lemma FieldAppended(fs: seq<Field>, f: Field, tagged: seq<byte>, payload: seq<byte>)
    requires tagged == Message(fs) + TagBytes(f.num, f.Wire()) && payload == f.Payload()
    ensures tagged + payload == Message(fs + [f])
  {
    MessageAppend(fs, f);
    Associative(Message(fs), TagBytes(f.num, f.Wire()), payload);
  }

  // Every writer appends one field to the message written so far.

  method AppendUint64(buf: seq<byte>, num: u32, v: u64, ghost fs: seq<Field>) returns (out: seq<byte>)
    requires buf == Message(fs)
    ensures out == Message(fs + [VarintField(num, v)])
  {
    var tagged := AppendTag(buf, num, 0);
    out := AppendVarint(tagged, v);
    FieldAppended(fs, VarintField(num, v), tagged, VarintBytes(v));
  }

  /** pbAppendInt32 and pbAppendInt64: uint64(v) sign-extends. */
  method AppendInt64(buf: seq<byte>, num: u32, i: i64, ghost fs: seq<Field>) returns (out: seq<byte>)
    requires buf == Message(fs)
    ensures out == Message(fs + [VarintField(num, ToU64(i))])
  {
    var tagged := AppendTag(buf, num, 0);
    out := AppendVarint(tagged, ToU64(i));
    FieldAppended(fs, VarintField(num, ToU64(i)), tagged, VarintBytes(ToU64(i)));
  }

  method AppendBool(buf: seq<byte>, num: u32, v: bool, ghost fs: seq<Field>) returns (out: seq<byte>)
    requires buf == Message(fs)
    ensures out == Message(fs + [VarintField(num, if v then 1 else 0)])
  {
    var tagged := AppendTag(buf, num, 0);
    out := tagged + (if v then [1] else [0]);
    FieldAppended(fs, VarintField(num, if v then 1 else 0), tagged, (if v then [1] else [0]));
  }

  /** pbAppendString, pbAppendBytes and pbAppendSubmessage. */
  method AppendBytes(buf: seq<byte>, num: u32, data: seq<byte>, ghost fs: seq<Field>) returns (out: seq<byte>)
    requires buf == Message(fs) && |data| < TWO_63
    ensures out == Message(fs + [LenField(num, data)])
  {
    var tagged := AppendTag(buf, num, 2);
    var prefixed := AppendVarint(tagged, |data|);
    out := prefixed + data;
    Associative(tagged, VarintBytes(|data|), data);
    FieldAppended(fs, LenField(num, data), tagged, VarintBytes(|data|) + data);
  }

  method AppendFloat(buf: seq<byte>, num: u32, word: u32, ghost fs: seq<Field>) returns (out: seq<byte>)
    requires buf == Message(fs)
    ensures out == Message(fs + [Fixed32Field(num, word)])
  {
    var tagged := AppendTag(buf, num, 5);
    out := tagged + LE(4, word);
    FieldAppended(fs, Fixed32Field(num, word), tagged, LE(4, word));
  }

  method AppendDouble(buf: seq<byte>, num: u32, dword: u64, ghost fs: seq<Field>) returns (out: seq<byte>)
    requires buf == Message(fs)
    ensures out == Message(fs + [Fixed64Field(num, dword)])
  {
    var tagged := AppendTag(buf, num, 1);
    out := tagged + LE(8, dword);
    FieldAppended(fs, Fixed64Field(num, dword), tagged, LE(8, dword));
  }

  /** A handle: field 1 of a submessage. */
  function HandleField(num: u32, ptr: u64): Field {
    LenField(num, VarintField(1, ptr).Encoded())
  }

  lemma HandleTag()
    ensures TagBytes(1, 0) == [0x08]
  {
    TagWord(1, 0);
  }

  /** The direct form of a handle writes, byte for byte, what AppendBytes writes for
      the submessage built in a buffer of its own. */
  method AppendHandle(buf: seq<byte>, num: u32, ptr: u64, ghost fs: seq<Field>) returns (out: seq<byte>)
    requires buf == Message(fs)
    ensures out == Message(fs + [HandleField(num, ptr)])
    ensures HandleField(num, ptr) == LenField(num, VarintField(1, ptr).Encoded())
  {
    var n := VarintLen(ptr);
    VarintAtMostTenBytes(ptr);
    var tagged := AppendTag(buf, num, 2);
    var prefixed := AppendVarint(tagged, 1 + n);
    out := AppendVarint(prefixed + [0x08], ptr);
    HandlePayload(num, ptr);
    Associative(prefixed, [0x08], VarintBytes(ptr));
    Associative(tagged, VarintBytes(1 + n), [0x08] + VarintBytes(ptr));
    FieldAppended(fs, HandleField(num, ptr), tagged, VarintBytes(1 + n) + ([0x08] + VarintBytes(ptr)));
  }

  lemma HandlePayload(num: u32, ptr: u64)
    ensures HandleField(num, ptr).Payload() == VarintBytes(1 + |VarintBytes(ptr)|) + ([0x08] + VarintBytes(ptr))
  {
    HandleTag();
  }

  // ---- what the scans see in a written message ------------------------------

  lemma TagRoundTrip(b: seq<byte>, pos: nat, f: Field)
    requires f.num < 0x2000_0000
    requires pos + |TagBytes(f.num, f.Wire())| <= |b|
    requires b[pos..pos + |TagBytes(f.num, f.Wire())|] == TagBytes(f.num, f.Wire())
    ensures pos < |b| && TagAt(b, pos) == Tag(f.num, f.Wire(), pos + |TagBytes(f.num, f.Wire())|)
  {
    var word := Or(f.num * 8 % TWO_32, f.Wire());
    TagWord(f.num, f.Wire());
    VarintRoundTrip(b, pos, word);
    TagParts(f.num, f.Wire(), word);
  }

  lemma TagParts(num: u32, wire: nat, word: nat)
    requires num < 0x2000_0000 && wire < 8 && word == num * 8 % TWO_32 + wire
    ensures word / 8 % TWO_32 == num && word % 8 == wire
  {}

  lemma SliceOf(b: seq<byte>, p: nat, s: seq<byte>, rest: seq<byte>)
    requires p <= |b| && b[p..] == s + rest
    ensures p + |s| <= |b| && b[p..p + |s|] == s && b[p + |s|..] == rest
  {
    assert |b[p..]| == |b| - p;
    assert b[p..p + |s|] == b[p..][..|s|];
    assert b[p + |s|..] == b[p..][|s|..];
  }

  lemma LengthPrefix(b: seq<byte>, p: nat, data: seq<byte>, rest: seq<byte>)
    requires p <= |b| < TWO_63 && b[p..] == VarintBytes(|data|) + data + rest
    ensures VarintVal(b, p) == |data| && VarintEnd(b, p) == p + |VarintBytes(|data|)|
    ensures LengthFits(b, p) && PayloadAt(b, p) == data
    ensures SkipTo(b, p, 2) == p + |VarintBytes(|data|) + data|
  {
    var prefix := VarintBytes(|data|);
    Associative(prefix, data, rest);
    assert b[p..] == prefix + (data + rest);
    SliceOf(b, p, prefix, data + rest);
    VarintRoundTrip(b, p, |data|);
    SliceOf(b, p + |prefix|, data, rest);
    SkipFitting(b, p);
  }

  lemma SkipFitting(b: seq<byte>, p: nat)
    requires p <= |b| < TWO_63 && LengthFits(b, p) && VarintEnd(b, p) + VarintVal(b, p) <= |b|
    ensures SkipTo(b, p, 2) == VarintEnd(b, p) + VarintVal(b, p)
  {}

  /** The bytes at p are f's payload: every matching read returns it. */
  ghost predicate Carries(b: seq<byte>, p: nat, f: Field)
    requires p <= |b|
  {
    && (f.LenField? ==> LengthFits(b, p) && PayloadAt(b, p) == f.data)
    && (f.VarintField? ==> VarintVal(b, p) == f.v)
    && forall kind :: f.Holds(kind) ==> Readable(b, p, kind) && ReadAs(b, p, kind) == f.As(kind)
  }

  /** At a well-formed field the payload reads back and `skip` stops at its end. */
  lemma PayloadRoundTrip(b: seq<byte>, p: nat, f: Field, rest: seq<byte>)
    requires p <= |b| < TWO_63 && b[p..] == f.Payload() + rest
    ensures Carries(b, p, f)
    ensures f.LenField? ==> LengthFits(b, p)
    ensures SkipTo(b, p, f.Wire()) == p + |f.Payload()| <= |b|
  {
    SliceOf(b, p, f.Payload(), rest);
    match f {
      case VarintField(_, v) => VarintRoundTrip(b, p, v);
      case LenField(_, data) => LengthPrefix(b, p, data, rest);
      case Fixed32Field(_, w) => WordSizes(); LERoundTrip(4, w);
      case Fixed64Field(_, w) => WordSizes(); LERoundTrip(8, w);
    }
  }

  /** The tag found and the field written agree. */
  ghost predicate Finds(b: seq<byte>, found: Option<Tag>, field: Option<Field>) {
    match field
    case None => found == None
    case Some(f) =>
      found.Some? && found.value.wire == f.Wire() && found.value.pos <= |b| && Carries(b, found.value.pos, f)
  }

  /** The scan finds the first field numbered f, whatever stands before it. */
  lemma {:induction false} ScanMessage(b: seq<byte>, pos: nat, fs: seq<Field>, f: u32)
    requires pos <= |b| < TWO_63 && b[pos..] == Message(fs)
    requires forall i :: 0 <= i < |fs| ==> fs[i].WellFormed()
    ensures ScanSafe(b, pos, f, None)
    ensures Finds(b, FieldAt(b, pos, f, None), First(fs, f))
    decreases |fs|
  {
    if fs == [] {
      assert |b[pos..]| == 0;
    } else {
      assert Message(fs) == fs[0].Encoded() + Message(fs[1..]);
      var p := ReadHead(b, pos, fs[0], Message(fs[1..]));
      if fs[0].num == f {
        ScanStops(b, pos, f);
      } else {
        var next := p + |fs[0].Payload()|;
        ScanMessage(b, next, fs[1..], f);
        ScanPasses(b, pos, f, next);
      }
    }
  }

  lemma ScanStops(b: seq<byte>, pos: nat, f: u32)
    requires pos < |b| && TagAt(b, pos).field == f
    ensures ScanSafe(b, pos, f, None) && FieldAt(b, pos, f, None) == Some(TagAt(b, pos))
  {}

  lemma ScanPasses(b: seq<byte>, pos: nat, f: u32, next: nat)
    requires pos < |b| && TagAt(b, pos).field != f
    requires TagAt(b, pos).wire == 2 ==> LengthFits(b, TagAt(b, pos).pos)
    requires TagAt(b, pos).pos <= next <= |b| && SkipTo(b, TagAt(b, pos).pos, TagAt(b, pos).wire) == next
    requires ScanSafe(b, next, f, None)
    ensures ScanSafe(b, pos, f, None) && FieldAt(b, pos, f, None) == FieldAt(b, next, f, None)
  {}

  lemma ReadHead(b: seq<byte>, pos: nat, head: Field, rest: seq<byte>) returns (p: nat)
    requires pos <= |b| < TWO_63 && b[pos..] == head.Encoded() + rest && head.WellFormed()
    ensures pos < |b| && TagAt(b, pos) == Tag(head.num, head.Wire(), p) && p <= |b|
    ensures Carries(b, p, head) && (head.LenField? ==> LengthFits(b, p))
    ensures SkipTo(b, p, head.Wire()) == p + |head.Payload()| <= |b|
    ensures b[p + |head.Payload()|..] == rest
  {
    var tag := TagBytes(head.num, head.Wire());
    Associative(tag, head.Payload(), rest);
    assert b[pos..] == tag + (head.Payload() + rest);
    SliceOf(b, pos, tag, head.Payload() + rest);
    TagRoundTrip(b, pos, head);
    p := pos + |tag|;
    PayloadRoundTrip(b, p, head, rest);
    SliceOf(b, p, head.Payload(), rest);
  }

  /** The first field numbered f: nothing before it has the number. */
  lemma {:induction false} FirstIsFirst(fs: seq<Field>, f: u32) returns (i: nat)
    requires First(fs, f).Some?
    ensures i < |fs| && First(fs, f) == Some(fs[i]) && fs[i].num == f
    ensures forall j :: 0 <= j < i ==> fs[j].num != f
  {
    if fs[0].num == f {
      i := 0;
    } else {
      var k := FirstIsFirst(fs[1..], f);
      i := k + 1;
    }
  }

  lemma TagOnTheWire(num: u32, wire: nat)
    requires num < 0x2000_0000 && wire < 8
    ensures TagBytes(num, wire) == VarintBytes(num * 8 + wire)
  {
    hide VarintBytes;
    TagWord(num, wire);
  }

  /** The tag number, wire type and payload of each kind of field. */
  lemma FieldsOnTheWire(num: u32, v: u64, data: seq<byte>, word: u32)
    requires num < 0x2000_0000
    ensures VarintField(num, v).Encoded() == VarintBytes(num * 8 + 0) + VarintBytes(v)
    ensures Fixed64Field(num, v).Encoded() == VarintBytes(num * 8 + 1) + LE(8, v)
    ensures LenField(num, data).Encoded() == VarintBytes(num * 8 + 2) + (VarintBytes(|data|) + data)
    ensures Fixed32Field(num, word).Encoded() == VarintBytes(num * 8 + 5) + LE(4, word)
  {
    hide VarintBytes, LE;
    TagOnTheWire(num, 0);
    TagOnTheWire(num, 1);
    TagOnTheWire(num, 2);
    TagOnTheWire(num, 5);
  }

  /** Every scalar reads back as it was written, and an absent one as zero. */
  lemma ScalarsAsWritten(num: u32, b: bool, i: i64, j: i32, u: u64, w: u32, data: seq<byte>)
    ensures VarintField(num, if b then 1 else 0).As(AsBool) == Flag(b) && Zero(AsBool) == Flag(false)
    ensures VarintField(num, ToU64(i)).As(AsInt64) == Integer(i) && Zero(AsInt64) == Integer(0)
    ensures VarintField(num, ToU64(j)).As(AsInt32) == Integer(j) && Zero(AsInt32) == Integer(0)
    ensures VarintField(num, u).As(AsUint64) == Integer(u) && Zero(AsUint64) == Integer(0)
    ensures VarintField(num, w).As(AsUint32) == Integer(w) && Zero(AsUint32) == Integer(0)
    ensures Fixed32Field(num, w).As(AsFloat) == Pattern(w) && Zero(AsFloat) == Pattern(0)
    ensures Fixed64Field(num, u).As(AsDouble) == Pattern(u) && Zero(AsDouble) == Pattern(0)
    ensures LenField(num, data).As(AsBytes) == Text(data) && Zero(AsBytes) == Text([])
  {
    Int32Wrap(j);
  }

  /** A scalar lookup returns the first occurrence's payload, or the zero value
      when the field is absent. */
  lemma ScalarOfMessage(fs: seq<Field>, f: u32, kind: Kind)
    requires WellFormedFields(fs)
    requires First(fs, f).Some? ==> First(fs, f).value.Holds(kind)
    ensures ScalarReadable(Message(fs), f, kind)
    ensures ScalarAt(Message(fs), f, kind) ==
      match First(fs, f)
      case None => Zero(kind)
      case Some(field) => field.As(kind)
  {
    assert Message(fs)[0..] == Message(fs);
    ScanMessage(Message(fs), 0, fs, f);
  }

  /** A response is an error exactly when field 15 occurs, and the text is that of
      its first occurrence. */
  lemma ErrorOfMessage(fs: seq<Field>)
    requires WellFormedFields(fs)
    requires First(fs, 15).Some? ==> First(fs, 15).value.LenField?
    ensures ScalarReadable(Message(fs), 15, AsBytes)
    ensures ErrorOf(Message(fs)).Some? <==> exists i :: 0 <= i < |fs| && fs[i].num == 15
    ensures First(fs, 15).Some? ==> ErrorOf(Message(fs)) == Some(First(fs, 15).value.data)
  {
    assert Message(fs)[0..] == Message(fs);
    ScanMessage(Message(fs), 0, fs, 15);
  }

  lemma InnerHandle(ptr: u64, sub: seq<byte>)
    requires sub == VarintField(1, ptr).Encoded()
    ensures HandleReadable(sub) && HandleIn(sub) == ptr
    ensures ScanSafe(sub, 0, 1, Some(0)) && FieldAt(sub, 0, 1, Some(0)) == FieldAt(sub, 0, 1, None)
    ensures FieldAt(sub, 0, 1, None).Some? && VarintVal(sub, FieldAt(sub, 0, 1, None).value.pos) == ptr
  {
    VarintAtMostTenBytes(ptr);
    HandleTag();
    assert sub[0..] == sub + [];
    var p := ReadHead(sub, 0, VarintField(1, ptr), []);
  }

  /** A handle written at any field number is recovered from the message, through
      the direct path at field 1 and the general path elsewhere. */
  lemma HandleRoundTrip(fs: seq<Field>, f: u32, ptr: u64)
    requires WellFormedFields(fs) && f >= 1
    requires First(fs, f) == Some(HandleField(f, ptr))
    ensures PtrReadable(Message(fs), f) && PtrAt(Message(fs), f) == ptr
  {
    assert Message(fs)[0..] == Message(fs);
    ScanMessage(Message(fs), 0, fs, f);
    InnerHandle(ptr, VarintField(1, ptr).Encoded());
  }

  /** A constructor's bare varint at field 1 is a handle too, and an absent field is
      the null handle. */
  lemma BareHandleRoundTrip(fs: seq<Field>, ptr: u64)
    requires WellFormedFields(fs)
    requires First(fs, 1) == Some(VarintField(1, ptr)) || (First(fs, 1) == None && ptr == 0)
    ensures PtrReadable(Message(fs), 1) && PtrAt(Message(fs), 1) == ptr
  {
    assert Message(fs)[0..] == Message(fs);
    ScanMessage(Message(fs), 0, fs, 1);
  }

  /** What is not a handle reads as the null handle. */
  lemma NotAHandle(fs: seq<Field>, f: u32)
    requires WellFormedFields(fs)
    requires First(fs, f).Some? ==>
      var field := First(fs, f).value;
      field.Fixed32Field? || field.Fixed64Field? || (f != 1 && field.VarintField?)
    ensures PtrReadable(Message(fs), f) && PtrAt(Message(fs), f) == 0
  {
    assert Message(fs)[0..] == Message(fs);
    ScanMessage(Message(fs), 0, fs, f);
  }
}
