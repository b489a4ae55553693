/** The protobuf transport (Protocol Buffers Encoding, "Message Structure" and
    "Length-Delimited Records"): field writers, the streaming reader and the
    field scans every bridge response goes through. */
module Protobuf {
  import opened Bits
  import opened Bytes
  import opened Options
  import opened Varint

  // ---- what a reader at position p sees -----------------------------------

  datatype Tag = Tag(field: u32, wire: nat, pos: nat)

  function TagAt(b: seq<byte>, pos: nat): Tag
    requires pos < |b|
  {
    var t := VarintVal(b, pos);
    Tag(t / 8 % TWO_32, t % 8, VarintEnd(b, pos))
  }

  /** The length prefix at p does not carry the position out of Go's int. */
  predicate LengthFits(b: seq<byte>, p: nat)
    requires p <= |b|
  {
    VarintEnd(b, p) + VarintVal(b, p) < TWO_63
  }

  /** Where `skip` leaves the position, in Go's 64-bit arithmetic. */
  function SkipTo(b: seq<byte>, p: nat, wire: nat): int
    requires p <= |b|
  {
    var to :=
      if wire == 0 then VarintEnd(b, p)
      else if wire == 1 then p + 8
      else if wire == 2 then Wrap64(VarintEnd(b, p) + ToI64(VarintVal(b, p)))
      else if wire == 5 then p + 4
      else p;
    if to > |b| then |b| else to
  }

  /** The length of the slice that readBytes takes, in Go's 64-bit arithmetic: the prefix,
      unless it reaches past the data. */
  function SliceLength(b: seq<byte>, p: nat): int
    requires p <= |b|
  {
    var n := ToI64(VarintVal(b, p));
    if Wrap64(VarintEnd(b, p) + n) > |b| then |b| - VarintEnd(b, p) else n
  }

  /** The slice is in range, and the read does not panic, exactly when the length prefix
      stays inside Go's int. */
  lemma SliceInRangeIff(b: seq<byte>, p: nat)
    requires p <= |b| < TWO_63
    ensures 0 <= SliceLength(b, p) && VarintEnd(b, p) + SliceLength(b, p) <= |b| <==> LengthFits(b, p)
  {}

  /** The bytes of the length-delimited payload at p, clamped to the data. */
  function PayloadAt(b: seq<byte>, p: nat): seq<byte>
    requires p <= |b| && LengthFits(b, p)
  {
    var (e, n) := (VarintEnd(b, p), VarintVal(b, p));
    if e + n > |b| then b[e..] else b[e..e + n]
  }

  /** The payload is as long as its prefix says, or as the data reaches. */
  lemma PayloadIsClamped(b: seq<byte>, p: nat)
    requires p <= |b| && LengthFits(b, p)
    ensures var e, n := VarintEnd(b, p), VarintVal(b, p);
      PayloadAt(b, p) == b[e..if n <= |b| - e then e + n else |b|]
  {}

  datatype Kind = AsBool | AsInt32 | AsInt64 | AsUint32 | AsUint64 | AsFloat | AsDouble | AsBytes

  /** A scalar read from a message; floats are carried as their bit patterns. */
  datatype Scalar = Flag(flag: bool) | Integer(i: int) | Pattern(bits: nat) | Text(text: seq<byte>)

  function Zero(kind: Kind): Scalar {
    match kind
    case AsBool => Flag(false)
    case AsFloat | AsDouble => Pattern(0)
    case AsBytes => Text([])
    case _ => Integer(0)
  }

  predicate Readable(b: seq<byte>, p: nat, kind: Kind)
    requires p <= |b|
  {
    kind.AsBytes? ==> LengthFits(b, p)
  }

  function FixedAt(b: seq<byte>, p: nat, width: nat): nat {
    if p + width > |b| then 0 else LEVal(b[p..p + width])
  }

  function ReadAs(b: seq<byte>, p: nat, kind: Kind): Scalar
    requires p <= |b| && Readable(b, p, kind)
  {
    match kind
    case AsBool => Flag(VarintVal(b, p) != 0)
    case AsInt32 => Integer(ToI32(VarintVal(b, p)))
    case AsInt64 => Integer(ToI64(VarintVal(b, p)))
    case AsUint32 => Integer(VarintVal(b, p) % TWO_32)
    case AsUint64 => Integer(VarintVal(b, p))
    case AsFloat => Pattern(FixedAt(b, p, 4))
    case AsDouble => Pattern(FixedAt(b, p, 8))
    case AsBytes => Text(PayloadAt(b, p))
  }

  /** Does a tag answer a search for field f (of wire type `wire`, when given)? */
  predicate Wanted(t: Tag, f: u32, wire: Option<nat>) {
    t.field == f && (wire == None || wire == Some(t.wire))
  }

  /** Every length prefix passed over before the first wanted field is sane. */
  ghost predicate ScanSafe(b: seq<byte>, pos: nat, f: u32, wire: Option<nat>)
    requires pos <= |b|
    decreases |b| - pos
  {
    pos == |b| ||
    var t := TagAt(b, pos);
    Wanted(t, f, wire) ||
    ((t.wire == 2 ==> LengthFits(b, t.pos)) && t.pos <= SkipTo(b, t.pos, t.wire)
     && ScanSafe(b, SkipTo(b, t.pos, t.wire), f, wire))
  }

  /** The first wanted field at or after pos: its tag. */
  ghost function FieldAt(b: seq<byte>, pos: nat, f: u32, wire: Option<nat>): (r: Option<Tag>)
    requires pos <= |b| && ScanSafe(b, pos, f, wire)
    ensures r.Some? ==> Wanted(r.value, f, wire) && r.value.pos <= |b|
    decreases |b| - pos
  {
    if pos == |b| then None
    else
      var t := TagAt(b, pos);
      if Wanted(t, f, wire) then Some(t)
      else FieldAt(b, SkipTo(b, t.pos, t.wire), f, wire)
  }

  ghost predicate ScalarReadable(b: seq<byte>, f: u32, kind: Kind) {
    ScanSafe(b, 0, f, None) &&
    (FieldAt(b, 0, f, None).Some? ==> Readable(b, FieldAt(b, 0, f, None).value.pos, kind))
  }

  ghost function ScalarAt(b: seq<byte>, f: u32, kind: Kind): Scalar
    requires ScalarReadable(b, f, kind)
  {
    match FieldAt(b, 0, f, None)
    case None => Zero(kind)
    case Some(t) => ReadAs(b, t.pos, kind)
  }

  lemma NoOverflow(p: nat, v: u64)
    requires p + v < TWO_63
    ensures ToI64(v) == v && Wrap64(p + v) == p + v
  {}

  /** Skipping lands between the end of what was read and the end of the data
      exactly when the length prefix stays inside Go's int. */
  lemma SkipAdvancesIff(b: seq<byte>, p: nat, wire: nat)
    requires p <= |b| < TWO_63
    ensures p <= (if wire == 2 then VarintEnd(b, p) else p) <= SkipTo(b, p, wire) <= |b|
      <==> (wire == 2 ==> LengthFits(b, p))
  {}

  /** Outside that condition a scan need not make progress: this field, of wire
      type 2 with length prefix 2^64 - 11, skips back to its own tag. */
  lemma OversizedLengthStalls()
    ensures var b: seq<byte> := [0x12] + VarintBytes(TWO_64 - 11);
      |b| == 11 && TagAt(b, 0) == Tag(2, 2, 1) && !LengthFits(b, 1) && SkipTo(b, 1, 2) == 0
  {
    var e := VarintBytes(TWO_64 - 11);
    var b: seq<byte> := [0x12] + e;
    LongVarint(TWO_64 - 11);
    assert b[1..1 + |e|] == e;
    VarintRoundTrip(b, 1, TWO_64 - 11);
    assert VarintEnd(b, 0) == 1;
    assert b[0..1] == [0x12];
    assert GroupsVal([0x12]) == 0x12;
  }

  /** With tag just read, `found` is what the scan will end with. */
  ghost predicate Found(b: seq<byte>, tag: Tag, f: u32, wire: Option<nat>, found: Option<Tag>) {
    if Wanted(tag, f, wire) then found == Some(tag)
    else
      && tag.pos <= |b| && (tag.wire == 2 ==> LengthFits(b, tag.pos))
      && tag.pos <= SkipTo(b, tag.pos, tag.wire)
      && ScanSafe(b, SkipTo(b, tag.pos, tag.wire), f, wire)
      && found == FieldAt(b, SkipTo(b, tag.pos, tag.wire), f, wire)
  }

  // ---- the reader ---------------------------------------------------------

  class PbReader {
    const data: seq<byte>
    var pos: int

    constructor (data: seq<byte>)
      ensures this.data == data && pos == 0
    {
      this.data := data;
      pos := 0;
    }

    predicate Valid()
      reads this
    {
      0 <= pos <= |data| < TWO_63
    }

    method ReadVarint() returns (v: u64)
      requires Valid()
      modifies this
      ensures Valid() && v == VarintVal(data, old(pos)) && pos == VarintEnd(data, old(pos))
    {
      v := 0;
      var shift := 0;
      ghost var start := pos;
      while pos < |data|
        invariant Valid() && start <= pos && shift == 7 * (pos - start)
        invariant v == GroupsVal(data[start..pos]) % TWO_64
        invariant VarintEnd(data, start) == VarintEnd(data, pos)
      {
        var c := data[pos];
        NextGroup(data, start, pos, shift);
        pos := pos + 1;
        v := Or(v, Shl64(c % 128, shift));
        if c < 0x80 { return; }
        shift := shift + 7;
      }
    }

    method Next() returns (tag: Tag, ok: bool)
      requires Valid()
      modifies this
      ensures Valid() && ok == (old(pos) < |data|)
      ensures if ok then tag == TagAt(data, old(pos)) && pos == tag.pos > old(pos) else pos == old(pos)
    {
      if !(pos < |data|) { return Tag(0, 0, pos), false; }
      var t := ReadVarint();
      tag, ok := Tag(t / 8 % TWO_32, t % 8, pos), true;
    }

    method ReadBytes() returns (s: seq<byte>)
      requires Valid() && LengthFits(data, pos)
      modifies this
      ensures Valid() && s == PayloadAt(data, old(pos)) && pos == SkipTo(data, old(pos), 2)
    {
      var v := ReadVarint();
      NoOverflow(pos, v);
      var n: int := ToI64(v);
      if Wrap64(pos + n) > |data| { n := |data| - pos; }
      s := data[pos..pos + n];
      pos := pos + n;
    }

    method ReadSubmessage() returns (sub: PbReader)
      requires Valid() && LengthFits(data, pos)
      modifies this
      ensures Valid() && pos == SkipTo(data, old(pos), 2)
      ensures fresh(sub) && sub.Valid() && sub.data == PayloadAt(data, old(pos)) && sub.pos == 0
    {
      var s := ReadBytes();
      sub := new PbReader(s);
    }

    /** readFloat (width 4) and readDouble (width 8), as bit patterns. */
    method ReadFixed(width: nat) returns (v: nat)
      requires Valid() && (width == 4 || width == 8)
      modifies this
      ensures Valid() && v == FixedAt(data, old(pos), width)
      ensures old(pos) + width > |data| ==> v == 0
      ensures pos == if old(pos) + width > |data| then |data| else old(pos) + width
    {
      if pos + width > |data| {
        pos := |data|;
        return 0;
      }
      v := LEVal(data[pos..pos + width]);
      pos := pos + width;
    }

    method Read(kind: Kind) returns (v: Scalar)
      requires Valid() && Readable(data, pos, kind)
      modifies this
      ensures Valid() && v == ReadAs(data, old(pos), kind) && pos >= old(pos)
    {
      match kind {
        case AsBytes => var s := ReadBytes(); v := Text(s);
        case AsFloat => var x := ReadFixed(4); v := Pattern(x);
        case AsDouble => var x := ReadFixed(8); v := Pattern(x);
        case AsBool => var x := ReadVarint(); v := Flag(x != 0);
        case AsInt32 => var x := ReadVarint(); v := Integer(ToI32(x));
        case AsInt64 => var x := ReadVarint(); v := Integer(ToI64(x));
        case AsUint32 => var x := ReadVarint(); v := Integer(x % TWO_32);
        case AsUint64 => var x := ReadVarint(); v := Integer(x);
      }
    }

    method Skip(wire: nat)
      requires Valid()
      modifies this
      ensures pos == SkipTo(data, old(pos), wire)
      ensures (wire == 2 ==> LengthFits(data, old(pos))) ==> Valid() && pos >= old(pos)
    {
      match wire {
        case 0 => var _ := ReadVarint();
        case 1 => pos := pos + 8;
        case 2 => var n := ReadVarint(); pos := Wrap64(pos + ToI64(n));
        case 5 => pos := pos + 4;
        case _ =>
      }
      if pos > |data| { pos := |data|; }
    }

    /** The scan loop shared by every field lookup: advance past the tag of the
        first wanted field. */
    method Seek(f: u32, wire: Option<nat>) returns (found: Option<Tag>)
      requires Valid() && ScanSafe(data, pos, f, wire)
      modifies this
      ensures Valid() && found == FieldAt(data, old(pos), f, wire)
      ensures found.Some? ==> pos == found.value.pos
    {
      var tag, ok := Next();
      while ok
        invariant Valid() && (!ok ==> pos == |data| && FieldAt(data, old(pos), f, wire) == None)
        invariant ok ==> Found(data, tag, f, wire, FieldAt(data, old(pos), f, wire)) && pos == tag.pos
        decreases ok, |data| - pos
      {
        if Wanted(tag, f, wire) { return Some(tag); }
        Skip(tag.wire);
        tag, ok := Next();
      }
      found := None;
    }
  }

  // ---- the scans over a response ------------------------------------------

  method ReadScalarAtField(resp: seq<byte>, f: u32, kind: Kind) returns (v: Scalar)
    requires |resp| < TWO_63 && ScalarReadable(resp, f, kind)
    ensures v == ScalarAt(resp, f, kind)
  {
    var r := new PbReader(resp);
    var found := r.Seek(f, None);
    if found == None { return Zero(kind); }
    v := r.Read(kind);
  }

  /** The error text of a response, if it carries one (field 15). */
  ghost function ErrorOf(resp: seq<byte>): Option<seq<byte>>
    requires ScalarReadable(resp, 15, AsBytes)
  {
    match FieldAt(resp, 0, 15, None)
    case None => None
    case Some(t) => Some(PayloadAt(resp, t.pos))
  }

  method ExtractError(resp: seq<byte>) returns (err: Option<seq<byte>>)
    requires |resp| < TWO_63 && ScalarReadable(resp, 15, AsBytes)
    ensures err == ErrorOf(resp)
  {
    var r := new PbReader(resp);
    var found := r.Seek(15, None);
    if found == None { return None; }
    var s := r.ReadBytes();
    err := Some(s);
  }

  ghost predicate HandleReadable(b: seq<byte>) {
    |b| < TWO_63 && ScanSafe(b, 0, 1, None) &&
    match FieldAt(b, 0, 1, None)
    case None => true
    case Some(t) => t.wire == 2 ==> LengthFits(b, t.pos) && ScanSafe(PayloadAt(b, t.pos), 0, 1, Some(0))
  }

  /** The pointer in a handle response: field 1 itself, or the first varint field 1
      inside it when it is a submessage. */
  ghost function HandleIn(b: seq<byte>): u64
    requires HandleReadable(b)
  {
    match FieldAt(b, 0, 1, None)
    case None => 0
    case Some(t) =>
      if t.wire == 0 then VarintVal(b, t.pos)
      else if t.wire == 2 then
        var sub := PayloadAt(b, t.pos);
        match FieldAt(sub, 0, 1, Some(0))
        case None => 0
        case Some(st) => VarintVal(sub, st.pos)
      else 0
  }

  method ReadHandlePtr(data: seq<byte>) returns (ptr: u64)
    requires HandleReadable(data)
    ensures ptr == HandleIn(data)
  {
    var r := new PbReader(data);
    var found := r.Seek(1, None);
    if found == None { return 0; }
    if found.value.wire == 0 { ptr := r.ReadVarint(); return; }
    if found.value.wire == 2 {
      var sub := r.ReadSubmessage();
      var inner := sub.Seek(1, Some(0));
      if inner != None { ptr := sub.ReadVarint(); return; }
    }
    return 0;
  }

  ghost predicate PtrReadable(resp: seq<byte>, f: u32) {
    |resp| < TWO_63 &&
    if f == 1 then HandleReadable(resp)
    else
      ScanSafe(resp, 0, f, None) &&
      match FieldAt(resp, 0, f, None)
      case None => true
      case Some(t) => t.wire == 2 ==> LengthFits(resp, t.pos) && HandleReadable(PayloadAt(resp, t.pos))
  }

  ghost function PtrAt(resp: seq<byte>, f: u32): u64
    requires PtrReadable(resp, f)
  {
    if f == 1 then HandleIn(resp)
    else
      match FieldAt(resp, 0, f, None)
      case None => 0
      case Some(t) => if t.wire == 2 then HandleIn(PayloadAt(resp, t.pos)) else 0
  }

  method ReadPtrAtField(resp: seq<byte>, f: u32) returns (ptr: u64)
    requires PtrReadable(resp, f)
    ensures ptr == PtrAt(resp, f)
  {
    if f == 1 { ptr := ReadHandlePtr(resp); return; }
    var r := new PbReader(resp);
    var found := r.Seek(f, None);
    if found == None || found.value.wire != 2 { return 0; }
    var sub := r.ReadSubmessage();
    ptr := ReadHandlePtr(sub.data);
  }
}
