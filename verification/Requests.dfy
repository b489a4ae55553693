/** The hand-written request builders of the instance against the generated
    marshalling of the same exports. */
module Requests {
  import opened Bits
  import opened Bytes
  import opened Options
  import opened Protobuf
  import opened Messages

  function CallFields(h: u64, callable: u64, args: seq<byte>, argsLen: u64,
                      kwargs: seq<byte>, kwargsLen: u64): seq<Field> {
    [] + [VarintField(1, h)] + [VarintField(2, callable)]
    + [LenField(3, args)] + [VarintField(4, argsLen)] + [LenField(5, kwargs)] + [VarintField(6, kwargsLen)]
  }

  function CallMethodFields(h: u64, obj: u64, name: seq<byte>, nameLen: u64,
                            args: seq<byte>, argsLen: u64, kwargs: seq<byte>, kwargsLen: u64): seq<Field> {
    [] + [VarintField(1, h)] + [VarintField(2, obj)] + [LenField(3, name)] + [VarintField(4, nameLen)]
    + [LenField(5, args)] + [VarintField(6, argsLen)] + [LenField(7, kwargs)] + [VarintField(8, kwargsLen)]
  }

  // ---- hand-written builders ----------------------------------------------

  /** A (pointer, length) parameter pair: the bytes at field f, their length at f+1.
      Serves appendBuffer and appendName. */
  method AppendBuffer(buf: seq<byte>, f: u32, data: seq<byte>, ghost fs: seq<Field>) returns (out: seq<byte>)
    requires |data| < TWO_63 && f + 1 < TWO_32 && buf == Message(fs)
    ensures out == Message(fs + [LenField(f, data)] + [VarintField(f + 1, |data|)])
  {
    out := AppendBytes(buf, f, data, fs);
    out := AppendUint64(out, f + 1, |data|, fs + [LenField(f, data)]);
  }

  method CallOp(h: u64, callable: u64, args: seq<byte>, kwargs: seq<byte>) returns (buf: seq<byte>)
    requires |args| < TWO_63 && |kwargs| < TWO_63
    ensures buf == Message(CallFields(h, callable, args, |args|, kwargs, |kwargs|))
    ensures |buf| < TWO_63 ==>
      && Recovers(buf, 1, AsUint64, Integer(h)) && Recovers(buf, 2, AsUint64, Integer(callable))
      && Recovers(buf, 3, AsBytes, Text(args)) && Recovers(buf, 4, AsUint64, Integer(|args|))
      && Recovers(buf, 5, AsBytes, Text(kwargs)) && Recovers(buf, 6, AsUint64, Integer(|kwargs|))
  {
    ghost var fs: seq<Field> := [];
    buf := AppendUint64([], 1, h, fs);
    fs := fs + [VarintField(1, h)];
    buf := AppendUint64(buf, 2, callable, fs);
    fs := fs + [VarintField(2, callable)];
    buf := AppendBuffer(buf, 3, args, fs);
    fs := fs + [LenField(3, args)] + [VarintField(4, |args|)];
    buf := AppendBuffer(buf, 5, kwargs, fs);
    CallCarries(h, callable, args, |args|, kwargs, |kwargs|, buf);
  }

  method CallMethodOp(h: u64, obj: u64, name: seq<byte>, args: seq<byte>, kwargs: seq<byte>) returns (buf: seq<byte>)
    requires |name| < TWO_63 && |args| < TWO_63 && |kwargs| < TWO_63
    ensures buf == Message(CallMethodFields(h, obj, name, |name|, args, |args|, kwargs, |kwargs|))
    ensures |buf| < TWO_63 ==>
      && Recovers(buf, 1, AsUint64, Integer(h)) && Recovers(buf, 2, AsUint64, Integer(obj))
      && Recovers(buf, 3, AsBytes, Text(name)) && Recovers(buf, 4, AsUint64, Integer(|name|))
      && Recovers(buf, 5, AsBytes, Text(args)) && Recovers(buf, 6, AsUint64, Integer(|args|))
      && Recovers(buf, 7, AsBytes, Text(kwargs)) && Recovers(buf, 8, AsUint64, Integer(|kwargs|))
  {
    ghost var fs: seq<Field> := [];
    buf := AppendUint64([], 1, h, fs);
    fs := fs + [VarintField(1, h)];
    buf := AppendUint64(buf, 2, obj, fs);
    fs := fs + [VarintField(2, obj)];
    buf := AppendBuffer(buf, 3, name, fs);
    fs := fs + [LenField(3, name)] + [VarintField(4, |name|)];
    buf := AppendBuffer(buf, 5, args, fs);
    fs := fs + [LenField(5, args)] + [VarintField(6, |args|)];
    buf := AppendBuffer(buf, 7, kwargs, fs);
    CallMethodCarries(h, obj, name, |name|, args, |args|, kwargs, |kwargs|, buf);
  }

  // ---- generated marshalling ----------------------------------------------

  method PyCall(h: u64, callable: u64, args: seq<byte>, argsLen: u32, kwargs: seq<byte>, kwargsLen: u32)
    returns (buf: seq<byte>)
    requires |args| < TWO_63 && |kwargs| < TWO_63
    ensures buf == Message(CallFields(h, callable, args, argsLen, kwargs, kwargsLen))
    ensures |buf| < TWO_63 ==>
      && Recovers(buf, 1, AsUint64, Integer(h)) && Recovers(buf, 2, AsUint64, Integer(callable))
      && Recovers(buf, 3, AsBytes, Text(args)) && Recovers(buf, 4, AsUint64, Integer(argsLen))
      && Recovers(buf, 5, AsBytes, Text(kwargs)) && Recovers(buf, 6, AsUint64, Integer(kwargsLen))
  {
    ghost var fs: seq<Field> := [];
    buf := AppendUint64([], 1, h, fs);
    fs := fs + [VarintField(1, h)];
    buf := AppendUint64(buf, 2, callable, fs);
    fs := fs + [VarintField(2, callable)];
    buf := AppendBytes(buf, 3, args, fs);
    fs := fs + [LenField(3, args)];
    buf := AppendUint64(buf, 4, argsLen, fs);
    fs := fs + [VarintField(4, argsLen)];
    buf := AppendBytes(buf, 5, kwargs, fs);
    fs := fs + [LenField(5, kwargs)];
    buf := AppendUint64(buf, 6, kwargsLen, fs);
    CallCarries(h, callable, args, argsLen, kwargs, kwargsLen, buf);
  }

  method PyCallMethod(h: u64, obj: u64, name: seq<byte>, nameLen: u32,
                      args: seq<byte>, argsLen: u32, kwargs: seq<byte>, kwargsLen: u32) returns (buf: seq<byte>)
    requires |name| < TWO_63 && |args| < TWO_63 && |kwargs| < TWO_63
    ensures buf == Message(CallMethodFields(h, obj, name, nameLen, args, argsLen, kwargs, kwargsLen))
    ensures |buf| < TWO_63 ==>
      && Recovers(buf, 1, AsUint64, Integer(h)) && Recovers(buf, 2, AsUint64, Integer(obj))
      && Recovers(buf, 3, AsBytes, Text(name)) && Recovers(buf, 4, AsUint64, Integer(nameLen))
      && Recovers(buf, 5, AsBytes, Text(args)) && Recovers(buf, 6, AsUint64, Integer(argsLen))
      && Recovers(buf, 7, AsBytes, Text(kwargs)) && Recovers(buf, 8, AsUint64, Integer(kwargsLen))
  {
    ghost var fs: seq<Field> := [];
    buf := AppendUint64([], 1, h, fs);
    fs := fs + [VarintField(1, h)];
    buf := AppendUint64(buf, 2, obj, fs);
    fs := fs + [VarintField(2, obj)];
    buf := AppendBytes(buf, 3, name, fs);
    fs := fs + [LenField(3, name)];
    buf := AppendUint64(buf, 4, nameLen, fs);
    fs := fs + [VarintField(4, nameLen)];
    buf := AppendBytes(buf, 5, args, fs);
    fs := fs + [LenField(5, args)];
    buf := AppendUint64(buf, 6, argsLen, fs);
    fs := fs + [VarintField(6, argsLen)];
    buf := AppendBytes(buf, 7, kwargs, fs);
    fs := fs + [LenField(7, kwargs)];
    buf := AppendUint64(buf, 8, kwargsLen, fs);
    CallMethodCarries(h, obj, name, nameLen, args, argsLen, kwargs, kwargsLen, buf);
  }

  // ---- what the guest reads back --------------------------------------------

  lemma {:induction false} FirstAt(fs: seq<Field>, i: nat)
    requires i < |fs| && forall j :: 0 <= j < i ==> fs[j].num != fs[i].num
    ensures First(fs, fs[i].num) == Some(fs[i])
  {
    if i > 0 { FirstAt(fs[1..], i - 1); }
  }

  ghost predicate Recovers(m: seq<byte>, f: u32, kind: Kind, v: Scalar) {
    ScalarReadable(m, f, kind) && ScalarAt(m, f, kind) == v
  }

  function KindOf(f: Field): Kind { if f.LenField? then AsBytes else AsUint64 }

  /** Scanning for field i+1 recovers the i-th argument, for every argument. */
  ghost predicate RecoversAll(m: seq<byte>, fs: seq<Field>)
    requires |fs| < 0x2000_0000 && Arguments(fs)
  {
    forall i :: 0 <= i < |fs| ==> Recovers(m, i + 1, KindOf(fs[i]), fs[i].As(KindOf(fs[i])))
  }

  predicate Arguments(fs: seq<Field>) {
    forall i :: 0 <= i < |fs| ==> fs[i].num == i + 1 && fs[i].WellFormed() && (fs[i].LenField? || fs[i].VarintField?)
  }

  /** In a message whose field numbers are 1, 2, ..., every lookup is exact. */
  lemma NumberedFields(m: seq<byte>, fs: seq<Field>)
    requires m == Message(fs) && |m| < TWO_63 && |fs| < 0x2000_0000 && Arguments(fs)
    ensures RecoversAll(m, fs)
  {
    forall i | 0 <= i < |fs| ensures Recovers(m, i + 1, KindOf(fs[i]), fs[i].As(KindOf(fs[i]))) {
      FirstAt(fs, i);
      ScalarOfMessage(fs, i + 1, KindOf(fs[i]));
    }
  }

  /** Scanning a method-call request for fields 1 to 8 recovers its arguments. */
  lemma CallMethodRecovered(h: u64, obj: u64, name: seq<byte>, nameLen: u64,
                            args: seq<byte>, argsLen: u64, kwargs: seq<byte>, kwargsLen: u64, fs: seq<Field>)
    requires fs == CallMethodFields(h, obj, name, nameLen, args, argsLen, kwargs, kwargsLen)
    requires |Message(fs)| < TWO_63 && |name| < TWO_63 && |args| < TWO_63 && |kwargs| < TWO_63
    ensures |fs| == 8 && Arguments(fs) && RecoversAll(Message(fs), fs)
  {
    CallMethodShape(h, obj, name, nameLen, args, argsLen, kwargs, kwargsLen, fs);
    NumberedFields(Message(fs), fs);
  }

  /** Scanning a call request for fields 1 to 6 recovers its arguments. */
  lemma CallRecovered(h: u64, callable: u64, args: seq<byte>, argsLen: u64, kwargs: seq<byte>, kwargsLen: u64,
          fs: seq<Field>)
    requires fs == CallFields(h, callable, args, argsLen, kwargs, kwargsLen)
    requires |Message(fs)| < TWO_63 && |args| < TWO_63 && |kwargs| < TWO_63
    ensures |fs| == 6 && Arguments(fs) && RecoversAll(Message(fs), fs)
  {
    CallShape(h, callable, args, argsLen, kwargs, kwargsLen, fs);
    NumberedFields(Message(fs), fs);
  }

  /** Which argument each field of a call request carries. */
  lemma CallCarries(h: u64, callable: u64, args: seq<byte>, argsLen: u64, kwargs: seq<byte>, kwargsLen: u64,
                    buf: seq<byte>)
    requires |args| < TWO_63 && |kwargs| < TWO_63
    requires buf == Message(CallFields(h, callable, args, argsLen, kwargs, kwargsLen))
    ensures |buf| < TWO_63 ==>
      && Recovers(buf, 1, AsUint64, Integer(h)) && Recovers(buf, 2, AsUint64, Integer(callable))
      && Recovers(buf, 3, AsBytes, Text(args)) && Recovers(buf, 4, AsUint64, Integer(argsLen))
      && Recovers(buf, 5, AsBytes, Text(kwargs)) && Recovers(buf, 6, AsUint64, Integer(kwargsLen))
  {
    if |buf| < TWO_63 {
      var fs := CallFields(h, callable, args, argsLen, kwargs, kwargsLen);
      CallRecovered(h, callable, args, argsLen, kwargs, kwargsLen, fs);
      Carried(buf, fs, 0);
      Carried(buf, fs, 1);
      Carried(buf, fs, 2);
      Carried(buf, fs, 3);
      Carried(buf, fs, 4);
      Carried(buf, fs, 5);
    }
  }

  /** And each field of a method-call request. */
  lemma CallMethodCarries(h: u64, obj: u64, name: seq<byte>, nameLen: u64,
                          args: seq<byte>, argsLen: u64, kwargs: seq<byte>, kwargsLen: u64, buf: seq<byte>)
    requires |name| < TWO_63 && |args| < TWO_63 && |kwargs| < TWO_63
    requires buf == Message(CallMethodFields(h, obj, name, nameLen, args, argsLen, kwargs, kwargsLen))
    ensures |buf| < TWO_63 ==>
      && Recovers(buf, 1, AsUint64, Integer(h)) && Recovers(buf, 2, AsUint64, Integer(obj))
      && Recovers(buf, 3, AsBytes, Text(name)) && Recovers(buf, 4, AsUint64, Integer(nameLen))
      && Recovers(buf, 5, AsBytes, Text(args)) && Recovers(buf, 6, AsUint64, Integer(argsLen))
      && Recovers(buf, 7, AsBytes, Text(kwargs)) && Recovers(buf, 8, AsUint64, Integer(kwargsLen))
  {
    if |buf| < TWO_63 {
      var fs := CallMethodFields(h, obj, name, nameLen, args, argsLen, kwargs, kwargsLen);
      CallMethodRecovered(h, obj, name, nameLen, args, argsLen, kwargs, kwargsLen, fs);
      Carried(buf, fs, 0);
      Carried(buf, fs, 1);
      Carried(buf, fs, 2);
      Carried(buf, fs, 3);
      Carried(buf, fs, 4);
      Carried(buf, fs, 5);
      Carried(buf, fs, 6);
      Carried(buf, fs, 7);
    }
  }

  lemma Carried(m: seq<byte>, fs: seq<Field>, i: nat)
    requires i < |fs| < 0x2000_0000 && Arguments(fs) && RecoversAll(m, fs)
    ensures fs[i].LenField? ==> Recovers(m, i + 1, AsBytes, Text(fs[i].data))
    ensures fs[i].VarintField? ==> Recovers(m, i + 1, AsUint64, Integer(fs[i].v))
  {
    assert Recovers(m, i + 1, KindOf(fs[i]), fs[i].As(KindOf(fs[i])));
  }

  /** Messages of numbered arguments with the same kinds are equal only if the
      arguments are. */
  lemma SameMessageSameArguments(m: seq<byte>, fs: seq<Field>, gs: seq<Field>, i: nat)
    requires m == Message(fs) == Message(gs) && |m| < TWO_63 && i < |fs| == |gs| < 0x2000_0000
    requires Arguments(fs) && Arguments(gs) && fs[i].LenField? == gs[i].LenField?
    ensures fs[i] == gs[i]
  {
    NumberedFields(m, fs);
    NumberedFields(m, gs);
    var k := KindOf(fs[i]);
    assert Recovers(m, i + 1, k, fs[i].As(k)) && Recovers(m, i + 1, k, gs[i].As(k));
  }

  /** The generated form writes the bytes of the hand-written one exactly when the
      uint32 lengths it is handed are the real lengths. */
  lemma CallMethodBuildersAgreeIff(h: u64, obj: u64, name: seq<byte>, nameLen: u32,
                                   args: seq<byte>, argsLen: u32, kwargs: seq<byte>, kwargsLen: u32,
                                   generated: seq<Field>, written: seq<Field>)
    requires |name| < TWO_63 && |args| < TWO_63 && |kwargs| < TWO_63
    requires generated == CallMethodFields(h, obj, name, nameLen, args, argsLen, kwargs, kwargsLen)
    requires written == CallMethodFields(h, obj, name, |name|, args, |args|, kwargs, |kwargs|)
    requires |Message(generated)| < TWO_63
    ensures Message(generated) == Message(written) <==> nameLen == |name| && argsLen == |args| && kwargsLen == |kwargs|
  {
    CallMethodShape(h, obj, name, nameLen, args, argsLen, kwargs, kwargsLen, generated);
    CallMethodShape(h, obj, name, |name|, args, |args|, kwargs, |kwargs|, written);
    if Message(generated) == Message(written) {
      SameLengths(Message(generated), generated, written);
    }
  }

  lemma CallMethodShape(h: u64, obj: u64, name: seq<byte>, nameLen: u64,
                        args: seq<byte>, argsLen: u64, kwargs: seq<byte>, kwargsLen: u64, fs: seq<Field>)
    requires |name| < TWO_63 && |args| < TWO_63 && |kwargs| < TWO_63
    requires fs == CallMethodFields(h, obj, name, nameLen, args, argsLen, kwargs, kwargsLen)
    ensures |fs| == 8 && Arguments(fs)
    ensures forall i :: 0 <= i < |fs| ==> fs[i].LenField? == (i == 2 || i == 4 || i == 6)
    ensures fs[3].v == nameLen && fs[5].v == argsLen && fs[7].v == kwargsLen
  {}

  lemma CallBuildersAgreeIff(h: u64, callable: u64, args: seq<byte>, argsLen: u32, kwargs: seq<byte>, kwargsLen: u32,
                             generated: seq<Field>, written: seq<Field>)
    requires |args| < TWO_63 && |kwargs| < TWO_63
    requires generated == CallFields(h, callable, args, argsLen, kwargs, kwargsLen)
    requires written == CallFields(h, callable, args, |args|, kwargs, |kwargs|)
    requires |Message(generated)| < TWO_63
    ensures Message(generated) == Message(written) <==> argsLen == |args| && kwargsLen == |kwargs|
  {
    CallShape(h, callable, args, argsLen, kwargs, kwargsLen, generated);
    CallShape(h, callable, args, |args|, kwargs, |kwargs|, written);
    if Message(generated) == Message(written) {
      SameLengths(Message(generated), generated, written);
    }
  }

  lemma CallShape(h: u64, callable: u64, args: seq<byte>, argsLen: u64, kwargs: seq<byte>, kwargsLen: u64,
          fs: seq<Field>)
    requires |args| < TWO_63 && |kwargs| < TWO_63
    requires fs == CallFields(h, callable, args, argsLen, kwargs, kwargsLen)
    ensures |fs| == 6 && Arguments(fs)
    ensures forall i :: 0 <= i < |fs| ==> fs[i].LenField? == (i == 2 || i == 4)
    ensures fs[3].v == argsLen && fs[5].v == kwargsLen
  {}

  lemma SameLengths(m: seq<byte>, fs: seq<Field>, gs: seq<Field>)
    requires m == Message(fs) == Message(gs) && |m| < TWO_63 && 6 <= |fs| == |gs| <= 8
    requires Arguments(fs) && Arguments(gs)
    requires forall i :: 0 <= i < |fs| ==> fs[i].LenField? == gs[i].LenField?
    ensures fs[3] == gs[3] && fs[5] == gs[5] && (|fs| == 8 ==> fs[7] == gs[7])
  {
    SameMessageSameArguments(m, fs, gs, 3);
    SameMessageSameArguments(m, fs, gs, 5);
    if |fs| == 8 { SameMessageSameArguments(m, fs, gs, 7); }
  }
}
