/** Result envelopes: the status byte, the raised payload, and what an operation
    returns for them, with and without the interrupt watchdog having fired. */
module Envelopes {
  import opened Bits
  import opened Bytes
  import opened Options
  import opened Values
  import opened Errors
  import opened NodeReaders
  import opened Wire

  datatype EvalResult = EvalResult(value: Value, error: Option<Error>, stdout: seq<byte>, stderr: seq<byte>)

  /** ctx.Err() as an error return: nil when the context is not done. */
  function ContextErr(ctx: Option<ContextError>): Option<Error> {
    match ctx
    case None => None
    case Some(e) => Some(Context(e))
  }

  // ---- what the parsers see -------------------------------------------------

  /** Type, message, traceback and the exception instance. */
  function ParseRaised(p: nat, c: Cursor): (r: (Result<PythonError>, Cursor))
    requires c.Valid()
    ensures Advances(c, r.1)
  {
    var (kind, c1) := c.LenBytes(4);
    var (message, c2) := c1.LenBytes(4);
    var (traceback, c3) := c2.LenBytes(4);
    if c3.fail then (Err(MalformedRaised), c3)
    else
      var (v, c4) := ParseNode(p, c3);
      (match v
       case Err(e) => Err(e)
       case Ok(x) => Ok(PythonError(kind, message, traceback, if x.ObjectValue? then Some(x) else None)), c4)
  }

  /** The error an envelope stands for, or nil and the position of its payload. */
  function ParseEnvelope(p: nat, ctx: Option<ContextError>, c: Cursor, interrupted: bool): (r: (Option<Error>, Cursor))
    requires c.Valid()
    ensures Advances(c, r.1)
  {
    var (status, c1) := c.Word(1);
    if status == 0 then (None, c1)
    else if status == 1 then
      var (pe, c2) := ParseRaised(p, c1);
      (match pe
       case Err(e) => Some(e)
       case Ok(exc) => if interrupted then ContextErr(ctx) else Some(Python(exc)), c2)
    else if status == 2 then
      var (code, c2) := c1.Word(4);
      WordSizes();
      (Some(Exit(ToI32(code))), c2)
    else (Some(MalformedEnvelope), c1)
  }

  function NodeOutcome(p: nat, ctx: Option<ContextError>, resp: seq<byte>, interrupted: bool): Result<Value> {
    var (err, c) := ParseEnvelope(p, ctx, Cursor(Buffer(resp), 0, false), interrupted);
    if err.Some? then Err(err.value) else ParseNode(p, c).0
  }

  function ListOutcome(p: nat, ctx: Option<ContextError>, resp: seq<byte>, interrupted: bool): Result<seq<Value>> {
    var (err, c) := ParseEnvelope(p, ctx, Cursor(Buffer(resp), 0, false), interrupted);
    if err.Some? then Err(err.value)
    else
      var (count, c1) := c.Word(4);
      if c1.fail then Err(MalformedList) else ParseNodes(p, c1, count).0
  }

  function TextOutcome(p: nat, ctx: Option<ContextError>, resp: seq<byte>, interrupted: bool): Result<seq<byte>> {
    var (err, c) := ParseEnvelope(p, ctx, Cursor(Buffer(resp), 0, false), interrupted);
    if err.Some? then Err(err.value)
    else
      var (s, c1) := c.LenBytes(4);
      if c1.fail then Err(MalformedEnvelope) else Ok(s)
  }

  function EmptyOutcome(p: nat, ctx: Option<ContextError>, resp: seq<byte>, interrupted: bool): Option<Error> {
    ParseEnvelope(p, ctx, Cursor(Buffer(resp), 0, false), interrupted).0
  }

  /** The status part of an eval envelope: an error return, or the result's value
      and error. */
  function ParseEvalHead(p: nat, ctx: Option<ContextError>, c: Cursor,
          interrupted: bool): (r: (Result<(Value, Option<Error>)>, Cursor))
    requires c.Valid()
    ensures Advances(c, r.1)
  {
    var (status, c1) := c.Word(1);
    if status == 0 then
      var (v, c2) := ParseNode(p, c1);
      (match v case Err(e) => Err(e) case Ok(x) => Ok((x, None)), c2)
    else if status == 1 then
      var (pe, c2) := ParseRaised(p, c1);
      (match pe case Err(e) => Err(e) case Ok(exc) => Ok((NoneValue, Some(Python(exc)))), c2)
    else if status == 2 then
      var (code, c2) := c1.Word(4);
      WordSizes();
      (Ok((NoneValue, Some(Exit(ToI32(code))))), c2)
    else (Err(MalformedEnvelope), c1)
  }

  /** The captured output that follows the status part. */
  function ParseOutput(c: Cursor): (r: (seq<byte>, seq<byte>, Cursor))
    requires c.Valid()
    ensures Advances(c, r.2)
  {
    var (out, c1) := c.LenBytes(4);
    var (err, c2) := c1.LenBytes(4);
    (out, err, c2)
  }

  function EvalOutcome(p: nat, ctx: Option<ContextError>, resp: seq<byte>, interrupted: bool): Result<EvalResult> {
    var (head, c) := ParseEvalHead(p, ctx, Cursor(Buffer(resp), 0, false), interrupted);
    match head
    case Err(e) => Err(e)
    case Ok((v, error)) =>
      if interrupted && error.Some? && error.value.Python? then
        (match ContextErr(ctx) case Some(e) => Err(e) case None => Ok(EvalResult(Nil, None, [], [])))
      else
        var (out, err, c1) := ParseOutput(c);
        if c1.fail then Err(MalformedEnvelope) else Ok(EvalResult(v, error, out, err))
  }

  // ---- the decoders ---------------------------------------------------------

  method DecodeRaised(p: nat, r: NodeReader) returns (pe: Result<PythonError>)
    requires r.Cur().Valid()
    modifies r
    ensures (pe, r.Cur()) == ParseRaised(p, old(r.Cur()))
  {
    var kind := r.ReadLenBytes(4);
    var message := r.ReadLenBytes(4);
    var traceback := r.ReadLenBytes(4);
    if r.fail { return Err(MalformedRaised); }
    var v := DecodeNode(p, r);
    if v.Err? { return Err(v.error); }
    pe := Ok(PythonError(kind, message, traceback, if v.value.ObjectValue? then Some(v.value) else None));
  }

  method DecodeEnvelope(p: nat, ctx: Option<ContextError>, r: NodeReader, interrupted: bool)
    returns (err: Option<Error>)
    requires r.Cur().Valid()
    modifies r
    ensures (err, r.Cur()) == ParseEnvelope(p, ctx, old(r.Cur()), interrupted)
  {
    WordSizes();
    var status := r.ReadWord(1);
    match status {
      case 0 => err := None;
      case 1 =>
        var pe := DecodeRaised(p, r);
        if pe.Err? { return Some(pe.error); }
        if interrupted { return ContextErr(ctx); }
        err := Some(Python(pe.value));
      case 2 =>
        var code := r.ReadWord(4);
        err := Some(Exit(ToI32(code)));
      case _ => err := Some(MalformedEnvelope);
    }
  }

  method DecodeNodeResult(p: nat, ctx: Option<ContextError>, resp: seq<byte>, interrupted: bool)
    returns (v: Result<Value>)
    ensures v == NodeOutcome(p, ctx, resp, interrupted)
  {
    var r := new NodeReader(resp);
    var err := DecodeEnvelope(p, ctx, r, interrupted);
    if err.Some? { return Err(err.value); }
    v := DecodeNode(p, r);
  }

  method DecodeListResult(p: nat, ctx: Option<ContextError>, resp: seq<byte>, interrupted: bool)
    returns (vs: Result<seq<Value>>)
    ensures vs == ListOutcome(p, ctx, resp, interrupted)
    ensures vs.Ok? ==> |vs.value| <= |resp|
  {
    var r := new NodeReader(resp);
    var err := DecodeEnvelope(p, ctx, r, interrupted);
    if err.Some? { return Err(err.value); }
    var count := r.ReadWord(4);
    if r.fail { return Err(MalformedList); }
    vs := DecodeNodes(p, r, count);
  }

  method DecodeTextResult(p: nat, ctx: Option<ContextError>, resp: seq<byte>, interrupted: bool)
    returns (s: Result<seq<byte>>)
    ensures s == TextOutcome(p, ctx, resp, interrupted)
  {
    var r := new NodeReader(resp);
    var err := DecodeEnvelope(p, ctx, r, interrupted);
    if err.Some? { return Err(err.value); }
    var text := r.ReadLenBytes(4);
    if r.fail { return Err(MalformedEnvelope); }
    s := Ok(text);
  }

  method DecodeEmptyResult(p: nat, ctx: Option<ContextError>, resp: seq<byte>, interrupted: bool)
    returns (err: Option<Error>)
    ensures err == EmptyOutcome(p, ctx, resp, interrupted)
  {
    var r := new NodeReader(resp);
    err := DecodeEnvelope(p, ctx, r, interrupted);
  }

  method DecodeEvalResult(p: nat, ctx: Option<ContextError>, resp: seq<byte>, interrupted: bool)
    returns (res: Result<EvalResult>)
    ensures res == EvalOutcome(p, ctx, resp, interrupted)
  {
    WordSizes();
    var r := new NodeReader(resp);
    var value, error: Option<Error> := NoneValue, None;
    var status := r.ReadWord(1);
    match status {
      case 0 =>
        var v := DecodeNode(p, r);
        if v.Err? { return Err(v.error); }
        value := v.value;
      case 1 =>
        var pe := DecodeRaised(p, r);
        if pe.Err? { return Err(pe.error); }
        if interrupted {
          var e := ContextErr(ctx);
          if e.Some? { return Err(e.value); }
          return Ok(EvalResult(Nil, None, [], []));
        }
        error := Some(Python(pe.value));
      case 2 =>
        var code := r.ReadWord(4);
        error := Some(Exit(ToI32(code)));
      case _ => return Err(MalformedEnvelope);
    }
    var stdout := r.ReadLenBytes(4);
    var stderr := r.ReadLenBytes(4);
    if r.fail { return Err(MalformedEnvelope); }
    res := Ok(EvalResult(value, error, stdout, stderr));
  }

  // ---- what the guest writes ------------------------------------------------

  datatype Reply =
    | Returned(value: Value)
    | Raised(kind: seq<byte>, message: seq<byte>, traceback: seq<byte>, instance: Value)
    | Exited(code: i32)

  function RaisedBytes(r: Reply): seq<byte>
    requires r.Raised?
  {
    LenPrefixed(4, r.kind) + (LenPrefixed(4, r.message) + (LenPrefixed(4, r.traceback) + NodeBytes(r.instance)))
  }

  function ReplyBytes(r: Reply): seq<byte> {
    match r
    case Returned(v) => [0] + NodeBytes(v)
    case Raised(_, _, _, _) => [1] + RaisedBytes(r)
    case Exited(code) => [2] + LE(4, ToU64(code) % TWO_32)
  }

  function EvalBytes(r: Reply, stdout: seq<byte>, stderr: seq<byte>): seq<byte> {
    ReplyBytes(r) + (LenPrefixed(4, stdout) + LenPrefixed(4, stderr))
  }

  predicate WellFormedReply(r: Reply) {
    match r
    case Returned(v) => Sendable(v)
    case Raised(k, m, t, inst) => |k| < TWO_32 && |m| < TWO_32 && |t| < TWO_32 && Sendable(inst)
    case Exited(_) => true
  }

  /** The exception a raised reply carries, as instance p sees it. */
  function Exception(p: nat, r: Reply): PythonError
    requires r.Raised?
  {
    var inst := Arrives(p, r.instance);
    PythonError(r.kind, r.message, r.traceback, if inst.ObjectValue? then Some(inst) else None)
  }

  // ---- round trips ----------------------------------------------------------

  lemma RaisedRoundTrip(p: nat, r: Reply, c: Cursor)
    requires r.Raised? && WellFormedReply(r) && At(c, RaisedBytes(r))
    ensures c.Valid() && ParseRaised(p, c) == (Ok(Exception(p, r)), Past(c, RaisedBytes(r)))
  {
    var s3 := LenPrefixed(4, r.traceback) + NodeBytes(r.instance);
    var s2 := LenPrefixed(4, r.message) + s3;
    var c1 := Past(c, LenPrefixed(4, r.kind));
    var c2 := Past(c1, LenPrefixed(4, r.message));
    var c3 := Past(c2, LenPrefixed(4, r.traceback));
    AtSplit(c, LenPrefixed(4, r.kind), s2);
    AtSplit(c1, LenPrefixed(4, r.message), s3);
    AtSplit(c2, LenPrefixed(4, r.traceback), NodeBytes(r.instance));
    WordSizes();
    LenBytesAt(c, 4, r.kind);
    LenBytesAt(c1, 4, r.message);
    LenBytesAt(c2, 4, r.traceback);
    NodeRoundTrip(p, r.instance, c3);
  }

  lemma ExitCodeRoundTrip(code: i32, c: Cursor)
    requires At(c, LE(4, ToU64(code) % TWO_32))
    ensures c.Valid() && c.Word(4) == (ToU64(code) % TWO_32, Past(c, LE(4, ToU64(code) % TWO_32)))
    ensures ToI32(ToU64(code) % TWO_32) == code
  {
    WordSizes();
    WordAt(c, 4, ToU64(code) % TWO_32);
    Truncated(code);
  }

  lemma Truncated(code: i32)
    ensures ToI32(ToU64(code) % TWO_32) == code
  {
    if code < 0 { assert ToU64(code) == (code + TWO_32) + (TWO_32 - 1) * TWO_32; }
  }

  /** What an operation returning a node makes of a well-formed reply: the value, the
      exception or the exit code; a raised reply is the context's error instead when
      the watchdog fired. Whatever the interrupt, an ok reply is returned. */
  lemma NodeOutcomeOfReply(p: nat, ctx: Option<ContextError>, r: Reply, rest: seq<byte>, interrupted: bool)
    requires WellFormedReply(r) && (interrupted ==> ctx.Some?)
    ensures NodeOutcome(p, ctx, ReplyBytes(r) + rest, interrupted) ==
      match r
      case Returned(v) => Ok(Arrives(p, v))
      case Raised(_, _, _, _) => Err(if interrupted then Context(ctx.value) else Python(Exception(p, r)))
      case Exited(code) => Err(Exit(code))
  {
    var c := Cursor(Buffer(ReplyBytes(r) + rest), 0, false);
    assert At(c, ReplyBytes(r));
    match r {
      case Returned(v) =>
        TagAt(c, 0, NodeBytes(v));
        NodeRoundTrip(p, v, Past(c, [0]));
      case Raised(_, _, _, _) =>
        TagAt(c, 1, RaisedBytes(r));
        RaisedRoundTrip(p, r, Past(c, [1]));
      case Exited(code) =>
        TagAt(c, 2, LE(4, ToU64(code) % TWO_32));
        ExitCodeRoundTrip(code, Past(c, [2]));
    }
  }

  /** A list reply arrives element by element, in order, with nothing of what follows. */
  lemma ListOutcomeOfReply(p: nat, ctx: Option<ContextError>, vs: seq<Value>, rest: seq<byte>, interrupted: bool)
    requires |vs| < TWO_32 && forall i :: 0 <= i < |vs| ==> Sendable(vs[i])
    ensures ListOutcome(p, ctx, [0] + ListBytes(vs) + rest, interrupted) == Ok(ArriveAll(p, vs))
  {
    var c := Cursor(Buffer([0] + ListBytes(vs) + rest), 0, false);
    assert At(c, [0] + ListBytes(vs));
    TagAt(c, 0, ListBytes(vs));
    var c1 := Past(c, [0]);
    CountAt(c1, |vs|, NodesBytes(vs));
    NodesRoundTrip(p, vs, Past(c1, LE(4, |vs|)));
  }

  /** DictValue.Items after its guest call. */
  method Items(p: nat, ctx: Option<ContextError>, resp: seq<byte>, interrupted: bool) returns (r: Result<seq<DictItem>>)
    ensures var flat := ListOutcome(p, ctx, resp, interrupted);
      match flat
      case Err(e) => r == Err(e)
      case Ok(vs) => if |vs| % 2 != 0 then r == Err(OddItems) else r.Ok? && Flatten(r.value) == vs
  {
    var flat := DecodeListResult(p, ctx, resp, interrupted);
    if flat.Err? { return Err(flat.error); }
    r := PairItems(flat.value);
    if r.Err? { r := Err(OddItems); }
  }

  function ArriveItems(p: nat, items: seq<DictItem>): (r: seq<DictItem>)
    ensures |r| == |items|
  {
    seq(|items|, i requires 0 <= i < |items| => DictItem(Arrives(p, items[i].key), Arrives(p, items[i].value)))
  }

  /** Items yields the guest's pairs, keys with their values, in order: the flat list
      has one pairing, and it is theirs. */
  lemma ItemsOfReply(p: nat, ctx: Option<ContextError>, items: seq<DictItem>, got: seq<DictItem>, interrupted: bool)
    requires 2 * |items| < TWO_32 && forall i :: 0 <= i < |items| ==> Sendable(items[i].key) && Sendable(items[i].value)
    ensures ListOutcome(p, ctx, [0] + ListBytes(Flatten(items)), interrupted) == Ok(Flatten(got)) <==>
      got == ArriveItems(p, items)
  {
    var flat, arrived := Flatten(items), ArriveItems(p, items);
    forall k | 0 <= k < |flat| ensures Sendable(flat[k]) && ArriveAll(p, flat)[k] == Flatten(arrived)[k] {
      FlattenAt(items, k / 2);
      FlattenAt(arrived, k / 2);
      assert k == 2 * (k / 2) || k == 2 * (k / 2) + 1;
    }
    ListOutcomeOfReply(p, ctx, flat, [], interrupted);
    assert [0] + ListBytes(flat) + [] == [0] + ListBytes(flat);
    assert ArriveAll(p, flat) == Flatten(arrived);
    if Flatten(got) == Flatten(arrived) { FlattenInjective(got, arrived); }
  }

  /** What is not a value: the exception, the context's error instead when the watchdog
      fired, or the exit code. */
  function FailureOf(p: nat, ctx: Option<ContextError>, r: Reply, interrupted: bool): Error
    requires !r.Returned? && (interrupted ==> ctx.Some?)
  {
    if r.Exited? then Exit(r.code) else if interrupted then Context(ctx.value) else Python(Exception(p, r))
  }

  lemma FailureEnvelope(p: nat, ctx: Option<ContextError>, r: Reply, rest: seq<byte>, interrupted: bool)
    requires WellFormedReply(r) && !r.Returned? && (interrupted ==> ctx.Some?)
    ensures ParseEnvelope(p, ctx, Cursor(Buffer(ReplyBytes(r) + rest), 0, false), interrupted).0 ==
      Some(FailureOf(p, ctx, r, interrupted))
  {
    var c := Cursor(Buffer(ReplyBytes(r) + rest), 0, false);
    assert At(c, ReplyBytes(r));
    if r.Exited? {
      TagAt(c, 2, LE(4, ToU64(r.code) % TWO_32));
      ExitCodeRoundTrip(r.code, Past(c, [2]));
    } else {
      TagAt(c, 1, RaisedBytes(r));
      RaisedRoundTrip(p, r, Past(c, [1]));
    }
  }

  /** Every operation fails with e. */
  predicate FailsWith(p: nat, ctx: Option<ContextError>, resp: seq<byte>, interrupted: bool, e: Error) {
    && NodeOutcome(p, ctx, resp, interrupted) == Err(e) && ListOutcome(p, ctx, resp, interrupted) == Err(e)
    && TextOutcome(p, ctx, resp, interrupted) == Err(e) && EmptyOutcome(p, ctx, resp, interrupted) == Some(e)
  }

  /** The bytes of an exception, whatever the operation was to return: type, message,
      traceback and exception object arrive as such, or the context's error does. */
  lemma RaisedOnTheWire(p: nat, ctx: Option<ContextError>, kind: seq<byte>, message: seq<byte>, traceback: seq<byte>,
                        inst: Value, rest: seq<byte>, interrupted: bool)
    requires |kind| < TWO_32 && |message| < TWO_32 && |traceback| < TWO_32 && Sendable(inst)
    requires interrupted ==> ctx.Some?
    ensures var resp := [1] + (LenPrefixed(4, kind) + (LenPrefixed(4, message) +
                          (LenPrefixed(4, traceback) + NodeBytes(inst)))) + rest;
      var thrown := if inst.ObjectValue? then Some(Arrives(p, inst)) else None;
      FailsWith(p, ctx, resp, interrupted,
                if interrupted then Context(ctx.value) else Python(PythonError(kind, message, traceback, thrown)))
  {
    FailureEnvelope(p, ctx, Raised(kind, message, traceback, inst), rest, interrupted);
  }

  /** The bytes of an exit, interrupted or not. */
  lemma ExitOnTheWire(p: nat, ctx: Option<ContextError>, code: i32, rest: seq<byte>, interrupted: bool)
    requires interrupted ==> ctx.Some?
    ensures var resp := [2] + LE(4, if code >= 0 then code else code + 0x1_0000_0000) + rest;
      FailsWith(p, ctx, resp, interrupted, Exit(code))
  {
    FailureEnvelope(p, ctx, Exited(code), rest, interrupted);
    LowWord(code);
  }

  lemma LowWord(code: i32)
    ensures ToU64(code) % TWO_32 == if code >= 0 then code else code + TWO_32
  {
    if code < 0 { assert ToU64(code) == (code + TWO_32) + (TWO_32 - 1) * TWO_32; }
  }

  lemma HeadRoundTrip(p: nat, ctx: Option<ContextError>, r: Reply, c: Cursor, interrupted: bool)
    requires WellFormedReply(r) && At(c, ReplyBytes(r))
    ensures c.Valid() && ParseEvalHead(p, ctx, c, interrupted) ==
      (Ok(match r
          case Returned(v) => (Arrives(p, v), None)
          case Raised(_, _, _, _) => (NoneValue, Some(Python(Exception(p, r))))
          case Exited(code) => (NoneValue, Some(Exit(code)))), Past(c, ReplyBytes(r)))
  {
    match r {
      case Returned(v) =>
        TagAt(c, 0, NodeBytes(v));
        NodeRoundTrip(p, v, Past(c, [0]));
      case Raised(_, _, _, _) =>
        TagAt(c, 1, RaisedBytes(r));
        RaisedRoundTrip(p, r, Past(c, [1]));
      case Exited(code) =>
        TagAt(c, 2, LE(4, ToU64(code) % TWO_32));
        ExitCodeRoundTrip(code, Past(c, [2]));
    }
  }

  /** Eval keeps exceptions and exits in the result, with the captured output, unless
      the watchdog fired and the code raised: then it returns the context's error. */
  lemma EvalOutcomeOfReply(p: nat, ctx: Option<ContextError>, r: Reply, stdout: seq<byte>, stderr: seq<byte>,
          interrupted: bool)
    requires WellFormedReply(r) && |stdout| < TWO_32 && |stderr| < TWO_32 && (interrupted ==> ctx.Some?)
    ensures EvalOutcome(p, ctx, EvalBytes(r, stdout, stderr), interrupted) ==
      match r
      case Returned(v) => Ok(EvalResult(Arrives(p, v), None, stdout, stderr))
      case Raised(_, _, _, _) =>
        if interrupted then Err(Context(ctx.value))
        else Ok(EvalResult(NoneValue, Some(Python(Exception(p, r))), stdout, stderr))
      case Exited(code) => Ok(EvalResult(NoneValue, Some(Exit(code)), stdout, stderr))
  {
    hide ParseEvalHead, ReplyBytes, LE, Arrives;
    var c := Cursor(Buffer(EvalBytes(r, stdout, stderr)), 0, false);
    AtSplit(c, ReplyBytes(r), LenPrefixed(4, stdout) + LenPrefixed(4, stderr));
    HeadRoundTrip(p, ctx, r, c, interrupted);
    var c1 := Past(c, ReplyBytes(r));
    AtSplit(c1, LenPrefixed(4, stdout), LenPrefixed(4, stderr));
    WordSizes();
    LenBytesAt(c1, 4, stdout);
    LenBytesAt(Past(c1, LenPrefixed(4, stdout)), 4, stderr);
  }

  /** The bytes of an evaluation: its value, or the exception or exit it ended in, then
      what it wrote to standard output, then what it wrote to standard error. */
  lemma EvalOnTheWire(p: nat, ctx: Option<ContextError>, v: Value, code: i32, out: seq<byte>, err: seq<byte>)
    requires Sendable(v) && |out| < TWO_32 && |err| < TWO_32
    ensures var written := LenPrefixed(4, out) + LenPrefixed(4, err);
      && EvalOutcome(p, ctx, ([0] + NodeBytes(v)) + written, false) == Ok(EvalResult(Arrives(p, v), None, out, err))
      && EvalOutcome(p, ctx, ([2] + LE(4, ToU64(code) % TWO_32)) + written, false) ==
           Ok(EvalResult(NoneValue, Some(Exit(code)), out, err))
  {
    EvalOutcomeOfReply(p, ctx, Returned(v), out, err, false);
    EvalOutcomeOfReply(p, ctx, Exited(code), out, err, false);
  }

  /** A raised status is always an error return when an interrupt implies a done
      context, whatever follows it: no caller goes on to parse a payload. */
  lemma RaisedNeverParsed(p: nat, ctx: Option<ContextError>, resp: seq<byte>, interrupted: bool)
    requires |resp| > 0 && resp[0] == 1 && (interrupted ==> ctx.Some?)
    ensures ParseEnvelope(p, ctx, Cursor(Buffer(resp), 0, false), interrupted).0.Some?
    ensures NodeOutcome(p, ctx, resp, interrupted).Err? && ListOutcome(p, ctx, resp, interrupted).Err?
    ensures TextOutcome(p, ctx, resp, interrupted).Err? && EmptyOutcome(p, ctx, resp, interrupted).Some?
    ensures interrupted ==> EvalOutcome(p, ctx, resp, interrupted).Err?
  {
    FirstByte(resp);
  }

  lemma FirstByte(resp: seq<byte>)
    requires |resp| > 0
    ensures Cursor(Buffer(resp), 0, false).Word(1) == (resp[0] as nat, Cursor(Buffer(resp), 1, false))
  {
    assert resp[0..1] == [resp[0]];
    assert LEVal([resp[0]]) == resp[0];
  }

  /** An operation without a result succeeds exactly on an ok status or on no bytes at
      all. */
  lemma EmptyOutcomeIff(p: nat, ctx: Option<ContextError>, resp: seq<byte>, interrupted: bool)
    requires interrupted ==> ctx.Some?
    ensures EmptyOutcome(p, ctx, resp, interrupted) == None <==> resp == [] || resp[0] == 0
  {
    if resp != [] {
      FirstByte(resp);
      if resp[0] == 1 { RaisedNeverParsed(p, ctx, resp, interrupted); }
    }
  }

  // ---- truncation -----------------------------------------------------------

  lemma RaisedCut(p: nat, c: Cursor, k: nat)
    requires c.Valid() && c.pos <= k <= |c.buf.bytes|
    requires ParseRaised(p, c).0.Ok? && !ParseRaised(p, c).1.fail
    ensures var (v, c') := ParseRaised(p, c);
      var (w, d) := ParseRaised(p, c.Cut(k));
      if c'.pos <= k then (w, d) == (v, c'.Cut(k)) else w.Err? || d.fail
  {
    LenBytesCut(c, 4, k);
    var c1 := c.LenBytes(4).1;
    if c1.pos <= k {
      LenBytesCut(c1, 4, k);
      var c2 := c1.LenBytes(4).1;
      if c2.pos <= k {
        LenBytesCut(c2, 4, k);
        var c3 := c2.LenBytes(4).1;
        if c3.pos <= k { NodeCut(p, c3, k); }
      }
    }
  }

  lemma HeadCut(p: nat, ctx: Option<ContextError>, c: Cursor, k: nat, interrupted: bool)
    requires c.Valid() && c.pos <= k <= |c.buf.bytes|
    requires ParseEvalHead(p, ctx, c, interrupted).0.Ok? && !ParseEvalHead(p, ctx, c, interrupted).1.fail
    ensures var (v, c') := ParseEvalHead(p, ctx, c, interrupted);
      var (w, d) := ParseEvalHead(p, ctx, c.Cut(k), interrupted);
      if c'.pos <= k then (w, d) == (v, c'.Cut(k)) else w.Err? || d.fail
  {
    WordCut(c, 1, k);
    var (status, c1) := c.Word(1);
    if c1.pos <= k {
      if status == 0 {
        NodeCut(p, c1, k);
      } else if status == 1 {
        RaisedCut(p, c1, k);
      } else if status == 2 {
        WordCut(c1, 4, k);
      }
    }
  }

  /** If the bytes resp[..e] are a complete eval envelope, Eval fails on every shorter
      prefix, however the evaluation ended. */
  lemma EvalTruncation(p: nat, ctx: Option<ContextError>, resp: seq<byte>, interrupted: bool, k: nat)
    requires interrupted ==> ctx.Some?
    requires var (head, c) := ParseEvalHead(p, ctx, Cursor(Buffer(resp), 0, false), interrupted);
      head.Ok? && !ParseOutput(c).2.fail && k < ParseOutput(c).2.pos
    ensures k <= |resp| && EvalOutcome(p, ctx, resp[..k], interrupted).Err?
  {
    var c0 := Cursor(Buffer(resp), 0, false);
    assert c0.Cut(k) == Cursor(Buffer(resp[..k]), 0, false);
    HeadCut(p, ctx, c0, k, interrupted);
    var c := ParseEvalHead(p, ctx, c0, interrupted).1;
    if c.pos <= k {
      LenBytesCut(c, 4, k);
      var c1 := c.LenBytes(4).1;
      if c1.pos <= k { LenBytesCut(c1, 4, k); }
    }
  }

  /** In particular on every strict prefix of what the guest writes. */
  lemma EvalPrefixFails(p: nat, ctx: Option<ContextError>, r: Reply, stdout: seq<byte>, stderr: seq<byte>,
          interrupted: bool, k: nat)
    requires WellFormedReply(r) && |stdout| < TWO_32 && |stderr| < TWO_32 && (interrupted ==> ctx.Some?)
    requires k < |EvalBytes(r, stdout, stderr)|
    ensures EvalOutcome(p, ctx, EvalBytes(r, stdout, stderr)[..k], interrupted).Err?
  {
    var resp := EvalBytes(r, stdout, stderr);
    var c := Cursor(Buffer(resp), 0, false);
    AtSplit(c, ReplyBytes(r), LenPrefixed(4, stdout) + LenPrefixed(4, stderr));
    HeadRoundTrip(p, ctx, r, c, interrupted);
    var c1 := Past(c, ReplyBytes(r));
    AtSplit(c1, LenPrefixed(4, stdout), LenPrefixed(4, stderr));
    WordSizes();
    LenBytesAt(c1, 4, stdout);
    LenBytesAt(Past(c1, LenPrefixed(4, stdout)), 4, stderr);
    EvalTruncation(p, ctx, resp, interrupted, k);
  }

  /** An operation returning a node does accept some truncated envelopes: exactly
      those cut inside the payload of a fixed-size scalar. */
  lemma NodePrefixAcceptedIff(p: nat, ctx: Option<ContextError>, v: Value, interrupted: bool, k: nat)
    requires Sendable(v) && k < |[0] + NodeBytes(v)|
    ensures NodeOutcome(p, ctx, ([0] + NodeBytes(v))[..k], interrupted).Ok? <==> k >= 2 && FixedSize(v)
  {
    if k == 0 {
      assert ([0] + NodeBytes(v))[..k] == [];
    } else {
      OkEnvelopeCut(p, ctx, NodeBytes(v), interrupted, k);
      NodePrefixDecodesIff(p, v, Cursor(Buffer([0] + NodeBytes(v)), 1, false), k);
    }
  }

  lemma OkEnvelopeCut(p: nat, ctx: Option<ContextError>, payload: seq<byte>, interrupted: bool, k: nat)
    requires 1 <= k <= |[0] + payload|
    ensures var c := Cursor(Buffer([0] + payload), 1, false);
      At(c, payload)
      && ParseEnvelope(p, ctx, Cursor(Buffer(([0] + payload)[..k]), 0, false), interrupted) == (None, c.Cut(k))
  {
    var c := Cursor(Buffer([0] + payload), 1, false);
    assert c.buf.bytes[1..1 + |payload|] == payload;
    FirstByte(c.buf.bytes[..k]);
  }

  /** An operation returning a list accepts exactly the truncated envelopes cut inside the
      payload of a last element that is a fixed-size scalar. */
  lemma ListPrefixAcceptedIff(p: nat, ctx: Option<ContextError>, vs: seq<Value>, interrupted: bool, k: nat)
    requires |vs| < TWO_32 && (forall i :: 0 <= i < |vs| ==> Sendable(vs[i])) && k < |[0] + ListBytes(vs)|
    ensures ListOutcome(p, ctx, ([0] + ListBytes(vs))[..k], interrupted).Ok? <==> k >= 5 && CutInLast(vs, k - 5)
  {
    if k == 0 {
      assert ([0] + ListBytes(vs))[..k] == [];
    } else {
      OkEnvelopeCut(p, ctx, ListBytes(vs), interrupted, k);
      CountedNodesCut(p, vs, Cursor(Buffer([0] + ListBytes(vs)), 1, false), k);
    }
  }

  lemma CountedNodesCut(p: nat, vs: seq<Value>, c: Cursor, k: nat)
    requires |vs| < TWO_32 && forall i :: 0 <= i < |vs| ==> Sendable(vs[i])
    requires At(c, ListBytes(vs)) && c.pos == 1 <= k < 5 + |NodesBytes(vs)|
    ensures c.Valid()
    ensures var (count, c1) := c.Cut(k).Word(4);
      !c1.fail && ParseNodes(p, c1, count).0.Ok? <==> k >= 5 && CutInLast(vs, k - 5)
  {
    CountAt(c, |vs|, NodesBytes(vs));
    WordCut(c, 4, k);
    if k >= 5 { NodesPrefixIff(p, vs, Past(c, LE(4, |vs| % TWO_32)), k); }
  }

  /** Text arrives whole exactly when its length fits its prefix. */
  lemma TextOutcomeOfReply(p: nat, ctx: Option<ContextError>, text: seq<byte>, rest: seq<byte>, interrupted: bool)
    ensures TextOutcome(p, ctx, [0] + LenPrefixed(4, text) + rest, interrupted) == Ok(text) <==> |text| < TWO_32
  {
    var c := Cursor(Buffer([0] + LenPrefixed(4, text) + rest), 0, false);
    assert At(c, [0] + LenPrefixed(4, text));
    TagAt(c, 0, LenPrefixed(4, text));
    WordSizes();
    LenBytesAt(Past(c, [0]), 4, text);
  }

  /** And no truncated text envelope is accepted. */
  lemma TextPrefixFails(p: nat, ctx: Option<ContextError>, text: seq<byte>, interrupted: bool, k: nat)
    requires |text| < TWO_32 && k < |[0] + LenPrefixed(4, text)|
    ensures TextOutcome(p, ctx, ([0] + LenPrefixed(4, text))[..k], interrupted).Err?
  {
    if k == 0 {
      assert ([0] + LenPrefixed(4, text))[..k] == [];
    } else {
      OkEnvelopeCut(p, ctx, LenPrefixed(4, text), interrupted, k);
      var c := Cursor(Buffer([0] + LenPrefixed(4, text)), 1, false);
      WordSizes();
      LenBytesAt(c, 4, text);
      LenBytesCut(c, 4, k);
    }
  }
}
