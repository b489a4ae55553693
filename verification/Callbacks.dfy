/** The Python-to-Go function bridge: the function table, the callback handler and
    its in-band responses. */
module Callbacks {
  import opened Bits
  import opened Bytes
  import opened Options
  import opened Values
  import opened Errors
  import opened NodeReaders
  import opened Wire
  import opened CallArgs

  /** A Go error: its text, and the PythonError errors.As finds in its chain. */
  datatype GoError = GoError(text: seq<byte>, python: Option<PythonError>)

  /** How a user function ends. */
  datatype Ending = Returns(v: Value) | Fails(e: GoError) | Panics(reason: seq<byte>)

  type GoFunc = (seq<Value>, Kwargs) -> Ending

  /** The failures the handler words itself. The wording is a parameter. */
  datatype Failure = NoFunction(id: i32) | BadArguments(e: Error) | Panicked(reason: seq<byte>) | BadResult(e: Error)

  type Wording = Failure -> seq<byte>

  datatype GoResult = Value(v: Value) | Error(e: GoError)

  /** What reaches the guest: a value, a live exception to re-raise, or the text of a
      RuntimeError. */
  datatype Response = Returned(v: Values.Value) | Reraised(h: Handle) | RuntimeError(text: seq<byte>)

  function ResponseBytes(r: Response): seq<byte> {
    match r
    case Returned(v) => [0] + NodeBytes(v)
    case Reraised(h) => [1] + ([1] + ObjectNode(h))
    case RuntimeError(text) => [1] + ([0] + LenPrefixed(4, text))
  }

  /** A live exception of instance p that a PythonError carries, if any. */
  function LiveException(p: nat, e: GoError): Option<Handle> {
    if e.python.Some? && e.python.value.instance.Some? && e.python.value.instance.value.ObjectValue?
       && Encodable(p, e.python.value.instance.value)
    then e.python.value.instance.value.handle else None
  }

  function RaisedResponse(p: nat, e: GoError): Response {
    match LiveException(p, e)
    case Some(h) => Reraised(h.(typeName := []))
    case None => RuntimeError(e.text)
  }

  function Contained(end: Ending, wording: Wording): GoResult {
    match end
    case Returns(v) => Value(v)
    case Fails(e) => Error(e)
    case Panics(reason) => Error(GoError(wording(Panicked(reason)), None))
  }

  /** The response a call deserves: the bound function's ending on the decoded
      arguments, or the failure that kept it from running. */
  function Answer(p: nat, funcs: map<i32, GoFunc>, id: i32, req: seq<byte>, wording: Wording): Response {
    if id !in funcs then RuntimeError(wording(NoFunction(id)))
    else
      match ParseCall(p, req)
      case Err(e) => RuntimeError(wording(BadArguments(e)))
      case Ok((args, kwargs)) =>
        match Contained(funcs[id](args, kwargs), wording)
        case Error(e) => RaisedResponse(p, e)
        case Value(v) =>
          match EncodeNode(p, v)
          case Ok(_) => Returned(Sent(v))
          case Err(e) => RuntimeError(wording(BadResult(e)))
  }

  // ---- the handler ----------------------------------------------------------

  /** safeCall: a panic becomes an error. */
  method SafeCall(fn: GoFunc, args: seq<Values.Value>, kwargs: Kwargs, wording: Wording) returns (result: GoResult)
    ensures result == Contained(fn(args, kwargs), wording)
  {
    match fn(args, kwargs) {
      case Returns(v) => result := Value(v);
      case Fails(e) => result := Error(e);
      case Panics(reason) => result := Error(GoError(wording(Panicked(reason)), None));
    }
  }

  /** The bytes of a failure, in terms of the error alone. */
  lemma FailureBytes(p: nat, err: GoError)
    ensures var b := ResponseBytes(RaisedResponse(p, err));
      match err
      case GoError(_, Some(PythonError(_, _, _, Some(ObjectValue(_, Some(h)))))) =>
        if !h.released && h.owner == p then b == [1, 1] + ObjectNode(h.(typeName := []))
        else b == [1, 0] + LenPrefixed(4, err.text)
      case _ => b == [1, 0] + LenPrefixed(4, err.text)
  {
    match err {
      case GoError(_, Some(PythonError(_, _, _, Some(ObjectValue(_, Some(h)))))) =>
        TwoBytes(1, 1, ObjectNode(h.(typeName := [])));
      case _ =>
    }
    TwoBytes(1, 0, LenPrefixed(4, err.text));
  }

  lemma TwoBytes(x: byte, y: byte, rest: seq<byte>)
    ensures [x] + ([y] + rest) == [x, y] + rest
  {}

  method CallbackRaised(p: nat, err: GoError) returns (b: seq<byte>)
    ensures b == ResponseBytes(RaisedResponse(p, err))
    ensures match err
      case GoError(_, Some(PythonError(_, _, _, Some(ObjectValue(_, Some(h)))))) =>
        if !h.released && h.owner == p then b == [1, 1] + ObjectNode(h.(typeName := []))
        else b == [1, 0] + LenPrefixed(4, err.text)
      case _ => b == [1, 0] + LenPrefixed(4, err.text)
  {
    FailureBytes(p, err);
    if err.python.Some? && err.python.value.instance.Some? && err.python.value.instance.value.ObjectValue? {
      var enc := EncodeHandle(p, [1, 1], err.python.value.instance.value.handle);
      if enc.Ok? { return enc.value; }
    }
    b := [1, 0];
    b := b + LenPrefixed(4, err.text);
  }

  class Bridge {
    const id: nat
    var funcs: map<i32, GoFunc>
    var nextFuncID: i32

    constructor (id: nat)
      ensures this.id == id && funcs == map[] && nextFuncID == 0
    {
      this.id := id;
      funcs, nextFuncID := map[], 0;
    }

    /** NewFunction's critical section: p.nextFuncID++ in int32 arithmetic, then the
        table entry. */
    method Bind(fn: GoFunc) returns (funcID: i32)
      modifies this
      ensures funcID == nextFuncID == NextID(old(nextFuncID))
      ensures funcs == old(funcs)[funcID := fn]
    {
      nextFuncID := if nextFuncID == 0x7fff_ffff then -0x8000_0000 else nextFuncID + 1;
      funcID := nextFuncID;
      funcs := funcs[funcID := fn];
    }

    /** Whatever the guest sends, exactly one response comes back, in band: there is no
        error return. */
    method HandleUserCallback(methodID: i32, req: seq<byte>, wording: Wording) returns (resp: seq<byte>)
      ensures resp == ResponseBytes(Answer(id, funcs, methodID, req, wording))
    {
      if methodID !in funcs {
        resp := CallbackRaised(id, GoError(wording(NoFunction(methodID)), None));
        return;
      }
      var call := DecodeCall(id, req);
      if call.Err? {
        resp := CallbackRaised(id, GoError(wording(BadArguments(call.error)), None));
        return;
      }
      var result := SafeCall(funcs[methodID], call.value.0, call.value.1, wording);
      if result.Error? {
        resp := CallbackRaised(id, result.e);
        return;
      }
      var enc := EncodeValue(id, [0], result.v);
      if enc.Err? {
        resp := CallbackRaised(id, GoError(wording(BadResult(enc.error)), None));
        return;
      }
      resp := enc.value;
    }
  }

  // ---- the guest's reading of a response ------------------------------------

  /** The response that b is, read to its last byte. */
  function ParseResponse(p: nat, b: seq<byte>): Option<Response> {
    var (status, c) := Cursor(Buffer(b), 0, false).Word(1);
    if c.fail then None
    else if status == 0 then
      var (v, c1) := ParseNode(p, c);
      if v.Ok? && !c1.fail && c1.pos == |b| then Some(Returned(v.value)) else None
    else if status == 1 then
      var (live, c1) := c.Word(1);
      if live == 1 then
        var (v, c2) := ParseNode(p, c1);
        if v.Ok? && v.value.ObjectValue? && v.value.handle.Some? && c2.pos == |b|
        then Some(Reraised(v.value.handle.value)) else None
      else
        var (text, c2) := c1.LenBytes(4);
        if !c2.fail && c2.pos == |b| then Some(RuntimeError(text)) else None
    else None
  }

  /** The lengths inside a response fit their prefixes. */
  predicate FitsResponse(r: Response) {
    match r
    case Returned(v) => Fits(v)
    case Reraised(h) => |h.typeName| < 65536
    case RuntimeError(text) => |text| < TWO_32
  }

  function Delivered(p: nat, r: Response): Response {
    match r
    case Returned(v) => Returned(Arrives(p, v))
    case Reraised(h) => Reraised(h.(owner := p, released := false))
    case RuntimeError(_) => r
  }

  /** A response reads back whole exactly when its lengths fit. */
  lemma ResponseRoundTrip(p: nat, r: Response)
    requires !(r.Returned? && r.v.ObjectValue? && r.v.handle == None)
    ensures ParseResponse(p, ResponseBytes(r)) == Some(Delivered(p, r)) <==> FitsResponse(r)
  {
    match r {
      case Returned(v) => ReturnedRoundTrip(p, v);
      case Reraised(h) => ReraisedRoundTrip(p, h);
      case RuntimeError(text) => RuntimeErrorRoundTrip(p, text);
    }
  }

  lemma ReturnedRoundTrip(p: nat, v: Values.Value)
    requires !(v.ObjectValue? && v.handle == None)
    ensures ParseResponse(p, ResponseBytes(Returned(v))) == Some(Returned(Arrives(p, v))) <==> Fits(v)
  {
    var c := Cursor(Buffer([0] + NodeBytes(v)), 0, false);
    TagAt(c, 0, NodeBytes(v));
    NodeRoundTrip(p, v, Past(c, [0]));
  }

  lemma ReraisedRoundTrip(p: nat, h: Handle)
    ensures ParseResponse(p, ResponseBytes(Reraised(h))) == Some(Delivered(p, Reraised(h))) <==> |h.typeName| < 65536
  {
    var b := ResponseBytes(Reraised(h));
    ReraisedHeader(b, ObjectNode(h));
    ObjectRoundTrip(p, ObjectValue(ConcreteOf(h.kind), Some(h)), h, Cursor(Buffer(b), 2, false));
  }

  lemma ReraisedHeader(b: seq<byte>, node: seq<byte>)
    requires b == [1] + ([1] + node)
    ensures Cursor(Buffer(b), 0, false).Word(1) == (1, Cursor(Buffer(b), 1, false))
    ensures Cursor(Buffer(b), 1, false).Word(1) == (1, Cursor(Buffer(b), 2, false))
    ensures At(Cursor(Buffer(b), 2, false), node)
  {
    TagAt(Cursor(Buffer(b), 0, false), 1, [1] + node);
    TagAt(Cursor(Buffer(b), 1, false), 1, node);
  }

  lemma RuntimeErrorRoundTrip(p: nat, text: seq<byte>)
    ensures ParseResponse(p, ResponseBytes(RuntimeError(text))) == Some(RuntimeError(text)) <==> |text| < TWO_32
  {
    var c := Cursor(Buffer(ResponseBytes(RuntimeError(text))), 0, false);
    TagAt(c, 1, [0] + LenPrefixed(4, text));
    TagAt(Past(c, [1]), 0, LenPrefixed(4, text));
    WordSizes();
    LenBytesAt(Past(Past(c, [1]), [0]), 4, text);
  }

  /** A value an answer carries never holds a handle the instance may not send. */
  lemma AnsweredHandlesAreLive(p: nat, funcs: map<i32, GoFunc>, id: i32, req: seq<byte>, wording: Wording)
    ensures var r := Answer(p, funcs, id, req, wording);
      (r.Returned? ==> Encodable(p, r.v) && !(r.v.ObjectValue? && r.v.handle == None))
      && (r.Reraised? ==> !r.h.released && r.h.owner == p && r.h.typeName == [])
  {}

  /** For any request bytes, and whatever the bound function does, the answer reads
      back whole in the guest, exactly when its lengths fit. */
  lemma AnswerIsWellFormed(p: nat, funcs: map<i32, GoFunc>, id: i32, req: seq<byte>, wording: Wording)
    ensures var r := Answer(p, funcs, id, req, wording);
      ParseResponse(p, ResponseBytes(r)) == Some(Delivered(p, r)) <==> FitsResponse(r)
  {
    AnsweredHandlesAreLive(p, funcs, id, req, wording);
    ResponseRoundTrip(p, Answer(p, funcs, id, req, wording));
  }

  /** A bound function runs on the caller's arguments, positionals in order and the last
      of each name, and its ending reaches the caller: a value that may be sent as that
      value, a live exception as the same object, anything else as a RuntimeError. */
  lemma CallbackEndToEnd(p: nat, funcs: map<i32, GoFunc>, id: i32, args: seq<Arg>, wording: Wording, end: Ending)
    requires id in funcs && SendableArgs(args)
    requires funcs[id](ArriveAll(p, SentAll(Positionals(args))), KeywordMap(p, Keywords(args), map[])) == end
    requires FitsResponse(Answer(p, funcs, id, CallBytes(args), wording))
    ensures var seen := ParseResponse(p, ResponseBytes(Answer(p, funcs, id, CallBytes(args), wording)));
      && (end.Returns? && Encodable(p, end.v) ==> seen == Some(Returned(Received(p, end.v))))
      && (end.Returns? && !Encodable(p, end.v) ==>
           seen == Some(RuntimeError(wording(BadResult(EncodeNode(p, end.v).error)))))
      && (end.Fails? && LiveException(p, end.e).Some? ==>
           seen == Some(Reraised(LiveException(p, end.e).value.(typeName := []))))
      && (end.Fails? && LiveException(p, end.e) == None ==> seen == Some(RuntimeError(end.e.text)))
      && (end.Panics? ==> seen == Some(RuntimeError(wording(Panicked(end.reason)))))
  {
    CallRoundTrip(p, args);
    AnswerIsWellFormed(p, funcs, id, CallBytes(args), wording);
    AnswerOfEnding(p, funcs, id, CallBytes(args), wording, end);
  }

  /** A Go error that carries a live exception object of this instance re-raises that
      object, callable or not; any other is a RuntimeError with the error's text. */
  lemma FailureEndToEnd(p: nat, funcs: map<i32, GoFunc>, id: i32, args: seq<Arg>, wording: Wording, e: GoError)
    requires id in funcs && SendableArgs(args) && |e.text| < TWO_32
    requires funcs[id](ArriveAll(p, SentAll(Positionals(args))), KeywordMap(p, Keywords(args), map[])) == Fails(e)
    ensures var seen := ParseResponse(p, ResponseBytes(Answer(p, funcs, id, CallBytes(args), wording)));
      match e
      case GoError(_, Some(PythonError(_, _, _, Some(ObjectValue(_, Some(h)))))) =>
        if !h.released && h.owner == p then seen == Some(Reraised(h.(typeName := [])))
        else seen == Some(RuntimeError(e.text))
      case _ => seen == Some(RuntimeError(e.text))
  {
    CallRoundTrip(p, args);
    AnswerOfEnding(p, funcs, id, CallBytes(args), wording, Fails(e));
    AnswerIsWellFormed(p, funcs, id, CallBytes(args), wording);
  }

  /** The bytes of every answer. A call of an unbound id, or one whose arguments do not
      decode, runs no function and is answered with a RuntimeError. */
  lemma AnswerBytes(p: nat, funcs: map<i32, GoFunc>, id: i32, req: seq<byte>, wording: Wording)
    ensures var b := ResponseBytes(Answer(p, funcs, id, req, wording));
      if id !in funcs then b == [1, 0] + LenPrefixed(4, wording(NoFunction(id)))
      else match ParseCall(p, req)
           case Err(e) => b == [1, 0] + LenPrefixed(4, wording(BadArguments(e)))
           case Ok((args, kwargs)) =>
             match funcs[id](args, kwargs)
             case Returns(v) =>
               if Encodable(p, v) then b == [0] + NodeBytes(Sent(v))
               else b == [1, 0] + LenPrefixed(4, wording(BadResult(EncodeNode(p, v).error)))
             case Fails(e) => b == ResponseBytes(RaisedResponse(p, e))
             case Panics(reason) => b == [1, 0] + LenPrefixed(4, wording(Panicked(reason)))
  {
    var r := Answer(p, funcs, id, req, wording);
    if r.RuntimeError? { TwoBytes(1, 0, LenPrefixed(4, r.text)); }
  }

  lemma AnswerOfEnding(p: nat, funcs: map<i32, GoFunc>, id: i32, req: seq<byte>, wording: Wording, end: Ending)
    requires id in funcs && ParseCall(p, req).Ok?
    requires funcs[id](ParseCall(p, req).value.0, ParseCall(p, req).value.1) == end
    ensures var r := Delivered(p, Answer(p, funcs, id, req, wording));
      && (end.Returns? && Encodable(p, end.v) ==> r == Returned(Received(p, end.v)))
      && (end.Returns? && !Encodable(p, end.v) ==> r == RuntimeError(wording(BadResult(EncodeNode(p, end.v).error))))
      && (end.Fails? && LiveException(p, end.e).Some? ==>
            r == Reraised(LiveException(p, end.e).value.(typeName := [])))
      && (end.Fails? && LiveException(p, end.e) == None ==> r == RuntimeError(end.e.text))
      && (end.Panics? ==> r == RuntimeError(wording(Panicked(end.reason))))
  {}

  // ---- the table over a run of registrations --------------------------------

  function NextID(id: i32): i32 {
    if id == 0x7fff_ffff then -0x8000_0000 else id + 1
  }

  /** The id of the n-th registration (from 1): n as an int32. */
  function IDOf(n: nat): i32 { ToI32(n % TWO_32) }

  /** The table after binding fns in order. */
  function TableOf(fns: seq<GoFunc>): map<i32, GoFunc> {
    if fns == [] then map[] else TableOf(fns[..|fns| - 1])[IDOf(|fns|) := fns[|fns| - 1]]
  }

  lemma NextIDOf(n: nat)
    ensures NextID(IDOf(n)) == IDOf(n + 1)
  {
    assert (n + 1) % TWO_32 == if n % TWO_32 == TWO_32 - 1 then 0 else n % TWO_32 + 1;
  }

  /** Registrations are numbered from 1 until an int32 wraps. */
  lemma IDIsNumber(n: nat)
    requires n < 0x8000_0000
    ensures IDOf(n) == n
  {}

  /** Ids collide exactly when 2^32 registrations lie between them. */
  lemma IDsDistinctIff(m: nat, n: nat)
    ensures IDOf(m) == IDOf(n) <==> m % TWO_32 == n % TWO_32
  {}

  /** Of count registrations, the latest that got the id of registration n. */
  function Latest(count: nat, n: nat): (m: nat)
    requires 1 <= n <= count
    ensures n <= m <= count && IDOf(m) == IDOf(n)
    ensures forall k :: m < k <= count ==> IDOf(k) != IDOf(n)
    decreases count
  {
    if IDOf(count) == IDOf(n) then count else Latest(count - 1, n)
  }

  lemma Apart(m: nat, n: nat)
    requires m < n < m + TWO_32
    ensures IDOf(m) != IDOf(n)
  {
    IDsDistinctIff(m, n);
  }

  /** It is the registration itself exactly until 2^32 more have followed. */
  lemma LatestIsOwnIff(count: nat, n: nat)
    requires 1 <= n <= count
    ensures Latest(count, n) == n <==> count < n + TWO_32
  {
    var m := Latest(count, n);
    if m == n {
      assert IDOf(n + TWO_32) == IDOf(n) by { Wrapped(n); }
    } else if count < n + TWO_32 {
      Apart(n, m);
    }
  }

  lemma Wrapped(n: nat)
    ensures IDOf(n + TWO_32) == IDOf(n)
  {
    IDsDistinctIff(n + TWO_32, n);
  }

  /** After any number of registrations, an id that was handed out leads to the latest
      function that got it. */
  lemma {:induction false} IDLeadsToLatest(fns: seq<GoFunc>, n: nat)
    requires 1 <= n <= |fns|
    ensures IDOf(n) in TableOf(fns) && TableOf(fns)[IDOf(n)] == fns[Latest(|fns|, n) - 1]
  {
    if n < |fns| { IDLeadsToLatest(fns[..|fns| - 1], n); }
  }

  /** So it leads to the function it was handed out for until 2^32 more have been
      registered. */
  lemma TableKeepsEveryFunction(fns: seq<GoFunc>, n: nat)
    requires 1 <= n <= |fns| < n + TWO_32
    ensures IDOf(n) in TableOf(fns) && TableOf(fns)[IDOf(n)] == fns[n - 1]
  {
    IDLeadsToLatest(fns, n);
    LatestIsOwnIff(|fns|, n);
  }

  /** From then on it leads to a function registered later. */
  lemma EveryIDIsReused(fns: seq<GoFunc>, n: nat) returns (m: nat)
    requires 1 <= n && n + TWO_32 <= |fns|
    ensures n < m <= |fns| && IDOf(m) == IDOf(n)
    ensures IDOf(n) in TableOf(fns) && TableOf(fns)[IDOf(n)] == fns[m - 1]
  {
    IDLeadsToLatest(fns, n);
    LatestIsOwnIff(|fns|, n);
    m := Latest(|fns|, n);
  }

  /** The first registration to overwrite an entry is number 2^32 + 1. */
  lemma FirstIDIsReused(fns: seq<GoFunc>)
    requires |fns| == TWO_32 + 1
    ensures IDOf(1) in TableOf(fns) && TableOf(fns)[IDOf(1)] == fns[TWO_32]
  {
    var m := EveryIDIsReused(fns, 1);
    if m < 1 + TWO_32 { Apart(1, m); }
  }
}
