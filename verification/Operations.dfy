/** One operation end to end: the request's outcome, the transport envelope, the
    watchdog's verdict and the result envelope together decide what the caller sees. */
module Operations {
  import opened Bits
  import opened Bytes
  import opened Options
  import opened Protobuf
  import opened Messages
  import Values
  import opened Errors
  import Wire
  import opened Envelopes
  import Interrupts

  ghost predicate Parseable(invoked: Result<seq<byte>>) {
    invoked.Ok? ==>
      && |invoked.value| < TWO_63
      && ScalarReadable(invoked.value, 15, AsBytes) && ScalarReadable(invoked.value, 1, AsBytes)
  }

  /** The raw envelope of an operation. `before` is ctx.Err() at entry; `invoked` what
      the guest call gave. */
  ghost function RawEnvelope(before: Option<ContextError>, closed: bool, invoked: Result<seq<byte>>): Result<seq<byte>>
    requires Parseable(invoked)
  {
    if before.Some? then Err(Context(before.value))
    else if closed then Err(Closed)
    else
      match invoked
      case Err(e) => Err(e)
      case Ok(out) =>
        match ErrorOf(out)
        case Some(text) => Err(Transport(text))
        case None => Ok(ScalarAt(out, 1, AsBytes).text)
  }

  lemma FieldOneIsText(out: seq<byte>)
    requires ScalarReadable(out, 1, AsBytes)
    ensures ScalarAt(out, 1, AsBytes).Text?
  {}

  /** valueOp with its guest call. `request` is what the guest was sent: nothing at all on
      a done context or a closed instance. */
  method ValueOp(before: Option<ContextError>, closed: bool, buf: seq<byte>, guest: seq<byte> -> Result<seq<byte>>)
    returns (resp: Result<seq<byte>>, request: Option<seq<byte>>)
    requires Parseable(guest(buf))
    ensures request == if before == None && !closed then Some(buf) else None
    ensures resp == RawEnvelope(before, closed, guest(buf))
    ensures before.Some? ==> resp == Err(Context(before.value))
    ensures before == None && closed ==> resp == Err(Closed)
    ensures before == None && !closed && guest(buf).Err? ==> resp == guest(buf)
  {
    if before.Some? { return Err(Context(before.value)), None; }
    if closed { return Err(Closed), None; }
    request := Some(buf);
    var invoked := guest(buf);
    if invoked.Err? { return Err(invoked.error), request; }
    var e := ExtractError(invoked.value);
    if e.Some? { return Err(Transport(e.value)), request; }
    var v := ReadScalarAtField(invoked.value, 1, AsBytes);
    FieldOneIsText(invoked.value);
    resp := Ok(v.text);
  }

  // What an operation makes of the raw envelope, by what it returns.

  ghost function NodeOp(p: nat, ctx: Option<ContextError>, raw: Result<seq<byte>>, interrupted: bool)
    : Result<Values.Value>
  {
    match raw
    case Err(e) => Err(e)
    case Ok(resp) => NodeOutcome(p, ctx, resp, interrupted)
  }

  ghost function ListOp(p: nat, ctx: Option<ContextError>, raw: Result<seq<byte>>, interrupted: bool)
    : Result<seq<Values.Value>>
  {
    match raw
    case Err(e) => Err(e)
    case Ok(resp) => ListOutcome(p, ctx, resp, interrupted)
  }

  ghost function TextOp(p: nat, ctx: Option<ContextError>, raw: Result<seq<byte>>, interrupted: bool)
    : Result<seq<byte>>
  {
    match raw
    case Err(e) => Err(e)
    case Ok(resp) => TextOutcome(p, ctx, resp, interrupted)
  }

  ghost function EmptyOp(p: nat, ctx: Option<ContextError>, raw: Result<seq<byte>>, interrupted: bool)
    : Option<Error>
  {
    match raw
    case Err(e) => Some(e)
    case Ok(resp) => EmptyOutcome(p, ctx, resp, interrupted)
  }

  ghost function EvalOp(p: nat, ctx: Option<ContextError>, raw: Result<seq<byte>>, interrupted: bool)
    : Result<EvalResult>
  {
    match raw
    case Err(e) => Err(e)
    case Ok(resp) => EvalOutcome(p, ctx, resp, interrupted)
  }

  /** Every operation fails with e. */
  ghost predicate AllFail(p: nat, ctx: Option<ContextError>, raw: Result<seq<byte>>, interrupted: bool, e: Error) {
    && NodeOp(p, ctx, raw, interrupted) == Err(e) && ListOp(p, ctx, raw, interrupted) == Err(e)
    && TextOp(p, ctx, raw, interrupted) == Err(e) && EmptyOp(p, ctx, raw, interrupted) == Some(e)
    && EvalOp(p, ctx, raw, interrupted) == Err(e)
  }

  /** On a done context every operation fails with the context's error, on a closed
      instance as closed, and otherwise with the guest call's own failure, if it has one. */
  lemma NothingSucceeds(p: nat, ctx: Option<ContextError>, before: Option<ContextError>, closed: bool,
                        invoked: Result<seq<byte>>, interrupted: bool)
    requires Parseable(invoked)
    ensures var raw := RawEnvelope(before, closed, invoked);
      && (before.Some? ==> AllFail(p, ctx, raw, interrupted, Context(before.value)))
      && (before == None && closed ==> AllFail(p, ctx, raw, interrupted, Closed))
      && (before == None && !closed && invoked.Err? ==> AllFail(p, ctx, raw, interrupted, invoked.error))
  {}

  /** The transport delivers field 1, and an error field fails the operation whatever
      else the message holds. */
  lemma EnvelopeOfMessage(fs: seq<Field>)
    requires WellFormedFields(fs)
    requires First(fs, 15).Some? ==> First(fs, 15).value.LenField?
    requires First(fs, 1).Some? ==> First(fs, 1).value.LenField?
    ensures Parseable(Ok(Message(fs)))
    ensures RawEnvelope(None, false, Ok(Message(fs))) ==
      match First(fs, 15)
      case Some(e) => Err(Transport(e.data))
      case None => Ok(if First(fs, 1).Some? then First(fs, 1).value.data else [])
  {
    ErrorOfMessage(fs);
    ScalarOfMessage(fs, 15, AsBytes);
    ScalarOfMessage(fs, 1, AsBytes);
    FieldOneIsText(Message(fs));
  }

  /** In any run of the interrupt protocol, for a finished operation whose context error
      is set once the context is done: a raised reply always ends in an error, the
      context's when the disarm reported the watchdog's store and the exception
      otherwise; an ok reply is returned even if it did. */
  lemma CallEndToEnd(p: nat, fs: seq<Field>, r: Reply, ctx: Option<ContextError>,
                     ss: seq<Interrupts.State>, i: nat, a: nat)
    requires Interrupts.Run(ss) && i < |ss| && a in ss[i].ops && ss[i].ops[a].pc.Done?
    requires ss[i].ops[a].done ==> ctx.Some?
    requires WellFormedFields(fs) && First(fs, 15) == None && First(fs, 1) == Some(LenField(1, ReplyBytes(r)))
    requires WellFormedReply(r)
    ensures Parseable(Ok(Message(fs))) && (ss[i].ops[a].pc.interrupted ==> ctx.Some?)
    ensures var interrupted := ss[i].ops[a].pc.interrupted;
      NodeOp(p, ctx, RawEnvelope(None, false, Ok(Message(fs))), interrupted) ==
      match r
      case Returned(v) => Ok(Wire.Arrives(p, v))
      case Raised(_, _, _, _) => Err(if interrupted then Context(ctx.value) else Python(Exception(p, r)))
      case Exited(code) => Err(Exit(code))
  {
    Interrupts.DisarmReports(ss, i, a);
    EnvelopeOfMessage(fs);
    assert ReplyBytes(r) + [] == ReplyBytes(r);
    NodeOutcomeOfReply(p, ctx, r, [], ss[i].ops[a].pc.interrupted);
  }

  /** The same for Eval, which keeps the exception in its result. */
  lemma EvalEndToEnd(p: nat, fs: seq<Field>, r: Reply, stdout: seq<byte>, stderr: seq<byte>, ctx: Option<ContextError>,
                     ss: seq<Interrupts.State>, i: nat, a: nat)
    requires Interrupts.Run(ss) && i < |ss| && a in ss[i].ops && ss[i].ops[a].pc.Done?
    requires ss[i].ops[a].done ==> ctx.Some?
    requires WellFormedFields(fs) && First(fs, 15) == None
      && First(fs, 1) == Some(LenField(1, EvalBytes(r, stdout, stderr)))
    requires WellFormedReply(r) && |stdout| < TWO_32 && |stderr| < TWO_32
    ensures Parseable(Ok(Message(fs))) && (ss[i].ops[a].pc.interrupted ==> ctx.Some?)
    ensures var interrupted := ss[i].ops[a].pc.interrupted;
      EvalOp(p, ctx, RawEnvelope(None, false, Ok(Message(fs))), interrupted) ==
      match r
      case Returned(v) => Ok(EvalResult(Wire.Arrives(p, v), None, stdout, stderr))
      case Raised(_, _, _, _) =>
        if interrupted then Err(Context(ctx.value))
        else Ok(EvalResult(Values.NoneValue, Some(Python(Exception(p, r))), stdout, stderr))
      case Exited(code) => Ok(EvalResult(Values.NoneValue, Some(Exit(code)), stdout, stderr))
  {
    Interrupts.DisarmReports(ss, i, a);
    EnvelopeOfMessage(fs);
    EvalOutcomeOfReply(p, ctx, r, stdout, stderr, ss[i].ops[a].pc.interrupted);
  }

  /** The interrupt that turned into a context error was this operation's own doing and
      has left nothing behind, when operations do not overlap. */
  lemma CancelledCleanly(ss: seq<Interrupts.State>, i: nat, a: nat)
    requires Interrupts.Run(ss) && i < |ss| && forall j :: 0 <= j < |ss| ==> Interrupts.OneAtATime(ss[j])
    requires a in ss[i].ops && ss[i].ops[a].pc.Done? && Interrupts.Resting(ss[i])
    ensures ss[i].ops[a].pc.interrupted ==> ss[i].ops[a].stored && ss[i].ops[a].done
    ensures ss[i].ops[a].raised ==> ss[i].ops[a].pc.interrupted
    ensures ss[i].slot == 0 && !Interrupts.Tripped(ss[i].breaker)
  {
    Interrupts.DisarmReports(ss, i, a);
    Interrupts.NonOverlappingRuns(ss, i);
  }
}
