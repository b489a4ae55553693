# Verified model of the Go/Python bridge

The repository embeds a CPython interpreter, compiled to a WebAssembly module, in a Go
program. The interpreter is opaque; the bridge around it is Go code with its own
protocols and codecs. This project models that bridge in Dafny and proves what it
promises, with the guest as a nondeterministic environment.

The modules follow the layers of the bridge:

- `Bits`, `Bytes`: words, two's complement, Go's `|`, `&^` and `<<`; little- and
  big-endian integers, and the two reversals of big-integer magnitudes.
- `Varint`, `Protobuf`, `Messages`, `Requests`: the protobuf transport. The reader and
  the writers are the imperative loops of the Go code; a message is a sequence of fields,
  and the scans are proved to recover fields from messages.
- `Values`, `NodeReaders`, `Wire`, `Envelopes`, `CallArgs`: the typed-value protocol. A
  sticky-failure reader is a class whose every method is proved against a value-level
  `Cursor`; round trips and truncation are lemmas about the `Cursor` functions.
- `Callbacks`: Python calling Go functions, from the request bytes to the in-band answer.
- `Pointers`: the packed pointer and length of a 32-bit guest.
- `Interrupts`: the cancellation watchdog as a step relation between any number of
  callers, watchdogs, contexts and a guest that reads and writes the breaker word in
  separate steps; with the writes themselves as methods over linear memory.
- `Overlaps`: why the discipline that `Interrupts` asks of operations cannot be relaxed.
- `ModuleLock`: goroutines with stacks of guest activations, and a mutex that is dropped
  around callback handlers.
- `PinLedger`: wrappers, the release queue and its batches against the guest's pins.
- `Lifecycle`: the function table over runs, dispatcher registration, and Close.
- `Operations`: one call from transport response to what the caller sees, composed with
  runs of the interrupt protocol.

Protocols are proved over runs: finite sequences of states that start in the initial
state and whose neighbours are related by an enabled step, in every interleaving.

Some claims of the repository are false as they stand. For each there is an input or a
run, and the exact condition under which the claim holds:

- Function ids are stable until 2^32 registrations have followed, and from then on lead to
  a later function.
- Stack discipline of guest activations, which the comment at internal/python.go:497-506
  derives from the lock alone, holds for runs with a discipline on callbacks. After such a
  run a step is safe, whatever disciplined steps follow, exactly when it keeps the
  discipline.
- That no interrupt lingers, and that none is raised by another operation, holds for runs
  in which operations keep out of each other's way, in two degrees. After a run that does,
  a step is safe, whatever steps of that degree follow, exactly when it does too.
- That a straggler errors out instead of calling into a finalized runtime
  (internal/instance.go:161-163) holds exactly when Close's export leaves behind no
  operation admitted before its swap.
- Truncated responses and callback requests are refused but for cuts inside the payload of
  a last fixed-size scalar, and inside the keyword count of a request.

## Model

| member | source | states |
|---|---|---|
| Bytes.ReverseInPlace | wire.go:83-87 | swapping from both ends leaves the array holding the reversal of what it held |
| Bytes.ReversedCopy | wire.go:290-294 | the decoder's fresh big-endian buffer is the reversal of the received magnitude |
| Bytes.ReversedTwice | wire.go:83-94 | the two reversals undo each other, for every magnitude |
| Bytes.BEValReversed | wire.go:290-296 | reading the reversed buffer big-endian gives the little-endian sum of the received bytes |
| Bytes.MagnitudeRoundTrip | wire.go:83-94 | the magnitude written for any natural number denotes that number |
| Bytes.BEMinLeading | wire.go:83-94 | and has no leading zero byte |
| Bytes.LEByte | wire.go:56-61 | byte k of a word of any width, as it is appended, is the number divided by 256^k, modulo 256 |
| Bits.ConversionsKeepBits | internal/python.go:78-86 | every integer conversion changes the number by a multiple of the target width |
| Varint.AppendVarint | internal/python.go:60-66 | appends exactly the base 128 encoding, for every 64-bit value |
| Varint.VarintLen | internal/python.go:50-57 | is the length of that encoding |
| Varint.VarintAtMostTenBytes | internal/python.go:50-57 | no 64-bit value takes more than ten bytes |
| Varint.VarintByteAt | internal/python.go:60-66 | every byte of an encoding but its last has the continuation bit |
| Varint.AccumulateGroup | internal/python.go:217-230 | or-ing in one shifted group adds the next seven bits modulo 2^64, also once the shift has left the word |
| Varint.VarintRoundTrip | internal/python.go:217-230 | an encoded value reads back wherever it stands and whatever follows, and the read stops at its end |
| Varint.Int32RoundTrip | internal/python.go:78-81 | every int32 survives sign extension and truncation, and negative ones take ten bytes |
| Protobuf.PbReader.ReadVarint | internal/python.go:217-230 | from any position of any data, the loop returns the groups' value modulo 2^64 and stops after the first byte below 0x80 or at the end |
| Protobuf.PbReader.Next | internal/python.go:232-238 | fails exactly at the end of the data; otherwise it splits the tag and strictly advances |
| Protobuf.PbReader.ReadBytes | internal/python.go:250-259 | returns the length-delimited payload, clamped to the data, and ends where skipping it would |
| Protobuf.PayloadIsClamped | internal/python.go:250-259 | the payload is as long as its prefix says, or as the data reaches |
| Protobuf.SliceInRangeIff | internal/python.go:250-259 | the slice it takes is in range if and only if the length prefix does not overflow the position |
| Protobuf.PbReader.ReadSubmessage | internal/python.go:301-309 | opens a new reader at the start of the payload and passes it in the outer one |
| Protobuf.PbReader.ReadFixed | internal/python.go:281-299 | reads a little-endian word, or 0 and the end of the data when it is cut short |
| Protobuf.PbReader.Skip | internal/python.go:311-327 | moves as Go's wrapping int arithmetic does; the position neither leaves the data nor goes back when the length prefix fits |
| Protobuf.SkipAdvancesIff | internal/python.go:311-327 | skipping lands past what was read and within the data if and only if the length prefix does not overflow the position |
| Protobuf.OversizedLengthStalls | internal/python.go:311-327 | eleven bytes whose skip goes back to their own tag, so that a scan would not progress |
| Protobuf.PbReader.Seek | internal/python.go:446-456 | the scan loop terminates and stops at the first wanted field, or at the end if there is none |
| Protobuf.ReadScalarAtField | internal/python.go:446-456 | the scalar at the first field with that number, or zero |
| Protobuf.ExtractError | internal/python.go:329-338 | the text of the first field 15, or no error |
| Protobuf.ReadHandlePtr | internal/python.go:343-370 | the pointer of a handle response, bare or inside a submessage |
| Protobuf.ReadPtrAtField | internal/python.go:374-390 | the handle at a field, through the direct path at field 1 and the general one elsewhere |
| Messages.AppendUint64 | internal/python.go:73-76 | appends one varint field to the message written so far |
| Messages.AppendInt64 | internal/python.go:78-86 | appends the sign-extended varint field |
| Messages.AppendBool | internal/python.go:88-94 | appends a varint field of 1 or 0 |
| Messages.AppendBytes | internal/python.go:96-126 | appends one length-delimited field; strings, bytes and submessages share it |
| Messages.AppendFloat | internal/python.go:108-113 | appends one 32-bit field |
| Messages.AppendDouble | internal/python.go:115-120 | appends one 64-bit field |
| Messages.AppendHandle | internal/python.go:128-140 | writes, byte for byte, the submessage form of the handle, without building it, for every pointer |
| Messages.FieldsOnTheWire | internal/python.go:60-126 | the bytes of a field of each of the four kinds, its number below 2^29: tag number, wire type and payload |
| Messages.ScalarsAsWritten | internal/python.go:240-299 | each kind of scalar reads back as the value it was written from, and as zero when absent |
| Messages.ScanMessage | internal/python.go:446-456 | in any message of well-formed fields, from any start, the scan is safe and finds the first field with the number sought, with its payload |
| Messages.FirstIsFirst | internal/python.go:446-456 | the field found is numbered as sought and none before it is |
| Messages.ScalarOfMessage | internal/python.go:446-456 | a lookup in a written message returns the first occurrence's payload, or zero when there is none |
| Messages.ErrorOfMessage | internal/python.go:329-338 | a written message is an error if and only if some field is numbered 15, and the text is that of the first |
| Messages.HandleRoundTrip | internal/python.go:343-390 | a handle written at any field number is recovered, whatever stands before it |
| Messages.BareHandleRoundTrip | internal/python.go:343-360 | a bare varint at field 1 is recovered too, and an absent field is the null handle |
| Messages.NotAHandle | internal/python.go:343-390 | a field that cannot be a handle reads as the null handle |
| Requests.CallOp | internal/instance.go:426-432 | builds the message of the six call arguments; scanning it recovers the interpreter at field 1, the object called at 2, the buffers at 3 and 5 and their real lengths at 4 and 6 |
| Requests.CallMethodOp | internal/instance.go:435-442 | builds the message of the eight method-call arguments; scanning it recovers interpreter, object, and name, arguments and keywords each followed by its length, at fields 1 to 8 |
| Requests.PyCall | internal/python.go:870-876 | the generated marshalling builds the same kind of message, with the lengths it is handed at fields 4 and 6; fields 1 to 6 are recovered as for CallOp |
| Requests.PyCallMethod | internal/python.go:886-894 | likewise for method calls, fields 1 to 8 |
| Requests.CallMethodRecovered | internal/python.go:886-894 | scanning a method-call request for fields 1 to 8 recovers handle, object, name, buffers and lengths |
| Requests.CallRecovered | internal/python.go:870-876 | scanning a call request for fields 1 to 6 recovers its arguments |
| Requests.CallMethodBuildersAgreeIff | internal/instance.go:435-442 | hand-written and generated method-call requests are the same bytes if and only if the uint32 lengths passed are the real lengths |
| Requests.CallBuildersAgreeIff | internal/instance.go:426-432 | the same for call requests |
| Values.IntFromBig | value.go:295-300 | the result denotes the given integer and is big exactly outside the int64 range |
| Values.IntFromUint64 | value.go:288-293 | likewise for an unsigned word |
| Values.Int64Iff | value.go:158-163 | Int64 succeeds if and only if the integer fits, and then gives it |
| NodeReaders.NodeReader.Need | wire.go:207-213 | true exactly when n bytes are left and nothing has failed; otherwise failure becomes permanent and nothing else changes |
| NodeReaders.NodeReader.ReadWord | wire.go:215-249 | the little-endian word, or 0 and failure with the position kept |
| NodeReaders.NodeReader.ReadBytes | wire.go:254-262 | the next n bytes, or none and failure; a negative n reads nothing |
| NodeReaders.NodeReader.ReadLenBytes | wire.go:264-269 | a length and that many bytes |
| NodeReaders.OverrunReadsNothing | wire.go:207-262 | a read past the end, or after one, gives zero or nothing and moves nothing but the failure flag |
| NodeReaders.LenBytesAt | wire.go:56-66 | a length-prefixed string survives if its length fits the prefix, and otherwise the reader stops short of its end |
| Wire.EncodeHandle | wire.go:116-132 | appends the object node without a type name, or the error for a released or foreign handle |
| Wire.EncodeValue | wire.go:68-113 | appends exactly the node of the value, for every kind of value, or fails as its handle does |
| Wire.EncodeBig | wire.go:81-94 | the big-integer branch with its in-place reversal |
| Wire.EncodeList | wire.go:140-150 | a count and the nodes, or the first element's error |
| Wire.EncodeDictItems | wire.go:153-165 | the flat list of keys and values |
| Wire.DecodeNode | wire.go:273-333 | agrees on every reader state with the parsing function, result, position and failure flag alike |
| Wire.DecodeNodes | wire.go:424-431 | the element loop agrees with the list parser |
| Wire.NodeRoundTrip | wire.go:68-132 | a value's node, at any position of any data, parses to the value and ends at the node's end, if and only if its lengths fit their prefixes |
| Wire.EncodeDecode | wire.go:68-333 | whatever an instance encodes, it decodes to what it is promised to receive |
| Wire.NoneOnTheWire | wire.go:70-71 | None is the byte 0, and nil is sent as it and arrives as None |
| Wire.BoolOnTheWire | wire.go:72-77 | the two bytes of a bool, and that they decode to it |
| Wire.IntOnTheWire | wire.go:78-82 | the nine bytes of an int that fits 64 bits, in two's complement, and that they decode to it |
| Wire.BigOnTheWire | wire.go:83-94 | any other int is its sign and its least significant byte first, without a zero byte at the end, and these bytes decode to it |
| Wire.FloatOnTheWire | wire.go:95-101 | the bytes of floats and complex numbers, and that they decode to them |
| Wire.TextOnTheWire | wire.go:102-107 | the bytes of str and bytes, and that they decode to them |
| Wire.HandleOnTheWire | wire.go:116-132 | a live handle of the instance is sent as its id, kind and flags, without a type name |
| Wire.ObjectNodeParses | wire.go:315-358 | the bytes of an object node decode to a wrapper with that id, kind, callability and type name, owned by the decoding instance, and its concrete type is List exactly for kind 1, Tuple for 2, Dict for 3, Set for 4, FrozenSet for 5, Function for 6, Class for 7, Module for 8 and a plain object for every other kind |
| Wire.ConcreteTypeSurvives | wire.go:30-40 | a wrapper of each concrete type, with the protocol's kind for it, comes back with that type |
| Wire.WhyRefused | wire.go:116-123 | a value is refused as released exactly when it has no handle or a released one, and as foreign exactly when its handle is live and another instance's |
| Wire.UnknownTagsRefused | wire.go:273-333 | a node whose tag is above 8 is an error that names the tag |
| Wire.ReceivedIsFaithful | wire.go:273-358 | what a peer receives differs from what was sent only where the protocol says so: nil, non-canonical ints, type names |
| Wire.EncodesIff | wire.go:140-150 | a list encodes if and only if every handle in it is live and the instance's own; the bytes are the nodes in order |
| Wire.DecodedIntsCanonical | wire.go:285-299 | an int decoded from any bytes, padded and negative-zero magnitudes included, is canonical and is the signed little-endian sum |
| Wire.DecodedFits | wire.go:273-333 | whatever bytes a value was decoded from, its lengths fit the widths it would travel in again |
| Wire.ReencodingIsStable | wire.go:285-299 | decode any bytes, encode, decode: the second decode changes nothing |
| Wire.NodeCut | wire.go:201-333 | cut past its end, a node decodes the same; cut earlier, it is an error or the failure flag is set |
| Wire.DecodedWithinData | wire.go:420-431 | whatever count is claimed, the elements decoded are at most the bytes left |
| Wire.NodesRoundTrip | wire.go:415-433 | a list of nodes parses to the values in order and stops at its end |
| Wire.NodesAppend | wire.go:140-150 | the nodes of a list stand in the order of its elements |
| Wire.NodePrefixDecodesIff | wire.go:273-333 | cut anywhere inside, a node decodes without an error if and only if its tag is there and it is a fixed-size scalar |
| Wire.NodesPrefixIff | wire.go:424-431 | cut anywhere inside, a node list decodes without an error if and only if the cut is in the payload of a last fixed-size scalar |
| Wire.PairItems | object.go:459-466 | an even list is paired up with nothing lost or reordered; an odd one is refused |
| Wire.FlattenInjective | wire.go:153-165 | the flat form determines the items |
| Wire.FlattenAt | wire.go:153-165 | in the flat form the i-th key is at place 2i and its value behind it |
| Envelopes.DecodeRaised | wire.go:386-403 | agrees with the parser of the raised payload |
| Envelopes.DecodeEnvelope | wire.go:364-383 | agrees with the envelope parser, interrupted or not |
| Envelopes.DecodeNodeResult | wire.go:406-412 | the outcome of an operation returning a node |
| Envelopes.DecodeListResult | wire.go:415-433 | the outcome of one returning a list, which is never longer than the response |
| Envelopes.DecodeTextResult | wire.go:462-472 | the outcome of one returning text |
| Envelopes.DecodeEmptyResult | wire.go:475-478 | the outcome of one returning nothing |
| Envelopes.DecodeEvalResult | wire.go:497-528 | the outcome of Eval |
| Envelopes.Items | object.go:446-467 | the outcome of DictValue.Items: the list's error, the odd list's, or items whose flat form is the list |
| Envelopes.NodeOutcomeOfReply | wire.go:364-412 | for every well-formed reply: the value, the exit code, the exception, or the context's error when interrupted; an ok reply is returned even if interrupted |
| Envelopes.RaisedOnTheWire | wire.go:364-403 | the bytes of an exception make operations returning a node, a list, text or nothing all fail with its type, message, traceback and exception object, or with the context's error when interrupted |
| Envelopes.ExitOnTheWire | wire.go:364-383 | the bytes of an exit make all four fail with its signed code, interrupted or not |
| Envelopes.ListOutcomeOfReply | wire.go:415-433 | a list reply arrives element by element, in order |
| Envelopes.ItemsOfReply | object.go:446-467 | Items is the guest's pairs, and nothing else, in order |
| Envelopes.EvalOutcomeOfReply | wire.go:497-528 | the same for Eval, which keeps exceptions and exits in its result with the captured output |
| Envelopes.EvalOnTheWire | wire.go:497-528 | the bytes of an evaluation: status, value or exit code, standard output, standard error, in this order |
| Envelopes.RaisedNeverParsed | wire.go:364-383 | after a raised status no caller returns a payload, whatever bytes follow |
| Envelopes.EmptyOutcomeIff | wire.go:475-478 | an operation without a result succeeds if and only if the status is ok or there are no bytes |
| Envelopes.EvalTruncation | wire.go:497-528 | Eval fails on everything shorter than a complete envelope, however the evaluation ended |
| Envelopes.EvalPrefixFails | wire.go:497-528 | in particular on every strict prefix of what the guest writes |
| Envelopes.NodePrefixAcceptedIff | wire.go:406-412 | an operation returning a node accepts a truncated ok envelope if and only if the cut is inside the payload of a fixed-size scalar |
| Envelopes.ListPrefixAcceptedIff | wire.go:415-433 | one returning a list, if and only if the cut is inside the payload of a last element that is a fixed-size scalar |
| Envelopes.TextOutcomeOfReply | wire.go:462-472 | an ok text reply yields the text if and only if its length fits its prefix |
| Envelopes.TextPrefixFails | wire.go:462-472 | and is refused on every strict prefix |
| CallArgs.SplitArgs | wire.go:169-184 | the positionals and the keywords among the arguments |
| CallArgs.ArgsInOrder | wire.go:169-184 | the lists of a joined argument list are those of its parts, one after the other: both keep the order of the arguments |
| CallArgs.OneArg | wire.go:169-184 | a positional contributes itself, nil contributes None, and a keyword its name and value to the other list |
| CallArgs.EncodeKeywords | wire.go:189-196 | the keyword list, if and only if every value may be sent |
| CallArgs.EncodeCallArgs | wire.go:169-197 | succeeds if and only if every handle among the arguments is live and the instance's own, with both lists; otherwise the error is that of some argument |
| CallArgs.ArgCovered | wire.go:169-184 | every argument ends up in the list of its kind |
| CallArgs.DecodeKeywords | bridge.go:162-169 | the keyword loop agrees with the parser that overwrites earlier duplicates |
| CallArgs.DecodeCall | bridge.go:146-171 | agrees with the request parser on all bytes |
| CallArgs.CallRoundTrip | bridge.go:146-171 | serving the two encoded lists, joined, yields the positionals in order and the keyword map |
| CallArgs.CallOnTheWire | bridge.go:146-171 | the bytes of a call, count and nodes and then count and keywords, decode to the positionals in order and the keyword map |
| CallArgs.KeywordOnTheWire | wire.go:189-196 | the bytes of a keyword, its name and then its node, and that they decode to both |
| CallArgs.LastDuplicateWins | bridge.go:162-169 | the map holds the last value of every name given and no other name |
| CallArgs.DecodedKeywords | bridge.go:162-169 | whatever keyword count is claimed, the keywords decoded are at most the bytes left |
| CallArgs.AllKeywordsDecoded | bridge.go:162-169 | and the loop succeeds if and only if they are as many as claimed |
| CallArgs.CallPrefixRunsIff | bridge.go:146-171 | a truncated request still runs the bound function if and only if the cut is inside the keyword count, or inside the payload of a fixed-size scalar that is the last positional or the last keyword's value |
| Callbacks.CallbackRaised | bridge.go:185-196 | for an error that carries a PythonError with a live exception object of this instance, callable or not: the bytes 1, 1 and that object's node; for every other error: 1, 0 and its text |
| Callbacks.Bridge.Bind | bridge.go:85-89 | the next int32 id, wrapping, and its table entry |
| Callbacks.Bridge.HandleUserCallback | bridge.go:139-180 | for all request bytes, exactly one in-band answer: the one the call deserves |
| Callbacks.ResponseRoundTrip | bridge.go:185-196 | the guest reads a response back whole if and only if its lengths fit |
| Callbacks.AnswerIsWellFormed | bridge.go:139-180 | so it does every answer to whatever bytes it sent |
| Callbacks.AnsweredHandlesAreLive | bridge.go:185-196 | no answer carries a released or foreign handle |
| Callbacks.CallbackEndToEnd | bridge.go:139-207 | a bound function runs on the arguments the caller encoded, and its value, exception, error or panic reaches the caller as such |
| Callbacks.FailureEndToEnd | bridge.go:185-196 | when a bound function returns an error, the guest sees the live exception object it carries re-raised, and otherwise a RuntimeError with its text: no PythonError, no object, or a released or foreign one |
| Callbacks.AnswerBytes | bridge.go:139-180 | the bytes of every answer: 0 and the node of a value that may be sent; 1, 0 and a text for an unbound id, a request that does not decode, a panic, or a value that may not be sent |
| Callbacks.IDIsNumber | bridge.go:85-89 | below 2^31 registrations, the id is their number |
| Callbacks.IDsDistinctIff | bridge.go:85-89 | two registrations share an id if and only if they are a multiple of 2^32 apart |
| Callbacks.IDLeadsToLatest | bridge.go:85-89 | after any number of registrations, an id leads to the latest function that got it |
| Callbacks.LatestIsOwnIff | bridge.go:85-89 | which is the one it was made for if and only if fewer than 2^32 registrations have followed |
| Callbacks.TableKeepsEveryFunction | bridge.go:85-89 | so until then every id leads to its own function |
| Callbacks.EveryIDIsReused | bridge.go:85-89 | and from then on to one registered later, for every id |
| Callbacks.FirstIDIsReused | bridge.go:85-89 | registration 2^32 + 1 is the first to overwrite an entry, that of the first |
| Pointers.ResultRoundTrip | internal/python.go:727-742 | the packed word unpacks to the unsigned pointer and the length, for every pointer pattern, if and only if the length fits 32 bits |
| Pointers.PackedHalves | internal/python.go:727-742 | the high half of the packed word is the pointer modulo 2^32 and the low half the length; the widened offset has the pointer's bits |
| Interrupts.LinearMemory.StageInterrupt | internal/instance.go:634-636 | the slot holds the exception pointer; no other byte changes |
| Interrupts.LinearMemory.FireInterrupt | internal/instance.go:667-672 | the breaker word gains the async bit; no other byte changes |
| Interrupts.LinearMemory.ClearInterrupt | internal/instance.go:679-687 | the slot is zero, the breaker loses the async bit if the watchdog fired, and no byte outside the two words changes |
| Interrupts.TripBits | internal/instance.go:667-687 | firing and clearing change bit 3 and no other bit |
| Interrupts.InvStep | internal/instance.go:624-687 | every guarded step of caller, watchdog, context or guest keeps the protocol's invariant; guarded means that cancellable operations do not overlap and that nobody enters the guest during a disarm whose interrupt is pending |
| Interrupts.NoInterruptLingers | internal/instance.go:674-687 | in every guarded run, whenever no disarm is due, slot and bit are clear, also in a word the guest has yet to write back |
| Interrupts.TrippedFindsException | internal/instance.go:624-628 | in every guarded run, a set bit finds the staged exception and was set by the active operation's own done context |
| Interrupts.DisarmReports | internal/instance.go:637-653 | in every run, however operations overlap: one value sent, reported by the disarm, true if and only if the store happened, and then the context is done |
| Interrupts.DisarmNeverBlocks | internal/instance.go:646-652 | a disarm that waits is at most one enabled watchdog step from its value |
| Interrupts.HostKeepsOtherBits | internal/instance.go:667-687 | no host step touches another breaker bit |
| Interrupts.RaiseHasCause | internal/instance.go:624-653 | what the guest raises was caused by the active operation's context, and is the raising operation's own exactly when that is the active one |
| Interrupts.OnlyOwnInterrupts | internal/instance.go:624-687 | in every exclusive run, one in which moreover nobody is in the guest with the interrupt of another pending, no operation raises an interrupt its own context did not cause |
| Interrupts.NonOverlappingRuns | internal/instance.go:388-408 | the guarantees together, for operations one after the other |
| Overlaps.GuardedRunsAreSound | internal/instance.go:624-687 | the guarantee of guarded runs: clean at rest, and a set bit finds its exception |
| Overlaps.SafeIffGuarded | internal/instance.go:624-687 | after every guarded run, an enabled step keeps that guarantee under all guarded continuations if and only if it is guarded itself |
| Overlaps.EveryOverlapLosesInterrupt | internal/instance.go:646-652 | after every guarded run, an operation that stages while another is active can, by guarded steps alone, find its staging erased and its interrupt fired in vain |
| Overlaps.EveryIntruderRevivesBit | internal/instance.go:667-687 | after every guarded run, whoever enters the guest during a disarm whose interrupt is pending can, by guarded steps alone, write the cleared bit back, and it lingers at rest |
| Overlaps.EveryForeignEntryRaises | internal/instance.go:624-653 | after every exclusive run, whoever enters the guest while the interrupt of another is pending can, by exclusive steps alone, raise it |
| Overlaps.EveryStagingUnderneathRaises | internal/instance.go:624-653 | after every exclusive run, an operation in the guest whose own watchdog has not fired can, by exclusive steps alone, raise the interrupt of one that stages meanwhile, overlapping or not |
| Overlaps.SafeIffExclusive | internal/instance.go:624-653 | after every exclusive run, a guarded step leads to no foreign interrupt under any exclusive continuation if and only if it is exclusive itself |
| Overlaps.SafeIffExclusiveAtAll | internal/instance.go:624-687 | and any enabled step keeps both guarantees, each under the continuations of its discipline, if and only if it is exclusive |
| Overlaps.OverlapLosesInterrupt | internal/instance.go:646-652 | a run of two overlapping operations in which a fired interrupt raises nothing |
| Overlaps.IntruderRevivesBit | internal/instance.go:667-687 | one in which another operation in the guest during a disarm writes the cleared bit back |
| Overlaps.NestedRaisesOutersInterrupt | internal/instance.go:624-653 | one in which a nested operation without cancellation raises the outer operation's interrupt |
| ModuleLock.InvStep | internal/python.go:651-681 | every step of every goroutine keeps: holders of the mutex are exactly the executing activations, and all but the top of a stack are in handlers |
| ModuleLock.MutualExclusion | internal/python.go:489-506 | in every interleaving at most one activation executes, it holds the mutex, and nobody unlocks what they do not hold |
| ModuleLock.LockBalance | internal/python.go:788-800 | however an activation ends, after any number of callbacks and panicking handlers, it has unlocked as often as it locked and the mutex is free |
| ModuleLock.PanicUnwinds | internal/python.go:788-800 | a panicking handler takes the mutex again before its activation unwinds, which can call nothing more and frees it on return |
| ModuleLock.StackDiscipline | internal/python.go:497-506 | in every disciplined run, whoever executes entered last, and whoever returns is the last that entered |
| ModuleLock.UndisciplinedCallbackBreaksLifo | internal/python.go:497-506 | after every disciplined run, a callback against the discipline leads, by disciplined steps alone, to a state where an earlier activation executes while a later one is unfinished |
| ModuleLock.SafeIffDisciplined | internal/python.go:497-506 | after every disciplined run, an enabled step keeps the order of activations under all disciplined continuations if and only if it is disciplined itself |
| ModuleLock.LockAloneIsNotEnough | internal/python.go:497-506 | a run of two goroutines in which the outer call resumes while the inner one is unfinished |
| PinLedger.PackIds | internal/instance.go:196-199 | the batch is the ids' little-endian words in order |
| PinLedger.PackRoundTrip | internal/instance.go:196-199 | a packed batch reads back as exactly the ids that were swapped out |
| PinLedger.PackAppend | internal/instance.go:196-199 | a packed batch is its ids' words one after the other |
| PinLedger.RequestCarriesIds | internal/instance.go:196-202 | scanning the release request recovers the instance at field 1, at field 2 bytes that read back as the ids, and their length, 8 a piece, at field 3 |
| PinLedger.Instance.QueueRelease | internal/instance.go:179-183 | one id at the end of the queue |
| PinLedger.Instance.DrainReleases | internal/instance.go:188-203 | the queue is empty after; the request holds the whole old queue, and is sent if and only if there was something to release and the instance is open |
| PinLedger.Instance.Close | internal/instance.go:691-694 | true for the first call only |
| PinLedger.ObjectHandle.Finalize | object.go:34-42 | queues the id the first time and never again |
| PinLedger.ConservedStep | internal/instance.go:179-203 | every step of guest, decoder, finalizers and drains conserves the pins of every id |
| PinLedger.PinConservation | internal/instance.go:179-203 | in every reachable state the pins of an id are its wrappers not yet queued, its places in the queue and in batches under way, plus undecoded nodes and what failures left; without those, exactly the first three |
| PinLedger.PinsMove | internal/instance.go:179-203 | what each step does to the pins of an id: emitted nodes add, a release the guest runs takes away what it names, and besides the guest's end nothing else changes them |
| PinLedger.PinsReturn | internal/instance.go:179-203 | from any such state an object can be emitted, wrapped, finalised, drained and released, and its pins are what they were |
| PinLedger.QueuedOnceInOrder | internal/instance.go:179-194 | each wrapper is queued at most once, and swapped batches followed by the queue are the history of queuing, in order |
| PinLedger.LiveWrapperIsPinned | object.go:17-33 | an object with a live wrapper is pinned |
| Lifecycle.RoutingIsStable | bridge.go:85-91 | from before the guest learns it and for the rest of the run, an id leads to the latest function that got it, which is its own if and only if fewer than 2^32 registrations have followed; two ids are equal if and only if they lead to the same registration |
| Lifecycle.Dispatcher.EnsureDispatcher | internal/dispatch.go:28-60 | registers once; a failure leaves it unregistered with the attempted id still served; a closed instance is refused |
| Lifecycle.ClosedIsFinal | internal/instance.go:691-694 | in every interleaving the close export runs at most once, and an operation that checks after Close's swap is refused |
| Lifecycle.StragglersAlone | internal/instance.go:388-394 | once Close has swapped, an operation can still go to the guest if and only if it was admitted before the swap and has not gone yet |
| Lifecycle.CloseIsSafeIff | internal/instance.go:161-164 | after the close export nothing can go to the guest if and only if the export left no such operation behind |
| Lifecycle.StragglerAfterExport | internal/instance.go:161-164 | a run in which an operation admitted before the swap goes to the guest after the close export |
| Operations.ValueOp | internal/instance.go:388-408 | the guest is sent the request if and only if the context is not done and the instance not closed; a done context fails it with the context's error, a closed instance as closed, a failed guest call with its failure; otherwise it is the transport error or the payload of field 1 |
| Operations.NothingSucceeds | internal/instance.go:388-408 | on a done context, a closed instance or a failed guest call no node, list, text, empty or eval operation succeeds, and each returns that error |
| Operations.EnvelopeOfMessage | internal/instance.go:402-407 | field 15 fails the operation with its text, whatever else the message holds; otherwise field 1 is the envelope |
| Operations.CallEndToEnd | internal/instance.go:388-408 | from a response message and a finished operation of any interrupt run to the caller's value, exception, exit or context error |
| Operations.EvalEndToEnd | wire.go:497-528 | the same for Eval, with its output |
| Operations.CancelledCleanly | internal/instance.go:640-653 | when operations do not overlap, an operation that ended in a context error was interrupted by its own context, and nothing is left behind |

## Left out

- CPython and the WebAssembly runtime: the guest answers, calls back, takes interrupts and counts pins as steps of its own; its memory allocator and its copies of requests and responses are not modelled. A memory access of the host is one atomic step.
- Protobuf.PbReader.ReadBytes: requires a length prefix that does not carry the position past Go's int; by `SliceInRangeIff` the original panics on every other, and the panic is not modelled.
- Protobuf.PbReader.Seek: requires the same of every prefix it passes, and so do the lookups built on it; `SkipAdvancesIff` is the exact condition and `OversizedLengthStalls` an input without it. The source writes the loop out in every lookup; the model has it once, with the wire type as an optional filter.
- Interrupts.NoInterruptLingers: proved of guarded runs, the unconditional claim being false. That the two words of linear memory are disjoint is an assumption about CPython; the source checks only their range.
- Interrupts.OnlyOwnInterrupts: proved of runs in which nobody is in the guest with the interrupt of another pending, the unconditional claim being false.
- Overlaps.SafeIffGuarded: the exception pointer is taken to be nonzero, as the address of a CPython object is.
- Interrupts.DisarmReports: covers invokes that return; a Go panic that leaves the guest call skips the disarm, which is not modelled.
- ModuleLock.StackDiscipline: proved for disciplined callbacks only, since the unconditional claim is false.
- ModuleLock.LockBalance: a panic in a handler reaches the caller of invoke as a return that unlocks; the runtime's own trap handling is not modelled. A callback id that is not registered returns before unlocking and changes nothing.
- PinLedger.PinConservation: garbage collection is a finalizer step that may happen to any wrapper at any time; that a caller keeps its wrapper alive during an operation is not modelled.
- Wire.EncodeHandle: in the codec a handle is a snapshot, with the released flag as it is read; the flag changes only in `PinLedger`. A value is compared after decoding without the type name, which the protocol does not carry back.
- Callbacks.Bridge.HandleUserCallback: a user function is a function of its arguments; its calls back into the instance are steps of `ModuleLock`. The texts of the bridge's own errors are a parameter.
- Lifecycle.RoutingIsStable: that the guest is told an id only after the table holds it is the order of the registration steps.
- Operations.ValueOp: the guest is a function from the request to its outcome; drains before the call are `PinLedger`, and the watchdog around it is `Interrupts`.
- Memory64 guests: `Pointers` is the 32-bit form.
- Floating point is carried as bit patterns and text as bytes; nothing in the bridge computes with either.
- Errors are compared without their wording, and wrapped errors as the error they wrap.
- The decoders of a single int64, a flag, or a flag and a node: the same shape as those of text and nodes.
- The roughly thirty other object operations and request builders: the same shape as Call, CallMethod and Items.
- The process-wide module API and abstract handle resolution: unused by instances.
- Filesystem pass-through, configuration, the command line and zip extraction: plumbing.
