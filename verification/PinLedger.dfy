/** Handle pins: one guest pin per object node the guest emits, one wrapper per node
    decoded, one queued release per finalised wrapper, released in packed batches. */
module PinLedger {
  import opened Bits
  import opened Bytes
  import opened Options
  import opened Protobuf
  import opened Messages
  import Requests

  // ---- packing a batch ------------------------------------------------------

  function Pack(ids: seq<u64>): seq<byte> {
    if ids == [] then [] else Pack(ids[..|ids| - 1]) + LE(8, ids[|ids| - 1])
  }

  /** The guest's reading of a packed batch. */
  function Unpack(b: seq<byte>): seq<u64> {
    if |b| < 8 then [] else
      WordSizes();
      LEValBound(b[|b| - 8..]);
      Unpack(b[..|b| - 8]) + [LEVal(b[|b| - 8..])]
  }

  lemma {:induction false} PackRoundTrip(ids: seq<u64>)
    ensures |Pack(ids)| == 8 * |ids| && Unpack(Pack(ids)) == ids
  {
    if ids != [] {
      var front, last := ids[..|ids| - 1], ids[|ids| - 1];
      PackRoundTrip(front);
      UnpackLast(Pack(front), last);
      assert front + [last] == ids;
    }
  }

  lemma UnpackLast(packed: seq<byte>, id: u64)
    ensures Unpack(packed + LE(8, id)) == Unpack(packed) + [id]
  {
    var b := packed + LE(8, id);
    assert b[|b| - 8..] == LE(8, id) && b[..|b| - 8] == packed;
    WordSizes();
    LERoundTrip(8, id);
  }

  lemma PackAppend(ids: seq<u64>, id: u64)
    ensures Pack(ids + [id]) == Pack(ids) + LE(8, id)
  {
    assert (ids + [id])[..|ids|] == ids;
  }

  method PackIds(ids: seq<u64>) returns (packed: seq<byte>)
    ensures packed == Pack(ids)
  {
    packed := [];
    for i := 0 to |ids|
      invariant packed == Pack(ids[..i])
    {
      assert ids[..i + 1][..i] == ids[..i];
      packed := packed + LE(8, ids[i]);
    }
    assert ids[..|ids|] == ids;
  }

  function ReleaseFields(h: u64, packed: seq<byte>): seq<Field>
    requires |packed| < TWO_63
  {
    [] + [VarintField(1, h)] + [LenField(2, packed)] + [VarintField(3, |packed|)]
  }

  /** The guest finds in the release request exactly the ids that were swapped out. */
  lemma RequestCarriesIds(h: u64, ids: seq<u64>, fs: seq<Field>)
    requires |Pack(ids)| < TWO_63 && fs == ReleaseFields(h, Pack(ids)) && |Message(fs)| < TWO_63
    ensures Requests.Recovers(Message(fs), 1, AsUint64, Integer(h))
    ensures Requests.Recovers(Message(fs), 2, AsBytes, Text(Pack(ids))) && Unpack(Pack(ids)) == ids
    ensures Requests.Recovers(Message(fs), 3, AsUint64, Integer(8 * |ids|))
  {
    hide Pack, Unpack, Message, ReleaseFields, Requests.Recovers;
    PackRoundTrip(ids);
    ReleaseShape(h, Pack(ids), fs);
    Requests.NumberedFields(Message(fs), fs);
    Requests.Carried(Message(fs), fs, 0);
    Requests.Carried(Message(fs), fs, 1);
    Requests.Carried(Message(fs), fs, 2);
  }

  lemma ReleaseShape(h: u64, packed: seq<byte>, fs: seq<Field>)
    requires |packed| < TWO_63 && fs == ReleaseFields(h, packed)
    ensures |fs| == 3 && Requests.Arguments(fs)
    ensures fs[0] == VarintField(1, h) && fs[1] == LenField(2, packed) && fs[2] == VarintField(3, |packed|)
  {}

  // ---- the host's objects ---------------------------------------------------

  class Instance {
    const h: u64
    var closed: bool
    var pendingRel: seq<u64>

    constructor (h: u64)
      ensures this.h == h && !closed && pendingRel == []
    {
      this.h := h;
      closed, pendingRel := false, [];
    }

    method QueueRelease(id: u64)
      modifies this`pendingRel
      ensures pendingRel == old(pendingRel) + [id]
    {
      pendingRel := pendingRel + [id];
    }

    /** The swap, and the request the swapped ids go out in; none when there is nothing
        to release or the instance is closed. Either way the queue is empty after. */
    method DrainReleases() returns (request: Option<seq<byte>>)
      requires 8 * |pendingRel| < TWO_63
      modifies this`pendingRel
      ensures pendingRel == []
      ensures request.Some? <==> old(pendingRel) != [] && !closed
      ensures request.Some? ==>
        |Pack(old(pendingRel))| < TWO_63 && request.value == Message(ReleaseFields(h, Pack(old(pendingRel))))
    {
      var ids := pendingRel;
      pendingRel := [];
      if |ids| == 0 || closed { return None; }
      var packed := PackIds(ids);
      PackRoundTrip(ids);
      var buf := AppendUint64([], 1, h, []);
      buf := Requests.AppendBuffer(buf, 2, packed, [] + [VarintField(1, h)]);
      request := Some(buf);
    }

    /** Close's compare-and-swap: true for the one call that goes on to the guest. */
    method Close() returns (first: bool)
      modifies this`closed
      ensures closed && first == !old(closed)
    {
      if closed { return false; }
      closed := true;
      return true;
    }
  }

  class ObjectHandle {
    const id: u64
    var released: bool

    constructor (id: u64)
      ensures this.id == id && !released
    {
      this.id := id;
      released := false;
    }

    /** The finalizer: the first run queues the id, any later one does nothing. */
    method Finalize(p: Instance)
      modifies this`released, p`pendingRel
      ensures released
      ensures p.pendingRel == if old(released) then old(p.pendingRel) else old(p.pendingRel) + [id]
    {
      if !released {
        released := true;
        p.QueueRelease(id);
      }
    }
  }

  // ---- the ledger -----------------------------------------------------------

  /** The finalizer flips `released`, then queues. */
  datatype Stage = Live | Flipped | Queued

  datatype Wrapper = Wrapper(id: u64, stage: Stage)

  /** A swapped-out batch: on its way, released by the guest, or failed after the guest
      had released the first `done` ids. */
  datatype Fate = Open | Released | Failed(done: nat)

  datatype Batch = Batch(ids: seq<u64>, fate: Fate)

  /** `pins` is the guest's registry; `flight` the object nodes emitted and not yet
      decoded; `lost` those whose response was never decoded. `queued` is the history of
      wrappers in the order they were queued, `batches` that of all swaps. */
  datatype State = State(
    pins: multiset<u64>, wrappers: seq<Wrapper>, queued: seq<nat>, pending: seq<u64>, batches: seq<Batch>,
    flight: multiset<u64>, lost: multiset<u64>, finalized: bool)

  datatype Step =
    | Emit(ids: seq<u64>)       // the guest answers or calls back with these objects
    | Decode(id: u64)           // newObjectHandle
    | Drop(id: u64)             // an emitted node that nobody decodes
    | Flip(w: nat)              // finalizer: released.CompareAndSwap
    | Queue(w: nat)             // finalizer: QueueRelease
    | Swap                      // drainReleases takes the queue
    | Release(k: nat)           // the guest runs the release of batch k
    | Fail(k: nat, done: nat)   // the release fails, or the instance turns out closed
    | Finalize                  // the guest's close drops every pin

  predicate Init(s: State) {
    s == State(multiset{}, [], [], [], [], multiset{}, multiset{}, false)
  }

  predicate Enabled(s: State, t: Step) {
    match t
    case Emit(_) => !s.finalized
    case Decode(id) => id in s.flight
    case Drop(id) => id in s.flight
    case Flip(w) => w < |s.wrappers| && s.wrappers[w].stage == Live
    case Queue(w) => w < |s.wrappers| && s.wrappers[w].stage == Flipped
    case Swap => true
    case Release(k) => k < |s.batches| && s.batches[k].fate == Open && !s.finalized
    case Fail(k, done) =>
      k < |s.batches| && s.batches[k].fate == Open && done <= |s.batches[k].ids| && (s.finalized ==> done == 0)
    case Finalize => !s.finalized
  }

  function Apply(s: State, t: Step): State
    requires Enabled(s, t)
  {
    match t
    case Emit(ids) => s.(pins := s.pins + multiset(ids), flight := s.flight + multiset(ids))
    case Decode(id) => s.(flight := s.flight - multiset{id}, wrappers := s.wrappers + [Wrapper(id, Live)])
    case Drop(id) => s.(flight := s.flight - multiset{id}, lost := s.lost + multiset{id})
    case Flip(w) => s.(wrappers := s.wrappers[w := s.wrappers[w].(stage := Flipped)])
    case Queue(w) =>
      s.(wrappers := s.wrappers[w := s.wrappers[w].(stage := Queued)],
         queued := s.queued + [w], pending := s.pending + [s.wrappers[w].id])
    case Swap => s.(batches := s.batches + [Batch(s.pending, Open)], pending := [])
    case Release(k) =>
      s.(pins := s.pins - multiset(Unpack(Pack(s.batches[k].ids))),
         batches := s.batches[k := s.batches[k].(fate := Released)])
    case Fail(k, done) =>
      s.(pins := s.pins - multiset(s.batches[k].ids[..done]),
         batches := s.batches[k := s.batches[k].(fate := Failed(done))])
    case Finalize => s.(pins := multiset{}, finalized := true)
  }

  ghost predicate Next(s: State, s': State) { exists t :: Enabled(s, t) && s' == Apply(s, t) }

  ghost predicate Run(ss: seq<State>) {
    |ss| > 0 && Init(ss[0]) && forall i {:trigger ss[i]} :: 0 < i < |ss| ==> Next(ss[i - 1], ss[i])
  }

  /** The wrappers of id whose release is not queued yet. */
  function Held(ws: seq<Wrapper>, id: u64): nat {
    if ws == [] then 0
    else
      var last := ws[|ws| - 1];
      Held(ws[..|ws| - 1], id) + (if last.stage != Queued && last.id == id then 1 else 0)
  }

  function Count(ids: seq<u64>, id: u64): nat { multiset(ids)[id] }

  /** The occurrences of id in a batch that the guest has not released. */
  function Unreleased(b: Batch, id: u64): nat {
    match b.fate
    case Open => Count(b.ids, id)
    case Released => 0
    case Failed(done) => if done <= |b.ids| then Count(b.ids[done..], id) else 0
  }

  function Outstanding(bs: seq<Batch>, id: u64): nat {
    if bs == [] then 0 else Outstanding(bs[..|bs| - 1], id) + Unreleased(bs[|bs| - 1], id)
  }

  function Swapped(bs: seq<Batch>): seq<u64> {
    if bs == [] then [] else Swapped(bs[..|bs| - 1]) + bs[|bs| - 1].ids
  }

  function IdsOf(queued: seq<nat>, ws: seq<Wrapper>): seq<u64>
    requires forall i :: 0 <= i < |queued| ==> queued[i] < |ws|
  {
    seq(|queued|, i requires 0 <= i < |queued| => ws[queued[i]].id)
  }

  // ---- conservation ---------------------------------------------------------

  /** Pins of id are conserved. */
  predicate Conserved(s: State, id: u64) {
    !s.finalized ==>
      s.pins[id] == Held(s.wrappers, id) + Count(s.pending, id) + Outstanding(s.batches, id) + s.flight[id] + s.lost[id]
  }

  /** Each wrapper is queued at most once, and the queue's history is all swapped batches
      in order followed by what is pending: nothing is lost or duplicated by a race. */
  ghost predicate QueueOk(s: State) {
    && (forall i :: 0 <= i < |s.queued| ==> s.queued[i] < |s.wrappers| && s.wrappers[s.queued[i]].stage == Queued)
    && (forall i, j :: 0 <= i < j < |s.queued| ==> s.queued[i] != s.queued[j])
    && IdsOf(s.queued, s.wrappers) == Swapped(s.batches) + s.pending
  }

  lemma {:induction false} HeldAfter(ws: seq<Wrapper>, w: nat, stage: Stage, id: u64)
    requires w < |ws| && ws[w].stage != Queued
    ensures Held(ws, id) ==
      Held(ws[w := ws[w].(stage := stage)], id) + (if stage == Queued && ws[w].id == id then 1 else 0)
  {
    var ws' := ws[w := ws[w].(stage := stage)];
    var n := |ws| - 1;
    if w < n {
      assert ws'[..n] == ws[..n][w := ws[..n][w].(stage := stage)];
      HeldAfter(ws[..n], w, stage, id);
    } else {
      assert ws'[..n] == ws[..n];
    }
  }

  lemma {:induction false} OutstandingAfter(bs: seq<Batch>, k: nat, fate: Fate, id: u64)
    requires k < |bs|
    ensures Outstanding(bs[k := bs[k].(fate := fate)], id) + Unreleased(bs[k], id) ==
      Outstanding(bs, id) + Unreleased(bs[k].(fate := fate), id)
    ensures Outstanding(bs, id) >= Unreleased(bs[k], id)
  {
    var bs' := bs[k := bs[k].(fate := fate)];
    var n := |bs| - 1;
    if k < n {
      assert bs'[..n] == bs[..n][k := bs[..n][k].(fate := fate)];
      OutstandingAfter(bs[..n], k, fate, id);
    } else {
      assert bs'[..n] == bs[..n];
    }
  }

  lemma {:induction false} SwappedAfter(bs: seq<Batch>, k: nat, fate: Fate)
    requires k < |bs|
    ensures Swapped(bs[k := bs[k].(fate := fate)]) == Swapped(bs)
  {
    var bs' := bs[k := bs[k].(fate := fate)];
    var n := |bs| - 1;
    if k < n {
      assert bs'[..n] == bs[..n][k := bs[..n][k].(fate := fate)];
      SwappedAfter(bs[..n], k, fate);
    } else {
      assert bs'[..n] == bs[..n];
    }
  }

  lemma HeldAppend(ws: seq<Wrapper>, w: Wrapper, id: u64)
    ensures Held(ws + [w], id) == Held(ws, id) + (if w.stage != Queued && w.id == id then 1 else 0)
  {
    assert (ws + [w])[..|ws|] == ws;
  }

  lemma BatchAppend(bs: seq<Batch>, b: Batch, id: u64)
    ensures Outstanding(bs + [b], id) == Outstanding(bs, id) + Unreleased(b, id)
      && Swapped(bs + [b]) == Swapped(bs) + b.ids
  {
    assert (bs + [b])[..|bs|] == bs;
  }

  lemma CountSplit(ids: seq<u64>, n: nat, id: u64)
    requires n <= |ids|
    ensures Count(ids, id) == Count(ids[..n], id) + Count(ids[n..], id)
  {
    assert ids == ids[..n] + ids[n..];
  }

  lemma ConservedStep(s: State, t: Step, id: u64)
    requires Conserved(s, id) && Enabled(s, t)
    ensures Conserved(Apply(s, t), id)
  {
    match t {
      case Emit(ids) =>
      case Decode(x) => HeldAppend(s.wrappers, Wrapper(x, Live), id);
      case Drop(x) =>
      case Flip(w) => HeldAfter(s.wrappers, w, Flipped, id);
      case Queue(w) => HeldAfter(s.wrappers, w, Queued, id);
      case Swap => BatchAppend(s.batches, Batch(s.pending, Open), id);
      case Release(k) => ReleaseConserves(s, k, id);
      case Fail(k, done) => FailConserves(s, k, done, id);
      case Finalize =>
    }
  }

  lemma ReleaseConserves(s: State, k: nat, id: u64)
    requires Conserved(s, id) && Enabled(s, Release(k))
    ensures Conserved(Apply(s, Release(k)), id)
  {
    hide Pack, Unpack, Outstanding;
    PackRoundTrip(s.batches[k].ids);
    OutstandingAfter(s.batches, k, Released, id);
  }

  lemma FailConserves(s: State, k: nat, done: nat, id: u64)
    requires Conserved(s, id) && Enabled(s, Fail(k, done))
    ensures Conserved(Apply(s, Fail(k, done)), id)
  {
    OutstandingAfter(s.batches, k, Failed(done), id);
    CountSplit(s.batches[k].ids, done, id);
  }

  lemma QueueOkStep(s: State, t: Step)
    requires QueueOk(s) && Enabled(s, t)
    ensures QueueOk(Apply(s, t))
  {
    match t {
      case Queue(w) => QueueAppends(s, w);
      case Swap => BatchAppend(s.batches, Batch(s.pending, Open), 0);
      case Release(k) => SwappedAfter(s.batches, k, Released);
      case Fail(k, done) => SwappedAfter(s.batches, k, Failed(done));
      case Decode(id) => QueueKept(s, Apply(s, t));
      case Flip(w) => QueueKept(s, Apply(s, t));
      case _ =>
    }
  }

  /** New and flipped wrappers are not queued. */
  lemma QueueKept(s: State, s': State)
    requires QueueOk(s) && s'.queued == s.queued && s'.batches == s.batches && s'.pending == s.pending
    requires |s.wrappers| <= |s'.wrappers|
    requires forall w :: 0 <= w < |s.wrappers| && s.wrappers[w].stage == Queued ==> s'.wrappers[w] == s.wrappers[w]
    ensures QueueOk(s')
  {
    assert IdsOf(s'.queued, s'.wrappers) == IdsOf(s.queued, s.wrappers);
  }

  lemma QueueAppends(s: State, w: nat)
    requires QueueOk(s) && Enabled(s, Queue(w))
    ensures QueueOk(Apply(s, Queue(w)))
  {
    var s' := Apply(s, Queue(w));
    assert IdsOf(s'.queued, s'.wrappers) == IdsOf(s.queued, s.wrappers) + [s.wrappers[w].id];
    Associative(Swapped(s.batches), s.pending, [s.wrappers[w].id]);
  }

  lemma {:induction false} ConservedAlways(ss: seq<State>, i: nat, id: u64)
    requires Run(ss) && i < |ss|
    ensures Conserved(ss[i], id)
  {
    if i > 0 {
      ConservedAlways(ss, i - 1, id);
      assert Next(ss[i - 1], ss[i]);
      var t :| Enabled(ss[i - 1], t) && ss[i] == Apply(ss[i - 1], t);
      ConservedStep(ss[i - 1], t, id);
    }
  }

  /** Each wrapper is queued at most once, and every queued id is in exactly one place, a
      swapped batch or the queue, in the order it came. */
  lemma {:induction false} QueuedOnceInOrder(ss: seq<State>, i: nat)
    requires Run(ss) && i < |ss|
    ensures QueueOk(ss[i])
  {
    if i > 0 {
      QueuedOnceInOrder(ss, i - 1);
      assert Next(ss[i - 1], ss[i]);
      var t :| Enabled(ss[i - 1], t) && ss[i] == Apply(ss[i - 1], t);
      QueueOkStep(ss[i - 1], t);
    }
  }

  /** The occurrences of id in batches still on their way. */
  function InTransit(bs: seq<Batch>, id: u64): nat {
    if bs == [] then 0
    else InTransit(bs[..|bs| - 1], id) + (if bs[|bs| - 1].fate == Open then Count(bs[|bs| - 1].ids, id) else 0)
  }

  /** The occurrences of id left behind by failed releases. */
  function LeftBehind(bs: seq<Batch>, id: u64): nat {
    if bs == [] then 0
    else LeftBehind(bs[..|bs| - 1], id) + (if bs[|bs| - 1].fate.Failed? then Unreleased(bs[|bs| - 1], id) else 0)
  }

  lemma {:induction false} OutstandingSplits(bs: seq<Batch>, id: u64)
    ensures Outstanding(bs, id) == InTransit(bs, id) + LeftBehind(bs, id)
    ensures (forall k :: 0 <= k < |bs| ==> !bs[k].fate.Failed?) ==> LeftBehind(bs, id) == 0
  {
    if bs != [] { OutstandingSplits(bs[..|bs| - 1], id); }
  }

  /** In every reachable state before the guest is finalized, the pins of an id are its
      wrappers not yet queued, its occurrences in the queue and in batches on their way,
      plus the nodes not yet decoded and what failures left behind; without failures and
      with every response decoded, exactly the first three. */
  lemma PinConservation(ss: seq<State>, i: nat, id: u64)
    requires Run(ss) && i < |ss| && !ss[i].finalized
    ensures var s := ss[i];
      var due := Held(s.wrappers, id) + Count(s.pending, id) + InTransit(s.batches, id);
      && s.pins[id] == due + s.flight[id] + s.lost[id] + LeftBehind(s.batches, id)
      && (s.flight[id] == 0 && s.lost[id] == 0 && (forall k :: 0 <= k < |s.batches| ==> !s.batches[k].fate.Failed?)
          ==> s.pins[id] == due)
  {
    ConservedAlways(ss, i, id);
    OutstandingSplits(ss[i].batches, id);
  }

  lemma {:induction false} HeldContains(ws: seq<Wrapper>, w: nat)
    requires w < |ws| && ws[w].stage != Queued
    ensures Held(ws, ws[w].id) > 0
  {
    if w < |ws| - 1 { HeldContains(ws[..|ws| - 1], w); }
  }

  /** A wrapper that is not finalised always has its object pinned. */
  lemma LiveWrapperIsPinned(ss: seq<State>, i: nat, w: nat)
    requires Run(ss) && i < |ss| && !ss[i].finalized && w < |ss[i].wrappers| && ss[i].wrappers[w].stage == Live
    ensures ss[i].wrappers[w].id in ss[i].pins
  {
    HeldContains(ss[i].wrappers, w);
    ConservedAlways(ss, i, ss[i].wrappers[w].id);
  }

  /** How each step moves the pins of an id: an emitted node adds one, a release that the
      guest runs takes away what it names, and nothing else but the guest's end does. */
  lemma PinsMove(s: State, t: Step, id: u64)
    requires Enabled(s, t) && Conserved(s, id)
    ensures match t
      case Emit(ids) => Apply(s, t).pins[id] == s.pins[id] + Count(ids, id)
      case Release(k) => Apply(s, t).pins[id] == s.pins[id] - Count(s.batches[k].ids, id)
      case Fail(k, done) => !s.finalized ==> Apply(s, t).pins[id] == s.pins[id] - Count(s.batches[k].ids[..done], id)
      case Finalize => Apply(s, t).pins[id] == 0
      case _ => Apply(s, t).pins[id] == s.pins[id]
  {
    match t {
      case Release(k) =>
        PackRoundTrip(s.batches[k].ids);
        OutstandingAfter(s.batches, k, Released, id);
      case Fail(k, done) =>
        OutstandingAfter(s.batches, k, Failed(done), id);
        CountSplit(s.batches[k].ids, done, id);
      case _ =>
    }
  }

  /** From any state before the guest's end, an object can be emitted, wrapped, finalised
      and released again, and its pins are then what they were. */
  lemma PinsReturn(s: State, id: u64) returns (s': State)
    requires !s.finalized && s.pending == []
    ensures s'.pins == s.pins && s'.wrappers == s.wrappers + [Wrapper(id, Queued)]
    ensures s'.batches == s.batches + [Batch([id], Released)] && s'.queued == s.queued + [|s.wrappers|]
  {
    var s1 := Wrapped(s, id);
    var s2 := Finalised(s1, |s.wrappers|);
    assert s2.wrappers == s.wrappers + [Wrapper(id, Queued)];
    s' := Drained(s2, id);
    assert s'.pins == s.pins;
  }

  lemma Wrapped(s: State, id: u64) returns (s': State)
    requires !s.finalized
    ensures Enabled(s, Emit([id])) && Enabled(Apply(s, Emit([id])), Decode(id))
    ensures s' == Apply(Apply(s, Emit([id])), Decode(id))
    ensures s' == s.(pins := s.pins + multiset{id}, wrappers := s.wrappers + [Wrapper(id, Live)])
  {
    var s1 := Apply(s, Emit([id]));
    assert multiset([id]) == multiset{id} && id in s1.flight;
    s' := Apply(s1, Decode(id));
    assert s'.flight == s.flight;
  }

  lemma Finalised(s: State, w: nat) returns (s': State)
    requires w < |s.wrappers| && s.wrappers[w].stage == Live
    ensures Enabled(s, Flip(w)) && Enabled(Apply(s, Flip(w)), Queue(w))
    ensures s' == Apply(Apply(s, Flip(w)), Queue(w))
    ensures s' == s.(wrappers := s.wrappers[w := Wrapper(s.wrappers[w].id, Queued)],
                     queued := s.queued + [w], pending := s.pending + [s.wrappers[w].id])
  {
    var s1 := Apply(s, Flip(w));
    s' := Apply(s1, Queue(w));
    assert s'.wrappers == s.wrappers[w := Wrapper(s.wrappers[w].id, Queued)];
  }

  lemma Drained(s: State, id: u64) returns (s': State)
    requires !s.finalized && s.pending == [id]
    ensures Enabled(s, Swap) && Enabled(Apply(s, Swap), Release(|s.batches|))
    ensures s' == Apply(Apply(s, Swap), Release(|s.batches|))
    ensures s' == s.(pins := s.pins - multiset{id}, batches := s.batches + [Batch([id], Released)], pending := [])
  {
    var k := |s.batches|;
    var s1 := Apply(s, Swap);
    PackRoundTrip([id]);
    assert multiset([id]) == multiset{id};
    s' := Apply(s1, Release(k));
    assert s'.batches == s.batches + [Batch([id], Released)];
  }
}
