/** The interrupt watchdog: a caller, its watchdog goroutine, a context and the guest
    over two words of linear memory, as a step relation over any number of
    operations. */
module Interrupts {
  import opened Bits
  import opened Bytes
  import opened Options

  /** _PY_ASYNC_EXCEPTION_BIT. */
  const ASYNC_BIT: nat := 8

  predicate Tripped(breaker: nat) { Bit(breaker, 3) }

  function Trip(breaker: nat): nat { Or(breaker, ASYNC_BIT) }

  function Untrip(breaker: nat): nat { AndNot(breaker, ASYNC_BIT) }

  lemma TripBits(breaker: nat, i: nat)
    ensures Bit(Trip(breaker), i) <==> i == 3 || Bit(breaker, i)
    ensures Bit(Untrip(breaker), i) <==> i != 3 && Bit(breaker, i)
  {
    AsyncBit(i);
    OrBit(breaker, ASYNC_BIT, i);
    AndNotBit(breaker, ASYNC_BIT, i);
  }

  lemma AsyncBit(i: nat)
    ensures Bit(ASYNC_BIT, i) <==> i == 3
  {
    Pow2Words();
    BitPow2(3, i);
  }

  lemma TripWidth(breaker: nat)
    requires breaker < TWO_32
    ensures Trip(breaker) < TWO_32 && Untrip(breaker) < TWO_32
  {
    Pow2Words();
    OrBound(breaker, ASYNC_BIT, 32);
    AndNotBound(breaker, ASYNC_BIT);
  }

  // ---- the two words in linear memory ---------------------------------------

  class LinearMemory {
    const mem: array<byte>
    const asyncExcAddr: nat
    const breakerAddr: nat
    const kbdInterruptObj: u32

    constructor (mem: array<byte>, asyncExcAddr: nat, breakerAddr: nat, kbdInterruptObj: u32)
      ensures this.mem == mem && this.asyncExcAddr == asyncExcAddr
      ensures this.breakerAddr == breakerAddr && this.kbdInterruptObj == kbdInterruptObj
    {
      this.mem, this.asyncExcAddr, this.breakerAddr, this.kbdInterruptObj :=
        mem, asyncExcAddr, breakerAddr, kbdInterruptObj;
    }

    /** New has checked both addresses; they are distinct words of the runtime's data. */
    predicate Valid() {
      asyncExcAddr + 4 <= mem.Length && breakerAddr + 4 <= mem.Length
      && (asyncExcAddr + 4 <= breakerAddr || breakerAddr + 4 <= asyncExcAddr)
    }

    function Word(a: nat): nat
      requires a + 4 <= mem.Length
      reads mem
    {
      LEVal(mem[a..a + 4])
    }

    /** Every byte outside the four at a keeps its value. */
    twostate predicate OnlyChanges(a: nat)
      reads mem
    {
      forall i :: 0 <= i < mem.Length && !(a <= i < a + 4) ==> mem[i] == old(mem[i])
    }

    method PutWord(a: nat, v: u32)
      requires a + 4 <= mem.Length
      modifies mem
      ensures Word(a) == v && OnlyChanges(a)
    {
      var bytes := LE(4, v);
      mem[a] := bytes[0];
      mem[a + 1] := bytes[1];
      mem[a + 2] := bytes[2];
      mem[a + 3] := bytes[3];
      assert mem[a..a + 4] == bytes;
      WordSizes();
      LERoundTrip(4, v);
    }

    lemma WordFits(a: nat)
      requires a + 4 <= mem.Length
      ensures Word(a) < TWO_32
    {
      WordSizes();
      LEValBound(mem[a..a + 4]);
    }

    /** armInterrupt's staging write. */
    method StageInterrupt()
      requires Valid()
      modifies mem
      ensures Word(asyncExcAddr) == kbdInterruptObj && OnlyChanges(asyncExcAddr)
      ensures Word(breakerAddr) == old(Word(breakerAddr))
    {
      PutWord(asyncExcAddr, kbdInterruptObj);
      assert mem[breakerAddr..breakerAddr + 4] == old(mem[breakerAddr..breakerAddr + 4]);
    }

    method FireInterrupt()
      requires Valid()
      modifies mem
      ensures Word(breakerAddr) == Trip(old(Word(breakerAddr))) && OnlyChanges(breakerAddr)
      ensures Word(asyncExcAddr) == old(Word(asyncExcAddr))
    {
      var v := LEVal(mem[breakerAddr..breakerAddr + 4]);
      WordFits(breakerAddr);
      TripWidth(v);
      PutWord(breakerAddr, Or(v, ASYNC_BIT));
      assert mem[asyncExcAddr..asyncExcAddr + 4] == old(mem[asyncExcAddr..asyncExcAddr + 4]);
    }

    method ClearInterrupt(fired: bool)
      requires Valid()
      modifies mem
      ensures Word(asyncExcAddr) == 0
      ensures Word(breakerAddr) == if fired then Untrip(old(Word(breakerAddr))) else old(Word(breakerAddr))
      ensures forall i ::
        0 <= i < mem.Length && !(asyncExcAddr <= i < asyncExcAddr + 4) && !(breakerAddr <= i < breakerAddr + 4) ==>
          mem[i] == old(mem[i])
    {
      PutWord(asyncExcAddr, 0);
      assert mem[breakerAddr..breakerAddr + 4] == old(mem[breakerAddr..breakerAddr + 4]);
      if fired {
        var v := LEVal(mem[breakerAddr..breakerAddr + 4]);
        WordFits(breakerAddr);
        TripWidth(v);
        label cleared:
        PutWord(breakerAddr, AndNot(v, ASYNC_BIT));
        assert mem[asyncExcAddr..asyncExcAddr + 4] == old@cleared(mem[asyncExcAddr..asyncExcAddr + 4]);
      }
    }
  }

  // ---- the protocol ---------------------------------------------------------

  /** Where an operation's caller stands in valueOp. */
  datatype Pc =
    | Ready                    // before arming
    | Staged                   // exception staged, watchdog not started
    | Armed                    // watchdog started, waiting to enter the guest
    | InGuest
    | Suspended                // in a callback handler
    | Left                     // invoke has returned
    | Stopping                 // stop is closed, waiting for the watchdog's value
    | Received(fired: bool)
    | Done(interrupted: bool)

  datatype Watchdog = Absent | Waiting | Stored | Sent(value: bool)

  /** `stored` and `sends` record the watchdog's store and its sends; `raised` that the
      guest raised an async exception while running this operation. */
  datatype Op = Op(cancellable: bool, done: bool, pc: Pc, dog: Watchdog, stored: bool, sends: nat, raised: bool)

  /** Between two guest instructions: nothing pending, a breaker word read and not yet
      written back, or the bit taken and the slot not yet cleared. */
  datatype Guest = Quiet | Latched(word: nat) | Consuming

  datatype State = State(kbd: nat, slot: nat, breaker: nat, ops: map<nat, Op>, running: Option<nat>, guest: Guest)

  datatype Step =
    | Begin(id: nat, cancellable: bool)
    | Cancel(id: nat)
    | Stage(id: nat)
    | Spawn(id: nat)
    | Enter(id: nat)
    | Suspend(id: nat)
    | Resume(id: nat)
    | Leave(id: nat)
    | CloseStop(id: nat)
    | Receive(id: nat)
    | Clear(id: nat)
    | DogStore(id: nat)
    | DogSendTrue(id: nat)
    | DogSendFalse(id: nat)
    | GuestLoad
    | GuestStore(word: nat)
    | GuestTake
    | GuestClearSlot

  predicate Init(s: State) {
    s.slot == 0 && !Tripped(s.breaker) && s.ops == map[] && s.running == None && s.guest == Quiet
  }

  predicate AtPc(s: State, id: nat, pc: Pc) { id in s.ops && s.ops[id].pc == pc }

  predicate Enabled(s: State, t: Step) {
    match t
    case Begin(id, _) => id !in s.ops
    case Cancel(id) => id in s.ops && s.ops[id].cancellable
    case Stage(id) => AtPc(s, id, Ready) && s.ops[id].cancellable
    case Spawn(id) => AtPc(s, id, Staged)
    case Enter(id) => s.running == None && (AtPc(s, id, Armed) || (AtPc(s, id, Ready) && !s.ops[id].cancellable))
    case Suspend(id) => AtPc(s, id, InGuest) && s.running == Some(id) && s.guest == Quiet
    case Resume(id) => AtPc(s, id, Suspended) && s.running == None
    case Leave(id) => AtPc(s, id, InGuest) && s.running == Some(id) && s.guest == Quiet
    case CloseStop(id) => AtPc(s, id, Left)
    case Receive(id) => AtPc(s, id, Stopping) && s.ops[id].dog.Sent?
    case Clear(id) => id in s.ops && s.ops[id].pc.Received?
    case DogStore(id) => id in s.ops && s.ops[id].dog == Waiting && s.ops[id].done
    case DogSendTrue(id) => id in s.ops && s.ops[id].dog == Stored
    case DogSendFalse(id) => AtPc(s, id, Stopping) && s.ops[id].dog == Waiting
    case GuestLoad => s.running.Some? && s.guest == Quiet
    case GuestStore(word) => s.running.Some? && s.guest.Latched? && (Tripped(word) <==> Tripped(s.guest.word))
    case GuestTake => s.running.Some? && s.guest == Quiet && Tripped(s.breaker)
    case GuestClearSlot => s.running.Some? && s.running.value in s.ops && s.guest == Consuming
  }

  function Move(s: State, id: nat, pc: Pc): State
    requires id in s.ops
  {
    s.(ops := s.ops[id := s.ops[id].(pc := pc)])
  }

  function Apply(s: State, t: Step): State
    requires Enabled(s, t)
  {
    match t
    case Begin(id, cancellable) => s.(ops := s.ops[id := Op(cancellable, false, Ready, Absent, false, 0, false)])
    case Cancel(id) => s.(ops := s.ops[id := s.ops[id].(done := true)])
    case Stage(id) => Move(s, id, Staged).(slot := s.kbd)
    case Spawn(id) => s.(ops := s.ops[id := s.ops[id].(pc := Armed, dog := Waiting)])
    case Enter(id) => Move(s, id, InGuest).(running := Some(id))
    case Suspend(id) => Move(s, id, Suspended).(running := None)
    case Resume(id) => Move(s, id, InGuest).(running := Some(id))
    case Leave(id) => Move(s, id, Left).(running := None)
    case CloseStop(id) => Move(s, id, if s.ops[id].cancellable then Stopping else Done(false))
    case Receive(id) => Move(s, id, Received(s.ops[id].dog.value))
    case Clear(id) =>
      var fired := s.ops[id].pc.fired;
      Move(s, id, Done(fired)).(slot := 0, breaker := if fired then Untrip(s.breaker) else s.breaker)
    case DogStore(id) =>
      s.(breaker := Trip(s.breaker), ops := s.ops[id := s.ops[id].(dog := Stored, stored := true)])
    case DogSendTrue(id) => s.(ops := s.ops[id := s.ops[id].(dog := Sent(true), sends := s.ops[id].sends + 1)])
    case DogSendFalse(id) => s.(ops := s.ops[id := s.ops[id].(dog := Sent(false), sends := s.ops[id].sends + 1)])
    case GuestLoad => s.(guest := Latched(s.breaker))
    case GuestStore(word) => s.(guest := Quiet, breaker := word)
    case GuestTake => s.(guest := Consuming, breaker := Untrip(s.breaker))
    case GuestClearSlot =>
      var id := s.running.value;
      s.(guest := Quiet, slot := 0, ops := s.ops[id := s.ops[id].(raised := s.ops[id].raised || s.slot != 0)])
  }

  ghost predicate Next(s: State, s': State) { exists t :: Enabled(s, t) && s' == Apply(s, t) }

  /** Consecutive states of an execution. */
  ghost predicate Steps(ss: seq<State>) {
    |ss| > 0 && forall i {:trigger ss[i]} :: 0 < i < |ss| ==> Next(ss[i - 1], ss[i])
  }

  ghost predicate Run(ss: seq<State>) { Steps(ss) && Init(ss[0]) }

  // ---- when operations keep out of each other's way --------------------------

  /** The operation's disarm is due: between staging and clearing. */
  predicate Active(o: Op) { o.cancellable && !o.pc.Ready? && !o.pc.Done? }

  predicate Disarming(o: Op) { o.cancellable && (o.pc.Left? || o.pc.Stopping? || o.pc.Received?) }

  ghost predicate Resting(s: State) { forall a :: a in s.ops ==> !Active(s.ops[a]) }

  /** The operation's interrupt can still be taken: its watchdog may yet fire, or the bit
      is set. */
  predicate Pending(s: State, o: Op) { o.dog.Absent? || o.dog.Waiting? || Tripped(s.breaker) }

  /** Cancellable operations do not overlap, and nobody enters the guest during a disarm
      whose interrupt is pending. */
  ghost predicate Guarded(s: State, t: Step) {
    && (t.Stage? ==> Resting(s))
    && (t.Enter? || t.Resume? ==> forall a :: a in s.ops && Disarming(s.ops[a]) ==> !Pending(s, s.ops[a]))
  }

  /** Moreover, nobody is in the guest while the interrupt of another is pending. */
  ghost predicate Exclusive(s: State, t: Step) {
    && (t.Stage? ==> Resting(s) && s.running == None)
    && (t.Enter? || t.Resume? ==>
          forall a :: a in s.ops && Active(s.ops[a]) && a != t.id ==> !Pending(s, s.ops[a]))
  }

  ghost predicate NextGuarded(s: State, s': State) {
    exists t :: Enabled(s, t) && Guarded(s, t) && s' == Apply(s, t)
  }

  ghost predicate NextExclusive(s: State, s': State) {
    exists t :: Enabled(s, t) && Exclusive(s, t) && s' == Apply(s, t)
  }

  ghost predicate GuardedRun(ss: seq<State>) {
    |ss| > 0 && Init(ss[0]) && forall i {:trigger ss[i]} :: 0 < i < |ss| ==> NextGuarded(ss[i - 1], ss[i])
  }

  ghost predicate ExclusiveRun(ss: seq<State>) {
    |ss| > 0 && Init(ss[0]) && forall i {:trigger ss[i]} :: 0 < i < |ss| ==> NextExclusive(ss[i - 1], ss[i])
  }

  // ---- invariants -----------------------------------------------------------

  /** What holds of each operation by itself, however operations overlap. */
  predicate OpOk(o: Op) {
    && (o.stored <==> o.dog == Stored || o.dog == Sent(true))
    && (o.stored ==> o.done)
    && o.sends == (if o.dog.Sent? then 1 else 0)
    && (o.dog.Absent? <==> !o.cancellable || o.pc.Ready? || o.pc.Staged?)
    && (o.dog == Sent(false) ==> o.pc.Stopping? || o.pc.Received? || o.pc.Done?)
    && (o.pc.Received? ==> o.dog == Sent(o.pc.fired))
    && (o.pc.Done? && o.cancellable ==> o.dog == Sent(o.pc.interrupted))
    && (o.pc.Done? && !o.cancellable ==> !o.pc.interrupted)
    && (!o.cancellable ==> o.pc.Ready? || o.pc.InGuest? || o.pc.Suspended? || o.pc.Left? || o.pc.Done?)
  }

  ghost predicate OpsOk(s: State) {
    && (forall a :: a in s.ops ==> OpOk(s.ops[a]))
    && (s.running == None ==> s.guest == Quiet)
    && (forall a :: a in s.ops ==> (s.ops[a].pc.InGuest? <==> s.running == Some(a)))
    && (s.running.Some? ==> s.running.value in s.ops)
  }

  /** No trace of an interrupt anywhere. */
  ghost predicate Clean(s: State) {
    !Tripped(s.breaker) && s.guest != Consuming && (s.guest.Latched? ==> !Tripped(s.guest.word))
  }

  /** What the two words may look like while operation o is the active one. */
  ghost predicate WordsOk(s: State, o: Op) {
    && (!o.stored ==> Clean(s) && s.slot == s.kbd)
    && (s.slot == s.kbd || (s.slot == 0 && Clean(s)))
    && (s.guest == Consuming ==> s.slot == s.kbd && !Tripped(s.breaker))
    && (s.guest.Latched? && Tripped(s.guest.word) ==> Tripped(s.breaker))
  }

  ghost predicate OneActive(s: State) {
    forall a, b :: a in s.ops && b in s.ops && Active(s.ops[a]) && Active(s.ops[b]) ==> a == b
  }

  /** The watchdog has decided, and nothing of its interrupt is left but the slot. */
  ghost predicate Spent(s: State, o: Op) { !o.dog.Absent? && !o.dog.Waiting? && Clean(s) }

  ghost predicate Inv(s: State) {
    && OpsOk(s) && OneActive(s)
    && (Resting(s) ==> s.slot == 0 && Clean(s))
    && (forall a :: a in s.ops && Active(s.ops[a]) ==> WordsOk(s, s.ops[a]))
    && (s.running.Some? ==> forall a :: a in s.ops && Disarming(s.ops[a]) ==> Spent(s, s.ops[a]))
  }

  /** Whoever else is in the guest finds the interrupt spent. */
  ghost predicate Foreign(s: State) {
    s.running.Some? ==> forall a :: a in s.ops && Active(s.ops[a]) && s.running != Some(a) ==> Spent(s, s.ops[a])
  }

  /** Who caused what the guest raised. */
  ghost predicate RaisedOk(s: State) {
    forall a :: a in s.ops && s.ops[a].raised ==> s.ops[a].cancellable && s.ops[a].stored && s.ops[a].done
  }

  lemma OpStep(s: State, t: Step, a: nat)
    requires OpsOk(s) && Enabled(s, t) && a in Apply(s, t).ops
    ensures OpOk(Apply(s, t).ops[a])
  {
    hide Trip, Untrip, Tripped;
    if a in s.ops { assert OpOk(s.ops[a]); }
  }

  lemma RunningStep(s: State, t: Step, a: nat)
    requires OpsOk(s) && Enabled(s, t) && a in Apply(s, t).ops
    ensures Apply(s, t).ops[a].pc.InGuest? <==> Apply(s, t).running == Some(a)
  {
    hide Trip, Untrip, Tripped;
    if a in s.ops { assert s.ops[a].pc.InGuest? <==> s.running == Some(a); }
    if s.running.Some? { assert s.ops[s.running.value].pc.InGuest?; }
  }

  lemma OpsOkStep(s: State, t: Step)
    requires OpsOk(s) && Enabled(s, t)
    ensures OpsOk(Apply(s, t))
  {
    forall a | a in Apply(s, t).ops
      ensures OpOk(Apply(s, t).ops[a]) && (Apply(s, t).ops[a].pc.InGuest? <==> Apply(s, t).running == Some(a))
    {
      OpStep(s, t, a);
      RunningStep(s, t, a);
    }
  }

  lemma TrippedBy(breaker: nat)
    ensures Tripped(Trip(breaker)) && !Tripped(Untrip(breaker))
  {
    TripBits(breaker, 3);
  }

  /** A step leaves every operation but its own as it was. */
  lemma OthersUnchanged(s: State, t: Step, a: nat)
    requires OpsOk(s) && Enabled(s, t) && a in s.ops
    ensures a in Apply(s, t).ops
    ensures Active(s.ops[a]) != Active(Apply(s, t).ops[a]) ==> t == Stage(a) || t == Clear(a)
    ensures s.ops[a].stored != Apply(s, t).ops[a].stored ==> t == DogStore(a)
  {
    hide Trip, Untrip, Tripped;
    assert OpOk(s.ops[a]);
  }

  lemma WordsStep(s: State, t: Step, a: nat)
    requires Inv(s) && Enabled(s, t) && Guarded(s, t)
    requires a in Apply(s, t).ops && Active(Apply(s, t).ops[a])
    ensures WordsOk(Apply(s, t), Apply(s, t).ops[a])
  {
    TrippedBy(s.breaker);
    var s' := Apply(s, t);
    if t == Stage(a) {
      forall b | b in s.ops ensures !Active(s.ops[b]) {
        OthersUnchanged(s, t, b);
      }
    } else {
      assert a in s.ops;
      OthersUnchanged(s, t, a);
      WordsOfActive(s, t, a);
    }
  }

  lemma WordsOfActive(s: State, t: Step, a: nat)
    requires OpsOk(s) && OneActive(s) && Enabled(s, t) && Guarded(s, t) && a in s.ops && a in Apply(s, t).ops
    requires Active(s.ops[a]) && WordsOk(s, s.ops[a]) && Active(Apply(s, t).ops[a])
    requires s.ops[a].stored != Apply(s, t).ops[a].stored ==> t == DogStore(a)
    requires Tripped(Trip(s.breaker)) && !Tripped(Untrip(s.breaker))
    ensures WordsOk(Apply(s, t), Apply(s, t).ops[a])
  {
    assert OpOk(s.ops[a]);
    match t {
      case Clear(id) => assert OpOk(s.ops[id]) && Active(s.ops[id]);
      case DogStore(id) => assert OpOk(s.ops[id]);
      case _ =>
    }
  }

  lemma RestingStep(s: State, t: Step)
    requires Inv(s) && Enabled(s, t) && Resting(Apply(s, t))
    ensures Apply(s, t).slot == 0 && Clean(Apply(s, t))
  {
    TrippedBy(s.breaker);
    var s' := Apply(s, t);
    if Resting(s) {
      RestingStays(s, t);
    } else {
      var a :| a in s.ops && Active(s.ops[a]);
      OthersUnchanged(s, t, a);
      assert t == Clear(a);
      assert OpOk(s.ops[a]) && Disarming(s.ops[a]) && WordsOk(s, s.ops[a]);
    }
  }

  lemma ActiveOnes(s: State, t: Step)
    requires OpsOk(s) && Enabled(s, t)
    ensures t.Stage? ==> t.id in Apply(s, t).ops && Active(Apply(s, t).ops[t.id])
    ensures t.Clear? || t.DogStore? ==> t.id in s.ops && Active(s.ops[t.id])
  {
    if t.Clear? || t.DogStore? { assert OpOk(s.ops[t.id]); }
  }

  lemma RestingStays(s: State, t: Step)
    requires OpsOk(s) && Resting(s) && s.slot == 0 && Clean(s) && Enabled(s, t) && Resting(Apply(s, t))
    ensures Apply(s, t).slot == 0 && Clean(Apply(s, t))
  {
    ActiveOnes(s, t);
  }

  lemma OneActiveStep(s: State, t: Step)
    requires OpsOk(s) && OneActive(s) && Enabled(s, t) && Guarded(s, t)
    ensures OneActive(Apply(s, t))
  {
    var s' := Apply(s, t);
    forall a, b | a in s'.ops && b in s'.ops && Active(s'.ops[a]) && Active(s'.ops[b]) ensures a == b {
      if a in s.ops { OthersUnchanged(s, t, a); }
      if b in s.ops { OthersUnchanged(s, t, b); }
    }
  }

  /** Only a watchdog's store brings an interrupt back. */
  lemma CleanStep(s: State, t: Step)
    requires Clean(s) && Enabled(s, t) && !t.DogStore?
    ensures Clean(Apply(s, t))
  {
    TrippedBy(s.breaker);
  }

  lemma NoStoreBeside(s: State, t: Step, a: nat)
    requires OpsOk(s) && OneActive(s) && Enabled(s, t) && a in s.ops && Active(s.ops[a]) && !s.ops[a].dog.Waiting?
    ensures !t.DogStore?
  {
    if t.DogStore? { ActiveOnes(s, t); }
  }

  lemma DecidedStays(s: State, t: Step, a: nat)
    requires Enabled(s, t) && a in s.ops && !s.ops[a].dog.Absent? && !s.ops[a].dog.Waiting? && !t.Begin?
    requires !t.Spawn?
    ensures a in Apply(s, t).ops && !Apply(s, t).ops[a].dog.Absent? && !Apply(s, t).ops[a].dog.Waiting?
  {}

  /** Entering a disarm is possible only with its interrupt spent, and the guest does not
      bring it back. */
  lemma SpentStep(s: State, t: Step, a: nat)
    requires Inv(s) && Enabled(s, t) && Guarded(s, t)
    requires a in Apply(s, t).ops && Disarming(Apply(s, t).ops[a]) && Apply(s, t).running.Some?
    ensures Spent(Apply(s, t), Apply(s, t).ops[a])
  {
    assert a in s.ops && OpOk(s.ops[a]) && Disarming(s.ops[a]);
    assert !s.ops[a].dog.Absent? && !s.ops[a].dog.Waiting? && Clean(s) by {
      if s.running.Some? { assert Spent(s, s.ops[a]); }
    }
    SpentStays(s, t, a);
  }

  lemma SpentStays(s: State, t: Step, a: nat)
    requires OpsOk(s) && OneActive(s) && Enabled(s, t) && a in s.ops && Active(s.ops[a])
    requires Spent(s, s.ops[a])
    ensures a in Apply(s, t).ops && Spent(Apply(s, t), Apply(s, t).ops[a])
  {
    assert OpOk(s.ops[a]);
    NoStoreBeside(s, t, a);
    CleanStep(s, t);
    if !t.Begin? && !t.Spawn? { DecidedStays(s, t, a); }
  }

  lemma InvStep(s: State, t: Step)
    requires Inv(s) && Enabled(s, t) && Guarded(s, t)
    ensures Inv(Apply(s, t))
  {
    OpsOkStep(s, t);
    var s' := Apply(s, t);
    OneActiveStep(s, t);
    forall a | s'.running.Some? && a in s'.ops && Disarming(s'.ops[a]) ensures Spent(s', s'.ops[a]) {
      SpentStep(s, t, a);
    }
    if Resting(s') { RestingStep(s, t); }
    forall a | a in s'.ops && Active(s'.ops[a]) ensures WordsOk(s', s'.ops[a]) {
      WordsStep(s, t, a);
    }
  }

  // ---- over whole runs ------------------------------------------------------

  lemma {:induction false} OpsOkAlways(ss: seq<State>, i: nat)
    requires Run(ss) && i < |ss|
    ensures OpsOk(ss[i])
  {
    if i > 0 {
      OpsOkAlways(ss, i - 1);
      assert Next(ss[i - 1], ss[i]);
      var t :| Enabled(ss[i - 1], t) && ss[i] == Apply(ss[i - 1], t);
      OpsOkStep(ss[i - 1], t);
    }
  }

  lemma {:induction false} InvAlways(ss: seq<State>, i: nat)
    requires GuardedRun(ss) && i < |ss|
    ensures Inv(ss[i])
  {
    if i > 0 {
      InvAlways(ss, i - 1);
      assert NextGuarded(ss[i - 1], ss[i]);
      var t :| Enabled(ss[i - 1], t) && Guarded(ss[i - 1], t) && ss[i] == Apply(ss[i - 1], t);
      InvStep(ss[i - 1], t);
    }
  }

  /** No interrupt lingers: whenever no disarm is due, and so after every disarm, the
      slot is 0 and the async bit is clear, in memory and in whatever word the guest
      has yet to write back. */
  lemma NoInterruptLingers(ss: seq<State>, i: nat)
    requires GuardedRun(ss) && i < |ss|
    ensures Resting(ss[i]) ==> ss[i].slot == 0 && !Tripped(ss[i].breaker)
    ensures Resting(ss[i]) && ss[i].guest.Latched? ==> !Tripped(ss[i].guest.word)
  {
    InvAlways(ss, i);
  }

  /** A tripped bit always finds the staged exception, until the guest takes it or the
      disarm clears it; and it was the active operation's own context that tripped it. */
  lemma TrippedFindsException(ss: seq<State>, i: nat)
    requires GuardedRun(ss) && i < |ss|
    ensures Tripped(ss[i].breaker) || ss[i].guest == Consuming ==>
      ss[i].slot == ss[i].kbd &&
      exists a :: a in ss[i].ops && Active(ss[i].ops[a]) && ss[i].ops[a].stored && ss[i].ops[a].done
  {
    InvAlways(ss, i);
    var s := ss[i];
    if Tripped(s.breaker) || s.guest == Consuming {
      var a :| a in s.ops && Active(s.ops[a]);
      assert WordsOk(s, s.ops[a]) && OpOk(s.ops[a]);
    }
  }

  /** However operations overlap: the watchdog of a finished operation sent exactly one
      value, the disarm reported it, it is true exactly when the store happened, and
      then the context is done. An operation without cancellation reports false. */
  lemma DisarmReports(ss: seq<State>, i: nat, a: nat)
    requires Run(ss) && i < |ss| && a in ss[i].ops && ss[i].ops[a].pc.Done?
    ensures var o := ss[i].ops[a];
      && o.sends == (if o.cancellable then 1 else 0)
      && (o.pc.interrupted <==> o.stored)
      && (o.pc.interrupted ==> o.cancellable && o.done)
  {
    OpsOkAlways(ss, i);
  }

  /** The disarm never blocks for good: its value is there or one watchdog step away. */
  lemma DisarmNeverBlocks(ss: seq<State>, i: nat, a: nat)
    requires Run(ss) && i < |ss| && AtPc(ss[i], a, Stopping)
    ensures
      || Enabled(ss[i], Receive(a))
      || (Enabled(ss[i], DogSendTrue(a)) && Enabled(Apply(ss[i], DogSendTrue(a)), Receive(a)))
      || (Enabled(ss[i], DogSendFalse(a)) && Enabled(Apply(ss[i], DogSendFalse(a)), Receive(a)))
  {
    OpsOkAlways(ss, i);
    assert OpOk(ss[i].ops[a]);
  }

  /** Steps of the host, as opposed to the guest's. */
  predicate HostStep(t: Step) { !t.GuestLoad? && !t.GuestStore? && !t.GuestTake? && !t.GuestClearSlot? }

  /** No host step touches a breaker bit other than the async bit. */
  lemma HostKeepsOtherBits(s: State, t: Step, bit: nat)
    requires Enabled(s, t) && HostStep(t) && bit != 3
    ensures Bit(Apply(s, t).breaker, bit) <==> Bit(s.breaker, bit)
  {
    TripBits(s.breaker, bit);
  }

  // ---- whose interrupt is raised --------------------------------------------

  /** In a guarded run a raise is always caused by the active operation's context, and it
      is the raising operation's own exactly when that is the active one. */
  lemma RaiseHasCause(s: State, id: nat)
    requires Inv(s) && Enabled(s, GuestClearSlot) && s.running == Some(id) && s.slot != 0
    ensures exists a :: a in s.ops && Active(s.ops[a]) && s.ops[a].stored && s.ops[a].done
    ensures s.ops[id].cancellable && s.ops[id].stored && s.ops[id].done <==> Active(s.ops[id])
  {
    var a :| a in s.ops && Active(s.ops[a]);
    assert WordsOk(s, s.ops[a]) && OpOk(s.ops[a]);
    if Active(s.ops[id]) { assert WordsOk(s, s.ops[id]) && OpOk(s.ops[id]); }
  }

  lemma ExclusiveIsGuarded(s: State, t: Step)
    requires Enabled(s, t) && Exclusive(s, t)
    ensures Guarded(s, t)
  {}

  lemma ForeignStep(s: State, t: Step, a: nat)
    requires Inv(s) && Foreign(s) && Enabled(s, t) && Exclusive(s, t)
    requires a in Apply(s, t).ops && Active(Apply(s, t).ops[a])
    requires Apply(s, t).running.Some? && Apply(s, t).running != Some(a)
    ensures Spent(Apply(s, t), Apply(s, t).ops[a])
  {
    assert a in s.ops && OpOk(s.ops[a]) && Active(s.ops[a]);
    assert Spent(s, s.ops[a]);
    SpentStays(s, t, a);
  }

  lemma RaisedStep(s: State, t: Step)
    requires Inv(s) && Foreign(s) && RaisedOk(s) && Enabled(s, t)
    ensures RaisedOk(Apply(s, t))
  {
    var s' := Apply(s, t);
    if t == GuestClearSlot && s.slot != 0 {
      RaiseHasCause(s, s.running.value);
    }
    forall a | a in s'.ops && s'.ops[a].raised
      ensures s'.ops[a].cancellable && s'.ops[a].stored && s'.ops[a].done
    {
      RaisedAt(s, t, a);
    }
  }

  lemma RaisedAt(s: State, t: Step, a: nat)
    requires Enabled(s, t) && RaisedOk(s) && a in Apply(s, t).ops && Apply(s, t).ops[a].raised
    requires t == GuestClearSlot && s.slot != 0 ==>
      var o := s.ops[s.running.value]; o.cancellable && o.stored && o.done
    ensures var o := Apply(s, t).ops[a]; o.cancellable && o.stored && o.done
  {
    if a in s.ops && s.ops[a].raised {
      assert s.ops[a].cancellable && s.ops[a].stored && s.ops[a].done;
    }
  }

  lemma {:induction false} ExclusiveAlways(ss: seq<State>, i: nat)
    requires ExclusiveRun(ss) && i < |ss|
    ensures Inv(ss[i]) && Foreign(ss[i]) && RaisedOk(ss[i])
  {
    if i > 0 {
      ExclusiveAlways(ss, i - 1);
      assert NextExclusive(ss[i - 1], ss[i]);
      var t :| Enabled(ss[i - 1], t) && Exclusive(ss[i - 1], t) && ss[i] == Apply(ss[i - 1], t);
      ExclusiveIsGuarded(ss[i - 1], t);
      InvStep(ss[i - 1], t);
      RaisedStep(ss[i - 1], t);
      forall a | ss[i].running.Some? && a in ss[i].ops && Active(ss[i].ops[a]) && ss[i].running != Some(a)
        ensures Spent(ss[i], ss[i].ops[a])
      {
        ForeignStep(ss[i - 1], t, a);
      }
    }
  }

  /** When nobody is in the guest with the interrupt of another pending, no operation
      raises an interrupt that its own context did not cause. */
  lemma OnlyOwnInterrupts(ss: seq<State>, i: nat)
    requires ExclusiveRun(ss) && i < |ss|
    ensures RaisedOk(ss[i])
  {
    ExclusiveAlways(ss, i);
  }

  /** Operations one after the other: at most one is under way. */
  ghost predicate OneAtATime(s: State) {
    forall a, b :: a in s.ops && b in s.ops && UnderWay(s.ops[a]) && UnderWay(s.ops[b]) ==> a == b
  }

  predicate UnderWay(o: Op) { !o.pc.Ready? && !o.pc.Done? }

  lemma OneAtATimeIsExclusive(s: State, t: Step)
    requires OpsOk(s) && Enabled(s, t) && OneAtATime(s) && OneAtATime(Apply(s, t))
    ensures Exclusive(s, t)
  {
    var s' := Apply(s, t);
    if t.Stage? || t.Enter? || t.Resume? {
      assert t.id in s'.ops && UnderWay(s'.ops[t.id]);
      forall a | a in s.ops && a != t.id ensures !UnderWay(s.ops[a]) {
        assert a in s'.ops && s'.ops[a] == s.ops[a];
      }
    }
  }

  lemma {:induction false} OneAtATimeRun(ss: seq<State>)
    requires Run(ss) && forall j :: 0 <= j < |ss| ==> OneAtATime(ss[j])
    ensures ExclusiveRun(ss)
  {
    forall i {:trigger ss[i]} | 0 < i < |ss| ensures NextExclusive(ss[i - 1], ss[i]) {
      assert Next(ss[i - 1], ss[i]);
      var t :| Enabled(ss[i - 1], t) && ss[i] == Apply(ss[i - 1], t);
      OpsOkAlways(ss, i - 1);
      assert OneAtATime(ss[i - 1]) && OneAtATime(ss[i]);
      OneAtATimeIsExclusive(ss[i - 1], t);
    }
  }

  lemma ExclusiveRunIsGuarded(ss: seq<State>)
    requires ExclusiveRun(ss)
    ensures GuardedRun(ss)
  {
    forall i {:trigger ss[i]} | 0 < i < |ss| ensures NextGuarded(ss[i - 1], ss[i]) {
      assert NextExclusive(ss[i - 1], ss[i]);
      var t :| Enabled(ss[i - 1], t) && Exclusive(ss[i - 1], t) && ss[i] == Apply(ss[i - 1], t);
      ExclusiveIsGuarded(ss[i - 1], t);
    }
  }

  /** The guarantees in one piece for operations that do not overlap. */
  lemma NonOverlappingRuns(ss: seq<State>, i: nat)
    requires Run(ss) && i < |ss| && forall j :: 0 <= j < |ss| ==> OneAtATime(ss[j])
    ensures Resting(ss[i]) ==> ss[i].slot == 0 && !Tripped(ss[i].breaker)
    ensures Tripped(ss[i].breaker) ==> ss[i].slot == ss[i].kbd
    ensures RaisedOk(ss[i])
  {
    OneAtATimeRun(ss);
    ExclusiveRunIsGuarded(ss);
    NoInterruptLingers(ss, i);
    TrippedFindsException(ss, i);
    OnlyOwnInterrupts(ss, i);
  }
}
