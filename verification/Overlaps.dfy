/** What happens when operations do not keep out of each other's way: the disciplines of
    module Interrupts are exact. After a run that kept one, a step is safe under every
    continuation that keeps it if and only if the step keeps it too. */
module Overlaps {
  import opened Interrupts
  import opened Options

  // ---- executions -----------------------------------------------------------

  /** What the steps of an execution keep: nothing, that they are guarded, or that they
      are exclusive. */
  datatype Discipline = Free | Guards | Excludes

  ghost predicate Kept(d: Discipline, s: State, t: Step) {
    match d
    case Free => true
    case Guards => Guarded(s, t)
    case Excludes => Exclusive(s, t)
  }

  ghost predicate NextKept(d: Discipline, s: State, s': State) {
    exists t :: Enabled(s, t) && Kept(d, s, t) && s' == Apply(s, t)
  }

  ghost predicate Path(d: Discipline, ss: seq<State>) {
    |ss| > 0 && forall i {:trigger ss[i]} :: 0 < i < |ss| ==> NextKept(d, ss[i - 1], ss[i])
  }

  ghost predicate Reaches(d: Discipline, s: State, s': State) {
    exists ss :: Path(d, ss) && ss[0] == s && ss[|ss| - 1] == s'
  }

  lemma Stay(d: Discipline, s: State)
    ensures Reaches(d, s, s)
  {
    var ss := [s];
    assert Path(d, ss) && ss[|ss| - 1] == s;
  }

  lemma Onward(d: Discipline, s0: State, s: State, t: Step) returns (s': State)
    requires Reaches(d, s0, s) && Enabled(s, t) && Kept(d, s, t)
    ensures s' == Apply(s, t) && Reaches(d, s0, s')
  {
    s' := Apply(s, t);
    var ss :| Path(d, ss) && ss[0] == s0 && ss[|ss| - 1] == s;
    assert NextKept(d, s, s');
    Extended(d, ss, s');
  }

  lemma Extended(d: Discipline, ss: seq<State>, s': State)
    requires Path(d, ss) && NextKept(d, ss[|ss| - 1], s')
    ensures Reaches(d, ss[0], s')
  {
    var more := ss + [s'];
    forall i {:trigger more[i]} | 0 < i < |more| ensures NextKept(d, more[i - 1], more[i]) {
      if i < |ss| { assert more[i - 1] == ss[i - 1] && more[i] == ss[i]; }
    }
    assert Path(d, more) && more[|more| - 1] == s';
  }

  ghost predicate Reachable(s: State) { exists s0 :: Init(s0) && Reaches(Free, s0, s) }

  lemma Go(s: State, t: Step) returns (s': State)
    requires Reachable(s) && Enabled(s, t)
    ensures s' == Apply(s, t) && Reachable(s')
  {
    var s0 :| Init(s0) && Reaches(Free, s0, s);
    s' := Onward(Free, s0, s, t);
  }

  /** The guarantee of guarded runs. */
  ghost predicate Sound(s: State) {
    && (Resting(s) ==> s.slot == 0 && !Tripped(s.breaker))
    && (Tripped(s.breaker) ==> s.slot == s.kbd)
  }

  lemma GuardedRunsAreSound(ss: seq<State>, i: nat)
    requires GuardedRun(ss) && i < |ss|
    ensures Sound(ss[i])
  {
    NoInterruptLingers(ss, i);
    TrippedFindsException(ss, i);
  }

  // ---- moving one operation along -------------------------------------------

  /** The staged operation b has not been touched on the way from s to s'. */
  ghost predicate Untouched(s: State, s': State, b: nat) {
    OpsOk(s') && s'.kbd == s.kbd && b in s.ops && b in s'.ops && s'.ops[b] == s.ops[b]
  }

  ghost predicate Busy(s: State, a: nat) { a in s.ops && Active(s.ops[a]) }

  /** No other operation is active. */
  ghost predicate OnlyThese(s: State, a: nat, b: nat) {
    forall c :: c in s.ops && c != a && c != b ==> !Active(s.ops[c])
  }

  /** The guest finishes what it is doing between two instructions. */
  lemma Quiesce(s0: State, s: State, a: nat, b: nat) returns (s': State)
    requires Reaches(Guards, s0, s) && OpsOk(s) && Busy(s, a) && AtPc(s, b, Staged) && OnlyThese(s, a, b)
    ensures Reaches(Guards, s0, s') && Untouched(s, s', b) && Busy(s', a) && OnlyThese(s', a, b)
    ensures s'.ops[a].pc == s.ops[a].pc && s'.running == s.running && s'.guest == Quiet
  {
    s' := s;
    if s.guest.Latched? {
      s' := Onward(Guards, s0, s, GuestStore(s.guest.word));
      OpsOkStep(s, GuestStore(s.guest.word));
    } else if s.guest == Consuming {
      s' := Onward(Guards, s0, s, GuestClearSlot);
      OpsOkStep(s, GuestClearSlot);
    }
  }

  /** Whoever is in the guest leaves it, or suspends. */
  lemma Vacate(s0: State, s: State, a: nat, b: nat) returns (s': State)
    requires Reaches(Guards, s0, s) && OpsOk(s) && Busy(s, a) && AtPc(s, b, Staged) && a != b && OnlyThese(s, a, b)
    ensures Reaches(Guards, s0, s') && Untouched(s, s', b) && Busy(s', a) && OnlyThese(s', a, b)
    ensures s'.running == None
  {
    s' := Quiesce(s0, s, a, b);
    if s'.running.Some? { s' := StepOut(s0, s', a, b); }
  }

  lemma StepOut(s0: State, s: State, a: nat, b: nat) returns (s': State)
    requires Reaches(Guards, s0, s) && OpsOk(s) && Busy(s, a) && AtPc(s, b, Staged) && a != b && OnlyThese(s, a, b)
    requires s.running.Some? && s.guest == Quiet
    ensures Reaches(Guards, s0, s') && Untouched(s, s', b) && Busy(s', a) && OnlyThese(s', a, b)
    ensures s'.running == None
  {
    var c := s.running.value;
    assert s.ops[c].pc.InGuest?;
    var t := if c == a then Leave(a) else Suspend(c);
    hide OpOk, Tripped, Untrip, Reaches;
    s' := Onward(Guards, s0, s, t);
    OpsOkStep(s, t);
  }

  /** With the guest free, a gets as far as its disarm. */
  lemma Finish(s0: State, s: State, a: nat, b: nat) returns (s': State)
    requires Reaches(Guards, s0, s) && OpsOk(s) && Busy(s, a) && AtPc(s, b, Staged) && a != b && OnlyThese(s, a, b)
    requires s.running == None
    ensures Reaches(Guards, s0, s') && Untouched(s, s', b) && a in s'.ops && Disarming(s'.ops[a])
  {
    s' := s;
    assert OpOk(s.ops[a]) && !s.ops[a].pc.InGuest?;
    if s.ops[a].pc.Staged? {
      s' := Onward(Guards, s0, s, Spawn(a));
      OpsOkStep(s, Spawn(a));
    }
    if !Disarming(s'.ops[a]) { s' := PassThrough(s0, s', a, b); }
  }

  /** Nobody is disarming, so a may enter. */
  lemma PassThrough(s0: State, s: State, a: nat, b: nat) returns (s': State)
    requires Reaches(Guards, s0, s) && OpsOk(s) && AtPc(s, b, Staged) && a != b && OnlyThese(s, a, b)
    requires a in s.ops && s.ops[a].cancellable && (s.ops[a].pc.Armed? || s.ops[a].pc.Suspended?) && s.running == None
    ensures Reaches(Guards, s0, s') && Untouched(s, s', b) && a in s'.ops && Disarming(s'.ops[a])
  {
    var t := if s.ops[a].pc.Armed? then Enter(a) else Resume(a);
    NobodyDisarms(s, a, b);
    var inside := Onward(Guards, s0, s, t);
    OpsOkStep(s, t);
    s' := LeaveGuest(s0, inside, a, b);
  }

  lemma NobodyDisarms(s: State, a: nat, b: nat)
    requires AtPc(s, b, Staged) && OnlyThese(s, a, b) && a in s.ops && !Disarming(s.ops[a])
    ensures forall c :: c in s.ops ==> !Disarming(s.ops[c])
  {
    forall c | c in s.ops ensures !Disarming(s.ops[c]) {
      if c != a && c != b { assert !Active(s.ops[c]); }
    }
  }

  lemma LeaveGuest(s0: State, s: State, a: nat, b: nat) returns (s': State)
    requires Reaches(Guards, s0, s) && OpsOk(s) && a != b && b in s.ops && AtPc(s, a, InGuest) && s.ops[a].cancellable
    requires s.running == Some(a) && s.guest == Quiet
    ensures Reaches(Guards, s0, s') && Untouched(s, s', b) && a in s'.ops && Disarming(s'.ops[a])
  {
    s' := Onward(Guards, s0, s, Leave(a));
    OpsOkStep(s, Leave(a));
  }

  /** On the way from s to s' only a has moved, and nothing but the words has changed
      besides. */
  ghost predicate OnlyMoved(s: State, s': State, a: nat) {
    && OpsOk(s') && s'.kbd == s.kbd && s'.running == s.running && s'.guest == s.guest
    && a in s'.ops && (forall c :: c in s'.ops <==> c in s.ops)
    && forall c :: c in s.ops && c != a ==> s'.ops[c] == s.ops[c]
  }

  lemma Along(s: State, s1: State, s2: State, a: nat)
    requires OnlyMoved(s, s1, a) && OnlyMoved(s1, s2, a)
    ensures OnlyMoved(s, s2, a)
  {}

  /** A step of a's caller or watchdog at its disarm. */
  lemma Advance(s0: State, s: State, t: Step) returns (s': State)
    requires Reaches(Guards, s0, s) && OpsOk(s) && Enabled(s, t)
    requires t.CloseStop? || t.DogSendTrue? || t.DogSendFalse? || t.Receive? || t.Clear?
    ensures s' == Apply(s, t) && Reaches(Guards, s0, s') && OnlyMoved(s, s', t.id)
  {
    hide OpOk, Tripped, Untrip, Reaches;
    s' := Onward(Guards, s0, s, t);
    OpsOkStep(s, t);
  }

  /** The watchdog sends its value, if it has not. */
  lemma Tell(s0: State, s: State, a: nat) returns (s': State)
    requires Reaches(Guards, s0, s) && OpsOk(s) && AtPc(s, a, Stopping) && s.ops[a].cancellable
    ensures Reaches(Guards, s0, s') && OnlyMoved(s, s', a) && AtPc(s', a, Stopping) && s'.ops[a].dog.Sent?
  {
    assert OpOk(s.ops[a]);
    if s.ops[a].dog.Sent? {
      s' := s;
    } else {
      s' := Advance(s0, s, if s.ops[a].dog.Waiting? then DogSendFalse(a) else DogSendTrue(a));
    }
  }

  lemma Stop(s0: State, s: State, a: nat) returns (s': State)
    requires Reaches(Guards, s0, s) && OpsOk(s) && AtPc(s, a, Left) && s.ops[a].cancellable
    ensures Reaches(Guards, s0, s') && OnlyMoved(s, s', a) && AtPc(s', a, Stopping) && s'.ops[a].cancellable
  {
    s' := Advance(s0, s, CloseStop(a));
  }

  /** The caller receives the value and clears. */
  lemma Settle(s0: State, s: State, a: nat) returns (s': State)
    requires Reaches(Guards, s0, s) && OpsOk(s) && AtPc(s, a, Stopping) && s.ops[a].dog.Sent?
    ensures Reaches(Guards, s0, s') && OnlyMoved(s, s', a) && s'.slot == 0 && s'.ops[a].pc.Done?
  {
    hide OpOk, Untrip, Reaches;
    var s1 := Advance(s0, s, Receive(a));
    s' := Advance(s0, s1, Clear(a));
    Along(s, s1, s', a);
  }

  /** a's disarm runs to its end, whoever is in the guest meanwhile. */
  lemma Disarm(s0: State, s: State, a: nat) returns (s': State)
    requires Reaches(Guards, s0, s) && OpsOk(s) && a in s.ops && Disarming(s.ops[a])
    ensures Reaches(Guards, s0, s') && OnlyMoved(s, s', a) && s'.slot == 0 && s'.ops[a].pc.Done?
  {
    if s.ops[a].pc.Received? {
      s' := Advance(s0, s, Clear(a));
    } else {
      var s1 := s;
      if s.ops[a].pc.Left? { s1 := Stop(s0, s, a); }
      var s2 := Tell(s0, s1, a);
      s' := Settle(s0, s2, a);
      Along(s, s1, s2, a);
      Along(s, s2, s', a);
    }
  }

  /** a's context is done and its watchdog fires. */
  lemma Fire(d: Discipline, s0: State, s: State, a: nat) returns (s': State)
    requires Reaches(d, s0, s) && OpsOk(s) && a in s.ops && s.ops[a].cancellable && s.ops[a].dog == Waiting
    ensures Reaches(d, s0, s') && OnlyMoved(s, s', a) && s'.slot == s.slot && Tripped(s'.breaker)
    ensures s'.ops[a].stored && s'.ops[a].pc == s.ops[a].pc && s'.ops[a].cancellable && s'.ops[a].dog == Stored
  {
    var s1 := CancelledContext(d, s0, s, a);
    s' := Onward(d, s0, s1, DogStore(a));
    TrippedBy(s1.breaker);
    OpsOkStep(s1, DogStore(a));
  }

  lemma CancelledContext(d: Discipline, s0: State, s: State, a: nat) returns (s': State)
    requires Reaches(d, s0, s) && OpsOk(s) && a in s.ops && s.ops[a].cancellable
    ensures Reaches(d, s0, s') && OnlyMoved(s, s', a) && s'.slot == s.slot && s'.ops[a] == s.ops[a].(done := true)
  {
    s' := Onward(d, s0, s, Cancel(a));
    OpsOkStep(s, Cancel(a));
  }

  // ---- every overlap --------------------------------------------------------

  /** Whenever an operation stages while another is active, the other's disarm can erase
      the staging, and the interrupt fired afterwards finds nothing to raise, without any
      further step against the discipline. */
  lemma EveryOverlapLosesInterrupt(ss: seq<State>, a: nat, b: nat) returns (s': State)
    requires GuardedRun(ss) && ss[|ss| - 1].kbd != 0
    requires Busy(ss[|ss| - 1], a) && Enabled(ss[|ss| - 1], Stage(b))
    ensures Reaches(Guards, Apply(ss[|ss| - 1], Stage(b)), s')
    ensures Busy(s', b) && s'.ops[b].stored && Tripped(s'.breaker) && s'.slot != s'.kbd
  {
    var s := ss[|ss| - 1];
    InvAlways(ss, |ss| - 1);
    var s0 := Overlapped(s, a, b);
    Stay(Guards, s0);
    var s1 := Vacate(s0, s0, a, b);
    var s2 := Finish(s0, s1, a, b);
    var s3 := Disarm(s0, s2, a);
    s' := FireInVain(s0, s3, b);
  }

  lemma FireInVain(s0: State, s: State, b: nat) returns (s': State)
    requires Reaches(Guards, s0, s) && OpsOk(s) && AtPc(s, b, Staged) && s.slot == 0 != s.kbd
    ensures Reaches(Guards, s0, s') && Busy(s', b) && s'.ops[b].stored && Tripped(s'.breaker) && s'.slot != s'.kbd
  {
    assert OpOk(s.ops[b]);
    var s1 := Onward(Guards, s0, s, Spawn(b));
    OpsOkStep(s, Spawn(b));
    s' := Fire(Guards, s0, s1, b);
  }

  lemma Overlapped(s: State, a: nat, b: nat) returns (s0: State)
    requires OpsOk(s) && OneActive(s) && Busy(s, a) && Enabled(s, Stage(b))
    ensures s0 == Apply(s, Stage(b)) && OpsOk(s0) && s0.kbd == s.kbd
    ensures a != b && Busy(s0, a) && AtPc(s0, b, Staged) && OnlyThese(s0, a, b)
  {
    s0 := Apply(s, Stage(b));
    OpsOkStep(s, Stage(b));
  }

  // ---- every intruder -------------------------------------------------------

  /** Whenever somebody enters the guest during a disarm whose interrupt is pending, the
      bit can be written back after it was cleared, and lingers with nothing staged. */
  lemma EveryIntruderRevivesBit(ss: seq<State>, t: Step, a: nat) returns (s': State)
    requires GuardedRun(ss) && Enabled(ss[|ss| - 1], t) && (t.Enter? || t.Resume?)
    requires var s := ss[|ss| - 1]; a in s.ops && Disarming(s.ops[a]) && Pending(s, s.ops[a])
    ensures Reaches(Guards, Apply(ss[|ss| - 1], t), s') && Resting(s') && Tripped(s'.breaker) && s'.slot == 0
  {
    InvAlways(ss, |ss| - 1);
    s' := Intrude(ss[|ss| - 1], t, a);
  }

  lemma Intrude(s: State, t: Step, a: nat) returns (s': State)
    requires Inv(s) && Enabled(s, t) && (t.Enter? || t.Resume?)
    requires a in s.ops && Disarming(s.ops[a]) && Pending(s, s.ops[a])
    ensures Reaches(Guards, Apply(s, t), s') && Resting(s') && Tripped(s'.breaker) && s'.slot == 0
  {
    assert OpOk(s.ops[a]);
    var s0 := Intruded(s, t, a);
    Stay(Guards, s0);
    var s1 := s0;
    if s.ops[a].dog == Waiting { s1 := Fire(Guards, s0, s0, a); }
    s' := LatchAndRestore(s0, s1, a);
  }

  lemma Intruded(s: State, t: Step, a: nat) returns (s0: State)
    requires OpsOk(s) && OneActive(s) && Enabled(s, t) && (t.Enter? || t.Resume?)
    requires a in s.ops && Disarming(s.ops[a])
    ensures s0 == Apply(s, t) && OpsOk(s0) && s0.running.Some? && s0.guest == Quiet && s0.breaker == s.breaker
    ensures a in s0.ops && s0.ops[a] == s.ops[a] && OnlyThese(s0, a, a)
  {
    s0 := Apply(s, t);
    OpsOkStep(s, t);
    forall c | c in s0.ops && c != a ensures !Active(s0.ops[c]) {
      OthersUnchanged(s, t, c);
    }
  }

  /** The guest has read the set bit before the disarm and writes it back after. */
  lemma LatchAndRestore(s0: State, s: State, a: nat) returns (s': State)
    requires Reaches(Guards, s0, s) && OpsOk(s) && s.running.Some? && s.guest == Quiet && Tripped(s.breaker)
    requires a in s.ops && Disarming(s.ops[a]) && OnlyThese(s, a, a)
    ensures Reaches(Guards, s0, s') && Resting(s') && Tripped(s'.breaker) && s'.slot == 0
  {
    var s1 := Onward(Guards, s0, s, GuestLoad);
    OpsOkStep(s, GuestLoad);
    var s2 := Disarm(s0, s1, a);
    s' := Onward(Guards, s0, s2, GuestStore(s.breaker));
    forall c | c in s'.ops ensures !Active(s'.ops[c]) {
      assert c in s.ops && (c != a ==> s'.ops[c] == s.ops[c]);
    }
  }

  // ---- the discipline is exact ----------------------------------------------

  lemma UnguardedStepFails(ss: seq<State>, t: Step) returns (s': State)
    requires GuardedRun(ss) && ss[|ss| - 1].kbd != 0
    requires Enabled(ss[|ss| - 1], t) && !Guarded(ss[|ss| - 1], t)
    ensures Reaches(Guards, Apply(ss[|ss| - 1], t), s') && !Sound(s')
  {
    var s := ss[|ss| - 1];
    if t.Stage? {
      var a :| a in s.ops && Active(s.ops[a]);
      s' := EveryOverlapLosesInterrupt(ss, a, t.id);
    } else {
      var a :| a in s.ops && Disarming(s.ops[a]) && Pending(s, s.ops[a]);
      s' := EveryIntruderRevivesBit(ss, t, a);
    }
  }

  /** Every guarded continuation of s is sound. */
  ghost predicate StaysSound(s: State) { forall s' :: Reaches(Guards, s, s') ==> Sound(s') }

  /** After a guarded run, a step is safe under every guarded continuation if and only if
      it is guarded itself. */
  lemma SafeIffGuarded(ss: seq<State>, t: Step)
    requires GuardedRun(ss) && ss[|ss| - 1].kbd != 0 && Enabled(ss[|ss| - 1], t)
    ensures StaysSound(Apply(ss[|ss| - 1], t)) <==> Guarded(ss[|ss| - 1], t)
  {
    var s := ss[|ss| - 1];
    if Guarded(s, t) {
      forall s' | Reaches(Guards, Apply(s, t), s') ensures Sound(s') {
        var path :| Path(Guards, path) && path[0] == Apply(s, t) && path[|path| - 1] == s';
        assert NextGuarded(s, path[0]);
        JoinGuarded(ss, path);
        GuardedRunsAreSound(ss + path, |ss + path| - 1);
      }
    } else {
      var s' := UnguardedStepFails(ss, t);
    }
  }

  lemma JoinGuarded(ss: seq<State>, path: seq<State>)
    requires GuardedRun(ss) && Path(Guards, path) && NextGuarded(ss[|ss| - 1], path[0])
    ensures GuardedRun(ss + path)
  {
    var run := ss + path;
    forall i {:trigger run[i]} | 0 < i < |run| ensures NextGuarded(run[i - 1], run[i]) {
      if i > |ss| { assert NextKept(Guards, path[i - 1 - |ss|], path[i - |ss|]); }
      Neighbours(ss, path, i);
    }
  }

  lemma JoinExclusive(ss: seq<State>, path: seq<State>)
    requires ExclusiveRun(ss) && Path(Excludes, path) && NextExclusive(ss[|ss| - 1], path[0])
    ensures ExclusiveRun(ss + path)
  {
    var run := ss + path;
    forall i {:trigger run[i]} | 0 < i < |run| ensures NextExclusive(run[i - 1], run[i]) {
      if i > |ss| { assert NextKept(Excludes, path[i - 1 - |ss|], path[i - |ss|]); }
      Neighbours(ss, path, i);
    }
  }

  lemma Neighbours(ss: seq<State>, path: seq<State>, i: nat)
    requires ss != [] && 0 < i < |ss + path|
    ensures i < |ss| ==> (ss + path)[i - 1] == ss[i - 1] && (ss + path)[i] == ss[i]
    ensures i == |ss| ==> (ss + path)[i - 1] == ss[|ss| - 1] && (ss + path)[i] == path[0]
    ensures i > |ss| ==> (ss + path)[i - 1] == path[i - 1 - |ss|] && (ss + path)[i] == path[i - |ss|]
  {}

  // ---- every foreign entry --------------------------------------------------

  /** c, in the guest, takes the interrupt of a, its own watchdog not having fired. */
  lemma TakeForeign(s0: State, s: State, a: nat, c: nat) returns (s': State)
    requires Reaches(Excludes, s0, s) && OpsOk(s) && a in s.ops && c in s.ops && a != c
    requires s.running == Some(c) && s.guest == Quiet && s.slot == s.kbd != 0 && !s.ops[c].stored
    requires s.ops[a].cancellable && (s.ops[a].dog == Waiting || Tripped(s.breaker))
    ensures Reaches(Excludes, s0, s') && !RaisedOk(s')
  {
    var s1 := s;
    if s.ops[a].dog == Waiting { s1 := Fire(Excludes, s0, s, a); }
    TrippedBy(s1.breaker);
    var s2 := Onward(Excludes, s0, s1, GuestTake);
    s' := Onward(Excludes, s0, s2, GuestClearSlot);
    assert c in s'.ops && s'.ops[c].raised && !s'.ops[c].stored;
  }

  /** An operation that stages while another is in the guest, whose own watchdog has not
      fired, can have its interrupt raised there, be the two cancellable or not. */
  lemma EveryStagingUnderneathRaises(ss: seq<State>, a: nat) returns (s': State)
    requires ExclusiveRun(ss) && ss[|ss| - 1].kbd != 0 && Enabled(ss[|ss| - 1], Stage(a))
    requires var s := ss[|ss| - 1]; s.running.Some? && s.running.value in s.ops && !s.ops[s.running.value].stored
    ensures Reaches(Excludes, Apply(ss[|ss| - 1], Stage(a)), s') && !RaisedOk(s')
  {
    ExclusiveAlways(ss, |ss| - 1);
    s' := StagedUnderneath(ss[|ss| - 1], a);
  }

  lemma StagedUnderneath(s: State, a: nat) returns (s': State)
    requires Inv(s) && Foreign(s) && s.kbd != 0 && Enabled(s, Stage(a))
    requires s.running.Some? && s.running.value in s.ops && !s.ops[s.running.value].stored
    ensures Reaches(Excludes, Apply(s, Stage(a)), s') && !RaisedOk(s')
  {
    CleanUnderneath(s);
    var c := s.running.value;
    assert s.ops[c].pc.InGuest?;
    var s0 := Apply(s, Stage(a));
    OpsOkStep(s, Stage(a));
    Stay(Excludes, s0);
    var s1 := s0;
    if s0.guest.Latched? {
      s1 := Onward(Excludes, s0, s0, GuestStore(s0.guest.word));
      OpsOkStep(s0, GuestStore(s0.guest.word));
    }
    var s2 := Onward(Excludes, s0, s1, Spawn(a));
    OpsOkStep(s1, Spawn(a));
    s' := TakeForeign(s0, s2, a, c);
  }

  lemma CleanUnderneath(s: State)
    requires Inv(s) && Foreign(s) && s.running.Some? && s.running.value in s.ops && !s.ops[s.running.value].stored
    ensures Clean(s)
  {
    if !Resting(s) {
      var a :| a in s.ops && Active(s.ops[a]);
      if s.running == Some(a) {
        assert WordsOk(s, s.ops[a]);
      } else {
        assert Spent(s, s.ops[a]);
      }
    }
  }

  /** Whoever enters the guest while the interrupt of another is pending can raise it. */
  lemma EveryForeignEntryRaises(ss: seq<State>, t: Step) returns (s': State)
    requires ExclusiveRun(ss) && ss[|ss| - 1].kbd != 0 && Enabled(ss[|ss| - 1], t) && (t.Enter? || t.Resume?)
    requires !Exclusive(ss[|ss| - 1], t)
    ensures Reaches(Excludes, Apply(ss[|ss| - 1], t), s') && !RaisedOk(s')
  {
    ExclusiveAlways(ss, |ss| - 1);
    s' := EnteredBeside(ss[|ss| - 1], t);
  }

  lemma EnteredBeside(s: State, t: Step) returns (s': State)
    requires Inv(s) && s.kbd != 0 && Enabled(s, t) && (t.Enter? || t.Resume?) && !Exclusive(s, t)
    ensures Reaches(Excludes, Apply(s, t), s') && !RaisedOk(s')
  {
    var a :| a in s.ops && Active(s.ops[a]) && a != t.id && Pending(s, s.ops[a]);
    assert OpOk(s.ops[a]) && WordsOk(s, s.ops[a]);
    var s0 := Beside(s, t, a);
    Stay(Excludes, s0);
    var s1 := s0;
    if s.ops[a].dog.Absent? {
      s1 := Onward(Excludes, s0, s0, Spawn(a));
      OpsOkStep(s0, Spawn(a));
    }
    s' := TakeForeign(s0, s1, a, t.id);
  }

  lemma Beside(s: State, t: Step, a: nat) returns (s0: State)
    requires OpsOk(s) && OneActive(s) && Enabled(s, t) && (t.Enter? || t.Resume?) && Busy(s, a) && a != t.id
    ensures s0 == Apply(s, t) && OpsOk(s0) && s0.running == Some(t.id) && s0.guest == Quiet
    ensures a in s0.ops && s0.ops[a] == s.ops[a] && t.id in s0.ops && !s0.ops[t.id].cancellable
    ensures !s0.ops[t.id].stored && s0.slot == s.slot && s0.breaker == s.breaker && s0.kbd == s.kbd
  {
    s0 := Apply(s, t);
    OpsOkStep(s, t);
    assert OpOk(s0.ops[t.id]) && !Active(s.ops[t.id]);
  }

  // ---- the stricter discipline is exact -------------------------------------

  lemma NonExclusiveStepRaises(ss: seq<State>, t: Step) returns (s': State)
    requires ExclusiveRun(ss) && ss[|ss| - 1].kbd != 0
    requires Enabled(ss[|ss| - 1], t) && Guarded(ss[|ss| - 1], t) && !Exclusive(ss[|ss| - 1], t)
    ensures Reaches(Excludes, Apply(ss[|ss| - 1], t), s') && !RaisedOk(s')
  {
    if t.Stage? {
      var s := ss[|ss| - 1];
      ExclusiveAlways(ss, |ss| - 1);
      assert OpOk(s.ops[s.running.value]) && s.ops[s.running.value].pc.InGuest?;
      s' := EveryStagingUnderneathRaises(ss, t.id);
    } else {
      s' := EveryForeignEntryRaises(ss, t);
    }
  }

  /** Every exclusive continuation of s raises own interrupts only. */
  ghost predicate StaysOwn(s: State) { forall s' :: Reaches(Excludes, s, s') ==> RaisedOk(s') }

  /** After an exclusive run, a guarded step raises no foreign interrupt under any exclusive
      continuation if and only if it is exclusive itself. */
  lemma SafeIffExclusive(ss: seq<State>, t: Step)
    requires ExclusiveRun(ss) && ss[|ss| - 1].kbd != 0
    requires Enabled(ss[|ss| - 1], t) && Guarded(ss[|ss| - 1], t)
    ensures StaysOwn(Apply(ss[|ss| - 1], t)) <==> Exclusive(ss[|ss| - 1], t)
  {
    var s := ss[|ss| - 1];
    if Exclusive(s, t) {
      forall s' | Reaches(Excludes, Apply(s, t), s') ensures RaisedOk(s') {
        var path :| Path(Excludes, path) && path[0] == Apply(s, t) && path[|path| - 1] == s';
        assert NextExclusive(s, path[0]);
        JoinExclusive(ss, path);
        OnlyOwnInterrupts(ss + path, |ss + path| - 1);
      }
    } else {
      var s' := NonExclusiveStepRaises(ss, t);
    }
  }

  /** And any step at all keeps both guarantees, each under the continuations of its
      discipline, if and only if it is exclusive. */
  lemma SafeIffExclusiveAtAll(ss: seq<State>, t: Step)
    requires ExclusiveRun(ss) && ss[|ss| - 1].kbd != 0 && Enabled(ss[|ss| - 1], t)
    ensures StaysSound(Apply(ss[|ss| - 1], t)) && StaysOwn(Apply(ss[|ss| - 1], t)) <==> Exclusive(ss[|ss| - 1], t)
  {
    ExclusiveRunIsGuarded(ss);
    SafeIffGuarded(ss, t);
    if Guarded(ss[|ss| - 1], t) {
      SafeIffExclusive(ss, t);
    } else if Exclusive(ss[|ss| - 1], t) {
      ExclusiveIsGuarded(ss[|ss| - 1], t);
    }
  }

  // ---- runs that show it ------------------------------------------------------

  function Fresh(cancellable: bool, pc: Pc, dog: Watchdog): Op { Op(cancellable, false, pc, dog, false, 0, false) }

  lemma FirstStaged(kbd: nat, b: nat) returns (s: State)
    requires !Tripped(b)
    ensures Reachable(s) && s == State(kbd, kbd, b, map[0 := Fresh(true, Staged, Absent)], None, Quiet)
  {
    s := State(kbd, 0, b, map[], None, Quiet);
    Stay(Free, s);
    s := Go(s, Begin(0, true));
    s := Go(s, Stage(0));
  }

  /** A cancellable operation 0 has armed and entered the guest. */
  lemma FirstInGuest(kbd: nat, b: nat) returns (s: State)
    requires !Tripped(b)
    ensures Reachable(s) && s == State(kbd, kbd, b, map[0 := Fresh(true, InGuest, Waiting)], Some(0), Quiet)
  {
    s := FirstStaged(kbd, b);
    s := Go(s, Spawn(0));
    s := Go(s, Enter(0));
  }

  lemma SecondArmed(kbd: nat, b: nat) returns (s: State)
    requires !Tripped(b)
    ensures Reachable(s)
    ensures s ==
      State(kbd, kbd, b, map[0 := Fresh(true, InGuest, Waiting), 1 := Fresh(true, Armed, Waiting)], Some(0), Quiet)
  {
    s := FirstInGuest(kbd, b);
    s := Go(s, Begin(1, true));
    s := Go(s, Stage(1));
    s := Go(s, Spawn(1));
  }

  lemma FirstDisarmed(kbd: nat, b: nat) returns (s: State)
    requires !Tripped(b)
    ensures Reachable(s) && s.slot == 0 && s.breaker == b && s.kbd == kbd && s.running == None && s.guest == Quiet
    ensures 1 in s.ops && s.ops[1] == Fresh(true, Armed, Waiting)
  {
    s := SecondArmed(kbd, b);
    s := Go(s, Leave(0));
    s := Go(s, CloseStop(0));
    s := Go(s, DogSendFalse(0));
    s := Go(s, Receive(0));
    s := Go(s, Clear(0));
  }

  /** Two overlapping cancellable operations: the first one's disarm erases the second
      one's staging, so a bit tripped later is taken without anything to raise. */
  lemma OverlapLosesInterrupt(kbd: nat, b: nat) returns (s: State)
    requires !Tripped(b)
    ensures Reachable(s) && 1 in s.ops && s.ops[1].pc == InGuest && s.ops[1].stored && !s.ops[1].raised
    ensures !Tripped(s.breaker) && s.slot == 0 && s.guest == Quiet
  {
    s := FirstDisarmed(kbd, b);
    s := Go(s, Enter(1));
    s := Go(s, Cancel(1));
    TrippedBy(b);
    s := Go(s, DogStore(1));
    TrippedBy(Trip(b));
    s := Go(s, GuestTake);
    s := Go(s, GuestClearSlot);
  }

  lemma FirstFired(kbd: nat, b: nat) returns (s: State)
    requires !Tripped(b)
    ensures Reachable(s)
    ensures s == State(kbd, kbd, Trip(b), map[0 := Op(true, true, Left, Stored, true, 0, false)], None, Quiet)
  {
    s := FirstInGuest(kbd, b);
    s := Go(s, Cancel(0));
    s := Go(s, DogStore(0));
    s := Go(s, Leave(0));
  }

  lemma IntruderLoads(kbd: nat, b: nat) returns (s: State)
    requires !Tripped(b)
    ensures Reachable(s) && s.breaker == Trip(b) && s.running == Some(1) && s.guest == Latched(Trip(b))
    ensures s.ops == map[0 := Op(true, true, Left, Stored, true, 0, false), 1 := Fresh(false, InGuest, Absent)]
  {
    s := FirstFired(kbd, b);
    s := Go(s, Begin(1, false));
    s := Go(s, Enter(1));
    s := Go(s, GuestLoad);
  }

  lemma IntruderMeetsDisarm(kbd: nat, b: nat) returns (s: State)
    requires !Tripped(b)
    ensures Reachable(s) && s.running == Some(1) && s.guest == Latched(Trip(b))
    ensures s.ops == map[0 := Op(true, true, Stopping, Sent(true), true, 1, false), 1 := Fresh(false, InGuest, Absent)]
  {
    s := IntruderLoads(kbd, b);
    s := Go(s, CloseStop(0));
    s := Go(s, DogSendTrue(0));
  }

  lemma IntruderWaits(kbd: nat, b: nat) returns (s: State)
    requires !Tripped(b)
    ensures Reachable(s) && s.slot == 0 && s.running == Some(1) && s.guest == Latched(Trip(b))
    ensures s.ops ==
      map[0 := Op(true, true, Done(true), Sent(true), true, 1, false), 1 := Fresh(false, InGuest, Absent)]
  {
    s := IntruderMeetsDisarm(kbd, b);
    s := Go(s, Receive(0));
    s := Go(s, Clear(0));
  }

  /** Another operation in the guest during a disarm can write the bit back after it was
      cleared: it then lingers with nothing staged. */
  lemma IntruderRevivesBit(kbd: nat, b: nat) returns (s: State)
    requires !Tripped(b)
    ensures Reachable(s) && Resting(s) && Tripped(s.breaker) && s.slot == 0
  {
    s := IntruderWaits(kbd, b);
    TrippedBy(b);
    s := Go(s, GuestStore(Trip(b)));
  }

  lemma NestedInGuest(kbd: nat, b: nat) returns (s: State)
    requires !Tripped(b)
    ensures Reachable(s)
    ensures s == State(kbd, kbd, b, map[0 := Fresh(true, Suspended, Waiting), 1 := Fresh(false, InGuest, Absent)],
      Some(1), Quiet)
  {
    s := FirstInGuest(kbd, b);
    s := Go(s, Suspend(0));
    s := Go(s, Begin(1, false));
    s := Go(s, Enter(1));
  }

  /** A nested operation without cancellation can raise the interrupt of the operation
      whose callback it runs in. */
  lemma NestedRaisesOutersInterrupt(kbd: nat, b: nat) returns (s: State)
    requires !Tripped(b) && kbd != 0
    ensures Reachable(s) && 1 in s.ops && s.ops[1].raised && !s.ops[1].cancellable
  {
    s := NestedInGuest(kbd, b);
    s := Go(s, Cancel(0));
    TrippedBy(b);
    s := Go(s, DogStore(0));
    s := Go(s, GuestTake);
    s := Go(s, GuestClearSlot);
  }
}
