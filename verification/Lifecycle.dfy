/** Runs of the bridge's bookkeeping: function ids handed to the guest and called back,
    the dispatcher's registration, and Close against operations in flight. */
module Lifecycle {
  import opened Bits
  import opened Options
  import Errors
  import opened Callbacks

  // ---- function ids ---------------------------------------------------------

  /** `fns` is the history of registrations; `waiting` and `known` hold the numbers of
      those whose NewFunction call has not reached, and has reached, the guest. */
  datatype Table = Table(funcs: map<i32, GoFunc>, nextFuncID: i32, fns: seq<GoFunc>, waiting: set<nat>, known: set<nat>)

  datatype TableStep = Register(fn: GoFunc) | Tell(n: nat)

  ghost predicate TableNext(s: Table, s': Table, t: TableStep) {
    match t
    case Register(fn) =>
      var id := NextID(s.nextFuncID);
      s' == s.(funcs := s.funcs[id := fn], nextFuncID := id, fns := s.fns + [fn], waiting := s.waiting + {|s.fns| + 1})
    case Tell(n) => n in s.waiting && s' == s.(waiting := s.waiting - {n}, known := s.known + {n})
  }

  ghost predicate TableRun(ss: seq<Table>, ts: seq<TableStep>) {
    && |ss| == |ts| + 1 && ss[0] == Table(map[], 0, [], {}, {})
    && forall i :: 0 <= i < |ts| ==> TableNext(ss[i], ss[i + 1], ts[i])
  }

  ghost predicate TableInv(s: Table) {
    && s.funcs == TableOf(s.fns) && s.nextFuncID == IDOf(|s.fns|)
    && forall n :: n in s.waiting || n in s.known ==> 1 <= n <= |s.fns|
  }

  lemma TableStepInv(s: Table, s': Table, t: TableStep)
    requires TableInv(s) && TableNext(s, s', t)
    ensures TableInv(s') && s.fns <= s'.fns && s.known <= s'.known
  {
    if t.Register? {
      NextIDOf(|s.fns|);
      assert (s.fns + [t.fn])[..|s.fns|] == s.fns;
    }
  }

  lemma {:induction false} TableAlways(ss: seq<Table>, ts: seq<TableStep>, i: nat, j: nat)
    requires TableRun(ss, ts) && i <= j <= |ts|
    ensures TableInv(ss[i]) && TableInv(ss[j]) && ss[i].fns <= ss[j].fns && ss[i].known <= ss[j].known
    decreases j
  {
    if j == 0 {
      assert TableOf([]) == map[];
    } else if i < j {
      TableAlways(ss, ts, i, j - 1);
      TableStepInv(ss[j - 1], ss[j], ts[j - 1]);
    } else {
      TableAlways(ss, ts, j - 1, j - 1);
      TableStepInv(ss[j - 1], ss[j], ts[j - 1]);
    }
  }

  /** Ids are in the table before the guest can learn them. From then on each leads to
      the latest function that got it, which is the one it was made for exactly until 2^32
      more registrations; and two ids are the same exactly when they lead to the same
      registration. */
  lemma RoutingIsStable(ss: seq<Table>, ts: seq<TableStep>, i: nat, j: nat, m: nat, n: nat)
    requires TableRun(ss, ts) && i <= j <= |ts|
    requires (n in ss[i].waiting || n in ss[i].known) && (m in ss[i].waiting || m in ss[i].known)
    ensures 1 <= n <= |ss[i].fns| <= |ss[j].fns| && 1 <= m <= |ss[i].fns|
    ensures IDOf(n) in ss[i].funcs && IDOf(n) in ss[j].funcs
    ensures ss[j].funcs[IDOf(n)] == ss[j].fns[Latest(|ss[j].fns|, n) - 1]
    ensures Latest(|ss[j].fns|, n) == n <==> |ss[j].fns| < n + TWO_32
    ensures |ss[j].fns| < n + TWO_32 ==> ss[j].funcs[IDOf(n)] == ss[i].funcs[IDOf(n)] == ss[i].fns[n - 1]
    ensures IDOf(m) == IDOf(n) <==> Latest(|ss[j].fns|, m) == Latest(|ss[j].fns|, n)
  {
    TableAlways(ss, ts, i, j);
    LeadsToLatest(ss[i], n);
    LeadsToLatest(ss[j], n);
    SameLatest(|ss[j].fns|, m, n);
  }

  lemma LeadsToLatest(s: Table, n: nat)
    requires TableInv(s) && 1 <= n <= |s.fns|
    ensures IDOf(n) in s.funcs && s.funcs[IDOf(n)] == s.fns[Latest(|s.fns|, n) - 1]
    ensures Latest(|s.fns|, n) == n <==> |s.fns| < n + TWO_32
  {
    IDLeadsToLatest(s.fns, n);
    LatestIsOwnIff(|s.fns|, n);
  }

  lemma {:induction false} SameLatest(count: nat, m: nat, n: nat)
    requires 1 <= m <= count && 1 <= n <= count
    ensures IDOf(m) == IDOf(n) <==> Latest(count, m) == Latest(count, n)
    decreases count
  {
    if IDOf(m) == IDOf(n) && IDOf(count) != IDOf(n) { SameLatest(count - 1, m, n); }
  }

  // ---- the dispatcher -------------------------------------------------------

  /** The instance's registration with its module; `callbacks` maps callback ids to the
      instance that serves them. */
  class Dispatcher {
    const owner: nat
    var callbacks: map<i32, nat>
    var nextCBID: i32
    var dispatcherSet: bool

    constructor (owner: nat)
      ensures this.owner == owner && Valid() && !dispatcherSet && nextCBID == 0
    {
      this.owner := owner;
      callbacks, nextCBID, dispatcherSet := map[], 0, false;
    }

    /** Every id ever handed to the guest is served by this instance. */
    predicate Valid()
      reads this
    {
      (forall id :: id in callbacks ==> callbacks[id] == owner) && (dispatcherSet ==> nextCBID in callbacks)
    }

    /** `guest` is the guest's reply to being told the id: nil, or an error. A failed
        attempt leaves its table entry behind, and the next one registers afresh. */
    method EnsureDispatcher(closed: bool, guest: Option<Errors.Error>)
      returns (err: Option<Errors.Error>, told: Option<i32>)
      requires Valid()
      modifies this
      ensures Valid() && forall id :: id in old(callbacks) ==> id in callbacks
      ensures old(dispatcherSet) ==> err == None && told == None && dispatcherSet
      ensures !old(dispatcherSet) && closed ==> err == Some(Errors.Closed) && told == None && !dispatcherSet
      ensures !old(dispatcherSet) && !closed ==>
        told == Some(nextCBID) && nextCBID in callbacks && nextCBID == NextID(old(nextCBID))
          && err == guest && (dispatcherSet <==> guest == None)
      ensures told == None ==> callbacks == old(callbacks)
    {
      if dispatcherSet { return None, None; }
      if closed { return Some(Errors.Closed), None; }
      nextCBID := if nextCBID == 0x7fff_ffff then -0x8000_0000 else nextCBID + 1;
      callbacks := callbacks[nextCBID := owner];
      told := Some(nextCBID);
      if guest != None { return guest, told; }
      dispatcherSet := true;
      err := None;
    }
  }

  // ---- Close ----------------------------------------------------------------

  /** An operation: its closed check has admitted or refused it, or it has gone on to the
      guest. `late` records that the check came after Close's swap. */
  datatype Admission = Admitted | Refused | Invoked

  datatype Operation = Operation(stage: Admission, late: bool)

  /** A call of Close: it lost the swap, won it, or has run the close export. */
  datatype Closer = Lost | Won | Exported

  datatype Instance = Instance(
    closed: bool, swapped: bool, ops: map<nat, Operation>, closers: map<nat, Closer>, exports: nat)

  datatype LifeStep = Check(op: nat) | Invoke(op: nat) | CompareAndSwap(c: nat) | Export(c: nat)

  ghost predicate LifeNext(s: Instance, s': Instance, t: LifeStep) {
    match t
    case Check(op) =>
      op !in s.ops && s' == s.(ops := s.ops[op := Operation(if s.closed then Refused else Admitted, s.swapped)])
    case Invoke(op) =>
      op in s.ops && s.ops[op].stage == Admitted && s' == s.(ops := s.ops[op := s.ops[op].(stage := Invoked)])
    case CompareAndSwap(c) =>
      c !in s.closers
        && s' == s.(closed := true, swapped := true, closers := s.closers[c := if s.closed then Lost else Won])
    case Export(c) =>
      c in s.closers && s.closers[c] == Won && s' == s.(closers := s.closers[c := Exported], exports := s.exports + 1)
  }

  /** Consecutive states of an execution, with the steps between them. */
  ghost predicate LifeSteps(ss: seq<Instance>, ts: seq<LifeStep>) {
    |ss| == |ts| + 1 && forall i :: 0 <= i < |ts| ==> LifeNext(ss[i], ss[i + 1], ts[i])
  }

  ghost predicate LifeRun(ss: seq<Instance>, ts: seq<LifeStep>) {
    LifeSteps(ss, ts) && ss[0] == Instance(false, false, map[], map[], 0)
  }

  ghost predicate LifeInv(s: Instance) {
    && (s.closed <==> s.swapped)
    && (forall op :: op in s.ops ==> (s.ops[op].late <==> s.ops[op].stage == Refused))
    && (s.exports > 0 ==> s.closed)
    && (forall c, d :: c in s.closers && d in s.closers && s.closers[c] != Lost && s.closers[d] != Lost ==> c == d)
    && (!s.closed ==> s.closers == map[])
    && (if exists c :: c in s.closers && s.closers[c] == Exported then s.exports == 1 else s.exports == 0)
  }

  lemma LifeStepInv(s: Instance, s': Instance, t: LifeStep)
    requires LifeInv(s) && LifeNext(s, s', t)
    ensures LifeInv(s')
  {
    if t.Export? {
      assert s'.closers[t.c] == Exported;
    } else if exists c :: c in s.closers && s.closers[c] == Exported {
      var c :| c in s.closers && s.closers[c] == Exported;
      assert c in s'.closers && s'.closers[c] == Exported;
    } else {
      assert forall c :: c in s'.closers ==> s'.closers[c] != Exported;
    }
  }

  /** An operation whose closed check follows Close's swap never reaches the guest, and
      the close export runs at most once, in every interleaving. */
  lemma {:induction false} ClosedIsFinal(ss: seq<Instance>, ts: seq<LifeStep>, i: nat)
    requires LifeRun(ss, ts) && i <= |ts|
    ensures LifeInv(ss[i])
    ensures forall op :: op in ss[i].ops && ss[i].ops[op].late ==> ss[i].ops[op].stage != Invoked
    ensures ss[i].exports <= 1
  {
    if i > 0 {
      ClosedIsFinal(ss, ts, i - 1);
      LifeStepInv(ss[i - 1], ss[i], ts[i - 1]);
    }
  }

  /** The operation was admitted before the swap and has not gone on to the guest. */
  predicate Straggler(s: Instance, op: nat) { op in s.ops && !s.ops[op].late && s.ops[op].stage != Invoked }

  predicate HasInvoked(s: Instance, op: nat) { op in s.ops && s.ops[op].stage == Invoked }

  /** The operation goes to the guest in this continuation of s. */
  ghost predicate GoesToGuest(s: Instance, op: nat, ss: seq<Instance>, ts: seq<LifeStep>) {
    LifeSteps(ss, ts) && ss[0] == s && !HasInvoked(s, op) && HasInvoked(ss[|ts|], op)
  }

  /** On a closed instance an operation that is not a straggler stays as it is, or is
      refused. */
  lemma {:induction false} ClosedStays(ss: seq<Instance>, ts: seq<LifeStep>, i: nat, op: nat)
    requires LifeSteps(ss, ts) && i <= |ts| && LifeInv(ss[0]) && ss[0].closed
    requires !Straggler(ss[0], op) && !HasInvoked(ss[0], op)
    ensures LifeInv(ss[i]) && ss[i].closed && !Straggler(ss[i], op) && !HasInvoked(ss[i], op)
  {
    if i > 0 {
      ClosedStays(ss, ts, i - 1, op);
      LifeStepInv(ss[i - 1], ss[i], ts[i - 1]);
    }
  }

  /** Once Close has swapped, and so also after its export has run, an operation can still
      go to the guest if and only if it is a straggler. */
  lemma StragglersAlone(ss: seq<Instance>, ts: seq<LifeStep>, op: nat)
    requires LifeRun(ss, ts) && ss[|ts|].closed
    ensures (exists more, steps :: GoesToGuest(ss[|ts|], op, more, steps)) <==> Straggler(ss[|ts|], op)
  {
    var s := ss[|ts|];
    ClosedIsFinal(ss, ts, |ts|);
    if Straggler(s, op) {
      var s' := s.(ops := s.ops[op := s.ops[op].(stage := Invoked)]);
      assert GoesToGuest(s, op, [s, s'], [Invoke(op)]);
    } else if exists more, steps :: GoesToGuest(s, op, more, steps) {
      var more, steps :| GoesToGuest(s, op, more, steps);
      ClosedStays(more, steps, |steps|, op);
    }
  }

  /** Close is safe, in that nothing goes to the guest after its export, exactly when the
      export leaves no straggler behind. */
  lemma CloseIsSafeIff(ss: seq<Instance>, ts: seq<LifeStep>)
    requires LifeRun(ss, ts) && ss[|ts|].exports > 0
    ensures (forall op, more, steps :: !GoesToGuest(ss[|ts|], op, more, steps)) <==>
      (forall op :: !Straggler(ss[|ts|], op))
  {
    ClosedIsFinal(ss, ts, |ts|);
    forall op
      ensures (exists more, steps :: GoesToGuest(ss[|ts|], op, more, steps)) <==> Straggler(ss[|ts|], op)
    {
      StragglersAlone(ss, ts, op);
    }
    if forall op :: !Straggler(ss[|ts|], op) {
      forall op, more, steps ensures !GoesToGuest(ss[|ts|], op, more, steps) {
        assert !Straggler(ss[|ts|], op);
      }
    }
  }

  /** The check does not keep every straggler out of a finalized runtime: operation 0 is
      admitted, Close runs to its end, and operation 0 goes to the guest. */
  lemma StragglerAfterExport() returns (ss: seq<Instance>, ts: seq<LifeStep>)
    ensures LifeRun(ss, ts) && |ts| == 4 && ss[3].exports == 1 && Straggler(ss[3], 0)
    ensures GoesToGuest(ss[3], 0, ss[3..], ts[3..])
  {
    var s0 := Instance(false, false, map[], map[], 0);
    var s1 := s0.(ops := map[0 := Operation(Admitted, false)]);
    var s2 := s1.(closed := true, swapped := true, closers := map[7 := Won]);
    var s3 := s2.(closers := map[7 := Exported], exports := 1);
    var s4 := s3.(ops := map[0 := Operation(Invoked, false)]);
    ss, ts := [s0, s1, s2, s3, s4], [Check(0), CompareAndSwap(7), Export(7), Invoke(0)];
    assert LifeNext(s0, s1, Check(0)) && LifeNext(s1, s2, CompareAndSwap(7));
    assert LifeNext(s2, s3, Export(7)) && LifeNext(s3, s4, Invoke(0));
    assert ss[3..] == [s3, s4] && ts[3..] == [Invoke(0)];
  }
}
