/** The module mutex: every guest activation holds it, and a callback gives it up
    around the user handler. Any number of goroutines, any interleaving. */
module ModuleLock {
  import opened Options

  /** Where one entry of `invoke` stands. */
  datatype Phase =
    | Waiting             // in m.mu.Lock() of invoke
    | Running             // in the guest, holding the lock
    | InHandler           // in a callback's user handler, the lock given up
    | Relocking           // handler over, in the deferred m.mu.Lock()
    | Unwinding           // a panic from the handler passes through, holding the lock

  /** One activation of invoke; `locks` and `unlocks` count its calls on the mutex. */
  datatype Activation = Activation(phase: Phase, panicked: bool, locks: nat, unlocks: nat)

  /** A goroutine's activations, outermost first. */
  type Stack = seq<Activation>

  /** An activation of goroutine g at depth d. */
  datatype Frame = Frame(g: nat, d: nat)

  /** `mu` is the mutex with its holder, `entered` the activations that are in the guest,
      in the order in which they entered it; `fatal` records an unlock of a mutex that the
      unlocking activation does not hold. */
  datatype State = State(stacks: map<nat, Stack>, mu: Option<Frame>, entered: seq<Frame>, fatal: bool)

  datatype Step =
    | Invoke(g: nat)                 // a goroutine, or the handler it runs, calls invoke
    | Acquire(g: nat)
    | Callback(g: nat)               // the guest calls back into a registered handler
    | HandlerEnds(g: nat, panics: bool)
    | Reacquire(g: nat)
    | Return(g: nat)                 // invoke returns, in any way: its deferred unlock runs

  predicate Init(s: State) { s.stacks == map[] && s.mu == None && s.entered == [] && !s.fatal }

  function StackOf(s: State, g: nat): Stack { if g in s.stacks then s.stacks[g] else [] }

  function Top(s: State, g: nat): Option<Activation> {
    var st := StackOf(s, g);
    if st == [] then None else Some(st[|st| - 1])
  }

  predicate TopIs(s: State, g: nat, phase: Phase) { Top(s, g).Some? && Top(s, g).value.phase == phase }

  function TopFrame(s: State, g: nat): Frame
    requires Top(s, g).Some?
  {
    Frame(g, |StackOf(s, g)| - 1)
  }

  predicate Enabled(s: State, t: Step) {
    match t
    case Invoke(g) => Top(s, g) == None || TopIs(s, g, InHandler)
    case Acquire(g) => TopIs(s, g, Waiting) && s.mu == None
    case Callback(g) => TopIs(s, g, Running)
    case HandlerEnds(g, _) => TopIs(s, g, InHandler)
    case Reacquire(g) => TopIs(s, g, Relocking) && s.mu == None
    case Return(g) => TopIs(s, g, Running) || TopIs(s, g, Unwinding)
  }

  function SetTop(s: State, g: nat, a: Activation): State
    requires Top(s, g).Some?
  {
    var st := StackOf(s, g);
    s.(stacks := s.stacks[g := st[..|st| - 1] + [a]])
  }

  /** sync.Mutex.Unlock by frame f. */
  function Unlocked(s: State, f: Frame): State { s.(mu := None, fatal := s.fatal || s.mu != Some(f)) }

  function Without(fs: seq<Frame>, f: Frame): seq<Frame> {
    if fs == [] then [] else if fs[|fs| - 1] == f then fs[..|fs| - 1] else Without(fs[..|fs| - 1], f) + [fs[|fs| - 1]]
  }

  function Apply(s: State, t: Step): State
    requires Enabled(s, t)
  {
    match t
    case Invoke(g) => s.(stacks := s.stacks[g := StackOf(s, g) + [Activation(Waiting, false, 0, 0)]])
    case Acquire(g) =>
      var a := Top(s, g).value;
      SetTop(s, g, a.(phase := Running, locks := a.locks + 1)).(
        mu := Some(TopFrame(s, g)), entered := s.entered + [TopFrame(s, g)])
    case Callback(g) =>
      var a := Top(s, g).value;
      Unlocked(SetTop(s, g, a.(phase := InHandler, unlocks := a.unlocks + 1)), TopFrame(s, g))
    case HandlerEnds(g, panics) => SetTop(s, g, Top(s, g).value.(phase := Relocking, panicked := panics))
    case Reacquire(g) =>
      var a := Top(s, g).value;
      SetTop(s, g, a.(phase := if a.panicked then Unwinding else Running, locks := a.locks + 1)).(
        mu := Some(TopFrame(s, g)))
    case Return(g) =>
      var st := StackOf(s, g);
      Unlocked(s, TopFrame(s, g)).(
        stacks := s.stacks[g := st[..|st| - 1]], entered := Without(s.entered, TopFrame(s, g)))
  }

  /** The number of Lock and Unlock calls of the activation that Return ends. */
  function Balance(s: State, g: nat): (nat, nat)
    requires Top(s, g).Some?
  {
    (Top(s, g).value.locks, Top(s, g).value.unlocks + 1)
  }

  ghost predicate Next(s: State, s': State) { exists t :: Enabled(s, t) && s' == Apply(s, t) }

  ghost predicate Run(ss: seq<State>) {
    |ss| > 0 && Init(ss[0]) && forall i {:trigger ss[i]} :: 0 < i < |ss| ==> Next(ss[i - 1], ss[i])
  }

  // ---- mutual exclusion and balance -----------------------------------------

  predicate Holds(phase: Phase) { phase.Running? || phase.Unwinding? }

  /** An activation's own calls: it is one lock ahead exactly while it holds the mutex. */
  predicate Balanced(a: Activation) {
    a.locks == a.unlocks + (if Holds(a.phase) then 1 else 0) && (a.phase.Waiting? <==> a.locks == 0)
  }

  predicate At(s: State, f: Frame) { f.g in s.stacks && f.d < |s.stacks[f.g]| }

  function ActivationAt(s: State, f: Frame): Activation
    requires At(s, f)
  {
    s.stacks[f.g][f.d]
  }

  ghost predicate Inv(s: State) {
    && !s.fatal
    && (s.mu.Some? ==> At(s, s.mu.value))
    && (forall f :: At(s, f) ==> Balanced(ActivationAt(s, f)) && (Holds(ActivationAt(s, f).phase) <==> s.mu == Some(f)))
    && (forall f :: At(s, f) && f.d < |s.stacks[f.g]| - 1 ==> ActivationAt(s, f).phase == InHandler)
  }

  lemma InvStep(s: State, t: Step)
    requires Inv(s) && Enabled(s, t)
    ensures Inv(Apply(s, t))
  {
    var s' := Apply(s, t);
    if Top(s, t.g).Some? { assert Balanced(ActivationAt(s, TopFrame(s, t.g))); }
    forall f | At(s', f)
      ensures Balanced(ActivationAt(s', f)) && (Holds(ActivationAt(s', f).phase) <==> s'.mu == Some(f))
      ensures f.d < |s'.stacks[f.g]| - 1 ==> ActivationAt(s', f).phase == InHandler
    {
      if At(s, f) { assert Balanced(ActivationAt(s, f)); }
    }
  }

  lemma {:induction false} InvAlways(ss: seq<State>, i: nat)
    requires Run(ss) && i < |ss|
    ensures Inv(ss[i])
  {
    if i > 0 {
      InvAlways(ss, i - 1);
      assert Next(ss[i - 1], ss[i]);
      var t :| Enabled(ss[i - 1], t) && ss[i] == Apply(ss[i - 1], t);
      InvStep(ss[i - 1], t);
    }
  }

  /** In every interleaving at most one activation executes, it holds the mutex, and the
      mutex is never unlocked by anyone who does not hold it. */
  lemma MutualExclusion(ss: seq<State>, i: nat, f: Frame, f': Frame)
    requires Run(ss) && i < |ss| && At(ss[i], f) && At(ss[i], f')
    requires Holds(ActivationAt(ss[i], f).phase) && Holds(ActivationAt(ss[i], f').phase)
    ensures f == f' && ss[i].mu == Some(f) && !ss[i].fatal
  {
    InvAlways(ss, i);
  }

  /** However an activation ends, having gone through any number of callbacks and
      panicking handlers, it has unlocked exactly as often as it locked, and the mutex is
      free. */
  lemma LockBalance(ss: seq<State>, i: nat, g: nat)
    requires Run(ss) && i < |ss| && Enabled(ss[i], Return(g))
    ensures Balance(ss[i], g).0 == Balance(ss[i], g).1 > 0
    ensures Apply(ss[i], Return(g)).mu == None && !Apply(ss[i], Return(g)).fatal
  {
    InvAlways(ss, i);
    InvStep(ss[i], Return(g));
    assert Balanced(ActivationAt(ss[i], TopFrame(ss[i], g)));
    assert ss[i].mu == Some(TopFrame(ss[i], g));
  }

  /** A panicking handler takes the lock again before the panic passes through its
      activation, which then returns with the lock it holds. */
  lemma PanicUnwinds(s: State, g: nat) returns (s': State)
    requires Inv(s) && TopIs(s, g, InHandler) && s.mu == None
    ensures Enabled(s, HandlerEnds(g, true)) && Enabled(Apply(s, HandlerEnds(g, true)), Reacquire(g))
    ensures s' == Apply(Apply(s, HandlerEnds(g, true)), Reacquire(g))
    ensures TopIs(s', g, Unwinding) && s'.mu == Some(TopFrame(s, g)) && Enabled(s', Return(g))
    ensures !Enabled(s', Callback(g)) && !Apply(s', Return(g)).fatal && Apply(s', Return(g)).mu == None
  {
    var s1 := Apply(s, HandlerEnds(g, true));
    s' := Apply(s1, Reacquire(g));
  }

  // ---- stack discipline -----------------------------------------------------

  /** Whoever executes is the last to have entered: nothing entered later is unfinished. */
  predicate Lifo(s: State) {
    s.mu.Some? ==> s.entered != [] && s.entered[|s.entered| - 1] == s.mu.value
  }

  /** A goroutine calls back only when every unfinished activation is its own: an
      activation started while another goroutine's is suspended makes no callback. */
  predicate Disciplined(s: State, t: Step) {
    t.Callback? ==> forall i :: 0 <= i < |s.entered| ==> s.entered[i].g == t.g
  }

  ghost predicate NextDisciplined(s: State, s': State) {
    exists t :: Enabled(s, t) && Disciplined(s, t) && s' == Apply(s, t)
  }

  ghost predicate DisciplinedRun(ss: seq<State>) {
    |ss| > 0 && Init(ss[0]) && forall i {:trigger ss[i]} :: 0 < i < |ss| ==> NextDisciplined(ss[i - 1], ss[i])
  }

  /** The entered activations are those that have locked and not returned. */
  ghost predicate Present(s: State) {
    forall i :: 0 <= i < |s.entered| ==> At(s, s.entered[i]) && ActivationAt(s, s.entered[i]).locks > 0
  }

  ghost predicate Complete(s: State) {
    forall f :: At(s, f) && ActivationAt(s, f).locks > 0 ==> f in s.entered
  }

  /** Those of one goroutine stand in order of depth. */
  ghost predicate Ordered(e: seq<Frame>) {
    forall i, j :: 0 <= i < j < |e| && e[i].g == e[j].g ==> e[i].d < e[j].d
  }

  /** All but the last are of one goroutine, and a last one of another executes. */
  ghost predicate OneOwner(e: seq<Frame>) { forall i :: 0 <= i < |e| - 1 ==> e[i].g == e[0].g }

  ghost predicate GuestRuns(e: seq<Frame>, mu: Option<Frame>) {
    e != [] && e[|e| - 1].g != e[0].g ==> mu == Some(e[|e| - 1])
  }

  ghost predicate Nested(s: State) {
    Present(s) && Complete(s) && Ordered(s.entered) && OneOwner(s.entered) && GuestRuns(s.entered, s.mu)
  }

  lemma NestedIsLifo(s: State)
    requires Inv(s) && Nested(s)
    ensures Lifo(s)
  {
    if s.mu.Some? {
      var f := s.mu.value;
      assert Balanced(ActivationAt(s, f));
      var i :| 0 <= i < |s.entered| && s.entered[i] == f;
      HolderIsLast(s, i);
    }
  }

  lemma HolderIsLast(s: State, i: nat)
    requires Inv(s) && Nested(s) && i < |s.entered| && s.mu == Some(s.entered[i])
    ensures i == |s.entered| - 1
  {
    var e := s.entered;
    assert At(s, e[i]) && At(s, e[|e| - 1]);
    assert e[i].d == |s.stacks[e[i].g]| - 1;
  }

  lemma WithoutLast(fs: seq<Frame>)
    requires fs != []
    ensures Without(fs, fs[|fs| - 1]) == fs[..|fs| - 1]
  {}

  lemma NestedStep(s: State, t: Step)
    requires Inv(s) && Nested(s) && Enabled(s, t) && Disciplined(s, t)
    ensures Nested(Apply(s, t))
  {
    match t {
      case Invoke(g) => NestedInvoke(s, g);
      case Acquire(g) => NestedAcquire(s, g);
      case Callback(g) => SameFrames(s, t);
      case HandlerEnds(g, _) => SameFrames(s, t);
      case Reacquire(g) => SameFrames(s, t);
      case Return(g) => NestedIsLifo(s); NestedReturn(s, g);
    }
  }

  lemma NestedInvoke(s: State, g: nat)
    requires Inv(s) && Nested(s) && Enabled(s, Invoke(g))
    ensures Nested(Apply(s, Invoke(g)))
  {
    var s' := Apply(s, Invoke(g));
    forall f | At(s', f) && ActivationAt(s', f).locks > 0 ensures f in s'.entered {
      assert At(s, f) && ActivationAt(s, f) == ActivationAt(s', f);
    }
  }

  /** Steps between entering and returning change no activation's having entered. */
  lemma SameFrames(s: State, t: Step)
    requires Inv(s) && Present(s) && Complete(s) && Enabled(s, t) && (t.Callback? || t.HandlerEnds? || t.Reacquire?)
    ensures Present(Apply(s, t)) && Complete(Apply(s, t)) && Apply(s, t).entered == s.entered
  {
    var s' := Apply(s, t);
    forall f ensures At(s', f) <==> At(s, f)
      ensures At(s, f) ==> (ActivationAt(s', f).locks > 0 <==> ActivationAt(s, f).locks > 0)
    {
      SameFrame(s, t, f);
    }
  }

  lemma SameFrame(s: State, t: Step, f: Frame)
    requires Inv(s) && Enabled(s, t) && (t.Callback? || t.HandlerEnds? || t.Reacquire?)
    ensures At(Apply(s, t), f) <==> At(s, f)
    ensures At(s, f) ==> (ActivationAt(Apply(s, t), f).locks > 0 <==> ActivationAt(s, f).locks > 0)
  {
    assert Balanced(ActivationAt(s, TopFrame(s, t.g)));
  }

  lemma NestedAcquire(s: State, g: nat)
    requires Inv(s) && Nested(s) && Enabled(s, Acquire(g))
    ensures Nested(Apply(s, Acquire(g)))
  {
    var s', top := Apply(s, Acquire(g)), TopFrame(s, g);
    AcquireFrames(s, g);
    forall i | 0 <= i < |s.entered| && s.entered[i].g == g ensures s.entered[i].d < top.d {
      AcquireDeeper(s, g, i);
    }
    AppendOrdered(s.entered, top);
  }

  lemma AcquireDeeper(s: State, g: nat, i: nat)
    requires Inv(s) && Present(s) && Enabled(s, Acquire(g)) && i < |s.entered| && s.entered[i].g == g
    ensures s.entered[i].d < TopFrame(s, g).d
  {
    assert At(s, s.entered[i]) && ActivationAt(s, s.entered[i]).locks > 0;
    assert Balanced(ActivationAt(s, TopFrame(s, g)));
  }

  lemma AppendOrdered(e: seq<Frame>, top: Frame)
    requires Ordered(e) && OneOwner(e) && GuestRuns(e, None)
    requires forall i :: 0 <= i < |e| && e[i].g == top.g ==> e[i].d < top.d
    ensures Ordered(e + [top]) && OneOwner(e + [top])
  {}

  lemma AcquireFrames(s: State, g: nat)
    requires Inv(s) && Present(s) && Complete(s) && Enabled(s, Acquire(g))
    ensures Present(Apply(s, Acquire(g))) && Complete(Apply(s, Acquire(g)))
  {
    var s', top := Apply(s, Acquire(g)), TopFrame(s, g);
    forall f | At(s', f) && ActivationAt(s', f).locks > 0 ensures f in s'.entered {
      if f != top { assert At(s, f) && ActivationAt(s, f) == ActivationAt(s', f); }
    }
  }

  lemma NestedReturn(s: State, g: nat)
    requires Inv(s) && Nested(s) && Lifo(s) && Enabled(s, Return(g))
    ensures Nested(Apply(s, Return(g)))
    ensures s.entered != [] && TopFrame(s, g) == s.entered[|s.entered| - 1]
    ensures Apply(s, Return(g)).entered == s.entered[..|s.entered| - 1]
  {
    ReturnsLast(s, g);
    ReturnFrames(s, g);
    PrefixNested(s.entered);
  }

  lemma ReturnsLast(s: State, g: nat)
    requires Inv(s) && Lifo(s) && Enabled(s, Return(g))
    ensures s.entered != [] && TopFrame(s, g) == s.entered[|s.entered| - 1]
    ensures Apply(s, Return(g)).entered == s.entered[..|s.entered| - 1]
  {
    assert Holds(ActivationAt(s, TopFrame(s, g)).phase) && s.mu == Some(TopFrame(s, g));
    WithoutLast(s.entered);
  }

  lemma PrefixNested(e: seq<Frame>)
    requires e != [] && Ordered(e) && OneOwner(e)
    ensures Ordered(e[..|e| - 1]) && OneOwner(e[..|e| - 1]) && GuestRuns(e[..|e| - 1], None)
  {
    var front := e[..|e| - 1];
    assert forall i :: 0 <= i < |front| ==> front[i] == e[i];
  }

  lemma ReturnFrames(s: State, g: nat)
    requires Inv(s) && Present(s) && Complete(s) && Ordered(s.entered) && Enabled(s, Return(g))
    requires s.entered != [] && s.entered[|s.entered| - 1] == TopFrame(s, g)
    requires Apply(s, Return(g)).entered == s.entered[..|s.entered| - 1]
    ensures Present(Apply(s, Return(g))) && Complete(Apply(s, Return(g)))
  {
    var s', top := Apply(s, Return(g)), TopFrame(s, g);
    forall f | At(s', f) && ActivationAt(s', f).locks > 0 ensures f in s'.entered {
      assert At(s, f) && ActivationAt(s, f) == ActivationAt(s', f) && f != top;
      var i :| 0 <= i < |s.entered| && s.entered[i] == f;
      assert s'.entered[i] == f;
    }
    forall i | 0 <= i < |s'.entered| ensures At(s', s'.entered[i]) && ActivationAt(s', s'.entered[i]).locks > 0 {
      assert At(s, s.entered[i]) && s'.entered[i] == s.entered[i];
    }
  }

  lemma {:induction false} NestedAlways(ss: seq<State>, i: nat)
    requires DisciplinedRun(ss) && i < |ss|
    ensures Inv(ss[i]) && Nested(ss[i])
  {
    if i > 0 {
      NestedAlways(ss, i - 1);
      assert NextDisciplined(ss[i - 1], ss[i]);
      var t :| Enabled(ss[i - 1], t) && Disciplined(ss[i - 1], t) && ss[i] == Apply(ss[i - 1], t);
      InvStep(ss[i - 1], t);
      NestedStep(ss[i - 1], t);
    }
  }

  /** In a disciplined run activations are last in, first out: whoever executes entered
      last, and whoever returns is the last that entered. */
  lemma StackDiscipline(ss: seq<State>, i: nat, g: nat)
    requires DisciplinedRun(ss) && i < |ss|
    ensures Lifo(ss[i])
    ensures Enabled(ss[i], Return(g)) ==>
      var e := ss[i].entered;
      e != [] && e[|e| - 1] == TopFrame(ss[i], g) && Apply(ss[i], Return(g)).entered == e[..|e| - 1]
  {
    NestedAlways(ss, i);
    NestedIsLifo(ss[i]);
    if Enabled(ss[i], Return(g)) { NestedReturn(ss[i], g); }
  }

  // ---- the discipline is needed ---------------------------------------------

  ghost predicate NextKept(strict: bool, s: State, s': State) {
    exists t :: Enabled(s, t) && (strict ==> Disciplined(s, t)) && s' == Apply(s, t)
  }

  /** Consecutive states of an execution, which keeps the discipline if strict. */
  ghost predicate Path(strict: bool, ss: seq<State>) {
    |ss| > 0 && forall i {:trigger ss[i]} :: 0 < i < |ss| ==> NextKept(strict, ss[i - 1], ss[i])
  }

  ghost predicate Reaches(strict: bool, s: State, s': State) {
    exists ss :: Path(strict, ss) && ss[0] == s && ss[|ss| - 1] == s'
  }

  lemma Stay(strict: bool, s: State)
    ensures Reaches(strict, s, s)
  {
    var ss := [s];
    assert Path(strict, ss) && ss[|ss| - 1] == s;
  }

  lemma Onward(strict: bool, s0: State, s: State, t: Step) returns (s': State)
    requires Reaches(strict, s0, s) && Enabled(s, t) && (strict ==> Disciplined(s, t))
    ensures s' == Apply(s, t) && Reaches(strict, s0, s')
  {
    s' := Apply(s, t);
    var ss :| Path(strict, ss) && ss[0] == s0 && ss[|ss| - 1] == s;
    assert NextKept(strict, s, s');
    Extended(strict, ss, s');
  }

  lemma Extended(strict: bool, ss: seq<State>, s': State)
    requires Path(strict, ss) && NextKept(strict, ss[|ss| - 1], s')
    ensures Reaches(strict, ss[0], s')
  {
    var more := ss + [s'];
    forall i {:trigger more[i]} | 0 < i < |more| ensures NextKept(strict, more[i - 1], more[i]) {
      if i < |ss| { assert more[i - 1] == ss[i - 1] && more[i] == ss[i]; }
    }
    assert Path(strict, more) && more[|more| - 1] == s';
  }

  /** From any state a disciplined run reaches, a callback against the discipline leads,
      by disciplined steps alone, to a state where an earlier activation executes while a
      later one is unfinished. */
  lemma UndisciplinedCallbackBreaksLifo(ss: seq<State>, g: nat) returns (s': State)
    requires DisciplinedRun(ss)
    requires var s := ss[|ss| - 1]; Enabled(s, Callback(g)) && !Disciplined(s, Callback(g))
    ensures Reaches(true, Apply(ss[|ss| - 1], Callback(g)), s') && !Lifo(s')
  {
    NestedAlways(ss, |ss| - 1);
    s' := BreakFrom(ss[|ss| - 1], g);
  }

  lemma BreakFrom(s: State, g: nat) returns (s': State)
    requires Inv(s) && Nested(s) && Enabled(s, Callback(g)) && !Disciplined(s, Callback(g))
    ensures Reaches(true, Apply(s, Callback(g)), s') && !Lifo(s')
  {
    NestedIsLifo(s);
    var h := Suspended(s, g);
    var s1 := AfterCallback(s, g, h);
    Stay(true, s1);
    s' := BreakLifo(s1, h);
  }

  /** The discipline is exact: after a disciplined run a step is safe under every
      disciplined continuation if and only if it is disciplined itself. */
  lemma SafeIffDisciplined(ss: seq<State>, t: Step)
    requires DisciplinedRun(ss) && Enabled(ss[|ss| - 1], t)
    ensures (forall s' :: Reaches(true, Apply(ss[|ss| - 1], t), s') ==> Lifo(s')) <==> Disciplined(ss[|ss| - 1], t)
  {
    var s := ss[|ss| - 1];
    if Disciplined(s, t) {
      forall s' | Reaches(true, Apply(s, t), s') ensures Lifo(s') {
        var path :| Path(true, path) && path[0] == Apply(s, t) && path[|path| - 1] == s';
        assert NextDisciplined(s, path[0]);
        Joined(ss, path);
        StackDiscipline(ss + path, |ss + path| - 1, 0);
      }
    } else {
      var s' := UndisciplinedCallbackBreaksLifo(ss, t.g);
    }
  }

  lemma Joined(ss: seq<State>, path: seq<State>)
    requires DisciplinedRun(ss) && Path(true, path) && NextDisciplined(ss[|ss| - 1], path[0])
    ensures DisciplinedRun(ss + path)
  {
    var run := ss + path;
    forall i {:trigger run[i]} | 0 < i < |run| ensures NextDisciplined(run[i - 1], run[i]) {
      if i < |ss| {
        assert run[i - 1] == ss[i - 1] && run[i] == ss[i];
      } else if i > |ss| {
        var j := i - |ss|;
        assert run[i - 1] == path[j - 1] && run[i] == path[j];
        assert NextKept(true, path[j - 1], path[j]);
      }
    }
  }

  /** h has given up the lock in a callback and has not resumed yet. */
  predicate Away(s: State, h: nat) {
    TopIs(s, h, Relocking) || TopIs(s, h, InHandler)
    || (TopIs(s, h, Waiting) && |StackOf(s, h)| > 1 && StackOf(s, h)[|StackOf(s, h)| - 2].phase == InHandler)
  }

  /** Nobody executes, and the last to have entered is not h's. */
  predicate LaterUnfinished(s: State, h: nat) {
    s.mu == None && s.entered != [] && s.entered[|s.entered| - 1].g != h
  }

  lemma BreakLifo(s: State, h: nat) returns (s': State)
    requires Reaches(true, s, s) && LaterUnfinished(s, h) && Away(s, h)
    ensures Reaches(true, s, s') && !Lifo(s')
  {
    if TopIs(s, h, Waiting) {
      var s1 := NestedEntryFirst(s, h);
      s' := LeaveHandlerOutOfOrder(true, s, s1, h);
    } else if TopIs(s, h, InHandler) {
      s' := LeaveHandlerOutOfOrder(true, s, s, h);
    } else {
      s' := ResumeOutOfOrder(true, s, s, h);
    }
  }

  lemma AfterCallback(s: State, g: nat, h: nat) returns (s1: State)
    requires Enabled(s, Callback(g)) && h != g
    ensures s1 == Apply(s, Callback(g)) && (Away(s1, h) <==> Away(s, h)) && s1.mu == None && s1.entered == s.entered
  {
    s1 := Apply(s, Callback(g));
  }

  /** With a later activation unfinished, goroutine h resumes its own. */
  lemma ResumeOutOfOrder(strict: bool, s0: State, s: State, h: nat) returns (s': State)
    requires Reaches(strict, s0, s) && LaterUnfinished(s, h) && TopIs(s, h, Relocking)
    ensures Reaches(strict, s0, s') && !Lifo(s')
  {
    s' := Onward(strict, s0, s, Reacquire(h));
  }

  lemma LeaveHandlerOutOfOrder(strict: bool, s0: State, s: State, h: nat) returns (s': State)
    requires Reaches(strict, s0, s) && LaterUnfinished(s, h) && TopIs(s, h, InHandler)
    ensures Reaches(strict, s0, s') && !Lifo(s')
  {
    var s1 := Onward(strict, s0, s, HandlerEnds(h, false));
    s' := ResumeOutOfOrder(strict, s0, s1, h);
  }

  /** The other goroutine that is suspended: it is in a handler, on its way back from one,
      or waiting to enter again from one. */
  lemma Suspended(s: State, g: nat) returns (h: nat)
    requires Inv(s) && Nested(s) && Lifo(s) && Enabled(s, Callback(g)) && !Disciplined(s, Callback(g))
    ensures h != g && s.entered[|s.entered| - 1] == TopFrame(s, g)
    ensures Away(s, h)
  {
    var top := TopFrame(s, g);
    assert Holds(ActivationAt(s, top).phase) && s.mu == Some(top);
    var i :| 0 <= i < |s.entered| && s.entered[i].g != g;
    h := s.entered[i].g;
    assert At(s, s.entered[i]) && Balanced(ActivationAt(s, s.entered[i]));
    var f := Frame(h, |s.stacks[h]| - 1);
    assert At(s, f) && !Holds(ActivationAt(s, f).phase);
    if s.entered[i] != f { assert At(s, Frame(h, f.d - 1)); }
  }

  /** A nested entry that is waiting runs to its end; nothing else changes. */
  lemma NestedEntryFirst(s: State, h: nat) returns (s': State)
    requires Reaches(true, s, s) && s.mu == None && TopIs(s, h, Waiting)
    requires |StackOf(s, h)| > 1 && StackOf(s, h)[|StackOf(s, h)| - 2].phase == InHandler
    ensures Reaches(true, s, s') && TopIs(s', h, InHandler) && s'.mu == None && s'.entered == s.entered
  {
    NestedAcquired(s, h);
    var s1 := Onward(true, s, s, Acquire(h));
    NestedReturned(s1, h);
    s' := Onward(true, s, s1, Return(h));
  }

  lemma NestedAcquired(s: State, h: nat)
    requires s.mu == None && TopIs(s, h, Waiting)
    ensures var s1 := Apply(s, Acquire(h));
      && TopIs(s1, h, Running) && StackOf(s1, h)[..|StackOf(s, h)| - 1] == StackOf(s, h)[..|StackOf(s, h)| - 1]
      && |StackOf(s1, h)| == |StackOf(s, h)| && s1.entered == s.entered + [TopFrame(s, h)]
  {}

  lemma NestedReturned(s: State, h: nat)
    requires TopIs(s, h, Running) && s.entered != [] && s.entered[|s.entered| - 1] == TopFrame(s, h)
    ensures var s1 := Apply(s, Return(h));
      && StackOf(s1, h) == StackOf(s, h)[..|StackOf(s, h)| - 1]
      && s1.mu == None && s1.entered == s.entered[..|s.entered| - 1]
  {
    WithoutLast(s.entered);
  }

  predicate Solo(s: State, g: nat, phase: Phase) { |StackOf(s, g)| == 1 && TopIs(s, g, phase) }

  /** One step of a goroutine with at most one activation leaves the others alone. */
  lemma SoloStep(s: State, t: Step, h: nat)
    requires Enabled(s, t) && |StackOf(s, t.g)| <= 1 && (t.Invoke? ==> StackOf(s, t.g) == []) && h != t.g
    ensures StackOf(Apply(s, t), h) == StackOf(s, h)
    ensures t.Invoke? ==> Solo(Apply(s, t), t.g, Waiting) && Apply(s, t).mu == s.mu && Apply(s, t).entered == s.entered
    ensures t.Acquire? ==>
      && Solo(Apply(s, t), t.g, Running) && Apply(s, t).mu == Some(Frame(t.g, 0))
      && Apply(s, t).entered == s.entered + [Frame(t.g, 0)]
    ensures t.Callback? ==>
      Solo(Apply(s, t), t.g, InHandler) && Apply(s, t).mu == None && Apply(s, t).entered == s.entered
  {}

  /** A goroutine that has nothing to do with the guest yet enters it and calls back. */
  lemma EnterAndCallBack(s0: State, s: State, g: nat, h: nat) returns (s': State)
    requires Reaches(false, s0, s) && StackOf(s, g) == [] && s.mu == None && g != h
    ensures Reaches(false, s0, s') && Solo(s', g, InHandler) && StackOf(s', h) == StackOf(s, h)
    ensures s'.mu == None && s'.entered == s.entered + [Frame(g, 0)]
  {
    SoloStep(s, Invoke(g), h);
    var s1 := Onward(false, s0, s, Invoke(g));
    SoloStep(s1, Acquire(g), h);
    var s2 := Onward(false, s0, s1, Acquire(g));
    SoloStep(s2, Callback(g), h);
    s' := Onward(false, s0, s2, Callback(g));
  }

  /** The lock alone does not give stack discipline: two goroutines call back, and the
      first to have entered resumes first. */
  lemma LockAloneIsNotEnough() returns (ss: seq<State>)
    ensures Run(ss) && !Lifo(ss[|ss| - 1])
  {
    var s0 := State(map[], None, [], false);
    Stay(false, s0);
    var s1 := EnterAndCallBack(s0, s0, 0, 1);
    var s2 := EnterAndCallBack(s0, s1, 1, 0);
    var s3 := LeaveHandlerOutOfOrder(false, s0, s2, 0);
    ss :| Path(false, ss) && ss[0] == s0 && ss[|ss| - 1] == s3;
    forall i {:trigger ss[i]} | 0 < i < |ss| ensures Next(ss[i - 1], ss[i]) {
      assert NextKept(false, ss[i - 1], ss[i]);
    }
  }
}
