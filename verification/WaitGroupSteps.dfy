/**
  The stoppable wait group under every interleaving: any number of goroutines, each inside
  `Add`, `Done` or `Stop`, with every channel check, atomic add and close a step of its own.
 */
module WaitGroupSteps {
  import opened WaitGroup

  type Tid = nat

  /** Where a goroutine is. `stop` tells the calls that `Stop` makes itself from a user's. */
  datatype Pc =
    | Idle
    | StopEnter
    | AddCheck(stop: bool)
    | AddInc(stop: bool)
    | StopClose
    | DoneCheck(stop: bool)
    | DoneBranch(stop: bool)
    | DecClosed(stop: bool)
    | DecOpen(stop: bool)
    | Recheck(stop: bool, a: int)
    | Release(stop: bool)
    | StopLeave
  {
    /** Between entering the body that `stopOnce` runs and leaving it. */
    predicate InStop() {
      match this
      case Idle => false
      case StopEnter => false
      case StopClose => true
      case StopLeave => true
      case _ => stop
    }

    /** About to decrement, or about to decide to. */
    predicate BeforeDecrement() {
      DoneCheck? || DoneBranch? || DecClosed? || DecOpen?
    }

    predicate InDone() {
      BeforeDecrement() || Recheck? || Release?
    }

    /** Past a decrement to zero or below, and bound to close `noopDone` once `noopAdd` is closed. */
    predicate Pending() {
      Release? || (Recheck? && a <= 0)
    }
  }

  /** The shared fields, where every goroutine is, and which one last entered the body of `Stop`. */
  datatype State = State(g: Group, pcs: map<Tid, Pc>, stopper: Tid) {
    function At(t: Tid): Pc {
      if t in pcs then pcs[t] else Idle
    }

    function Goto(t: Tid, pc: Pc): State {
      this.(pcs := pcs[t := pc])
    }
  }

  const INIT := State(NEW_GROUP, map[], 0)

  datatype Call = CallAdd | CallDone | CallStop

  datatype Action = Begin(t: Tid, call: Call) | Go(t: Tid)

  function Entry(c: Call): Pc {
    match c
    case CallAdd => AddCheck(false)
    case CallDone => DoneCheck(false)
    case CallStop => StopEnter
  }

  predicate Enabled(s: State, a: Action) {
    a.Begin? <==> s.At(a.t).Idle?
  }

  function AfterAdd(stop: bool): Pc {
    if stop then StopClose else Idle
  }

  function AfterDone(stop: bool): Pc {
    if stop then StopLeave else Idle
  }

  /** Where a step leads. A goroutine that waits for `stopOnce` stays put. */
  function StepPc(g: Group, pc: Pc): Pc {
    match pc
    case Idle => Idle
    case StopEnter =>
      (match g.stopOnce
       case Unused => AddCheck(true)
       case Running => StopEnter
       case Used => Idle)
    case AddCheck(stop) => if g.noopAdd then AfterAdd(stop) else AddInc(stop)
    case AddInc(stop) => AfterAdd(stop)
    case StopClose => DoneCheck(true)
    case DoneCheck(stop) => if g.noopDone then AfterDone(stop) else DoneBranch(stop)
    case DoneBranch(stop) => if g.noopAdd then DecClosed(stop) else DecOpen(stop)
    case DecClosed(stop) => if g.i - 1 <= 0 then Release(stop) else AfterDone(stop)
    case DecOpen(stop) => Recheck(stop, g.i - 1)
    case Recheck(stop, a) => if g.noopAdd && a <= 0 then Release(stop) else AfterDone(stop)
    case Release(stop) => AfterDone(stop)
    case StopLeave => Idle
  }

  /** What a step does to the shared fields. */
  function StepGroup(g: Group, pc: Pc): Group {
    match pc
    case StopEnter => if g.stopOnce == Unused then g.(stopOnce := Running) else g
    case AddInc(_) => g.(i := g.i + 1)
    case StopClose => g.(noopAdd := true)
    case DecClosed(_) => g.(i := g.i - 1)
    case DecOpen(_) => g.(i := g.i - 1)
    case Release(_) => CloseDone(g)
    case StopLeave => g.(stopOnce := Used)
    case _ => g
  }

  function Advance(s: State, t: Tid): State {
    var pc := s.At(t);
    State(StepGroup(s.g, pc),
          s.pcs[t := StepPc(s.g, pc)],
          if pc.StopEnter? && s.g.stopOnce == Unused then t else s.stopper)
  }

  function Do(s: State, a: Action): State {
    match a
    case Begin(t, call) => s.Goto(t, Entry(call))
    case Go(t) => Advance(s, t)
  }

  ghost predicate Next(s: State, s': State) {
    exists a :: Enabled(s, a) && s' == Do(s, a)
  }

  ghost predicate IsRun(run: seq<State>) {
    && |run| > 0
    && run[0] == INIT
    && forall j, k :: 0 <= j < k < |run| && k == j + 1 ==> Next(run[j], run[k])
  }

  // ------------------------------------------------------------ the inductive invariant

  /** Within the body of `Stop`, still before its decrement or before it learns that none is needed. */
  predicate OwesAt(pc: Pc) {
    pc.AddCheck? || pc.AddInc? || pc.StopClose? || pc.BeforeDecrement()
  }

  predicate StopOwes(s: State) {
    s.g.stopOnce == Unused || (s.g.stopOnce == Running && OwesAt(s.At(s.stopper)))
  }

  ghost predicate SomePending(s: State) {
    exists t {:trigger s.At(t)} :: s.At(t).Pending()
  }

  /** The body of `Stop` is run by `stopper` alone, closes `noopAdd` halfway, and so never takes
      the open branch of its `Done`; a decrement in the closed branch finds `noopAdd` closed. */
  predicate PcOk(s: State, t: Tid) {
    && (s.At(t).InStop() ==>
          && s.g.stopOnce == Running && s.stopper == t
          && (s.g.noopAdd <==> !(s.At(t).AddCheck? || s.At(t).AddInc? || s.At(t).StopClose?))
          && !s.At(t).DecOpen? && !s.At(t).Recheck?)
    && (s.At(t).Release? || s.At(t).DecClosed? ==> s.g.noopAdd)
  }

  ghost predicate StopInv(s: State) {
    && s.g.doneOnce == s.g.noopDone
    && (s.g.noopDone ==> s.g.noopAdd)
    && (s.g.stopOnce == Unused ==> !s.g.noopAdd)
    && (s.g.stopOnce == Used ==> s.g.noopAdd)
    && (s.g.stopOnce == Running ==> s.At(s.stopper).InStop())
    && forall t :: PcOk(s, t)
  }

  ghost predicate Inv(s: State) {
    && StopInv(s)
    && (!StopOwes(s) && s.g.i <= 0 ==> s.g.noopDone || SomePending(s))
  }

  lemma Others(s: State, a: Action, u: Tid)
    requires Enabled(s, a) && u != a.t
    ensures Do(s, a).At(u) == s.At(u)
  {
  }

  lemma StopInvStep(s: State, a: Action)
    requires StopInv(s) && Enabled(s, a)
    ensures StopInv(Do(s, a))
  {
    var s', t := Do(s, a), a.t;
    assert PcOk(s, t);
    forall u ensures PcOk(s', u) {
      assert PcOk(s, u);
      if u != t { Others(s, a, u); }
    }
    if s.stopper != t { Others(s, a, s.stopper); }
  }

  lemma InvStep(s: State, a: Action)
    requires Inv(s) && Enabled(s, a)
    ensures Inv(Do(s, a))
  {
    StopInvStep(s, a);
    var s', t := Do(s, a), a.t;
    assert PcOk(s, t) && PcOk(s, s.stopper) && PcOk(s', s'.stopper);
    if s.stopper != t { Others(s, a, s.stopper); }
    if !StopOwes(s') && s'.g.i <= 0 && !s'.g.noopDone && !s'.At(t).Pending() {
      assert s'.g.noopAdd;
      var p :| s.At(p).Pending();
      assert p != t;
      Others(s, a, p);
      assert s'.At(p).Pending();
    }
  }

  lemma {:induction false} RunInv(run: seq<State>, k: nat)
    requires IsRun(run) && k < |run|
    ensures Inv(run[k])
  {
    if k == 0 {
      assert forall t {:trigger INIT.At(t)} :: INIT.At(t) == Idle;
    } else {
      RunInv(run, k - 1);
      assert Next(run[k - 1], run[k]);
      var a :| Enabled(run[k - 1], a) && run[k] == Do(run[k - 1], a);
      InvStep(run[k - 1], a);
    }
  }

  // ------------------------------------------------------------ main results

  /** No missed release: whoever calls what in which order, once `Stop` has returned and nobody is
      between a decrement and its close, a counter at or below zero has released the waiters. */
  lemma NoMissedRelease(run: seq<State>, k: nat)
    requires IsRun(run) && k < |run|
    requires run[k].g.stopOnce == Used && run[k].g.i <= 0
    requires forall t {:trigger run[k].At(t)} :: !run[k].At(t).InDone()
    ensures run[k].g.noopDone
  {
    RunInv(run, k);
  }

  /** While somebody still is in between, the release is only two of that goroutine's own steps away. */
  lemma PendingReleases(run: seq<State>, k: nat)
    requires IsRun(run) && k < |run|
    requires run[k].g.stopOnce == Used && run[k].g.i <= 0
    ensures run[k].g.noopDone || exists t :: Advance(Advance(run[k], t), t).g.noopDone
  {
    RunInv(run, k);
    if !run[k].g.noopDone {
      var t :| run[k].At(t).Pending();
      assert Advance(Advance(run[k], t), t).g.noopDone;
    }
  }

  /** Neither channel is ever closed a second time, which would panic. */
  lemma ClosedOnce(run: seq<State>, k: nat, t: Tid)
    requires IsRun(run) && k < |run|
    ensures run[k].At(t).StopClose? ==> !run[k].g.noopAdd
    ensures run[k].At(t).Release? && !run[k].g.doneOnce ==> !run[k].g.noopDone
  {
    RunInv(run, k);
    assert PcOk(run[k], t);
  }

  /** `n` steps of goroutine `t` with nobody else moving. */
  function Solo(s: State, t: Tid, n: nat): State
    decreases n
  {
    if n == 0 then s else Solo(Advance(s, t), t, n - 1)
  }

  function AsOp(call: Call): Op {
    match call
    case CallAdd => Op.Add
    case CallDone => Op.Done
    case CallStop => Op.Stop
  }

  lemma SoloAppend(s: State, t: Tid, n: nat, m: nat)
    ensures Solo(s, t, n + m) == Solo(Solo(s, t, n), t, m)
    decreases n
  {
    if n > 0 {
      SoloAppend(Advance(s, t), t, n - 1, m);
    }
  }

  lemma SoloAdd(s: State, t: Tid, stop: bool) returns (n: nat)
    requires s.At(t) == AddCheck(stop)
    ensures Solo(s, t, n) == State(AddOf(s.g), s.pcs[t := AfterAdd(stop)], s.stopper)
  {
    n := if s.g.noopAdd then 1 else 2;
    SoloAppend(s, t, 1, n - 1);
  }

  lemma SoloDone(s: State, t: Tid, stop: bool) returns (n: nat)
    requires s.At(t) == DoneCheck(stop)
    ensures Solo(s, t, n) == State(DoneOf(s.g), s.pcs[t := AfterDone(stop)], s.stopper)
  {
    var s1 := Advance(s, t);
    var s2 := Advance(s1, t);
    var s3 := Advance(s2, t);
    var s4 := Advance(s3, t);
    n := if s.g.noopDone then 1 else if s.g.noopAdd && s.g.i - 1 > 0 then 3 else 4;
    SoloAppend(s, t, 1, n - 1);
    if n > 1 {
      SoloAppend(s1, t, 1, n - 2);
      SoloAppend(s2, t, 1, n - 3);
    }
    assert Solo(s, t, n) == if n == 1 then s1 else if n == 3 then s3 else s4;
  }

  lemma SoloStop(s: State, t: Tid) returns (n: nat)
    requires s.At(t).StopEnter? && s.g.stopOnce != Running
    ensures Solo(s, t, n).g == StopOf(s.g)
    ensures Solo(s, t, n).pcs == s.pcs[t := Idle]
  {
    n := 1;
    var s1 := Advance(s, t);
    assert Solo(s, t, 1) == s1;
    if s.g.stopOnce == Unused {
      var p := SoloAdd(s1, t, true);
      var s2 := Solo(s1, t, p);
      var s3 := Advance(s2, t);
      var q := SoloDone(s3, t, true);
      var s4 := Solo(s3, t, q);
      n := 1 + p + 1 + q + 1;
      SoloAppend(s, t, 1, p);
      SoloAppend(s, t, 1 + p, 1);
      SoloAppend(s, t, 1 + p + 1, q);
      SoloAppend(s, t, 1 + p + 1 + q, 1);
      assert Solo(s2, t, 1) == s3 && Solo(s4, t, 1) == Advance(s4, t);
    }
  }

  /** A call that nobody interrupts comes back and has the effect of the atomic method. */
  lemma SoloCallIsAtomic(s: State, t: Tid, call: Call) returns (n: nat)
    requires s.At(t).Idle? && s.g.stopOnce != Running
    ensures Solo(Do(s, Begin(t, call)), t, n).g == Apply(s.g, AsOp(call))
    ensures Solo(Do(s, Begin(t, call)), t, n).pcs == s.pcs[t := Idle]
  {
    var s0 := Do(s, Begin(t, call));
    match call {
      case CallAdd => n := SoloAdd(s0, t, false);
      case CallDone => n := SoloDone(s0, t, false);
      case CallStop => n := SoloStop(s0, t);
    }
  }
}
