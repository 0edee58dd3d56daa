/**
  Which callers of the stoppable wait group are released too early. Runs of `WaitGroupSteps` are
  extended with a ledger of who holds a counted `Add` that has not been paid back by a `Done`.
 */
module WaitGroupLedger {
  import opened WaitGroup
  import opened W = WaitGroupSteps

  /**
    `held`: the goroutines owing a `Done`, once for each counted `Add` they hold.
    `setup`: only the first `Add`s have been called, neither `Done` nor `Stop`.
    `stopHeld`: the `Add` that `Stop` makes itself is counted and not yet taken back.
   */
  datatype Ledger = Ledger(s: State, held: multiset<Tid>, setup: bool, stopHeld: bool)

  const START := Ledger(INIT, multiset{}, true, false)

  datatype Move = Step(a: Action) | HandOver(from: Tid, to: Tid) | EndSetup

  /**
    Every `Done` pays for one counted `Add` that its caller holds. With `strict`, also: after set-up
    an `Add` is only called by a goroutine that holds a counted `Add` already.
   */
  ghost predicate Legal(d: Ledger, m: Move, strict: bool) {
    match m
    case Step(a) =>
      && Enabled(d.s, a)
      && (a.Begin? && a.call.CallAdd? && strict ==> d.setup || a.t in d.held)
      && (a.Begin? && a.call.CallDone? ==> !d.setup && a.t in d.held)
      && (a.Begin? && a.call.CallStop? ==> !d.setup)
    case HandOver(from, to) => d.s.At(from).Idle? && from in d.held
    case EndSetup => forall t {:trigger d.s.At(t)} :: d.s.At(t).Idle?
  }

  predicate CountsAdd(d: Ledger, m: Move) {
    m.Step? && m.a.Go? && d.s.At(m.a.t) == AddInc(false)
  }

  function HeldAfter(held: multiset<Tid>, t: Tid, pc: Pc): multiset<Tid> {
    if pc == AddInc(false) then held + multiset{t}
    else if pc == DecClosed(false) || pc == DecOpen(false) then held - multiset{t}
    else held
  }

  function Post(d: Ledger, m: Move): Ledger {
    match m
    case Step(a) =>
      Ledger(W.Do(d.s, a),
             if a.Go? then HeldAfter(d.held, a.t, d.s.At(a.t)) else d.held,
             d.setup,
             if a.Go? && d.s.At(a.t) == AddInc(true) then true
             else if a.Go? && d.s.At(a.t) == DecClosed(true) then false
             else d.stopHeld)
    case HandOver(from, to) => d.(held := d.held - multiset{from} + multiset{to})
    case EndSetup => d.(setup := false)
  }

  ghost predicate Linked(d: Ledger, d': Ledger, strict: bool) {
    exists m :: Legal(d, m, strict) && d' == Post(d, m)
  }

  ghost predicate IsRun(run: seq<Ledger>, strict: bool) {
    && |run| > 0
    && run[0] == START
    && forall j, k :: 0 <= j < k < |run| && k == j + 1 ==> Linked(run[j], run[k], strict)
  }

  /** Waiters have been released although a counted `Add` has not been paid back. */
  predicate Early(d: Ledger) {
    d.s.g.noopDone && d.held != multiset{}
  }

  // ------------------------------------------------------------ the invariant of every paid run

  function Count(d: Ledger): int {
    |d.held| + if d.stopHeld then 1 else 0
  }

  /** The `Add` of `Stop` is counted from its increment to its decrement, or for good when the
      `Done` of `Stop` found the waiters released already. */
  predicate StopHeldOk(d: Ledger, t: Tid) {
    d.s.At(t).InStop() ==>
      match d.s.At(t)
      case AddCheck(_) => !d.stopHeld
      case AddInc(_) => !d.stopHeld
      case Release(_) => !d.stopHeld
      case StopLeave => d.stopHeld ==> d.s.g.noopDone
      case _ => d.stopHeld
  }

  predicate HoldsOk(d: Ledger, t: Tid) {
    && (d.s.At(t).BeforeDecrement() && !d.s.At(t).stop ==> t in d.held)
    && (d.s.At(t).InDone() && !d.s.At(t).stop ==> !d.setup)
  }

  ghost predicate PaidInv(d: Ledger) {
    && Inv(d.s)
    && d.s.g.i == Count(d)
    && (d.setup ==> d.s.g.stopOnce == Unused)
    && (d.s.g.stopOnce == Unused ==> !d.stopHeld)
    && (d.s.g.stopOnce == Used && d.stopHeld ==> d.s.g.noopDone)
    && (forall t :: StopHeldOk(d, t))
    && (forall t :: HoldsOk(d, t))
    && (forall t {:trigger d.s.At(t)} :: d.s.At(t).StopEnter? ==> !d.setup)
  }

  lemma StopHeldStep(d: Ledger, a: Action, u: Tid)
    requires Legal(d, Step(a), false)
    requires StopHeldOk(d, u) && StopHeldOk(d, a.t) && PcOk(d.s, a.t)
    requires PcOk(d.s, u) && (d.s.g.stopOnce == Unused ==> !d.stopHeld)
    ensures StopHeldOk(Post(d, Step(a)), u)
  {
    if u != a.t {
      Others(d.s, a, u);
    }
  }

  lemma HeldOfOthers(held: multiset<Tid>, t: Tid, pc: Pc, u: Tid)
    requires u != t
    ensures u in HeldAfter(held, t, pc) <==> u in held
  {
  }

  lemma HoldsStep(d: Ledger, a: Action, u: Tid)
    requires Legal(d, Step(a), false) && HoldsOk(d, u) && HoldsOk(d, a.t)
    ensures HoldsOk(Post(d, Step(a)), u)
  {
    if u != a.t {
      Others(d.s, a, u);
      HeldOfOthers(d.held, a.t, d.s.At(a.t), u);
    } else if a.Go? {
      assert Post(d, Step(a)).s.At(u) == StepPc(d.s.g, d.s.At(u));
    }
  }

  /** What a step adds to the number of counted `Add`s held by goroutines, or by `Stop`. */
  function Change(pc: Pc, stop: bool): int {
    if pc == AddInc(stop) then 1 else if pc == DecClosed(stop) || pc == DecOpen(stop) then -1 else 0
  }

  lemma HeldChange(held: multiset<Tid>, t: Tid, pc: Pc)
    requires pc == DecClosed(false) || pc == DecOpen(false) ==> t in held
    ensures |HeldAfter(held, t, pc)| == |held| + Change(pc, false)
  {
    if pc == DecClosed(false) || pc == DecOpen(false) {
      assert held == (held - multiset{t}) + multiset{t};
    }
  }

  lemma GroupChange(g: Group, pc: Pc)
    ensures StepGroup(g, pc).i == g.i + Change(pc, false) + Change(pc, true)
  {
  }

  lemma CountStep(d: Ledger, a: Action)
    requires Legal(d, Step(a), false) && d.s.g.i == Count(d)
    requires StopHeldOk(d, a.t) && HoldsOk(d, a.t) && PcOk(d.s, a.t)
    ensures Post(d, Step(a)).s.g.i == Count(Post(d, Step(a)))
  {
    if a.Go? {
      HeldChange(d.held, a.t, d.s.At(a.t));
      GroupChange(d.s.g, d.s.At(a.t));
    }
  }

  lemma PaidStep(d: Ledger, m: Move)
    requires PaidInv(d) && Legal(d, m, false)
    ensures PaidInv(Post(d, m))
  {
    var d' := Post(d, m);
    match m {
      case Step(a) =>
        PaidActionStep(d, a);
      case HandOver(from, to) =>
        assert d.held == (d.held - multiset{from}) + multiset{from};
        forall t ensures StopHeldOk(d', t) && HoldsOk(d', t) {
          assert StopHeldOk(d, t) && HoldsOk(d, t);
        }
      case EndSetup =>
        forall t ensures StopHeldOk(d', t) && HoldsOk(d', t) {
          assert StopHeldOk(d, t) && HoldsOk(d, t);
        }
    }
  }

  lemma PaidActionStep(d: Ledger, a: Action)
    requires PaidInv(d) && Legal(d, Step(a), false)
    ensures PaidInv(Post(d, Step(a)))
  {
    var d' := Post(d, Step(a));
    InvStep(d.s, a);
    assert StopHeldOk(d, a.t) && HoldsOk(d, a.t) && PcOk(d.s, a.t);
    CountStep(d, a);
    forall u ensures StopHeldOk(d', u) && HoldsOk(d', u) {
      assert StopHeldOk(d, u) && HoldsOk(d, u) && PcOk(d.s, u);
      StopHeldStep(d, a, u);
      HoldsStep(d, a, u);
    }
    forall u {:trigger d'.s.At(u)} ensures d'.s.At(u).StopEnter? ==> !d'.setup {
      assert u != a.t ==> d'.s.At(u) == d.s.At(u);
    }
  }

  lemma {:induction false} PaidRun(run: seq<Ledger>, strict: bool, k: nat)
    requires IsRun(run, strict) && k < |run|
    ensures PaidInv(run[k])
  {
    if k == 0 {
      assert forall t {:trigger INIT.At(t)} :: INIT.At(t) == Idle;
    } else {
      PaidRun(run, strict, k - 1);
      assert Linked(run[k - 1], run[k], strict);
      var m :| Legal(run[k - 1], m, strict) && run[k] == Post(run[k - 1], m);
      PaidStep(run[k - 1], m);
    }
  }

  // ------------------------------------------------------------ when exactly a release comes too early

  ghost predicate Closing(d: Ledger) {
    d.s.g.noopDone || SomePending(d.s)
  }

  /** The release has been decided while a counted `Add` is still unpaid. */
  ghost predicate Doomed(d: Ledger) {
    d.held != multiset{} && Closing(d)
  }

  lemma HeldGrowsByAdds(d: Ledger, m: Move)
    requires Legal(d, m, false) && !CountsAdd(d, m) && Post(d, m).held != multiset{}
    ensures d.held != multiset{}
  {
  }

  lemma LateAddDooms(d: Ledger, a: Action)
    requires Legal(d, Step(a), false) && CountsAdd(d, Step(a)) && Closing(d)
    ensures Doomed(Post(d, Step(a)))
  {
    var d' := Post(d, Step(a));
    assert a.t in d'.held;
    if !d.s.g.noopDone {
      var p :| d.s.At(p).Pending();
      Others(d.s, a, p);
      assert d'.s.At(p).Pending();
    }
  }

  /** A decrement to zero or below is only made when nothing is left to pay. */
  lemma DecisionIsRight(d: Ledger, a: Action)
    requires PaidInv(d) && Legal(d, Step(a), false) && !CountsAdd(d, Step(a))
    requires !d.s.At(a.t).Pending() && Post(d, Step(a)).s.At(a.t).Pending()
    ensures Post(d, Step(a)).held == multiset{}
  {
    assert PcOk(d.s, a.t) && StopHeldOk(d, a.t) && HoldsOk(d, a.t);
    CountStep(d, a);
    assert |Post(d, Step(a)).held| <= 0;
  }

  /** What is being closed was decided by someone, or is decided in this step. */
  lemma ClosingStep(d: Ledger, a: Action)
    requires PaidInv(d) && Legal(d, Step(a), false) && Closing(Post(d, Step(a)))
    ensures Closing(d) || (!d.s.At(a.t).Pending() && Post(d, Step(a)).s.At(a.t).Pending())
  {
    var d' := Post(d, Step(a));
    if d'.s.g.noopDone {
      assert d.s.g.noopDone || d.s.At(a.t).Pending();
    } else {
      var p :| d'.s.At(p).Pending();
      if p != a.t { Others(d.s, a, p); }
      assert p != a.t ==> d.s.At(p).Pending();
    }
  }

  /** A paid group becomes doomed by one kind of step only: an increment after the decision. */
  lemma DoomedStep(d: Ledger, m: Move)
    requires PaidInv(d) && Legal(d, m, false) && !Doomed(d)
    ensures Doomed(Post(d, m)) <==> CountsAdd(d, m) && Closing(d)
  {
    if CountsAdd(d, m) && Closing(d) {
      LateAddDooms(d, m.a);
    } else if Doomed(Post(d, m)) {
      if m.Step? {
        ClosingStep(d, m.a);
        if !CountsAdd(d, m) {
          HeldGrowsByAdds(d, m);
          DecisionIsRight(d, m.a);
        }
      } else {
        HeldGrowsByAdds(d, m);
        assert Closing(d);
      }
    }
  }

  /** A step that no caller of `Add` takes part in, or takes part in without being counted. */
  ghost predicate QuietLink(d: Ledger, d': Ledger) {
    exists m :: Legal(d, m, false) && !CountsAdd(d, m) && d' == Post(d, m)
  }

  ghost predicate Quiet(seg: seq<Ledger>) {
    |seg| > 0 && forall j, k :: 0 <= j < k < |seg| && k == j + 1 ==> QuietLink(seg[j], seg[k])
  }

  lemma {:induction false} QuietKeepsSafe(seg: seq<Ledger>, k: nat)
    requires Quiet(seg) && PaidInv(seg[0]) && !Doomed(seg[0]) && k < |seg|
    ensures PaidInv(seg[k]) && !Doomed(seg[k])
  {
    if k > 0 {
      QuietKeepsSafe(seg, k - 1);
      assert QuietLink(seg[k - 1], seg[k]);
      var m :| Legal(seg[k - 1], m, false) && !CountsAdd(seg[k - 1], m) && seg[k] == Post(seg[k - 1], m);
      PaidStep(seg[k - 1], m);
      DoomedStep(seg[k - 1], m);
    }
  }

  lemma Extend(seg: seq<Ledger>, m: Move) returns (longer: seq<Ledger>)
    requires Quiet(seg) && Legal(seg[|seg| - 1], m, false) && !CountsAdd(seg[|seg| - 1], m)
    ensures Quiet(longer) && longer[0] == seg[0]
    ensures |longer| == |seg| + 1 && longer[|seg|] == Post(seg[|seg| - 1], m)
  {
    longer := seg + [Post(seg[|seg| - 1], m)];
    assert QuietLink(longer[|seg| - 1], longer[|seg|]);
  }

  lemma FreshTid(used: set<Tid>) returns (t: Tid)
    ensures forall u :: u in used ==> u < t
  {
    t := 0;
    if used != {} {
      var u :| u in used;
      t := FreshTid(used - {u});
      t := if u < t then t else u + 1;
      assert forall v :: v in used ==> v in used - {u} || v == u;
    }
  }

  /** Steps of `Stop` still missing until it closes `noopAdd`. */
  function StopRank(s: State): nat {
    if s.g.stopOnce == Unused then 5
    else match s.At(s.stopper) case AddCheck(_) => 3 case AddInc(_) => 2 case _ => 1
  }

  lemma StartStop(seg: seq<Ledger>, d: Ledger, t: Tid) returns (longer: seq<Ledger>, d': Ledger)
    requires Quiet(seg) && d == seg[|seg| - 1] && PaidInv(d)
    requires d.s.At(t).Pending() && d.s.g.stopOnce == Unused
    ensures Quiet(longer) && longer[0] == seg[0] && longer[|longer| - 1] == d' && PaidInv(d')
    ensures d'.s.g == d.s.g.(stopOnce := Running) && d'.held == d.held && d'.s.At(t) == d.s.At(t)
    ensures d'.s.At(d'.s.stopper).AddCheck?
  {
    assert PcOk(d.s, t) && HoldsOk(d, t);
    var u := FreshTid(d.s.pcs.Keys + {t});
    assert d.s.At(u).Idle? && u != t;
    longer := Extend(seg, Step(Begin(u, CallStop)));
    PaidStep(d, Step(Begin(u, CallStop)));
    d' := Post(d, Step(Begin(u, CallStop)));
    longer := Extend(longer, Step(Go(u)));
    PaidStep(d', Step(Go(u)));
    d' := Post(d', Step(Go(u)));
  }

  lemma GoStop(d: Ledger, t: Tid)
    requires PcOk(d.s, t) && PcOk(d.s, d.s.stopper) && d.s.At(d.s.stopper).InStop()
    requires d.s.At(t).Pending() && !d.s.g.noopAdd
    ensures var d' := Post(d, Step(Go(d.s.stopper)));
            && d'.held == d.held && d'.s.At(t) == d.s.At(t)
            && (d'.s.g.noopAdd || StopRank(d'.s) < StopRank(d.s))
  {
  }

  /** Somebody may call `Stop`, or carry on with it, until `noopAdd` is closed. */
  lemma CloseNoopAdd(seg: seq<Ledger>, d: Ledger, t: Tid) returns (longer: seq<Ledger>, d': Ledger)
    requires Quiet(seg) && d == seg[|seg| - 1] && PaidInv(d)
    requires d.s.At(t).Pending()
    ensures Quiet(longer) && longer[0] == seg[0] && longer[|longer| - 1] == d' && PaidInv(d')
    ensures d'.s.g.noopAdd && d'.held == d.held && d'.s.At(t) == d.s.At(t)
    decreases if d.s.g.noopAdd then 0 else StopRank(d.s)
  {
    if d.s.g.noopAdd {
      longer, d' := seg, d;
    } else if d.s.g.stopOnce == Unused {
      longer, d' := StartStop(seg, d, t);
      longer, d' := CloseNoopAdd(longer, d', t);
    } else {
      assert PcOk(d.s, t) && PcOk(d.s, d.s.stopper);
      longer := Extend(seg, Step(Go(d.s.stopper)));
      PaidStep(d, Step(Go(d.s.stopper)));
      GoStop(d, t);
      longer, d' := CloseNoopAdd(longer, Post(d, Step(Go(d.s.stopper))), t);
    }
  }

  /** A step past the decrement touches neither what is held nor, before `Release`, the group. */
  lemma PendingGoes(d: Ledger, t: Tid)
    requires d.s.At(t).Pending() && d.s.g.noopAdd && d.s.g.doneOnce == d.s.g.noopDone
    ensures var d' := Post(d, Step(Go(t)));
            && d'.held == d.held
            && if d.s.At(t).Recheck? then d'.s.At(t).Release? && d'.s.g == d.s.g else d'.s.g.noopDone
  {
  }

  /** With `noopAdd` closed, a pending goroutine closes `noopDone` in its own next steps. */
  lemma CloseNoopDone(seg: seq<Ledger>, d: Ledger, t: Tid) returns (longer: seq<Ledger>)
    requires Quiet(seg) && d == seg[|seg| - 1]
    requires d.s.At(t).Pending() && d.s.g.noopAdd && d.s.g.doneOnce == d.s.g.noopDone
    ensures Quiet(longer) && longer[0] == seg[0]
    ensures longer[|longer| - 1].s.g.noopDone && longer[|longer| - 1].held == d.held
    decreases if d.s.At(t).Recheck? then 1 else 0
  {
    longer := Extend(seg, Step(Go(t)));
    PendingGoes(d, t);
    if d.s.At(t).Recheck? {
      longer := CloseNoopDone(longer, Post(d, Step(Go(t))), t);
    }
  }

  /** From a doomed state the scheduler alone can bring about an early release. */
  lemma DoomedReachesEarly(d: Ledger) returns (seg: seq<Ledger>)
    requires PaidInv(d) && Doomed(d)
    ensures Quiet(seg) && seg[0] == d && Early(seg[|seg| - 1])
  {
    seg := [d];
    if !d.s.g.noopDone {
      var t :| d.s.At(t).Pending();
      var d';
      seg, d' := CloseNoopAdd(seg, d, t);
      seg := CloseNoopDone(seg, d', t);
    }
  }

  /** The exact condition, for every reachable state: without one more counted `Add` the waiters can
      be released too early if and only if the release has been decided while something is unpaid. */
  lemma EarlyReleaseIff(run: seq<Ledger>, k: nat)
    requires IsRun(run, false) && k < |run|
    ensures Doomed(run[k]) <==> exists seg :: Quiet(seg) && seg[0] == run[k] && Early(seg[|seg| - 1])
  {
    PaidRun(run, false, k);
    if Doomed(run[k]) {
      var seg := DoomedReachesEarly(run[k]);
    } else if seg :| Quiet(seg) && seg[0] == run[k] && Early(seg[|seg| - 1]) {
      QuietKeepsSafe(seg, |seg| - 1);
      assert false;
    }
  }

  /** A counted `Add` although the release has been decided. */
  ghost predicate LateAdd(d: Ledger, d': Ledger) {
    Closing(d) && exists m :: Legal(d, m, false) && CountsAdd(d, m) && d' == Post(d, m)
  }

  ghost predicate NoLateAdd(run: seq<Ledger>) {
    forall j, k :: 0 <= j < k < |run| && k == j + 1 ==> !LateAdd(run[j], run[k])
  }

  /** A whole run stays clear of early release if and only if no `Add` in it comes late. */
  lemma {:induction false} SafeRunIff(run: seq<Ledger>)
    requires IsRun(run, false)
    ensures (forall k | 0 <= k < |run| :: !Doomed(run[k])) <==> NoLateAdd(run)
  {
    if NoLateAdd(run) {
      forall k | 0 <= k < |run| ensures !Doomed(run[k]) {
        NoLateAddSafe(run, k);
      }
    } else {
      var j, k :| 0 <= j < k < |run| && k == j + 1 && LateAdd(run[j], run[k]);
      var m :| Legal(run[j], m, false) && CountsAdd(run[j], m) && run[k] == Post(run[j], m);
      LateAddDooms(run[j], m.a);
    }
  }

  lemma {:induction false} NoLateAddSafe(run: seq<Ledger>, k: nat)
    requires IsRun(run, false) && k < |run|
    requires NoLateAdd(run)
    ensures !Doomed(run[k])
  {
    if k > 0 {
      NoLateAddSafe(run, k - 1);
      PaidRun(run, false, k - 1);
      assert Linked(run[k - 1], run[k], false);
      var m :| Legal(run[k - 1], m, false) && run[k] == Post(run[k - 1], m);
      DoomedStep(run[k - 1], m);
      assert !LateAdd(run[k - 1], run[k]);
    }
  }

  // ------------------------------------------------------------ the holding discipline

  predicate AddsOk(d: Ledger, t: Tid) {
    (d.s.At(t).AddCheck? || d.s.At(t).AddInc?) && !d.s.At(t).stop ==> d.setup || t in d.held
  }

  ghost predicate StrictInv(d: Ledger) {
    && PaidInv(d)
    && !Doomed(d)
    && (forall t :: AddsOk(d, t))
  }

  /** During set-up nothing is decided yet. */
  lemma SetupNotClosing(d: Ledger)
    requires PaidInv(d) && d.setup
    ensures !Closing(d)
  {
    forall p ensures !d.s.At(p).Pending() {
      assert PcOk(d.s, p);
      assert HoldsOk(d, p);
    }
  }

  lemma StrictStep(d: Ledger, m: Move)
    requires StrictInv(d) && Legal(d, m, true)
    ensures StrictInv(Post(d, m))
  {
    PaidStep(d, m);
    DoomedStep(d, m);
    var d' := Post(d, m);
    if CountsAdd(d, m) {
      assert AddsOk(d, m.a.t);
      if d.setup { SetupNotClosing(d); }
    }
    forall t ensures AddsOk(d', t) {
      assert AddsOk(d, t);
      if m.Step? {
        AddsStep(d, m.a, t);
      }
    }
  }

  lemma AddsStep(d: Ledger, a: Action, u: Tid)
    requires Legal(d, Step(a), true) && AddsOk(d, u) && AddsOk(d, a.t)
    ensures AddsOk(Post(d, Step(a)), u)
  {
    if u != a.t {
      Others(d.s, a, u);
      HeldOfOthers(d.held, a.t, d.s.At(a.t), u);
    }
  }

  lemma {:induction false} StrictRun(run: seq<Ledger>, k: nat)
    requires IsRun(run, true) && k < |run|
    ensures StrictInv(run[k])
  {
    if k == 0 {
      PaidRun(run, true, 0);
      assert forall t {:trigger INIT.At(t)} :: INIT.At(t) == Idle;
    } else {
      StrictRun(run, k - 1);
      assert Linked(run[k - 1], run[k], true);
      var m :| Legal(run[k - 1], m, true) && run[k] == Post(run[k - 1], m);
      StrictStep(run[k - 1], m);
    }
  }

  /** Nobody is released early when, after set-up, only holders of a counted `Add` call `Add`;
      in particular not by a close that rests on an old decrement. */
  lemma NoEarlyRelease(run: seq<Ledger>, k: nat)
    requires IsRun(run, true) && k < |run|
    ensures run[k].s.g.noopDone ==> run[k].held == multiset{}
  {
    StrictRun(run, k);
  }

  /** What `Wait` promises: with `Stop` returned and nobody inside `Done`, the waiters are released
      exactly when every counted `Add` has been paid back. */
  lemma ReleasedExactlyWhenPaid(run: seq<Ledger>, k: nat)
    requires IsRun(run, true) && k < |run|
    requires run[k].s.g.stopOnce == Used
    requires forall t {:trigger run[k].s.At(t)} :: !run[k].s.At(t).InDone()
    ensures run[k].s.g.noopDone <==> run[k].held == multiset{}
  {
    StrictRun(run, k);
  }

  // ------------------------------------------------------------ the discipline is needed

  ghost predicate Reachable(d: Ledger) {
    exists run :: IsRun(run, false) && run[|run| - 1] == d
  }

  lemma Reach(d: Ledger, m: Move)
    requires Reachable(d) && Legal(d, m, false)
    ensures Reachable(Post(d, m))
  {
    var run :| IsRun(run, false) && run[|run| - 1] == d;
    var longer := run + [Post(d, m)];
    assert Linked(longer[|run| - 1], longer[|run|], false);
    assert longer[|longer| - 1] == Post(d, m);
  }

  /** Goroutine `t` starts a call that it is free to make. */
  lemma ReachBegin(d: Ledger, t: Tid, call: Call) returns (d': Ledger)
    requires Reachable(d) && Legal(d, Step(Begin(t, call)), false)
    ensures Reachable(d') && d'.s.g == d.s.g && d'.held == d.held && d'.setup == d.setup
    ensures d'.s.At(t) == Entry(call) && forall u {:trigger d'.s.At(u)} :: u != t ==> d'.s.At(u) == d.s.At(u)
  {
    Reach(d, Step(Begin(t, call)));
    d' := Post(d, Step(Begin(t, call)));
  }

  /** Goroutine `t` makes its next step. */
  lemma ReachGo(d: Ledger, t: Tid) returns (d': Ledger)
    requires Reachable(d) && !d.s.At(t).Idle?
    ensures Reachable(d') && d'.s.g == StepGroup(d.s.g, d.s.At(t)) && d'.setup == d.setup
    ensures d'.held == HeldAfter(d.held, t, d.s.At(t))
    ensures d'.s.At(t) == StepPc(d.s.g, d.s.At(t)) && forall u {:trigger d'.s.At(u)} :: u != t ==> d'.s.At(u) == d.s.At(u)
  {
    Reach(d, Step(Go(t)));
    d' := Post(d, Step(Go(t)));
  }

  /** Two steps of one goroutine that is not about to count or pay. */
  lemma ReachGoGo(d: Ledger, t: Tid) returns (d': Ledger)
    requires Reachable(d) && !d.s.At(t).Idle?
    requires HeldAfter(d.held, t, d.s.At(t)) == d.held
    requires var g, pc := StepGroup(d.s.g, d.s.At(t)), StepPc(d.s.g, d.s.At(t)); !pc.Idle? && HeldAfter(d.held, t, pc) == d.held
    ensures Reachable(d') && d'.held == d.held && d'.setup == d.setup
    ensures var g, pc := StepGroup(d.s.g, d.s.At(t)), StepPc(d.s.g, d.s.At(t));
            d'.s.g == StepGroup(g, pc) && d'.s.At(t) == StepPc(g, pc)
    ensures forall u {:trigger d'.s.At(u)} :: u != t ==> d'.s.At(u) == d.s.At(u)
  {
    d' := ReachGo(d, t);
    d' := ReachGo(d', t);
  }

  lemma ReachHandOver(d: Ledger, t: Tid, u: Tid) returns (d': Ledger)
    requires Reachable(d) && d.s.At(t).Idle? && d.held == multiset{t}
    ensures Reachable(d') && d' == d.(held := multiset{u})
  {
    Reach(d, HandOver(t, u));
    d' := Post(d, HandOver(t, u));
    assert d'.held == multiset{u};
  }

  /** A worker has paid back the only counted `Add`, but not looked at `noopAdd` again yet. */
  lemma ReachStalled() returns (d: Ledger)
    ensures Reachable(d) && d.s.g == NEW_GROUP && d.held == multiset{} && !d.setup
    ensures d.s.At(1) == Recheck(false, 0) && d.s.At(0).Idle?
  {
    assert IsRun([START], false) && [START][|[START]| - 1] == START;
    d := ReachBegin(START, 0, CallAdd);
    d := ReachGo(d, 0);
    d := ReachGo(d, 0);
    assert d.held == multiset{0};
    d := ReachHandOver(d, 0, 1);
    Reach(d, EndSetup);
    d := Post(d, EndSetup);
    d := ReachBegin(d, 1, CallDone);
    d := ReachGoGo(d, 1);
    d := ReachGo(d, 1);
    assert d.held == multiset{};
  }

  /** Only now does goroutine 0 add for the second worker, and then it stops the group. */
  lemma ReachSecondAdd() returns (d: Ledger)
    ensures Reachable(d) && d.held == multiset{2} && !d.setup && d.s.At(1) == Recheck(false, 0)
    ensures d.s.At(0).Idle? && d.s.g == NEW_GROUP.(i := 1)
  {
    d := ReachStalled();
    d := ReachBegin(d, 0, CallAdd);
    d := ReachGo(d, 0);
    d := ReachGo(d, 0);
    assert d.held == multiset{0};
    d := ReachHandOver(d, 0, 2);
  }

  /** It stops the group, holding nothing itself. */
  lemma ReachStopped() returns (d: Ledger)
    ensures Reachable(d) && d.held == multiset{2} && !d.setup && d.s.At(1) == Recheck(false, 0)
    ensures d.s.g.noopAdd && !d.s.g.noopDone && !d.s.g.doneOnce
  {
    d := ReachSecondAdd();
    d := ReachBegin(d, 0, CallStop);
    d := ReachGoGo(d, 0);
    d := ReachGoGo(d, 0);
  }

  /** Goroutine 0 adds for two workers in turn and then stops, holding nothing itself. Worker 1 finishes
      in between and, having looked at `noopAdd` twice, releases everybody while worker 2 is still due. */
  lemma EarlyReleaseHappens() returns (d: Ledger)
    ensures Reachable(d) && Early(d) && d.held == multiset{2}
  {
    d := ReachStopped();
    d := ReachGoGo(d, 1);
    assert 2 in d.held;
  }
}
