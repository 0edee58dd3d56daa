/**
  The cancellable lock under every interleaving. Each system call runs in a goroutine of its own; a caller
  whose context ends leaves at once, and a clean-up goroutine drops the lock should it still be granted.
  A handle may be locked again before that has happened, and then has several attempts under way.
 */
module LockfileSteps {
  import opened Lockfile

  /** A result on its way: not there yet, about to be sent, in the channel, and taken from it. */
  datatype Flight = InSyscall | Sending(ok: bool) | Sent(ok: bool) | Taken

  /** Who will take the result: the caller of `Lock`, the clean-up, or nobody any more. `Dropping` is a
      clean-up that has been told of the lock. */
  datatype Owner = User(ctxDone: bool) | Cleaner | Dropping | Nobody

  /** One cancellable call with its own channel. */
  datatype Attempt = Attempt(mode: Mode, flight: Flight, owner: Owner) {
    /** Granted, and the result not taken yet. */
    predicate Granted() { flight == Sending(true) || flight == Sent(true) }

    predicate Failed() { flight == Sending(false) || flight == Sent(false) }

    /** A clean-up whose result is not already a failure. */
    predicate Hazard() { owner == Dropping || (owner == Cleaner && !Failed()) }

    predicate Benign() { !owner.User? && !Hazard() }
  }

  /** One handle. `told`: the lock the user has been told of, by a call that returned nil, and has not
      given up. `consumed`: results taken from channels. */
  datatype Rec = Rec(told: Mode, attempts: seq<Attempt>, consumed: nat) {
    /** No call that can be cancelled is under way. */
    predicate Away() { forall k | 0 <= k < |attempts| :: !attempts[k].owner.User? }

    predicate Harmless() { forall k | 0 <= k < |attempts| :: !attempts[k].Hazard() }

    /** No call and no clean-up under way. */
    predicate Quiet() { forall k | 0 <= k < |attempts| :: attempts[k].owner == Nobody }
  }

  const FRESH := Rec(Unlocked, [], 0)

  datatype State = State(k: Table, recs: map<Handle, Rec>) {
    function At(h: Handle): Rec {
      if h in recs then recs[h] else FRESH
    }
  }

  const INIT := State(map[], map[])

  datatype Act = Grant | Fail | Send | Cancel | TakeResult | TakeCancel | CleanerReceives | Drop

  /** `Direct` is a call without a cancellable context that succeeds; one that fails changes nothing. */
  datatype Step = Lock(mode: Mode) | Direct(mode: Mode) | Unlock | Own(k: nat, act: Act)

  predicate ActReady(a: Attempt, act: Act) {
    match act
    case Grant => a.flight == InSyscall
    case Fail => a.flight == InSyscall
    case Send => a.flight.Sending?
    case Cancel => a.owner == User(false)
    case TakeResult => a.owner.User? && a.flight.Sent?
    case TakeCancel => a.owner == User(true)
    case CleanerReceives => a.owner == Cleaner && a.flight.Sent?
    case Drop => a.owner == Dropping
  }

  function ActOn(a: Attempt, act: Act): Attempt {
    match act
    case Grant => a.(flight := Sending(true))
    case Fail => a.(flight := Sending(false))
    case Send => if a.flight.Sending? then a.(flight := Sent(a.flight.ok)) else a
    case Cancel => a.(owner := User(true))
    case TakeResult => a.(flight := Taken, owner := Nobody)
    case TakeCancel => a.(owner := Cleaner)
    case CleanerReceives => a.(flight := Taken, owner := if a.flight == Sent(true) then Dropping else Nobody)
    case Drop => a.(owner := Nobody)
  }

  /** What a step needs of its own handle: calls come one at a time, and nothing else is asked of them. */
  predicate Ready(r: Rec, step: Step) {
    match step
    case Lock(mode) => mode != Unlocked && r.Away()
    case Direct(mode) => mode != Unlocked && r.Away()
    case Unlock => r.Away()
    case Own(k, act) => k < |r.attempts| && ActReady(r.attempts[k], act)
  }

  predicate Enabled(s: State, h: Handle, step: Step) {
    && Ready(s.At(h), step)
    && (step.Direct? ==> Grantable(s.k, h, step.mode))
    && (step.Own? && step.act.Grant? ==> Grantable(s.k, h, s.At(h).attempts[step.k].mode))
  }

  function NewRec(r: Rec, step: Step): Rec {
    match step
    case Lock(mode) => r.(attempts := r.attempts + [Attempt(mode, InSyscall, User(false))])
    case Direct(mode) => r.(told := mode)
    case Unlock => r.(told := Unlocked)
    case Own(k, act) =>
      if k >= |r.attempts| then r
      else
        var a := r.attempts[k];
        Rec(if act.TakeResult? && a.flight == Sent(true) then a.mode else r.told,
            r.attempts[k := ActOn(a, act)],
            if act.TakeResult? || act.CleanerReceives? then r.consumed + 1 else r.consumed)
  }

  function NewHeld(r: Rec, held: Mode, step: Step): Mode {
    match step
    case Lock(_) => held
    case Direct(mode) => mode
    case Unlock => Unlocked
    case Own(k, act) =>
      if act.Grant? && k < |r.attempts| then r.attempts[k].mode else if act.Drop? then Unlocked else held
  }

  function Do(s: State, h: Handle, step: Step): State {
    State(s.k[h := NewHeld(s.At(h), Held(s.k, h), step)], s.recs[h := NewRec(s.At(h), step)])
  }

  lemma Seen(s: State, h: Handle, step: Step, u: Handle)
    ensures Do(s, h, step).At(u) == if u == h then NewRec(s.At(h), step) else s.At(u)
    ensures Held(Do(s, h, step).k, u) == if u == h then NewHeld(s.At(h), Held(s.k, h), step) else Held(s.k, u)
  {
  }

  // ------------------------------------------------------------ runs

  datatype Move = Move(h: Handle, step: Step)

  function After(s: State, moves: seq<Move>): State {
    if moves == [] then s
    else Do(After(s, moves[..|moves| - 1]), moves[|moves| - 1].h, moves[|moves| - 1].step)
  }

  /** Every step is possible where it is made. */
  predicate Possible(s: State, moves: seq<Move>) {
    moves == [] ||
    var before, last := moves[..|moves| - 1], moves[|moves| - 1];
    Possible(s, before) && Enabled(After(s, before), last.h, last.step)
  }

  /** The discipline: no call while a clean-up of the handle may still drop the lock, and no call that can
      be cancelled on a handle that is locked. */
  predicate Careful(r: Rec, step: Step) {
    match step
    case Lock(_) => r.told == Unlocked && r.Harmless()
    case Direct(_) => r.Harmless()
    case _ => true
  }

  predicate CarefulRun(moves: seq<Move>) {
    moves == [] ||
    var before, last := moves[..|moves| - 1], moves[|moves| - 1];
    && CarefulRun(before)
    && Enabled(After(INIT, before), last.h, last.step)
    && Careful(After(INIT, before).At(last.h), last.step)
  }

  // ------------------------------------------------------------ the invariant of every run

  /** A result is on its way exactly as long as someone will take it. */
  predicate AttemptOk(a: Attempt) {
    a.mode != Unlocked && (a.flight == Taken <==> a.owner == Dropping || a.owner == Nobody)
  }

  function InFlight(attempts: seq<Attempt>): nat {
    if attempts == [] then 0
    else InFlight(attempts[..|attempts| - 1]) + if attempts[|attempts| - 1].flight == Taken then 0 else 1
  }

  ghost predicate RecOk(r: Rec) {
    && (forall k | 0 <= k < |r.attempts| :: AttemptOk(r.attempts[k]))
    && (forall i, j | 0 <= i < j < |r.attempts| :: !(r.attempts[i].owner.User? && r.attempts[j].owner.User?))
    && r.consumed + InFlight(r.attempts) == |r.attempts|
  }

  /** A lock in the kernel's table has someone who knows of it or will. */
  ghost predicate Accounted(r: Rec, held: Mode) {
    held == Unlocked || r.told != Unlocked
    || exists k | 0 <= k < |r.attempts| :: r.attempts[k].Granted() || r.attempts[k].owner == Dropping
  }

  lemma {:induction false} InFlightUpdate(attempts: seq<Attempt>, k: nat, a: Attempt)
    requires k < |attempts|
    ensures InFlight(attempts[k := a]) + (if attempts[k].flight == Taken then 0 else 1)
            == InFlight(attempts) + if a.flight == Taken then 0 else 1
  {
    var n := |attempts| - 1;
    if k < n {
      InFlightUpdate(attempts[..n], k, a);
      assert attempts[k := a][..n] == attempts[..n][k := a];
    } else {
      assert attempts[k := a][..n] == attempts[..n];
    }
  }

  lemma RecStep(r: Rec, step: Step)
    requires RecOk(r) && Ready(r, step)
    ensures RecOk(NewRec(r, step))
  {
    match step {
      case Lock(mode) => RecLock(r, Attempt(mode, InSyscall, User(false)));
      case Own(k, act) => RecOwn(r, k, act);
      case _ =>
    }
  }

  lemma RecLock(r: Rec, a: Attempt)
    requires RecOk(r) && r.Away() && AttemptOk(a) && a.flight != Taken
    ensures RecOk(r.(attempts := r.attempts + [a]))
  {
    assert (r.attempts + [a])[..|r.attempts|] == r.attempts;
  }

  lemma RecOwn(r: Rec, k: nat, act: Act)
    requires RecOk(r) && Ready(r, Own(k, act))
    ensures RecOk(NewRec(r, Own(k, act)))
  {
    assert AttemptOk(r.attempts[k]) && AttemptOk(ActOn(r.attempts[k], act));
    InFlightUpdate(r.attempts, k, ActOn(r.attempts[k], act));
  }

  lemma AccountedStep(r: Rec, held: Mode, step: Step)
    requires RecOk(r) && Accounted(r, held) && Ready(r, step)
    ensures Accounted(NewRec(r, step), NewHeld(r, held, step))
  {
    var r' := NewRec(r, step);
    if step.Own? {
      assert r'.attempts[step.k] == ActOn(r.attempts[step.k], step.act);
    }
    if i :| 0 <= i < |r.attempts| && (r.attempts[i].Granted() || r.attempts[i].owner == Dropping) {
      assert !(step.Own? && step.k == i) ==> r'.attempts[i] == r.attempts[i];
    }
  }

  // ------------------------------------------------------------ the invariant of careful runs

  /** What a user has been told of is held, and stays so; otherwise at most the attempt that the user waits
      for can still bring a lock. */
  ghost predicate Clean(r: Rec, held: Mode) {
    if r.told != Unlocked then
      held == r.told && forall k | 0 <= k < |r.attempts| :: r.attempts[k].Benign()
    else
      forall k | 0 <= k < |r.attempts| && r.attempts[k].owner.User? ::
        && (r.attempts[k].Granted() ==> held == r.attempts[k].mode)
        && forall j | 0 <= j < |r.attempts| && j != k :: r.attempts[j].Benign()
  }

  lemma CleanStep(r: Rec, held: Mode, step: Step)
    requires RecOk(r) && Clean(r, held) && Ready(r, step) && Careful(r, step)
    ensures Clean(NewRec(r, step), NewHeld(r, held, step))
  {
    if step.Own? {
      CleanOwnStep(r, held, step.k, step.act);
    }
  }

  lemma CleanOwnStep(r: Rec, held: Mode, k: nat, act: Act)
    requires RecOk(r) && Clean(r, held) && Ready(r, Own(k, act))
    ensures Clean(NewRec(r, Own(k, act)), NewHeld(r, held, Own(k, act)))
  {
    assert AttemptOk(r.attempts[k]);
    var r' := NewRec(r, Own(k, act));
    assert forall j | 0 <= j < |r.attempts| && j != k :: r'.attempts[j] == r.attempts[j];
  }

  // ------------------------------------------------------------ invariants over runs

  ghost predicate Inv(s: State) {
    && (forall h :: RecOk(s.At(h)) && Accounted(s.At(h), Held(s.k, h)))
    && Compatible(s.k)
  }

  lemma CompatibleStep(s: State, h: Handle, step: Step)
    requires Compatible(s.k) && Enabled(s, h, step)
    ensures Compatible(Do(s, h, step).k)
  {
  }

  lemma InvStep(s: State, h: Handle, step: Step)
    requires Inv(s) && Enabled(s, h, step)
    ensures Inv(Do(s, h, step))
  {
    CompatibleStep(s, h, step);
    var s' := Do(s, h, step);
    forall u ensures RecOk(s'.At(u)) && Accounted(s'.At(u), Held(s'.k, u)) {
      Seen(s, h, step, u);
      assert RecOk(s.At(u)) && Accounted(s.At(u), Held(s.k, u));
      if u == h {
        RecStep(s.At(h), step);
        AccountedStep(s.At(h), Held(s.k, h), step);
      }
    }
  }

  lemma {:induction false} RunInv(s: State, moves: seq<Move>)
    requires Inv(s) && Possible(s, moves)
    ensures Inv(After(s, moves))
  {
    if moves != [] {
      var before, last := moves[..|moves| - 1], moves[|moves| - 1];
      RunInv(s, before);
      InvStep(After(s, before), last.h, last.step);
    }
  }

  lemma Start()
    ensures Inv(INIT) && forall h :: INIT.At(h) == FRESH && Held(INIT.k, h) == Unlocked
  {
  }

  lemma {:induction false} CarefulIsPossible(moves: seq<Move>)
    requires CarefulRun(moves)
    ensures Possible(INIT, moves)
  {
    if moves != [] {
      CarefulIsPossible(moves[..|moves| - 1]);
    }
  }

  lemma {:induction false} CarefulRunInv(moves: seq<Move>, h: Handle)
    requires CarefulRun(moves)
    ensures Inv(After(INIT, moves)) && Clean(After(INIT, moves).At(h), Held(After(INIT, moves).k, h))
  {
    Start();
    if moves != [] {
      var before, last := moves[..|moves| - 1], moves[|moves| - 1];
      CarefulRunInv(before, h);
      var s := After(INIT, before);
      Seen(s, last.h, last.step, h);
      InvStep(s, last.h, last.step);
      assert RecOk(s.At(h));
      if last.h == h {
        CleanStep(s.At(h), Held(s.k, h), last.step);
      }
    }
  }

  // ------------------------------------------------------------ main results

  /** A cancelled lock leaks nothing, however handles are used: a lock in the kernel's table belongs to a
      user who was told of one, or its result is on its way to a caller who waits or to a clean-up, or a
      clean-up is about to drop it. */
  lemma NothingLeaks(moves: seq<Move>, h: Handle)
    requires Possible(INIT, moves) && Held(After(INIT, moves).k, h) != Unlocked
    ensures var r := After(INIT, moves).At(h);
            || r.told != Unlocked
            || exists k | 0 <= k < |r.attempts| ::
                 var a := r.attempts[k];
                 (a.Granted() && (a.owner.User? || a.owner == Cleaner)) || a.owner == Dropping
  {
    Start();
    RunInv(INIT, moves);
    var r := After(INIT, moves).At(h);
    assert RecOk(r) && Accounted(r, Held(After(INIT, moves).k, h));
    if r.told == Unlocked {
      var k :| 0 <= k < |r.attempts| && (r.attempts[k].Granted() || r.attempts[k].owner == Dropping);
      assert AttemptOk(r.attempts[k]);
    }
  }

  /** Every call's result is taken exactly once: by as many as are not on their way any more, and as long
      as it is on its way there is one who will take it, also with the grant and the cancellation both ready. */
  lemma TakenOnce(moves: seq<Move>, h: Handle)
    requires Possible(INIT, moves)
    ensures var r := After(INIT, moves).At(h);
            && r.consumed + InFlight(r.attempts) == |r.attempts|
            && (forall k | 0 <= k < |r.attempts| :: r.attempts[k].flight != Taken <==> r.attempts[k].owner.User? || r.attempts[k].owner == Cleaner)
            && (r.Quiet() ==> r.consumed == |r.attempts|)
  {
    Start();
    RunInv(INIT, moves);
    RecTaken(After(INIT, moves).At(h));
  }

  lemma RecTaken(r: Rec)
    requires RecOk(r)
    ensures forall k | 0 <= k < |r.attempts| :: r.attempts[k].flight != Taken <==> r.attempts[k].owner.User? || r.attempts[k].owner == Cleaner
    ensures r.Quiet() ==> r.consumed == |r.attempts|
  {
    forall k | 0 <= k < |r.attempts| ensures r.attempts[k].flight != Taken <==> r.attempts[k].owner.User? || r.attempts[k].owner == Cleaner {
      assert AttemptOk(r.attempts[k]);
    }
    if r.Quiet() {
      NoneInFlight(r.attempts);
    }
  }

  lemma {:induction false} NoneInFlight(attempts: seq<Attempt>)
    requires forall k | 0 <= k < |attempts| :: attempts[k].flight == Taken
    ensures InFlight(attempts) == 0
  {
    if attempts != [] {
      NoneInFlight(attempts[..|attempts| - 1]);
    }
  }

  /** In a careful run whoever was told of a lock holds just that one, and nobody else one that conflicts. */
  lemma ToldTruly(moves: seq<Move>, h: Handle, u: Handle)
    requires CarefulRun(moves) && After(INIT, moves).At(h).told != Unlocked
    ensures Held(After(INIT, moves).k, h) == After(INIT, moves).At(h).told
    ensures h != u && After(INIT, moves).At(h).told == Exclusive ==> After(INIT, moves).At(u).told == Unlocked
  {
    CarefulRunInv(moves, h);
    CarefulRunInv(moves, u);
  }

  /** And a handle that is quiet holds exactly what its user was told of. */
  lemma QuietIsSettled(moves: seq<Move>, h: Handle)
    requires CarefulRun(moves) && After(INIT, moves).At(h).Quiet()
    ensures Held(After(INIT, moves).k, h) == After(INIT, moves).At(h).told
  {
    CarefulRunInv(moves, h);
    var r := After(INIT, moves).At(h);
    assert RecOk(r) && Accounted(r, Held(After(INIT, moves).k, h));
    forall k | 0 <= k < |r.attempts| ensures !r.attempts[k].Granted() {
      assert AttemptOk(r.attempts[k]);
    }
  }

  // ------------------------------------------------------------ clean-ups come to an end

  /** Steps that an attempt still makes, other than its context ending and its caller leaving. */
  function Left(a: Attempt): nat {
    match a.flight
    case InSyscall => 4
    case Sending(_) => 3
    case Sent(_) => 2
    case Taken => if a.owner == Dropping then 1 else 0
  }

  function StepsOf(moves: seq<Move>, h: Handle, k: nat): nat {
    if moves == [] then 0
    else
      var last := moves[|moves| - 1];
      StepsOf(moves[..|moves| - 1], h, k)
      + if last.h == h && last.step.Own? && last.step.k == k && !last.step.act.Cancel? && !last.step.act.TakeCancel? then 1 else 0
  }

  lemma LeftStep(s: State, h: Handle, k: nat, u: Handle, step: Step)
    requires Inv(s) && Enabled(s, u, step) && k < |s.At(h).attempts|
    ensures k < |Do(s, u, step).At(h).attempts|
    ensures StepsOf([Move(u, step)], h, k) + Left(Do(s, u, step).At(h).attempts[k]) <= Left(s.At(h).attempts[k])
  {
    Seen(s, u, step, h);
    assert RecOk(s.At(h)) && AttemptOk(s.At(h).attempts[k]);
    assert [Move(u, step)][..0] == [];
  }

  /** Whatever else goes on, an attempt makes at most four steps from its call to the end of its clean-up. */
  lemma {:induction false} CleanupBounded(moves: seq<Move>, more: seq<Move>, h: Handle, k: nat)
    requires Possible(INIT, moves) && Possible(After(INIT, moves), more)
    requires k < |After(INIT, moves).At(h).attempts|
    ensures k < |After(After(INIT, moves), more).At(h).attempts|
    ensures StepsOf(more, h, k) + Left(After(After(INIT, moves), more).At(h).attempts[k])
            <= Left(After(INIT, moves).At(h).attempts[k]) <= 4
    decreases |more|
  {
    if more != [] {
      var before, last := more[..|more| - 1], more[|more| - 1];
      CleanupBounded(moves, before, h, k);
      Start();
      RunInv(INIT, moves);
      RunInv(After(INIT, moves), before);
      LeftStep(After(After(INIT, moves), before), h, k, last.h, last.step);
    }
  }

  /** The next step of a clean-up that is to get the lock. */
  function NextAct(a: Attempt): Act {
    match a.flight
    case InSyscall => Grant
    case Sending(_) => Send
    case Sent(_) => CleanerReceives
    case Taken => Drop
  }

  lemma NextActOnly(a: Attempt, act: Act)
    requires AttemptOk(a) && !a.owner.User?
    ensures ActReady(a, act) && act != Fail <==> a.owner != Nobody && act == NextAct(a)
  {
  }

  lemma NextEnabled(s: State, h: Handle, k: nat, a: Attempt)
    requires k < |s.At(h).attempts| && a == s.At(h).attempts[k] && AttemptOk(a) && !a.owner.User?
    ensures Enabled(s, h, Own(k, NextAct(a))) <==>
            a.owner != Nobody && (a.flight == InSyscall ==> Grantable(s.k, h, a.mode))
  {
  }

  lemma OnlyNextEnabled(s: State, h: Handle, k: nat, a: Attempt, act: Act)
    requires k < |s.At(h).attempts| && a == s.At(h).attempts[k] && AttemptOk(a) && !a.owner.User?
    requires Enabled(s, h, Own(k, act)) && act != Fail
    ensures act == NextAct(a)
  {
    NextActOnly(a, act);
  }

  /** A clean-up that cannot go on, other than by a failure, is over or waits for others to let go. */
  lemma CleanupStuckIff(moves: seq<Move>, h: Handle, k: nat)
    requires Possible(INIT, moves) && k < |After(INIT, moves).At(h).attempts|
    requires !After(INIT, moves).At(h).attempts[k].owner.User?
    ensures var s, a := After(INIT, moves), After(INIT, moves).At(h).attempts[k];
            (forall act :: act != Fail ==> !Enabled(s, h, Own(k, act)))
            <==> a.owner == Nobody || (a.flight == InSyscall && !Grantable(s.k, h, a.mode))
  {
    Start();
    RunInv(INIT, moves);
    var s, a := After(INIT, moves), After(INIT, moves).At(h).attempts[k];
    assert RecOk(s.At(h)) && AttemptOk(a);
    NextEnabled(s, h, k, a);
    forall act | act != Fail && Enabled(s, h, Own(k, act)) ensures Enabled(s, h, Own(k, NextAct(a))) {
      OnlyNextEnabled(s, h, k, a, act);
    }
  }
}
