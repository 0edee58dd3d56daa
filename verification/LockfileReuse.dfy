/**
  When exactly a call on a file lock's handle can end with a user told of a lock that is gone.
 */
module LockfileReuse {
  import opened Lockfile
  import opened LockfileSteps

  // ------------------------------------------------------------ exactly when a call goes wrong

  /** Between calls, the user has been told of a lock that is not the one held. */
  predicate Misled(r: Rec, held: Mode) {
    r.Away() && r.told != Unlocked && held != r.told
  }

  /** The handle is not called any more. */
  predicate NoCalls(moves: seq<Move>, h: Handle) {
    forall k | 0 <= k < |moves| :: moves[k].h == h ==> moves[k].step.Own?
  }

  ghost predicate Misleads(s: State, moves: seq<Move>, h: Handle) {
    Possible(s, moves) && NoCalls(moves, h) && Misled(After(s, moves).At(h), Held(After(s, moves).k, h))
  }

  /** Without calls, a clean handle stays so, whatever others do. */
  lemma {:induction false} CleanStays(s: State, moves: seq<Move>, h: Handle)
    requires Inv(s) && Clean(s.At(h), Held(s.k, h)) && Possible(s, moves) && NoCalls(moves, h)
    ensures Clean(After(s, moves).At(h), Held(After(s, moves).k, h))
  {
    if moves != [] {
      var before, last := moves[..|moves| - 1], moves[|moves| - 1];
      CleanStays(s, before, h);
      RunInv(s, before);
      var m := After(s, before);
      Seen(m, last.h, last.step, h);
      assert RecOk(m.At(h));
      if last.h == h {
        CleanStep(m.At(h), Held(m.k, h), last.step);
      }
    }
  }

  /** A careful call leaves the handle clean, even where earlier ones were not careful. */
  lemma CarefulCall(r: Rec, held: Mode, call: Step)
    requires Ready(r, call) && (call.Lock? || call.Direct?) && Careful(r, call)
    ensures Clean(NewRec(r, call), NewHeld(r, held, call))
  {
  }

  lemma Snoc(s: State, moves: seq<Move>, move: Move)
    ensures After(s, moves + [move]) == Do(After(s, moves), move.h, move.step)
    ensures Possible(s, moves + [move]) <==> Possible(s, moves) && Enabled(After(s, moves), move.h, move.step)
  {
    assert (moves + [move])[..|moves|] == moves;
  }

  lemma Extend(s: State, moves: seq<Move>, h: Handle, u: Handle, step: Step) returns (longer: seq<Move>)
    requires Inv(After(s, moves)) && Possible(s, moves) && NoCalls(moves, h)
    requires Enabled(After(s, moves), u, step) && (u == h ==> step.Own?)
    ensures Possible(s, longer) && NoCalls(longer, h)
    ensures After(s, longer) == Do(After(s, moves), u, step) && Inv(After(s, longer))
  {
    longer := moves + [Move(u, step)];
    Snoc(s, moves, Move(u, step));
    InvStep(After(s, moves), u, step);
  }

  /** Another handle gives up its call and then its lock. */
  lemma FreeOne(s: State, moves: seq<Move>, h: Handle, u: Handle) returns (longer: seq<Move>)
    requires Inv(After(s, moves)) && Possible(s, moves) && NoCalls(moves, h) && u != h
    ensures Possible(s, longer) && NoCalls(longer, h) && Inv(After(s, longer))
    ensures After(s, longer).At(h) == After(s, moves).At(h)
    ensures Held(After(s, longer).k, u) == Unlocked
    ensures forall v :: v != u ==> Held(After(s, longer).k, v) == Held(After(s, moves).k, v)
    decreases if After(s, moves).At(u).Away() then 0 else 1
  {
    var m := After(s, moves);
    var r := m.At(u);
    if r.Away() {
      longer := Extend(s, moves, h, u, Unlock);
      forall v ensures Held(After(s, longer).k, v) == if v == u then Unlocked else Held(m.k, v) {
        Seen(m, u, Unlock, v);
      }
      Seen(m, u, Unlock, h);
    } else {
      var k :| 0 <= k < |r.attempts| && r.attempts[k].owner.User?;
      longer := LeaveCall(s, moves, h, u, k);
      longer := FreeOne(s, longer, h, u);
    }
  }

  /** The context of a call ends, and the caller leaves. */
  lemma LeaveCall(s: State, moves: seq<Move>, h: Handle, u: Handle, k: nat) returns (longer: seq<Move>)
    requires Inv(After(s, moves)) && Possible(s, moves) && NoCalls(moves, h)
    requires k < |After(s, moves).At(u).attempts| && After(s, moves).At(u).attempts[k].owner.User?
    ensures Possible(s, longer) && NoCalls(longer, h) && Inv(After(s, longer))
    ensures var r := After(s, moves).At(u);
            After(s, longer).At(u) == r.(attempts := r.attempts[k := r.attempts[k].(owner := Cleaner)])
    ensures After(s, longer).At(u).Away()
    ensures forall v :: v != u ==> After(s, longer).At(v) == After(s, moves).At(v)
    ensures forall v :: Held(After(s, longer).k, v) == Held(After(s, moves).k, v)
  {
    var m := After(s, moves);
    longer := moves;
    if m.At(u).attempts[k].owner == User(false) {
      longer := Extend(s, longer, h, u, Own(k, Cancel));
      SeenBy(m, u, k, Cancel);
    }
    var n := After(s, longer);
    longer := Extend(s, longer, h, u, Own(k, TakeCancel));
    SeenBy(n, u, k, TakeCancel);
    OneUser(m.At(u), k);
  }

  lemma SeenBy(s: State, h: Handle, k: nat, act: Act)
    requires Enabled(s, h, Own(k, act)) && (act == Cancel || act == TakeCancel)
    ensures var s' := Do(s, h, Own(k, act));
            && s'.At(h) == s.At(h).(attempts := s.At(h).attempts[k := ActOn(s.At(h).attempts[k], act)])
            && (forall u :: u != h ==> s'.At(u) == s.At(u))
            && forall u :: Held(s'.k, u) == Held(s.k, u)
  {
  }

  lemma OneUser(r: Rec, k: nat)
    requires RecOk(r) && k < |r.attempts| && r.attempts[k].owner.User?
    ensures r.(attempts := r.attempts[k := r.attempts[k].(owner := Cleaner)]).Away()
  {
  }

  function Busy(s: State, h: Handle): set<Handle> {
    set u | u in s.k && u != h && s.k[u] != Unlocked
  }

  /** Everybody else may let go of the lock. */
  lemma {:induction false} FreeOthers(s: State, moves: seq<Move>, h: Handle) returns (longer: seq<Move>)
    requires Inv(After(s, moves)) && Possible(s, moves) && NoCalls(moves, h)
    ensures Possible(s, longer) && NoCalls(longer, h) && Inv(After(s, longer))
    ensures After(s, longer).At(h) == After(s, moves).At(h) && Held(After(s, longer).k, h) == Held(After(s, moves).k, h)
    ensures Busy(After(s, longer), h) == {}
    decreases Busy(After(s, moves), h)
  {
    longer := moves;
    if u :| u in Busy(After(s, moves), h) {
      longer := FreeOne(s, moves, h, u);
      forall v | v in Busy(After(s, longer), h) ensures v in Busy(After(s, moves), h) && v != u {
        assert Held(After(s, longer).k, v) == Held(After(s, moves).k, v);
      }
      assert Busy(After(s, longer), h) < Busy(After(s, moves), h);
      longer := FreeOthers(s, longer, h);
    }
  }

  /** One step of an attempt, with everybody else out of the way. */
  lemma Play(s: State, moves: seq<Move>, h: Handle, k: nat, act: Act) returns (longer: seq<Move>)
    requires Inv(After(s, moves)) && Possible(s, moves) && NoCalls(moves, h) && Busy(After(s, moves), h) == {}
    requires Ready(After(s, moves).At(h), Own(k, act))
    ensures Possible(s, longer) && NoCalls(longer, h) && Inv(After(s, longer)) && Busy(After(s, longer), h) == {}
    ensures After(s, longer).At(h) == NewRec(After(s, moves).At(h), Own(k, act))
    ensures Held(After(s, longer).k, h) == NewHeld(After(s, moves).At(h), Held(After(s, moves).k, h), Own(k, act))
  {
    var m := After(s, moves);
    NobodyElse(m, h, m.At(h).attempts[k].mode);
    longer := Extend(s, moves, h, h, Own(k, act));
    Seen(m, h, Own(k, act), h);
    forall v | v in Busy(After(s, longer), h) ensures v in Busy(m, h) {
      Seen(m, h, Own(k, act), v);
    }
  }

  lemma NobodyElse(s: State, h: Handle, mode: Mode)
    requires Busy(s, h) == {}
    ensures Grantable(s.k, h, mode)
  {
    forall u | u in s.k && u != h ensures s.k[u] == Unlocked {
      assert u !in Busy(s, h);
    }
  }

  /** A hazard goes on until it has dropped the lock. */
  lemma HazardActs(r: Rec, held: Mode, k: nat)
    requires RecOk(r) && r.Away() && k < |r.attempts| && r.attempts[k].Hazard()
    ensures var step := Own(k, NextAct(r.attempts[k]));
            var r' := NewRec(r, step);
            && Ready(r, step) && r'.told == r.told && r'.Away() && |r'.attempts| == |r.attempts|
            && if r.attempts[k].owner == Dropping then NewHeld(r, held, step) == Unlocked
               else r'.attempts[k].Hazard() && Left(r'.attempts[k]) < Left(r.attempts[k])
  {
    assert AttemptOk(r.attempts[k]);
  }

  /** A hazard may come true: the lock is dropped from under its user. */
  lemma {:induction false} DropUnderUser(s: State, moves: seq<Move>, h: Handle, k: nat) returns (longer: seq<Move>)
    requires Inv(After(s, moves)) && Possible(s, moves) && NoCalls(moves, h) && Busy(After(s, moves), h) == {}
    requires After(s, moves).At(h).Away()
    requires k < |After(s, moves).At(h).attempts| && After(s, moves).At(h).attempts[k].Hazard()
    ensures Possible(s, longer) && NoCalls(longer, h) && Inv(After(s, longer)) && Busy(After(s, longer), h) == {}
    ensures After(s, longer).At(h).told == After(s, moves).At(h).told && After(s, longer).At(h).Away()
    ensures Held(After(s, longer).k, h) == Unlocked
    decreases Left(After(s, moves).At(h).attempts[k])
  {
    var r := After(s, moves).At(h);
    assert RecOk(r);
    HazardActs(r, Held(After(s, moves).k, h), k);
    longer := Play(s, moves, h, k, NextAct(r.attempts[k]));
    if r.attempts[k].owner != Dropping {
      longer := DropUnderUser(s, longer, h, k);
    }
  }

  /** The lock that a user will at last have been told of. */
  function ToldBy(r: Rec, call: Step): Mode {
    match call
    case Lock(mode) => if r.told == Unlocked then mode else r.told
    case Direct(mode) => mode
    case _ => Unlocked
  }

  ghost predicate DroppedUnderUser(s: State, h: Handle, told: Mode) {
    && Inv(s) && Busy(s, h) == {}
    && s.At(h).Away() && s.At(h).told == told && Held(s.k, h) == Unlocked
  }

  /** A call that is not careful may end with the user told of a lock that is gone. */
  lemma CarelessCall(s: State, h: Handle, call: Step) returns (moves: seq<Move>)
    requires Inv(s) && Enabled(s, h, call) && (call.Lock? || call.Direct?) && !Careful(s.At(h), call)
    ensures Possible(Do(s, h, call), moves) && NoCalls(moves, h)
    ensures DroppedUnderUser(After(Do(s, h, call), moves), h, ToldBy(s.At(h), call))
  {
    var s', r := Do(s, h, call), s.At(h);
    var j := |r.attempts|;
    InvStep(s, h, call);
    Seen(s, h, call, h);
    moves := FreeOthers(s', [], h);
    if call.Lock? && r.told != Unlocked {
      moves := Upgrade(s', moves, h, j);
    } else {
      var k :| 0 <= k < j && r.attempts[k].Hazard();
      if call.Lock? {
        moves := TakeLock(s', moves, h, r, call.mode);
      }
      moves := DropUnderUser(s', moves, h, k);
    }
  }

  /** The user of a lock asks for another one, leaves, and loses both. */
  lemma Upgrade(s: State, moves: seq<Move>, h: Handle, k: nat) returns (longer: seq<Move>)
    requires Inv(After(s, moves)) && Possible(s, moves) && NoCalls(moves, h) && Busy(After(s, moves), h) == {}
    requires k < |After(s, moves).At(h).attempts|
    requires var a := After(s, moves).At(h).attempts[k]; a.owner.User? && a.flight == InSyscall
    ensures Possible(s, longer) && NoCalls(longer, h)
    ensures DroppedUnderUser(After(s, longer), h, After(s, moves).At(h).told)
  {
    longer := LeaveCall(s, moves, h, h, k);
    forall v | v in Busy(After(s, longer), h) ensures v in Busy(After(s, moves), h) {
      assert Held(After(s, longer).k, v) == Held(After(s, moves).k, v);
    }
    longer := DropUnderUser(s, longer, h, k);
  }

  lemma LastActs(told: Mode, before: seq<Attempt>, a: Attempt, consumed: nat, act: Act)
    ensures NewRec(Rec(told, before + [a], consumed), Own(|before|, act))
            == Rec(if act.TakeResult? && a.flight == Sent(true) then a.mode else told, before + [ActOn(a, act)],
                   if act.TakeResult? || act.CleanerReceives? then consumed + 1 else consumed)
  {
    assert (before + [a])[|before| := ActOn(a, act)] == before + [ActOn(a, act)];
  }

  /** The call that has just begun on what was `r` gets its lock. */
  lemma TakeLock(s: State, moves: seq<Move>, h: Handle, r: Rec, mode: Mode) returns (longer: seq<Move>)
    requires Inv(After(s, moves)) && Possible(s, moves) && NoCalls(moves, h) && Busy(After(s, moves), h) == {}
    requires r.Away() && After(s, moves).At(h) == NewRec(r, Lock(mode))
    ensures Possible(s, longer) && NoCalls(longer, h) && Inv(After(s, longer)) && Busy(After(s, longer), h) == {}
    ensures After(s, longer).At(h) == Rec(mode, r.attempts + [Attempt(mode, Taken, Nobody)], r.consumed + 1)
  {
    var k := |r.attempts|;
    LastActs(r.told, r.attempts, Attempt(mode, InSyscall, User(false)), r.consumed, Grant);
    LastActs(r.told, r.attempts, Attempt(mode, Sending(true), User(false)), r.consumed, Send);
    LastActs(r.told, r.attempts, Attempt(mode, Sent(true), User(false)), r.consumed, TakeResult);
    longer := Play(s, moves, h, k, Grant);
    longer := Play(s, longer, h, k, Send);
    longer := Play(s, longer, h, k, TakeResult);
  }

  /** The exact condition, for every reachable state: a call can lead, with no further calls on its handle,
      to a user told of a lock that is not held, if and only if a clean-up of the handle may still drop the
      lock, or the call can be cancelled and the handle is locked. */
  lemma MisleadsIff(moves: seq<Move>, h: Handle, call: Step)
    requires Possible(INIT, moves) && Enabled(After(INIT, moves), h, call) && (call.Lock? || call.Direct?)
    ensures (exists more :: Misleads(Do(After(INIT, moves), h, call), more, h))
            <==> !After(INIT, moves).At(h).Harmless() || (call.Lock? && After(INIT, moves).At(h).told != Unlocked)
  {
    Start();
    RunInv(INIT, moves);
    var s := After(INIT, moves);
    var s' := Do(s, h, call);
    if Careful(s.At(h), call) {
      InvStep(s, h, call);
      Seen(s, h, call, h);
      CarefulCall(s.At(h), Held(s.k, h), call);
      forall more | Possible(s', more) && NoCalls(more, h) ensures !Misleads(s', more, h) {
        CleanStays(s', more, h);
      }
    } else {
      var more := CarelessCall(s, h, call);
      assert Misleads(s', more, h);
    }
  }

  /** What a caller can check: with nothing under way on the handle, calls are careful that do not ask for
      a lock to be cancelled while they hold one. */
  lemma QuietSuffices(r: Rec, call: Step)
    requires r.Quiet() && (call.Lock? ==> r.told == Unlocked)
    ensures Careful(r, call)
  {
  }

  /** After such a call somebody else may be told of an exclusive lock as well. */
  lemma SecondOwner(s: State, h: Handle, call: Step) returns (moves: seq<Move>, u: Handle)
    requires Inv(s) && Enabled(s, h, call) && (call.Lock? || call.Direct?) && !Careful(s.At(h), call)
    ensures Possible(Do(s, h, call), moves) && NoCalls(moves, h) && u != h
    ensures After(Do(s, h, call), moves).At(h).told == ToldBy(s.At(h), call)
    ensures After(Do(s, h, call), moves).At(u).told == Exclusive
  {
    var s' := Do(s, h, call);
    moves := CarelessCall(s, h, call);
    var m := After(s', moves);
    u := Unused(m.recs.Keys + {h});
    forall v | v in m.k ensures m.k[v] == Unlocked {
      assert v != h ==> v !in Busy(m, h);
    }
    moves := Extend(s', moves, h, u, Direct(Exclusive));
    Seen(m, u, Direct(Exclusive), u);
    Seen(m, u, Direct(Exclusive), h);
  }

  lemma Unused(used: set<Handle>) returns (u: Handle)
    ensures forall v :: v in used ==> v < u
  {
    u := 0;
    if used != {} {
      var v :| v in used;
      u := Unused(used - {v});
      u := if v < u then u else v + 1;
      assert forall w :: w in used ==> w in used - {v} || w == v;
    }
  }

  lemma NotBusy(s: State, h: Handle)
    requires forall u :: Held(s.k, u) == Unlocked
    ensures Busy(s, h) == {}
  {
    forall u ensures u !in Busy(s, h) {
      assert Held(s.k, u) == Unlocked;
    }
  }

  lemma FirstCall() returns (moves: seq<Move>)
    ensures Possible(INIT, moves) && NoCalls(moves, 1) && Inv(After(INIT, moves))
    ensures After(INIT, moves).At(0) == Rec(Unlocked, [Attempt(Exclusive, InSyscall, User(false))], 0)
    ensures forall u :: Held(After(INIT, moves).k, u) == Unlocked
  {
    Start();
    moves := Extend(INIT, [], 1, 0, Lock(Exclusive));
    forall u ensures Held(After(INIT, moves).k, u) == Unlocked {
      Seen(INIT, 0, Lock(Exclusive), u);
    }
    Seen(INIT, 0, Lock(Exclusive), 0);
    assert FRESH.attempts + [Attempt(Exclusive, InSyscall, User(false))] == [Attempt(Exclusive, InSyscall, User(false))];
  }

  /** A call on handle 0 has been cancelled in the middle of its system call. */
  lemma Cancelled() returns (moves: seq<Move>)
    ensures Possible(INIT, moves) && Inv(After(INIT, moves)) && Busy(After(INIT, moves), 0) == {}
    ensures After(INIT, moves).At(0) == Rec(Unlocked, [Attempt(Exclusive, InSyscall, Cleaner)], 0)
  {
    moves := FirstCall();
    var before := After(INIT, moves);
    moves := LeaveCall(INIT, moves, 1, 0, 0);
    assert before.At(0).attempts[0 := Attempt(Exclusive, InSyscall, Cleaner)] == [Attempt(Exclusive, InSyscall, Cleaner)];
    NotBusy(After(INIT, moves), 0);
  }

  /** Such a state can be reached: after a cancelled call, a lock taken before its clean-up leads to two owners. */
  lemma TwoExclusiveOwners() returns (moves: seq<Move>, call: Step, more: seq<Move>, u: Handle)
    ensures Possible(INIT, moves) && Enabled(After(INIT, moves), 0, call)
    ensures Possible(Do(After(INIT, moves), 0, call), more) && NoCalls(more, 0) && u != 0
    ensures var t := After(Do(After(INIT, moves), 0, call), more); t.At(0).told == Exclusive && t.At(u).told == Exclusive
  {
    moves := Cancelled();
    call := Direct(Exclusive);
    NobodyElse(After(INIT, moves), 0, Exclusive);
    assert After(INIT, moves).At(0).attempts[0].Hazard();
    more, u := SecondOwner(After(INIT, moves), 0, call);
  }
}
