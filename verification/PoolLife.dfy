/**
  The life of a stored pool: every run that mixes `deletePool`, `updatePool`, plain deletes, the
  finalizers of this and other controllers, and addresses being allocated and released.
 */
module PoolLife {
  import opened Distinct
  import opened Options
  import opened PoolStore

  /** `leaked`: addresses that were in use when the object went away. */
  datatype Life = Life(obj: Option<PoolObject>, leaked: set<string>)

  datatype Event =
    | DeletePool(calls: Calls)
    | UpdatePool(cap: set<string>, namespaces: set<string>)
    | PlainDelete
    | Adopt
    | ForeignDone
    | Allocate(ip: string)
    | Release(ip: string)

  /** The object is replaced; if it is gone, whatever was in use is in use without a pool. */
  function Replace(l: Life, obj: Option<PoolObject>): Life {
    Life(obj, if l.obj.Some? && obj.None? then l.leaked + l.obj.value.inUse else l.leaked)
  }

  const ID := "id"

  /** One event. An update is refused while the object is being deleted, as is adding a finalizer;
      addresses are given out from `ips` except `excludeIps`, and not twice. */
  ghost predicate Happens(l: Life, e: Event, l': Life) {
    match e
    case DeletePool(calls) => l' == Replace(l, DeletePoolOf(l.obj, ID, calls).0)
    case UpdatePool(cap, namespaces) =>
      if l.obj.Some? && !l.obj.value.deleting
      then l'.obj.Some? && Updated(l.obj.value, l'.obj.value, cap, namespaces) && l'.leaked == l.leaked
      else l' == l
    case PlainDelete => l' == Replace(l, Deleted(l.obj))
    case Adopt =>
      if l.obj.Some? && !l.obj.value.deleting
      then l' == l.(obj := Some(l.obj.value.(finalizers := l.obj.value.finalizers + {FINALIZER})))
      else l' == l
    case ForeignDone =>
      if l.obj.Some?
      then l' == Replace(l, Patched(l.obj.value.(finalizers := l.obj.value.finalizers * {FINALIZER})))
      else l' == l
    case Allocate(ip) =>
      && l.obj.Some? && ip in l.obj.value.Usable() && ip !in l.obj.value.inUse
      && l' == l.(obj := Some(l.obj.value.(inUse := l.obj.value.inUse + {ip})))
    case Release(ip) =>
      && l.obj.Some? && ip in l.obj.value.inUse
      && l' == l.(obj := Some(l.obj.value.(inUse := l.obj.value.inUse - {ip})))
  }

  /** A run: the states passed through and what happened between them. */
  ghost predicate IsRun(lives: seq<Life>, events: seq<Event>) {
    && |lives| == |events| + 1
    && forall k | 0 <= k < |events| :: Happens(lives[k], events[k], lives[k + 1])
  }

  // ------------------------------------------------------------ what deletePool tells, over runs

  /** `nil` is told exactly when the lookup succeeds and finds the object gone, and then it stays gone, with
      nothing more lost, and every later call whose lookup succeeds tells the same. */
  lemma {:induction false} NilIffGoneForGood(lives: seq<Life>, events: seq<Event>, k: nat, j: nat)
    requires IsRun(lives, events) && k <= j <= |events| && k < |events| && events[k].DeletePool?
    ensures DeletePoolOf(lives[k].obj, ID, events[k].calls).1 == Nil <==> events[k].calls.get && lives[k].obj.None?
    ensures lives[k].obj.None? ==> lives[j] == lives[k]
  {
    if j > k {
      NilIffGoneForGood(lives, events, k, j - 1);
      assert Happens(lives[j - 1], events[j - 1], lives[j]);
    }
  }

  ghost predicate Guarded(l: Life) {
    l.obj.Some? && FINALIZER in l.obj.value.finalizers
  }

  /** A call of `deletePool` that finds every address excluded and none in use. */
  predicate TakesFinalizerOff(l: Life, e: Event) {
    && e.DeletePool? && l.obj.Some?
    && l.obj.value.ips == l.obj.value.excludeIps && l.obj.value.inUse == {} && l.obj.value.Usable() == {}
  }

  lemma GuardStep(l: Life, e: Event, l': Life)
    requires Guarded(l) && Happens(l, e, l') && !Guarded(l')
    ensures TakesFinalizerOff(l, e)
  {
    var o := l.obj.value;
    assert FINALIZER in o.finalizers * {FINALIZER};
    assert o.ips == o.excludeIps ==> o.Usable() == {};
  }

  /** In every run an object loses the finalizer, or goes away with it, in such a call only. */
  lemma {:induction false} FinalizerRemovedLast(lives: seq<Life>, events: seq<Event>, i: nat, j: nat)
    requires IsRun(lives, events) && i <= j <= |events|
    requires Guarded(lives[i]) && !Guarded(lives[j])
    ensures exists k :: i <= k < j && Guarded(lives[k]) && TakesFinalizerOff(lives[k], events[k])
  {
    if Guarded(lives[j - 1]) {
      GuardStep(lives[j - 1], events[j - 1], lives[j]);
    } else {
      FinalizerRemovedLast(lives, events, i, j - 1);
    }
  }

  // ------------------------------------------------------------ no address outlives its pool

  /** From here the object can go away with an address in use, without any further call that fails. */
  predicate Unguarded(o: PoolObject) {
    FINALIZER !in o.finalizers && (o.inUse != {} || !o.deleting || o.Usable() != {})
  }

  predicate Safe(l: Life) {
    l.leaked == {} && (l.obj.Some? ==> !Unguarded(l.obj.value))
  }

  /** The one kind of call that ends the guard: the finalizer is written off, but the delete then fails. */
  predicate HalfDone(l: Life, e: Event) {
    && e.DeletePool? && e.calls.get && e.calls.patch && !e.calls.delete
    && l.obj.Some? && !l.obj.value.deleting
    && l.obj.value.ips == l.obj.value.excludeIps && l.obj.value.inUse == {}
  }

  lemma SafeStep(l: Life, e: Event, l': Life)
    requires Safe(l) && Happens(l, e, l')
    ensures Safe(l') <==> !HalfDone(l, e)
  {
    if l.obj.Some? {
      var o := l.obj.value;
      assert o.ips == o.excludeIps ==> o.Usable() == {};
      assert o.(excludeIps := o.ips).Usable() == {};
      assert FINALIZER in o.finalizers <==> FINALIZER in o.finalizers * {FINALIZER};
    }
  }

  lemma {:induction false} NothingOutlivesItsPool(lives: seq<Life>, events: seq<Event>, k: nat)
    requires IsRun(lives, events) && Safe(lives[0]) && k <= |events|
    requires forall j | 0 <= j < |events| :: !HalfDone(lives[j], events[j])
    ensures Safe(lives[k])
  {
    if k > 0 {
      NothingOutlivesItsPool(lives, events, k - 1);
      SafeStep(lives[k - 1], events[k - 1], lives[k]);
    }
  }

  /** A whole run stays safe if and only if it has no such call. */
  lemma SafeRunIff(lives: seq<Life>, events: seq<Event>)
    requires IsRun(lives, events) && Safe(lives[0])
    ensures (forall k | 0 <= k <= |events| :: Safe(lives[k])) <==> (forall k | 0 <= k < |events| :: !HalfDone(lives[k], events[k]))
  {
    if forall k | 0 <= k < |events| :: !HalfDone(lives[k], events[k]) {
      forall k | 0 <= k <= |events| ensures Safe(lives[k]) {
        NothingOutlivesItsPool(lives, events, k);
      }
    } else {
      var k :| 0 <= k < |events| && HalfDone(lives[k], events[k]);
      if Safe(lives[k]) {
        SafeStep(lives[k], events[k], lives[k + 1]);
        assert !Safe(lives[k + 1]);
      }
    }
  }

  /** Every call to the API server succeeds. */
  predicate AllSucceed(events: seq<Event>) {
    forall e | e in events && e.DeletePool? :: e.calls == Calls(true, true, true)
  }

  ghost predicate LeaksFrom(l: Life, lives: seq<Life>, events: seq<Event>) {
    IsRun(lives, events) && lives[0] == l && AllSucceed(events) && lives[|events|].leaked != {}
  }

  lemma Cons(l: Life, e: Event, lives: seq<Life>, events: seq<Event>)
    requires IsRun(lives, events) && Happens(l, e, lives[0])
    ensures IsRun([l] + lives, [e] + events)
  {
  }

  /** From an unguarded object: allocate if need be, delete, and let the other controllers finish. */
  lemma LeakRun(l: Life) returns (lives: seq<Life>, events: seq<Event>)
    requires l.obj.Some? && Unguarded(l.obj.value)
    ensures LeaksFrom(l, lives, events)
    decreases if l.obj.value.inUse != {} then 0 else if l.obj.value.Usable() != {} then 1 else 2
  {
    var o := l.obj.value;
    if ip :| ip in o.inUse {
      var marked := Replace(l, Deleted(l.obj));
      var gone := if marked.obj.None? then marked
                  else Replace(marked, Patched(marked.obj.value.(finalizers := o.finalizers * {FINALIZER})));
      lives, events := [l, marked, gone], [PlainDelete, ForeignDone];
      assert ip in gone.leaked;
    } else if ip :| ip in o.Usable() {
      var l' := l.(obj := Some(o.(inUse := o.inUse + {ip})));
      lives, events := LeakRun(l');
      Cons(l, Allocate(ip), lives, events);
      lives, events := [l] + lives, [Allocate(ip)] + events;
    } else {
      var x := "10.0.0.1";
      var o' := o.(ips := [x], excludeIps := Dropped(o.ips, {x}), namespaces := []);
      DroppedIff(o.ips, {x}, x);
      assert Enumerates([x], {x}) by { EnumeratesSnoc<string>([], {}, x); assert [] + [x] == [x] && {} + {x} == {x}; }
      assert x in o'.Usable();
      var l' := l.(obj := Some(o'));
      lives, events := LeakRun(l');
      assert Happens(l, UpdatePool({x}, {}), l');
      Cons(l, UpdatePool({x}, {}), lives, events);
      lives, events := [l] + lives, [UpdatePool({x}, {})] + events;
    }
  }

  /** The exact condition: an address can outlive its pool, with no call failing, if and only if the
      object is unguarded. */
  lemma LeakIffUnguarded(l: Life)
    requires l.obj.Some? && l.leaked == {}
    ensures Unguarded(l.obj.value) <==>
            exists lives, events :: LeaksFrom(l, lives, events)
  {
    if Unguarded(l.obj.value) {
      var lives, events := LeakRun(l);
    } else if lives, events :| LeaksFrom(l, lives, events) {
      NothingOutlivesItsPool(lives, events, |events|);
      assert false;
    }
  }

  const DELETE_FAILS := Calls(true, true, false)

  /** One more call of `deletePool` whose delete fails, before a run that leaks. */
  lemma HalfDoneLeaks(l: Life) returns (lives: seq<Life>, events: seq<Event>)
    requires HalfDone(l, DeletePool(DELETE_FAILS))
    ensures IsRun(lives, events) && lives[0] == l && lives[|events|].leaked != {}
    ensures events != [] && events[0] == DeletePool(DELETE_FAILS) && AllSucceed(events[1..])
  {
    var l' := Replace(l, DeletePoolOf(l.obj, ID, DELETE_FAILS).0);
    lives, events := LeakRun(l');
    Cons(l, DeletePool(DELETE_FAILS), lives, events);
    lives, events := [l] + lives, [DeletePool(DELETE_FAILS)] + events;
  }

  /** An adopted object that is not being deleted and has no address in use. */
  predicate Idle(l: Life) {
    l.obj.Some? && l.leaked == {} && FINALIZER in l.obj.value.finalizers && !l.obj.value.deleting && l.obj.value.inUse == {}
  }

  /** From every such object, safe as it is, two calls of `deletePool` that only fail to delete lead to an
      address that outlives its pool. */
  lemma GuardIsLost(l: Life) returns (lives: seq<Life>, events: seq<Event>)
    requires Idle(l)
    ensures Safe(l) && IsRun(lives, events) && lives[0] == l && lives[|events|].leaked != {}
    ensures |events| >= 2 && AllSucceed(events[2..])
    ensures events[0] == DeletePool(DELETE_FAILS) && events[1] == DeletePool(DELETE_FAILS)
  {
    var e := DeletePool(DELETE_FAILS);
    var l' := Replace(l, DeletePoolOf(l.obj, ID, DELETE_FAILS).0);
    if l.obj.value.ips != l.obj.value.excludeIps {
      lives, events := HalfDoneLeaks(l');
      Cons(l, e, lives, events);
    } else {
      // the guard goes with the first call already; the second changes nothing
      var l'' := Replace(l', DeletePoolOf(l'.obj, ID, DELETE_FAILS).0);
      lives, events := LeakRun(l'');
      Cons(l', e, lives, events);
      lives, events := [l'] + lives, [e] + events;
      Cons(l, e, lives, events);
    }
    lives, events := [l] + lives, [e] + events;
  }

  // ------------------------------------------------------------ three calls are enough

  function CallsIn(events: seq<Event>): nat {
    if events == [] then 0
    else CallsIn(events[..|events| - 1]) + if events[|events| - 1].DeletePool? then 1 else 0
  }

  /** How far the deletion has come: nothing done, everything excluded and marked, gone. */
  ghost predicate Reached(l: Life, stage: nat) {
    && (l.obj.Some? ==> l.obj.value.finalizers <= {FINALIZER} && l.obj.value.inUse == {})
    && (stage == 1 && l.obj.Some? ==> l.obj.value.deleting && l.obj.value.ips == l.obj.value.excludeIps)
    && (stage >= 2 ==> l.obj.None?)
  }

  lemma StageStep(l: Life, e: Event, l': Life, stage: nat)
    requires Reached(l, stage) && Happens(l, e, l') && !e.Allocate?
    requires e.DeletePool? ==> e.calls == Calls(true, true, true)
    ensures Reached(l', if e.DeletePool? then stage + 1 else stage)
  {
  }

  /** With no failing call, no allocation and no finalizer but its own, whatever else goes on in between,
      the third call of `deletePool` returns `nil` at the latest. */
  lemma {:induction false} ThirdCallReturnsNil(lives: seq<Life>, events: seq<Event>, k: nat)
    requires IsRun(lives, events) && AllSucceed(events) && Reached(lives[0], 0) && k <= |events|
    requires forall e | e in events :: !e.Allocate?
    ensures Reached(lives[k], CallsIn(events[..k]))
    ensures CallsIn(events[..k]) >= 2 ==> DeletePoolOf(lives[k].obj, ID, Calls(true, true, true)).1 == Nil
  {
    if k > 0 {
      ThirdCallReturnsNil(lives, events, k - 1);
      assert events[..k][..k - 1] == events[..k - 1];
      StageStep(lives[k - 1], events[k - 1], lives[k], CallsIn(events[..k - 1]));
    }
  }
}
