/**
  The stored address pool and the two operations of the controller that change it: `updatePool`, which
  publishes a new set of addresses, and `deletePool`, which ends the life of a pool in stages.
 */
module PoolStore {
  import opened Distinct
  import opened Options

  const FINALIZER := "controller.eni.io"

  /** The custom resource: its spec, the finalizers, the deletion timestamp (set or not), and the
      addresses allocated from it, whose number is `Status.AllocatedIPCount`. */
  datatype PoolObject = PoolObject(ips: seq<string>, excludeIps: seq<string>, namespaces: seq<string>,
                                   finalizers: set<string>, deleting: bool, inUse: set<string>)
  {
    /** Addresses that may still be given out. */
    function Usable(): set<string> {
      (set ip | ip in ips) - (set ip | ip in excludeIps)
    }
  }

  /** The pool as the controllers hold it in memory. */
  class Pool {
    var mainId: string
    var subnat: string
    var namespaces: set<string>
    var capIp: set<string>
    var usedIp: set<string>

    constructor (mainId: string, subnat: string, namespaces: set<string>, capIp: set<string>, usedIp: set<string>)
      ensures this.mainId == mainId && this.subnat == subnat && this.namespaces == namespaces
      ensures this.capIp == capIp && this.usedIp == usedIp
    {
      this.mainId, this.subnat, this.namespaces, this.capIp, this.usedIp := mainId, subnat, namespaces, capIp, usedIp;
    }
  }

  // ------------------------------------------------------------ the API server

  /** Writing an object back: one that is being deleted goes away with its last finalizer. */
  function Patched(o: PoolObject): Option<PoolObject> {
    if o.deleting && o.finalizers == {} then None else Some(o)
  }

  /** Deleting removes an object without finalizers and marks any other. */
  function Deleted(obj: Option<PoolObject>): Option<PoolObject> {
    match obj
    case None => None
    case Some(o) => if o.finalizers == {} then None else Some(o.(deleting := true))
  }

  datatype Result = Nil | NoId | NoSubnat | GetFailed | NotFound | BeingDeleted | PatchFailed
                  | NotExcluded | StillAllocated | StillExists

  /** Which of the calls to the API server succeed in the end, after the retries of `Backoff`. */
  datatype Calls = Calls(get: bool, patch: bool, delete: bool)

  // ------------------------------------------------------------ deletePool

  function DeletePoolOf(obj: Option<PoolObject>, id: string, calls: Calls): (Option<PoolObject>, Result) {
    if id == "" then (obj, NoId)
    else if !calls.get then (obj, GetFailed)
    else match obj
      case None => (None, Nil)
      case Some(o) =>
        var (patched, result) :=
          if o.ips != o.excludeIps then (Patched(o.(excludeIps := o.ips)), NotExcluded)
          else if |o.inUse| != 0 then (obj, StillAllocated)
          else (Patched(o.(finalizers := o.finalizers - {FINALIZER})), StillExists);
        var left := if calls.patch then patched else obj;
        (if calls.delete then Deleted(left) else left, result)
  }

  /** The finalizers after a call: the controller's own goes only with everything excluded and nothing in use. */
  function LeftFinalizers(o: PoolObject, patch: bool): (left: set<string>)
    ensures left + {FINALIZER} == o.finalizers + {FINALIZER}
    ensures FINALIZER in left <==> FINALIZER in o.finalizers && !(patch && o.ips == o.excludeIps && o.inUse == {})
  {
    if patch && o.ips == o.excludeIps && o.inUse == {} then o.finalizers - {FINALIZER} else o.finalizers
  }

  // ------------------------------------------------------------ updatePool

  /** The listed addresses that the pool no longer has. */
  function Dropped(ips: seq<string>, cap: set<string>): seq<string> {
    if ips == [] then []
    else Dropped(ips[..|ips| - 1], cap) + if ips[|ips| - 1] in cap then [] else [ips[|ips| - 1]]
  }

  lemma {:induction false} DroppedIff(ips: seq<string>, cap: set<string>, ip: string)
    ensures ip in Dropped(ips, cap) <==> ip in ips && ip !in cap
  {
    if ips != [] {
      DroppedIff(ips[..|ips| - 1], cap, ip);
      assert ips == ips[..|ips| - 1] + [ips[|ips| - 1]];
    }
  }

  /** They keep their order, and there are no more than were listed. */
  lemma {:induction false} DroppedInOrder(ips: seq<string>, more: seq<string>, cap: set<string>)
    ensures Dropped(ips + more, cap) == Dropped(ips, cap) + Dropped(more, cap)
    ensures |Dropped(more, cap)| <= |more|
  {
    if more == [] {
      assert ips + more == ips;
    } else {
      var init := more[..|more| - 1];
      assert (ips + more)[..|ips + more| - 1] == ips + init;
      DroppedInOrder(ips, init, cap);
    }
  }

  /** What a successful update makes of the object, whatever order the sets are walked in. */
  ghost predicate Updated(o: PoolObject, o': PoolObject, cap: set<string>, namespaces: set<string>) {
    && Enumerates(o'.ips, cap) && Enumerates(o'.namespaces, namespaces)
    && o'.excludeIps == Dropped(o.ips, cap)
    && o'.finalizers == o.finalizers && o'.deleting == o.deleting && o'.inUse == o.inUse
  }

  /** The controller, seen through the stored object of one pool name. */
  class Controller {
    var stored: Option<PoolObject>

    constructor (obj: Option<PoolObject>)
      ensures stored == obj
    {
      stored := obj;
    }

    method Patch(o: PoolObject, ok: bool)
      modifies this
      ensures stored == if ok then Patched(o) else old(stored)
    {
      if ok {
        stored := if o.deleting && o.finalizers == {} then None else Some(o);
      }
    }

    method Delete(ok: bool)
      modifies this
      ensures stored == if ok then Deleted(old(stored)) else old(stored)
    {
      if ok && stored.Some? {
        if stored.value.finalizers == {} {
          stored := None;
        } else {
          stored := Some(stored.value.(deleting := true));
        }
      }
    }

    method DeletePool(id: string, calls: Calls) returns (result: Result)
      modifies this
      ensures (stored, result) == DeletePoolOf(old(stored), id, calls)
      ensures id == "" ==> result == NoId && stored == old(stored)
      ensures id != "" && !calls.get ==> result == GetFailed && stored == old(stored)
      ensures id != "" && calls.get && old(stored).None? ==> result == Nil && stored == None
      ensures id != "" && calls.get && old(stored).Some? ==>
                var o := old(stored).value;
                && result == (if o.ips != o.excludeIps then NotExcluded else if o.inUse != {} then StillAllocated else StillExists)
                && (calls.delete ==> stored.None? || stored.value.deleting)
                && (stored.None? <==> LeftFinalizers(o, calls.patch) == {}
                                      && (calls.delete || (o.deleting && calls.patch && result != StillAllocated)))
                && (stored.Some? ==>
                      && stored.value.ips == o.ips && stored.value.namespaces == o.namespaces && stored.value.inUse == o.inUse
                      && stored.value.excludeIps == (if calls.patch then o.ips else o.excludeIps)
                      && stored.value.finalizers == LeftFinalizers(o, calls.patch)
                      && stored.value.deleting == (o.deleting || calls.delete))
    {
      if id == "" {
        return NoId;
      }
      if !calls.get {
        return GetFailed;
      }
      if stored.None? {
        return Nil;
      }
      var pool := stored.value;
      if pool.ips != pool.excludeIps {
        Patch(pool.(excludeIps := pool.ips), calls.patch);
        result := NotExcluded;
      } else if |pool.inUse| != 0 {
        result := StillAllocated;
      } else {
        Patch(pool.(finalizers := pool.finalizers - {FINALIZER}), calls.patch);
        result := StillExists;
      }
      // deferred: always try to delete
      Delete(calls.delete);
    }

    method UpdatePool(pl: Pool, calls: Calls) returns (result: Result)
      modifies this
      ensures result == (if pl.mainId == "" then NoId
                         else if pl.subnat == "" then NoSubnat
                         else if !calls.get then GetFailed
                         else if old(stored).None? then NotFound
                         else if old(stored).value.deleting then BeingDeleted
                         else if !calls.patch then PatchFailed
                         else Nil)
      ensures result != Nil ==> stored == old(stored)
      ensures result == Nil ==> stored.Some? && Updated(old(stored).value, stored.value, pl.capIp, pl.namespaces)
      ensures result == Nil ==>
                var o, n := old(stored).value, stored.value;
                && NoDup(n.ips) && NoDup(n.namespaces)
                && (forall ip :: ip in n.ips <==> ip in pl.capIp)
                && (forall ns :: ns in n.namespaces <==> ns in pl.namespaces)
                && (forall ip :: ip in n.excludeIps <==> ip in o.ips && ip !in pl.capIp)
                && n.finalizers == o.finalizers && n.deleting == o.deleting && n.inUse == o.inUse
    {
      if pl.mainId == "" {
        return NoId;
      }
      if pl.subnat == "" {
        return NoSubnat;
      }
      if !calls.get {
        return GetFailed;
      }
      if stored.None? {
        return NotFound;
      }
      var pool := stored.value;
      if pool.deleting {
        return BeingDeleted;
      }
      var ns := Values(pl.namespaces);
      var ips := Values(pl.capIp);
      var excludips: seq<string> := [];
      for k := 0 to |pool.ips|
        invariant excludips == Dropped(pool.ips[..k], pl.capIp)
      {
        assert pool.ips[..k + 1][..k] == pool.ips[..k];
        if pool.ips[k] !in pl.capIp {
          excludips := excludips + [pool.ips[k]];
        }
      }
      assert pool.ips[..|pool.ips|] == pool.ips;
      forall ip ensures ip in excludips <==> ip in pool.ips && ip !in pl.capIp {
        DroppedIff(pool.ips, pl.capIp, ip);
      }
      Patch(pool.(namespaces := ns, excludeIps := excludips, ips := ips), calls.patch);
      result := if calls.patch then Nil else PatchFailed;
    }
  }

  /** The elements of a hash set, in whatever order the runtime walks it. */
  method Values(s: set<string>) returns (values: seq<string>)
    ensures Enumerates(values, s)
  {
    values := [];
    var rest := s;
    while rest != {}
      invariant rest <= s && Enumerates(values, s - rest)
      decreases |rest|
    {
      var x :| x in rest;
      EnumeratesSnoc(values, s - rest, x);
      assert (s - rest) + {x} == s - (rest - {x});
      values, rest := values + [x], rest - {x};
    }
    assert s - rest == s;
  }
}
