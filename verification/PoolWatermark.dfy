/**
  The watermark controller: how many addresses to add to a pool and which to take away, proved for every
  order in which the free addresses are walked; its convergence; and what it publishes.
 */
module PoolWatermark {
  import opened Options
  import opened PoolStore

  datatype AddressPair = AddressPair(ip: string, mac: string)

  /** High and low level of a subnet: nothing is taken away below `preAllocated` free addresses, and
      addresses are added below `minAvailable`. */
  datatype Sninfo = Sninfo(preAllocated: int, minAvailable: int)

  /** The addresses that an interface carries, by address. */
  type Second = map<string, AddressPair>

  predicate KeyedByIp(second: Second) {
    forall sip | sip in second :: second[sip].ip == sip
  }

  class PoolEvent {
    var add: int
    var remove: set<AddressPair>

    constructor ()
      ensures add == 0 && remove == {}
    {
      add, remove := 0, {};
    }
  }

  function Max0(n: int): nat {
    if n > 0 then n else 0
  }

  function PairsOf(second: Second, ips: set<string>): set<AddressPair> {
    set ip | ip in ips && ip in second :: second[ip]
  }

  function Min(a: int, b: int): int {
    if a < b then a else b
  }

  /** What a walk over the free addresses that stops after `limit` of them takes away: free addresses that
      the interface knows, and as many as the walk comes across except those unknown to the interface. */
  ghost predicate Walked(free: set<string>, known: set<string>, limit: nat, removed: set<string>) {
    && removed <= free * known
    && |removed| <= Min(limit, |free|) <= |removed| + |free - known|
  }

  /**
    What one round starts from and takes away. `before`: the pool's addresses. `known`: those that the
    interface carries. `used`: those allocated. `removed`: those that the walk takes away.
   */
  datatype Round = Round(sn: Sninfo, before: set<string>, known: set<string>, used: set<string>, removed: set<string>) {
    function Cap(): set<string> { before + known }
    function After(): set<string> { Cap() - removed }
    function Free(): set<string> { Cap() - used }

    /** Free addresses that the interface does not know. */
    function Unknown(): set<string> { before - used - known }

    /** Addresses available by the controller's count. */
    function Available(): int { |Cap()| - |used| }

    /** How many addresses the round asks for. */
    function Asked(): nat { Max0(|used| + sn.minAvailable - |Cap()|) }

    function Surplus(): int { |Cap()| - sn.preAllocated - |used| }

    ghost predicate Done() {
      Walked(Free(), known, Max0(Surplus()), removed)
    }
  }

  lemma {:induction false} SubsetSize<T>(a: set<T>, b: set<T>)
    requires a <= b
    ensures |a| <= |b|
  {
    assert b == a + (b - a);
  }

  datatype Error = NoParams | NoInterface | UpdateFailed(result: Result)
  datatype Outcome = Ok | Failed(error: Error)

  /** Taking one more address of a walk: with the interface knowing it, and without. */
  lemma WalkOne(cap: set<string>, events: set<AddressPair>, second: Second, seen: set<string>, ip: string)
    requires ip !in seen
    ensures var before, after := seen * second.Keys, (seen + {ip}) * second.Keys;
            if ip in second
            then cap - before - {ip} == cap - after && events + PairsOf(second, before) + {second[ip]} == events + PairsOf(second, after)
            else before == after
  {
  }

  /** A walk that has seen `seen` and stops there. */
  lemma WalkOver(free: set<string>, known: set<string>, limit: nat, seen: set<string>)
    requires seen <= free && |seen| <= limit && (|seen| == limit || seen == free)
    ensures Walked(free, known, limit, seen * known)
  {
    SubsetSize(seen, free);
    SubsetSize(seen - known, free - known);
    SubsetSize(seen * known, seen);
    assert seen == seen * known + (seen - known);
  }

  /** One round. `ifinfo` is what the infrastructure reports, and `calls` whether the API server answers. */
  method CalPoolEvent(sn: Option<Sninfo>, po: Pool?, plev: PoolEvent?, ifinfo: Option<Second>, controller: Controller, calls: Calls)
    returns (outcome: Outcome, ghost removed: set<string>)
    requires ifinfo.Some? ==> KeyedByIp(ifinfo.value)
    modifies po, plev, controller
    ensures outcome == (if sn.None? || po == null || plev == null then Failed(NoParams)
                        else if ifinfo.None? then Failed(NoInterface)
                        else if po.mainId == "" then Failed(UpdateFailed(NoId))
                        else if po.subnat == "" then Failed(UpdateFailed(NoSubnat))
                        else if !calls.get then Failed(UpdateFailed(GetFailed))
                        else if old(controller.stored).None? then Failed(UpdateFailed(NotFound))
                        else if old(controller.stored).value.deleting then Failed(UpdateFailed(BeingDeleted))
                        else if !calls.patch then Failed(UpdateFailed(PatchFailed))
                        else Ok)
    ensures outcome == Failed(NoParams) || outcome == Failed(NoInterface) ==>
              (po != null ==> unchanged(po)) && (plev != null ==> unchanged(plev))
    ensures po != null ==> po.mainId == old(po.mainId) && po.subnat == old(po.subnat)
    ensures po != null ==> po.namespaces == old(po.namespaces) && po.usedIp == old(po.usedIp)
    ensures outcome.Failed? ==> controller.stored == old(controller.stored)
    ensures outcome.Ok? ==> controller.stored.Some?
                            && Updated(old(controller.stored).value, controller.stored.value, po.capIp, po.namespaces)
    ensures sn.Some? && po != null && plev != null && ifinfo.Some? ==>
              && var r := Round(sn.value, old(po.capIp), ifinfo.value.Keys, po.usedIp, removed);
              var cap := old(po.capIp) + ifinfo.value.Keys;
              && r.Done() && po.capIp == cap - removed
              && plev.add == (if |cap| < |po.usedIp| + sn.value.minAvailable
                              then |po.usedIp| + sn.value.minAvailable - |cap| else old(plev.add))
              && forall p :: p in plev.remove <==>
                             p in old(plev.remove) || exists ip :: ip in removed && ip in ifinfo.value && p == ifinfo.value[ip]
  {
    removed := {};
    if sn.None? || po == null || plev == null {
      return Failed(NoParams), {};
    }
    if ifinfo.None? {
      return Failed(NoInterface), {};
    }
    removed := Adjust(sn.value, po, plev, ifinfo.value);
    var result := controller.UpdatePool(po, calls);
    outcome := if result == Nil then Ok else Failed(UpdateFailed(result));
  }

  /** The arithmetic of `calPoolEvent`. */
  method Adjust(sn: Sninfo, po: Pool, plev: PoolEvent, second: Second) returns (ghost removed: set<string>)
    requires KeyedByIp(second)
    modifies po`capIp, plev
    ensures var r := Round(sn, old(po.capIp), second.Keys, po.usedIp, removed);
            r.Done() && po.capIp == r.After() && plev.add == if r.Asked() > 0 then r.Asked() else old(plev.add)
    ensures plev.remove == old(plev.remove) + PairsOf(second, removed)
  {
    AddAll(po, second.Keys);
    var preAllocated, minAvailable := sn.preAllocated, sn.minAvailable;
    var addnum := |po.usedIp| + minAvailable - |po.capIp|;
    if addnum > 0 {
      plev.add := addnum;
    }
    var delnum := |po.capIp| - preAllocated - |po.usedIp|;
    removed := TrimExcess(po, plev, second, delnum);
  }

  method TrimExcess(po: Pool, plev: PoolEvent, second: Second, delnum: int) returns (ghost removed: set<string>)
    requires KeyedByIp(second)
    modifies po`capIp, plev`remove
    ensures Walked(old(po.capIp) - po.usedIp, second.Keys, Max0(delnum), removed)
    ensures po.capIp == old(po.capIp) - removed
    ensures plev.remove == old(plev.remove) + PairsOf(second, removed)
  {
    if delnum > 0 {
      removed := Trim(po, plev, second, delnum);
    } else {
      removed := {};
      NothingWalked(po.capIp, po.capIp - po.usedIp, plev.remove, second);
    }
  }

  /** `for sip := range ifinfo.Second`. */
  method AddAll(po: Pool, ips: set<string>)
    modifies po`capIp
    ensures po.capIp == old(po.capIp) + ips
  {
    var rest := ips;
    while rest != {}
      invariant rest <= ips && po.capIp == old(po.capIp) + (ips - rest)
      decreases |rest|
    {
      var sip :| sip in rest;
      po.capIp, rest := po.capIp + {sip}, rest - {sip};
    }
  }

  lemma NothingSeen(cap: set<string>, events: set<AddressPair>, second: Second)
    ensures cap - {} * second.Keys == cap && events + PairsOf(second, {} * second.Keys) == events
  {
  }

  lemma NothingWalked(cap: set<string>, free: set<string>, events: set<AddressPair>, second: Second)
    ensures cap - {} == cap && events + PairsOf(second, {}) == events && Walked(free, second.Keys, 0, {})
  {
  }

  /** The trimming loop: walks the free addresses in any order and stops after `delnum` of them. */
  method Trim(po: Pool, plev: PoolEvent, second: Second, delnum: int) returns (ghost removed: set<string>)
    requires delnum > 0 && KeyedByIp(second)
    modifies po`capIp, plev`remove
    ensures Walked(old(po.capIp) - po.usedIp, second.Keys, delnum, removed)
    ensures po.capIp == old(po.capIp) - removed
    ensures plev.remove == old(plev.remove) + PairsOf(second, removed)
  {
    var delset := po.capIp - po.usedIp;
    ghost var seen := Walk(po, plev, second, delset, delnum);
    removed := seen * second.Keys;
    WalkOver(delset, second.Keys, delnum, seen);
  }

  method Walk(po: Pool, plev: PoolEvent, second: Second, delset: set<string>, delnum: int) returns (ghost seen: set<string>)
    requires delnum > 0 && KeyedByIp(second)
    modifies po`capIp, plev`remove
    ensures seen <= delset && |seen| <= delnum && (|seen| == delnum || seen == delset)
    ensures po.capIp == old(po.capIp) - seen * second.Keys
    ensures plev.remove == old(plev.remove) + PairsOf(second, seen * second.Keys)
  {
    ghost var cap, events := po.capIp, plev.remove;
    NothingSeen(cap, events, second);
    var i, rest := 0, delset;
    seen := {};
    while rest != {} && i < delnum
      invariant rest == delset - seen && seen <= delset && i == |seen| <= delnum
      invariant po.capIp == cap - seen * second.Keys
      invariant plev.remove == events + PairsOf(second, seen * second.Keys)
      decreases delnum - i
    {
      var ip :| ip in rest;
      Visit(po, plev, second, ip, cap, events, seen);
      rest, i, seen := rest - {ip}, i + 1, seen + {ip};
    }
  }

  /** One round of the trimming loop; an address that the interface does not know is passed over. */
  method Visit(po: Pool, plev: PoolEvent, second: Second, ip: string, ghost cap: set<string>, ghost events: set<AddressPair>, ghost seen: set<string>)
    requires KeyedByIp(second) && ip !in seen
    requires po.capIp == cap - seen * second.Keys && plev.remove == events + PairsOf(second, seen * second.Keys)
    modifies po`capIp, plev`remove
    ensures po.capIp == cap - (seen + {ip}) * second.Keys
    ensures plev.remove == events + PairsOf(second, (seen + {ip}) * second.Keys)
  {
    WalkOne(cap, events, second, seen, ip);
    if ip !in second {
      return;
    }
    var info := second[ip];
    plev.remove := plev.remove + {AddressPair(info.ip, info.mac)};
    po.capIp := po.capIp - {info.ip};
  }

  // ------------------------------------------------------------ what a round achieves

  lemma Apart<T>(a: set<T>, b: set<T>)
    requires b <= a
    ensures |a - b| == |a| - |b|
  {
  }

  lemma FreeAtLeast(r: Round)
    ensures |r.Free()| >= r.Available()
  {
  }

  /** A walk over the free addresses leaves the used ones alone. */
  lemma WalkedSafely(cap: set<string>, used: set<string>, known: set<string>, limit: nat, removed: set<string>)
    requires Walked(cap - used, known, limit, removed)
    ensures removed !! used && removed <= cap && (cap - removed) * used == cap * used
    ensures |cap - removed - used| == |cap - used| - |removed|
    ensures Min(limit, |cap - used|) <= |removed| + |cap - used - known|
  {
    Apart(cap - used, removed);
    assert cap - removed - used == cap - used - removed;
  }

  lemma NothingUnknown(r: Round)
    ensures r.Free() - r.known == r.Unknown()
  {
  }

  /** Only unused addresses leave, no more than the surplus, and exactly the surplus when the interface
      knows all free ones; the free addresses never fall below the high level. */
  lemma TrimmingIsSafe(r: Round)
    requires r.Done() && r.sn.preAllocated >= 0
    ensures r.removed !! r.used && r.removed <= r.Cap() && r.After() * r.used == r.Cap() * r.used
    ensures |r.removed| <= Max0(r.Surplus())
    ensures r.Unknown() == {} ==> |r.removed| == Max0(r.Surplus())
    ensures r.removed != {} ==> |r.After() - r.used| >= r.sn.preAllocated
  {
    FreeAtLeast(r);
    NothingUnknown(r);
    WalkedSafely(r.Cap(), r.used, r.known, Max0(r.Surplus()), r.removed);
    assert r.removed != {} ==> |r.removed| > 0;
  }

  /** Adding and trimming are both asked for only when the levels are crossed and the pool lies between,
      and, when the interface knows all free addresses, exactly then. */
  lemma BothAskedIff(r: Round)
    requires r.Done() && r.sn.preAllocated >= 0
    ensures var between := r.sn.preAllocated < r.Available() < r.sn.minAvailable;
            && (r.Asked() > 0 && r.removed != {} ==> between)
            && (r.Unknown() == {} && between ==> r.Asked() > 0 && r.removed != {})
  {
    TrimmingIsSafe(r);
    assert r.removed != {} <==> |r.removed| > 0;
  }

  /** The infrastructure has taken away what was to be removed and added as many addresses as asked for. */
  ghost predicate Applied(r: Round, known': set<string>, added: set<string>) {
    known' == (r.known - r.removed) + added && |added| == r.Asked() && added !! r.Cap()
  }

  /** The next round starts from the pool that this one left, with usage as it was. */
  predicate Follows(r: Round, r': Round) {
    r'.sn == r.sn && r'.before == r.After() && r'.used == r.used
  }

  lemma AppliedCap(cap: set<string>, known: set<string>, removed: set<string>, added: set<string>)
    requires known <= cap && removed <= cap && added !! cap
    ensures (cap - removed) + (known - removed + added) == (cap - removed) + added
    ensures |(cap - removed) + added| == |cap| - |removed| + |added|
  {
    Apart(cap, removed);
    Apart(cap - removed + added, added);
    assert cap - removed + added - added == cap - removed;
  }

  lemma AvailableNext(r: Round, r': Round, added: set<string>)
    requires r.Done() && Applied(r, r'.known, added) && Follows(r, r')
    ensures r'.Cap() == r.After() + added
    ensures r'.Available() == r.Available() - |r.removed| + r.Asked()
  {
    WalkedSafely(r.Cap(), r.used, r.known, Max0(r.Surplus()), r.removed);
    AppliedCap(r.Cap(), r.known, r.removed, added);
  }

  /** What a round leaves available, before anything is added. */
  lemma LeftAvailable(r: Round)
    requires r.Done() && r.sn.preAllocated >= 0
    ensures Max0(r.Surplus()) - |r.Unknown()| <= |r.removed| <= Max0(r.Surplus())
    ensures |r.removed| == 0 ==> r.removed == {} && r.After() == r.Cap()
  {
    FreeAtLeast(r);
    NothingUnknown(r);
  }

  /** The round after an applied event finds the available count between the levels, except for free
      addresses that the interface does not know, and with none of those it asks for nothing. */
  lemma Converges(r: Round, r': Round, added: set<string>)
    requires 0 <= r.sn.minAvailable <= r.sn.preAllocated
    requires r.Done() && Applied(r, r'.known, added) && Follows(r, r') && r'.Done()
    ensures r.sn.minAvailable <= r'.Available() <= r.sn.preAllocated + |r.Unknown()|
    ensures r'.Asked() == 0 && |r'.removed| <= |r.Unknown()|
    ensures r.Unknown() == {} ==> r'.removed == {} && r'.After() == r.After() + added
    ensures r.Available() <= r.sn.minAvailable ==> r'.Available() == r.sn.minAvailable
    ensures r.sn.minAvailable <= r.Available() <= r.sn.preAllocated ==> r'.Available() == r.Available()
    ensures r.Unknown() == {} && r.sn.preAllocated <= r.Available() ==> r'.Available() == r.sn.preAllocated
  {
    AvailableNext(r, r', added);
    LeftAvailable(r);
    LeftAvailable(r');
    assert r.Unknown() == {} ==> |r.Unknown()| == 0;
  }

  /** What a round publishes: no address both usable and excluded, every listed one in exactly one list,
      what was trimmed excluded, and what is in use left usable. */
  lemma PublishedSafely(r: Round, o: PoolObject, o': PoolObject, namespaces: set<string>, ip: string)
    requires r.Done() && Updated(o, o', r.After(), namespaces)
    ensures !(ip in o'.ips && ip in o'.excludeIps)
    ensures ip in o.ips ==> (ip in o'.ips || ip in o'.excludeIps)
    ensures ip in r.removed && ip in o.ips ==> ip in o'.excludeIps
    ensures ip in r.used && ip in r.Cap() ==> ip in o'.Usable()
  {
    DroppedIff(o.ips, r.After(), ip);
  }
}
