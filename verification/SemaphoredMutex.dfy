/**
  The reader/writer lock made of weights on a semaphore that serves its waiters strictly in turn: the
  semaphore and the lock as classes, and every run of any number of goroutines.
 */
module SemaphoredMutex {

  type Tid = nat

  const MAX_READERS: int := 0x4000_0000

  datatype Waiter = Waiter(t: Tid, n: int)

  // ------------------------------------------------------------ the weighted semaphore

  /** `cur`: the weight given out. `waiters`: who waits, first come first. */
  datatype Sem = Sem(cur: int, waiters: seq<Waiter>)

  /** Admits waiters from the front as long as the first one fits. */
  function Notify(size: int, s: Sem): Sem
    decreases |s.waiters|
  {
    if s.waiters == [] || size - s.cur < s.waiters[0].n then s
    else Notify(size, Sem(s.cur + s.waiters[0].n, s.waiters[1..]))
  }

  /** How many waiters that admits. */
  function Admitted(size: int, s: Sem): (k: nat)
    ensures k <= |s.waiters|
    decreases |s.waiters|
  {
    if s.waiters == [] || size - s.cur < s.waiters[0].n then 0
    else 1 + Admitted(size, Sem(s.cur + s.waiters[0].n, s.waiters[1..]))
  }

  function Weight(ws: seq<Waiter>): int {
    if ws == [] then 0 else ws[0].n + Weight(ws[1..])
  }

  /** What notifying does: the admitted are a prefix of the queue, they fit, and the next one does not. */
  lemma {:induction false} NotifyAdmitsPrefix(size: int, s: Sem)
    ensures var k := Admitted(size, s);
            && Notify(size, s) == Sem(s.cur + Weight(s.waiters[..k]), s.waiters[k..])
            && (k > 0 ==> s.cur + Weight(s.waiters[..k]) <= size)
            && (k < |s.waiters| ==> size < s.cur + Weight(s.waiters[..k]) + s.waiters[k].n)
    decreases |s.waiters|
  {
    if !(s.waiters == [] || size - s.cur < s.waiters[0].n) {
      var rest := Sem(s.cur + s.waiters[0].n, s.waiters[1..]);
      var k := Admitted(size, rest);
      NotifyAdmitsPrefix(size, rest);
      assert s.waiters[..k + 1][1..] == s.waiters[1..][..k] && s.waiters[1..][k..] == s.waiters[k + 1..];
      if k == 0 { assert Weight(s.waiters[1..][..0]) == 0; }
    } else {
      assert s.waiters[..0] == [] && s.waiters[0..] == s.waiters;
    }
  }

  class Weighted {
    const size: int
    var cur: int
    var waiters: seq<Waiter>

    function Model(): Sem
      reads this
    {
      Sem(cur, waiters)
    }

    constructor (n: int)
      ensures size == n && Model() == Sem(0, [])
    {
      size, cur, waiters := n, 0, [];
    }

    /** Takes the weight at once, or queues up; a weight that can never fit waits without being queued. */
    method Acquire(t: Tid, n: int) returns (granted: bool)
      modifies this
      ensures granted <==> old(waiters) == [] && size - old(cur) >= n
      ensures Model() == if granted then Sem(old(cur) + n, [])
                         else if n > size then old(Model())
                         else Sem(old(cur), old(waiters) + [Waiter(t, n)])
    {
      if size - cur >= n && |waiters| == 0 {
        cur := cur + n;
        return true;
      }
      if n > size {
        return false;
      }
      waiters := waiters + [Waiter(t, n)];
      return false;
    }

    /** Gives weight back and admits whoever fits now; giving back more than is out panics. */
    method Release(n: int) returns (ok: bool)
      modifies this
      ensures ok <==> old(cur) >= n
      ensures ok ==> Model() == Notify(size, Sem(old(cur) - n, old(waiters)))
      ensures !ok ==> Model() == Sem(old(cur) - n, old(waiters))
    {
      cur := cur - n;
      if cur < 0 {
        return false;
      }
      NotifyWaiters();
      return true;
    }

    method NotifyWaiters()
      modifies this
      ensures Model() == Notify(size, old(Model()))
    {
      while true
        invariant Notify(size, Model()) == Notify(size, old(Model()))
        decreases |waiters|
      {
        if |waiters| == 0 {
          break;
        }
        var w := waiters[0];
        if size - cur < w.n {
          break;
        }
        cur := cur + w.n;
        waiters := waiters[1..];
      }
    }
  }

  // ------------------------------------------------------------ the lock

  class SemaphoredMutex {
    const semaphore: Weighted

    constructor ()
      ensures fresh(semaphore) && semaphore.size == MAX_READERS && semaphore.Model() == Sem(0, [])
    {
      semaphore := new Weighted(MAX_READERS);
    }

    /** Whether the lock is had at once; otherwise the goroutine waits in the queue. */
    method Lock(t: Tid) returns (granted: bool)
      requires semaphore.size == MAX_READERS
      modifies semaphore
      ensures granted <==> old(semaphore.waiters) == [] && old(semaphore.cur) <= 0
      ensures semaphore.Model() == AcquireOf(old(semaphore.Model()), Waiter(t, MAX_READERS))
      ensures semaphore.cur == old(semaphore.cur) + (if granted then MAX_READERS else 0)
      ensures semaphore.waiters == old(semaphore.waiters) + if granted then [] else [Waiter(t, MAX_READERS)]
    {
      granted := semaphore.Acquire(t, MAX_READERS);
    }

    method RLock(t: Tid) returns (granted: bool)
      requires semaphore.size == MAX_READERS
      modifies semaphore
      ensures granted <==> old(semaphore.waiters) == [] && old(semaphore.cur) < MAX_READERS
      ensures semaphore.Model() == AcquireOf(old(semaphore.Model()), Waiter(t, 1))
      ensures semaphore.cur == old(semaphore.cur) + (if granted then 1 else 0)
      ensures semaphore.waiters == old(semaphore.waiters) + if granted then [] else [Waiter(t, 1)]
    {
      granted := semaphore.Acquire(t, 1);
    }

    method Unlock() returns (ok: bool)
      requires semaphore.size == MAX_READERS
      modifies semaphore
      ensures ok <==> old(semaphore.cur) >= MAX_READERS
      ensures ok ==> semaphore.Model() == ReleaseOf(old(semaphore.Model()), MAX_READERS)
    {
      ok := semaphore.Release(MAX_READERS);
    }

    method RUnlock() returns (ok: bool)
      requires semaphore.size == MAX_READERS
      modifies semaphore
      ensures ok <==> old(semaphore.cur) >= 1
      ensures ok ==> semaphore.Model() == ReleaseOf(old(semaphore.Model()), 1)
    {
      ok := semaphore.Release(1);
    }

    method UnlockToRLock() returns (ok: bool)
      requires semaphore.size == MAX_READERS
      modifies semaphore
      ensures ok <==> old(semaphore.cur) >= MAX_READERS - 1
      ensures ok ==> semaphore.Model() == ReleaseOf(old(semaphore.Model()), MAX_READERS - 1)
    {
      ok := semaphore.Release(MAX_READERS - 1);
    }
  }

  function AcquireOf(s: Sem, w: Waiter): Sem {
    if s.waiters == [] && MAX_READERS - s.cur >= w.n then Sem(s.cur + w.n, []) else Sem(s.cur, s.waiters + [w])
  }

  function ReleaseOf(s: Sem, n: int): Sem {
    Notify(MAX_READERS, Sem(s.cur - n, s.waiters))
  }

  // ------------------------------------------------------------ every run

  /**
    `writers` and `readers`: who holds the lock, and how often. `asked`: every request ever made, in order;
    `served`: the requests granted so far, in the order of granting.
   */
  datatype State = State(sem: Sem, writers: multiset<Tid>, readers: multiset<Tid>, asked: seq<Waiter>, served: seq<Waiter>)

  const INIT := State(Sem(0, []), multiset{}, multiset{}, [], [])

  datatype Step = Lock(t: Tid) | RLock(t: Tid) | Unlock(t: Tid) | RUnlock(t: Tid) | UnlockToRLock(t: Tid)

  predicate Waiting(s: State, t: Tid) {
    exists k :: 0 <= k < |s.sem.waiters| && s.sem.waiters[k].t == t
  }

  /** Well-bracketed use by goroutines that are not themselves waiting. */
  predicate Enabled(s: State, step: Step) {
    && !Waiting(s, step.t)
    && (step.Unlock? || step.UnlockToRLock? ==> step.t in s.writers)
    && (step.RUnlock? ==> step.t in s.readers)
  }

  /** The holders after the given requests have been granted. */
  function Grant(s: State, ws: seq<Waiter>): State
    decreases |ws|
  {
    if ws == [] then s
    else
      var s' := s.(served := s.served + [ws[0]]);
      Grant(if ws[0].n == 1 then s'.(readers := s'.readers + multiset{ws[0].t}) else s'.(writers := s'.writers + multiset{ws[0].t}),
            ws[1..])
  }

  function Acquire(s: State, w: Waiter): State {
    var sem := AcquireOf(s.sem, w);
    var asked := s.(sem := sem, asked := s.asked + [w]);
    if sem.waiters == [] then Grant(asked, [w]) else asked
  }

  function Release(s: State, n: int): State {
    var sem := Sem(s.sem.cur - n, s.sem.waiters);
    Grant(s.(sem := Notify(MAX_READERS, sem)), sem.waiters[..Admitted(MAX_READERS, sem)])
  }

  /** The holders when a lock is given up, before anybody else is served. */
  function Relieved(s: State, step: Step): State {
    match step
    case Unlock(u) => s.(writers := s.writers - multiset{u})
    case RUnlock(u) => s.(readers := s.readers - multiset{u})
    case UnlockToRLock(u) => s.(writers := s.writers - multiset{u}, readers := s.readers + multiset{u})
    case _ => s
  }

  function Given(step: Step): int {
    match step case Unlock(_) => MAX_READERS case UnlockToRLock(_) => MAX_READERS - 1 case _ => 1
  }

  function Do(s: State, step: Step): State {
    match step
    case Lock(t) => Acquire(s, Waiter(t, MAX_READERS))
    case RLock(t) => Acquire(s, Waiter(t, 1))
    case _ => Release(Relieved(s, step), Given(step))
  }

  function After(s: State, steps: seq<Step>): State {
    if steps == [] then s else Do(After(s, steps[..|steps| - 1]), steps[|steps| - 1])
  }

  predicate Possible(s: State, steps: seq<Step>) {
    steps == [] ||
    (Possible(s, steps[..|steps| - 1]) && Enabled(After(s, steps[..|steps| - 1]), steps[|steps| - 1]))
  }

  function Holding(s: State): int {
    MAX_READERS * |s.writers| + |s.readers|
  }

  predicate KnownWeights(ws: seq<Waiter>) {
    forall k | 0 <= k < |ws| :: ws[k].n == 1 || ws[k].n == MAX_READERS
  }

  /** The weight out is what is held and never more than there is, whoever is first in the queue does not
      fit, and requests are granted in the order in which they were made. */
  predicate Inv(s: State) {
    && s.sem.cur == Holding(s) <= MAX_READERS
    && KnownWeights(s.sem.waiters)
    && (s.sem.waiters != [] ==> MAX_READERS < s.sem.cur + s.sem.waiters[0].n)
    && s.asked == s.served + s.sem.waiters
  }

  lemma {:induction false} GrantAdds(s: State, ws: seq<Waiter>)
    requires KnownWeights(ws)
    ensures Holding(Grant(s, ws)) == Holding(s) + Weight(ws)
    ensures Grant(s, ws).sem == s.sem && Grant(s, ws).asked == s.asked && Grant(s, ws).served == s.served + ws
    ensures s.readers <= Grant(s, ws).readers
    decreases |ws|
  {
    if ws != [] {
      var s' := s.(served := s.served + [ws[0]]);
      var s'' := if ws[0].n == 1 then s'.(readers := s'.readers + multiset{ws[0].t}) else s'.(writers := s'.writers + multiset{ws[0].t});
      assert Holding(s'') == Holding(s) + ws[0].n;
      GrantAdds(s'', ws[1..]);
      assert s.served + [ws[0]] + ws[1..] == s.served + ws;
    }
  }

  lemma AcquireKeeps(s: State, w: Waiter)
    requires Inv(s) && (w.n == 1 || w.n == MAX_READERS)
    ensures Inv(Acquire(s, w)) && s.readers <= Acquire(s, w).readers
  {
    var sem := AcquireOf(s.sem, w);
    GrantAdds(s.(sem := sem, asked := s.asked + [w]), [w]);
    assert s.served + s.sem.waiters + [w] == s.served + (s.sem.waiters + [w]);
  }

  /** `s` has already been relieved of weight `n`. */
  lemma ReleaseKeeps(s: State, n: int)
    requires 0 <= n <= s.sem.cur && s.sem.cur - n == Holding(s) && s.sem.cur <= MAX_READERS
    requires KnownWeights(s.sem.waiters) && s.asked == s.served + s.sem.waiters
    ensures Inv(Release(s, n)) && s.readers <= Release(s, n).readers
  {
    var sem := Sem(s.sem.cur - n, s.sem.waiters);
    var k := Admitted(MAX_READERS, sem);
    NotifyAdmitsPrefix(MAX_READERS, sem);
    GrantAdds(s.(sem := Notify(MAX_READERS, sem)), sem.waiters[..k]);
    assert s.served + sem.waiters[..k] + sem.waiters[k..] == s.served + sem.waiters;
    if k == 0 { assert sem.waiters[..k] == []; }
  }

  lemma Less(m: multiset<Tid>, t: Tid)
    requires t in m
    ensures |m - multiset{t}| == |m| - 1
  {
    assert m == (m - multiset{t}) + multiset{t};
  }

  lemma InvStep(s: State, step: Step)
    requires Inv(s) && Enabled(s, step)
    ensures Inv(Do(s, step))
  {
    match step {
      case Lock(t) => AcquireKeeps(s, Waiter(t, MAX_READERS));
      case RLock(t) => AcquireKeeps(s, Waiter(t, 1));
      case Unlock(t) =>
        Less(s.writers, t);
        ReleaseKeeps(s.(writers := s.writers - multiset{t}), MAX_READERS);
      case RUnlock(t) =>
        Less(s.readers, t);
        ReleaseKeeps(s.(readers := s.readers - multiset{t}), 1);
      case UnlockToRLock(t) =>
        Less(s.writers, t);
        ReleaseKeeps(s.(writers := s.writers - multiset{t}, readers := s.readers + multiset{t}), MAX_READERS - 1);
    }
  }

  /** Only its own unlocking takes a reader's hold away. */
  lemma ReaderStays(s: State, step: Step, t: Tid)
    requires Inv(s) && Enabled(s, step) && t in s.readers && step != RUnlock(t)
    ensures t in Do(s, step).readers
  {
    match step {
      case Lock(u) => AcquireKeeps(s, Waiter(u, MAX_READERS));
      case RLock(u) => AcquireKeeps(s, Waiter(u, 1));
      case Unlock(u) => ReaderExcludesWriters(s, t);
      case RUnlock(u) =>
        Less(s.readers, u);
        ReleaseKeeps(s.(readers := s.readers - multiset{u}), 1);
        assert (s.readers - multiset{u})[t] == s.readers[t];
      case UnlockToRLock(u) => ReaderExcludesWriters(s, t);
    }
  }

  lemma {:induction false} RunInv(s: State, steps: seq<Step>)
    requires Inv(s) && Possible(s, steps)
    ensures Inv(After(s, steps))
  {
    if steps != [] {
      RunInv(s, steps[..|steps| - 1]);
      InvStep(After(s, steps[..|steps| - 1]), steps[|steps| - 1]);
    }
  }

  // ------------------------------------------------------------ main results

  /** A writer is alone: no second writer, no reader. */
  lemma WriterExcludesAll(steps: seq<Step>)
    requires Possible(INIT, steps) && After(INIT, steps).writers != multiset{}
    ensures |After(INIT, steps).writers| == 1 && After(INIT, steps).readers == multiset{}
  {
    RunInv(INIT, steps);
    var t :| t in After(INIT, steps).writers;
    Less(After(INIT, steps).writers, t);
  }

  /** No release in a well-bracketed run gives back more than is out, which would panic. */
  lemma NoUnderflow(steps: seq<Step>, step: Step)
    requires Possible(INIT, steps) && Enabled(After(INIT, steps), step)
    ensures step.Unlock? ==> After(INIT, steps).sem.cur >= MAX_READERS
    ensures step.RUnlock? ==> After(INIT, steps).sem.cur >= 1
    ensures step.UnlockToRLock? ==> After(INIT, steps).sem.cur >= MAX_READERS - 1
  {
    RunInv(INIT, steps);
    if step.t in After(INIT, steps).writers { Less(After(INIT, steps).writers, step.t); }
    if step.t in After(INIT, steps).readers { Less(After(INIT, steps).readers, step.t); }
  }

  /** Requests are granted in the order in which they are made, so readers that come later do not keep a
      waiting writer out; and nobody waits while nobody holds the lock. */
  lemma ServedInTurn(steps: seq<Step>)
    requires Possible(INIT, steps)
    ensures After(INIT, steps).served <= After(INIT, steps).asked
    ensures After(INIT, steps).writers == multiset{} && After(INIT, steps).readers == multiset{} ==>
              After(INIT, steps).served == After(INIT, steps).asked
  {
    RunInv(INIT, steps);
  }

  // ------------------------------------------------------------ who holds

  /** What the steps ask for, in order. */
  function Requests(steps: seq<Step>): seq<Waiter> {
    if steps == [] then []
    else
      var before := Requests(steps[..|steps| - 1]);
      match steps[|steps| - 1]
      case Lock(t) => before + [Waiter(t, MAX_READERS)]
      case RLock(t) => before + [Waiter(t, 1)]
      case _ => before
  }

  function Count<T(==)>(s: seq<T>, x: T): nat {
    if s == [] then 0 else Count(s[..|s| - 1], x) + if s[|s| - 1] == x then 1 else 0
  }

  lemma CountSnoc<T>(s: seq<T>, y: T, x: T)
    ensures Count(s + [y], x) == Count(s, x) + if y == x then 1 else 0
  {
    assert (s + [y])[..|s|] == s;
  }

  /** The holders are those whose requests have been served, less those who have unlocked. */
  ghost predicate HeldBy(s: State, t: Tid, steps: seq<Step>) {
    && s.writers[t] + Count(steps, Unlock(t)) + Count(steps, UnlockToRLock(t)) == Count(s.served, Waiter(t, MAX_READERS))
    && s.readers[t] + Count(steps, RUnlock(t)) == Count(s.served, Waiter(t, 1)) + Count(steps, UnlockToRLock(t))
  }

  lemma {:induction false} GrantTo(s: State, ws: seq<Waiter>, t: Tid)
    requires KnownWeights(ws)
    ensures Grant(s, ws).writers[t] + Count(s.served, Waiter(t, MAX_READERS))
            == s.writers[t] + Count(Grant(s, ws).served, Waiter(t, MAX_READERS))
    ensures Grant(s, ws).readers[t] + Count(s.served, Waiter(t, 1))
            == s.readers[t] + Count(Grant(s, ws).served, Waiter(t, 1))
    decreases |ws|
  {
    if ws != [] {
      var s' := s.(served := s.served + [ws[0]]);
      var s'' := if ws[0].n == 1 then s'.(readers := s'.readers + multiset{ws[0].t}) else s'.(writers := s'.writers + multiset{ws[0].t});
      CountSnoc(s.served, ws[0], Waiter(t, MAX_READERS));
      CountSnoc(s.served, ws[0], Waiter(t, 1));
      GrantTo(s'', ws[1..], t);
    }
  }

  /** Between `s` and `s'` just the newly served have come to hold. */
  predicate NewHolders(s: State, s': State, t: Tid) {
    && s'.writers[t] + Count(s.served, Waiter(t, MAX_READERS)) == s.writers[t] + Count(s'.served, Waiter(t, MAX_READERS))
    && s'.readers[t] + Count(s.served, Waiter(t, 1)) == s.readers[t] + Count(s'.served, Waiter(t, 1))
  }

  lemma AcquireTo(s: State, w: Waiter, t: Tid)
    requires w.n == 1 || w.n == MAX_READERS
    ensures NewHolders(s, Acquire(s, w), t)
  {
    GrantTo(s.(sem := AcquireOf(s.sem, w), asked := s.asked + [w]), [w], t);
  }

  lemma ReleaseTo(s: State, n: int, t: Tid)
    requires KnownWeights(s.sem.waiters)
    ensures NewHolders(s, Release(s, n), t)
  {
    var sem := Sem(s.sem.cur - n, s.sem.waiters);
    GrantTo(s.(sem := Notify(MAX_READERS, sem)), sem.waiters[..Admitted(MAX_READERS, sem)], t);
  }

  function Bit(b: bool): int { if b then 1 else 0 }

  /** A step gives the lock to the newly served, and takes it from who unlocks. */
  predicate Balanced(s: State, s': State, step: Step, t: Tid) {
    var left, down := Bit(step == Unlock(t)), Bit(step == UnlockToRLock(t));
    && s'.writers[t] + Count(s.served, Waiter(t, MAX_READERS)) + left + down
       == s.writers[t] + Count(s'.served, Waiter(t, MAX_READERS))
    && s'.readers[t] + Count(s.served, Waiter(t, 1)) + Bit(step == RUnlock(t))
       == s.readers[t] + Count(s'.served, Waiter(t, 1)) + down
  }

  lemma Balance(s: State, step: Step, t: Tid)
    requires Inv(s) && Enabled(s, step)
    ensures Balanced(s, Do(s, step), step, t)
  {
    match step {
      case Lock(u) => AcquireTo(s, Waiter(u, MAX_READERS), t);
      case RLock(u) => AcquireTo(s, Waiter(u, 1), t);
      case _ =>
        ReleaseTo(Relieved(s, step), Given(step), t);
        RelievedOf(s, step, t);
    }
  }

  lemma RelievedOf(s: State, step: Step, t: Tid)
    requires Enabled(s, step) && !step.Lock? && !step.RLock?
    ensures Relieved(s, step).sem == s.sem && Relieved(s, step).served == s.served
    ensures Relieved(s, step).writers[t] + Bit(step == Unlock(t)) + Bit(step == UnlockToRLock(t)) == s.writers[t]
    ensures Relieved(s, step).readers[t] + Bit(step == RUnlock(t)) == s.readers[t] + Bit(step == UnlockToRLock(t))
  {
  }

  lemma HeldStep(s: State, s': State, step: Step, t: Tid, steps: seq<Step>)
    requires HeldBy(s, t, steps) && Balanced(s, s', step, t)
    ensures HeldBy(s', t, steps + [step])
  {
    CountSnoc(steps, step, Unlock(t));
    CountSnoc(steps, step, RUnlock(t));
    CountSnoc(steps, step, UnlockToRLock(t));
  }

  lemma AskedStep(s: State, step: Step)
    requires Inv(s) && Enabled(s, step)
    ensures Do(s, step).asked == match step case Lock(t) => s.asked + [Waiter(t, MAX_READERS)]
                                            case RLock(t) => s.asked + [Waiter(t, 1)]
                                            case _ => s.asked
  {
    match step {
      case Lock(t) => GrantAdds(s.(sem := AcquireOf(s.sem, Waiter(t, MAX_READERS)), asked := s.asked + [Waiter(t, MAX_READERS)]), [Waiter(t, MAX_READERS)]);
      case RLock(t) => GrantAdds(s.(sem := AcquireOf(s.sem, Waiter(t, 1)), asked := s.asked + [Waiter(t, 1)]), [Waiter(t, 1)]);
      case _ => ReleaseAsks(Relieved(s, step), Given(step));
    }
  }

  lemma ReleaseAsks(s: State, n: int)
    requires KnownWeights(s.sem.waiters)
    ensures Release(s, n).asked == s.asked
  {
    var sem := Sem(s.sem.cur - n, s.sem.waiters);
    GrantAdds(s.(sem := Notify(MAX_READERS, sem)), sem.waiters[..Admitted(MAX_READERS, sem)]);
  }

  /** Of the requests made, in order, a first part has been served, and each goroutine holds what it has been
      served and not unlocked. */
  lemma ServedHold(steps: seq<Step>, t: Tid)
    requires Possible(INIT, steps)
    ensures After(INIT, steps).served <= Requests(steps)
    ensures HeldBy(After(INIT, steps), t, steps)
  {
    HoldersAre(steps, t);
    RunInv(INIT, steps);
    AskedInOrder(steps);
  }

  lemma {:induction false} HoldersAre(steps: seq<Step>, t: Tid)
    requires Possible(INIT, steps)
    ensures HeldBy(After(INIT, steps), t, steps)
  {
    if steps != [] {
      var before, last := steps[..|steps| - 1], steps[|steps| - 1];
      HoldersAre(before, t);
      RunInv(INIT, before);
      var s := After(INIT, before);
      Balance(s, last, t);
      HeldStep(s, Do(s, last), last, t, before);
      assert steps == before + [last];
    }
  }

  lemma {:induction false} AskedInOrder(steps: seq<Step>)
    requires Possible(INIT, steps)
    ensures After(INIT, steps).asked == Requests(steps)
  {
    if steps != [] {
      AskedInOrder(steps[..|steps| - 1]);
      RunInv(INIT, steps[..|steps| - 1]);
      AskedStep(After(INIT, steps[..|steps| - 1]), steps[|steps| - 1]);
    }
  }

  /** From a downgrade until the goroutine unlocks for reading, no writer gets in. */
  lemma {:induction false} DowngradeKeepsWritersOut(steps: seq<Step>, t: Tid, more: seq<Step>)
    requires Possible(INIT, steps) && Enabled(After(INIT, steps), UnlockToRLock(t))
    requires Possible(Do(After(INIT, steps), UnlockToRLock(t)), more) && RUnlock(t) !in more
    ensures var s := After(Do(After(INIT, steps), UnlockToRLock(t)), more); t in s.readers && s.writers == multiset{}
    decreases |more|
  {
    var s0 := After(INIT, steps);
    var s1 := Do(s0, UnlockToRLock(t));
    RunInv(INIT, steps);
    InvStep(s0, UnlockToRLock(t));
    RunInv(s1, more);
    if more == [] {
      ReadsAfterDowngrade(s0, t);
    } else {
      DowngradeKeepsWritersOut(steps, t, more[..|more| - 1]);
      RunInv(s1, more[..|more| - 1]);
      assert more[|more| - 1] in more;
      ReaderStays(After(s1, more[..|more| - 1]), more[|more| - 1], t);
    }
    ReaderExcludesWriters(After(s1, more), t);
  }

  lemma ReadsAfterDowngrade(s: State, t: Tid)
    requires Inv(s) && Enabled(s, UnlockToRLock(t))
    ensures t in Do(s, UnlockToRLock(t)).readers
  {
    Less(s.writers, t);
    ReleaseKeeps(s.(writers := s.writers - multiset{t}, readers := s.readers + multiset{t}), MAX_READERS - 1);
  }

  lemma ReaderExcludesWriters(s: State, t: Tid)
    requires Inv(s) && t in s.readers
    ensures s.writers == multiset{}
  {
    Less(s.readers, t);
    if u :| u in s.writers { Less(s.writers, u); }
  }
}
