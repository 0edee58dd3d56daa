/**
  The stoppable wait group with each method taken as one atomic step: a class with the
  fields of the original, its methods proved against functions on a value `Group`, and a
  proof that the class is a plain counter with a stop switch.
 */
module WaitGroup {

  /** State of a `sync.Once`: never entered, being executed, finished. */
  datatype Once = Unused | Running | Used

  /** The shared fields. A channel that is only ever closed is a Boolean: true when closed. */
  datatype Group = Group(i: int, noopAdd: bool, noopDone: bool, doneOnce: bool, stopOnce: Once)

  const NEW_GROUP := Group(0, false, false, false, Unused)

  function CloseDone(g: Group): Group {
    if g.doneOnce then g else g.(doneOnce := true, noopDone := true)
  }

  function AddOf(g: Group): Group {
    if g.noopAdd then g else g.(i := g.i + 1)
  }

  function DoneOf(g: Group): Group {
    if g.noopDone then g
    else
      var dec := g.(i := g.i - 1);
      if g.noopAdd && dec.i <= 0 then CloseDone(dec) else dec
  }

  function StopOf(g: Group): Group {
    if g.stopOnce != Unused then g
    else DoneOf(AddOf(g.(stopOnce := Running)).(noopAdd := true)).(stopOnce := Used)
  }

  class StoppableWaitGroup {
    var i: int
    var noopAdd: bool
    var noopDone: bool
    var doneOnce: bool
    var stopOnce: Once

    function Model(): Group
      reads this
    {
      Group(i, noopAdd, noopDone, doneOnce, stopOnce)
    }

    /** What holds between calls: the channels and the `Once`s are where counter and switch say. */
    ghost predicate Settled()
      reads this
    {
      Represents(Model(), Counter(i, noopAdd))
    }

    constructor ()
      ensures Model() == NEW_GROUP && Settled()
    {
      i, noopAdd, noopDone, doneOnce, stopOnce := 0, false, false, false, Unused;
    }

    method Add()
      modifies this
      ensures Model() == AddOf(old(Model()))
      ensures old(Settled()) ==> Settled()
    {
      if !noopAdd {
        i := i + 1;
      }
    }

    method Done()
      modifies this
      ensures Model() == DoneOf(old(Model()))
      ensures old(Settled()) ==> Settled()
    {
      if noopDone {
        return;
      }
      if noopAdd {
        i := i - 1;
        if i <= 0 && !doneOnce {
          doneOnce, noopDone := true, true;
        }
      } else {
        // the second look at noopAdd cannot differ from the first within one atomic call
        i := i - 1;
      }
    }

    method Stop()
      modifies this
      ensures Model() == StopOf(old(Model()))
      ensures old(Settled()) ==> Settled()
    {
      if stopOnce == Unused {
        stopOnce := Running;
        Add();
        noopAdd := true;
        Done();
        stopOnce := Used;
      }
    }

    /** Whether `Wait` returns at once: exactly when stopped and with no more to wait for. */
    method WaitReturns() returns (released: bool)
      requires Settled()
      ensures released <==> noopAdd && i <= 0
    {
      released := noopDone;
    }
  }

  // ------------------------------------------------------------ the plain counter

  datatype Op = Add | Done | Stop

  /** What the wait group is meant to be: a counter, which may go below zero, and a switch. */
  datatype Counter = Counter(count: int, stopped: bool) {
    predicate Released() { stopped && count <= 0 }

    function Next(op: Op): Counter {
      match op
      case Add => if stopped then this else this.(count := count + 1)
      case Done => if Released() then this else this.(count := count - 1)
      case Stop => this.(stopped := true)
    }
  }

  function Apply(g: Group, op: Op): Group {
    match op
    case Add => AddOf(g)
    case Done => DoneOf(g)
    case Stop => StopOf(g)
  }

  function Run(ops: seq<Op>): Group {
    if ops == [] then NEW_GROUP else Apply(Run(ops[..|ops| - 1]), ops[|ops| - 1])
  }

  function CounterRun(ops: seq<Op>): Counter {
    if ops == [] then Counter(0, false) else CounterRun(ops[..|ops| - 1]).Next(ops[|ops| - 1])
  }

  /** The three flags are functions of the counter and the switch. */
  ghost predicate Represents(g: Group, c: Counter) {
    && g.i == c.count
    && g.noopAdd == c.stopped
    && g.noopDone == g.doneOnce == c.Released()
    && g.stopOnce == if c.stopped then Used else Unused
  }

  /** In any order of whole calls, including counts below zero, the group is the counter;
      in particular `noopDone` is closed exactly when it is stopped and the count is at most zero. */
  lemma {:induction false} AtomicRefinesCounter(ops: seq<Op>)
    ensures Represents(Run(ops), CounterRun(ops))
  {
    if ops != [] {
      AtomicRefinesCounter(ops[..|ops| - 1]);
    }
  }

  /** Once released, nothing changes any more: both channels are closed once and the counter is frozen. */
  lemma {:induction false} FrozenAfterRelease(ops: seq<Op>, more: seq<Op>)
    requires Run(ops).noopDone
    ensures Run(ops + more) == Run(ops)
    decreases |more|
  {
    if more == [] {
      assert ops + more == ops;
    } else {
      var init, last := more[..|more| - 1], more[|more| - 1];
      FrozenAfterRelease(ops, init);
      AtomicRefinesCounter(ops);
      assert (ops + more)[..|ops + more| - 1] == ops + init;
    }
  }
}
