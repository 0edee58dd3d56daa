/**
  The named queues: a map of linked lists whose elements must stay apart, proved against a map of
  sequences; and first-in-first-out for every name over every run.
 */
module MultiQueue {
  import opened LinkedList

  // ------------------------------------------------------------ the queues as a map of sequences

  function Queued<T>(m: map<string, seq<T>>, queue: string): seq<T> {
    if queue in m then m[queue] else []
  }

  function PushOf<T>(m: map<string, seq<T>>, queue: string, value: T): (pushed: map<string, seq<T>>)
    ensures pushed.Keys == m.Keys + {queue}
  {
    m[queue := Queued(m, queue) + [value]]
  }

  function PopOf<T>(m: map<string, seq<T>>, queue: string): map<string, seq<T>> {
    if Queued(m, queue) == [] then m else m[queue := m[queue][1..]]
  }

  lemma PopIsUpdate<T>(m: map<string, seq<T>>, queue: string)
    requires queue in m
    ensures PopOf(m, queue) == m[queue := if m[queue] == [] then [] else m[queue][1..]]
  {
  }

  datatype Op<T> = Push(queue: string, value: T) | Pop(queue: string)

  function Run<T>(ops: seq<Op<T>>): map<string, seq<T>> {
    if ops == [] then map[]
    else
      var m := Run(ops[..|ops| - 1]);
      match ops[|ops| - 1]
      case Push(queue, value) => PushOf(m, queue, value)
      case Pop(queue) => PopOf(m, queue)
  }

  /** Values pushed to a name, in order. */
  function Pushed<T>(ops: seq<Op<T>>, queue: string): seq<T> {
    if ops == [] then []
    else
      var before, op := Pushed(ops[..|ops| - 1], queue), ops[|ops| - 1];
      if op.Push? && op.queue == queue then before + [op.value] else before
  }

  /** Values that pops of a name have returned, in order. */
  function Popped<T>(ops: seq<Op<T>>, queue: string): seq<T> {
    if ops == [] then []
    else
      var before, op, q := Popped(ops[..|ops| - 1], queue), ops[|ops| - 1], Queued(Run(ops[..|ops| - 1]), queue);
      if op.Pop? && op.queue == queue && q != [] then before + [q[0]] else before
  }

  /** Nothing is lost, invented or reordered, and no name affects another. */
  lemma {:induction false} FirstInFirstOut<T>(ops: seq<Op<T>>, queue: string)
    ensures Popped(ops, queue) + Queued(Run(ops), queue) == Pushed(ops, queue)
  {
    if ops != [] {
      FirstInFirstOut(ops[..|ops| - 1], queue);
      var q := Queued(Run(ops[..|ops| - 1]), queue);
      if ops[|ops| - 1].Pop? && ops[|ops| - 1].queue == queue && q != [] {
        assert [q[0]] + q[1..] == q;
      }
    }
  }

  class MultiQueue<T> {
    var queues: map<string, List<T>>
    const zero: T

    /** The elements of all lists. */
    ghost function Elements(): set<Element<T>>
      reads this, queues.Values
    {
      set q, i | q in queues && 0 <= i < |queues[q].nodes| :: queues[q].nodes[i]
    }

    /** Every list is one, and no two share an element. */
    ghost predicate Valid()
      reads this, queues.Values, Elements()
    {
      AllLists() && AllApart()
    }

    ghost predicate AllLists()
      reads this, queues.Values, Elements()
    {
      forall q | q in queues :: queues[q].Valid() && queues[q].zero == zero
    }

    ghost predicate AllApart()
      reads this, queues.Values
    {
      forall q, r | q in queues && r in queues && q != r :: Apart(queues[q], queues[r])
    }

    static ghost predicate Apart(l: List<T>, k: List<T>)
      reads l, k
    {
      l != k && forall n | n in l.nodes :: n !in k.nodes
    }

    ghost function Model(): map<string, seq<T>>
      reads this, queues.Values
    {
      map q | q in queues :: queues[q].contents
    }

    constructor (zero: T)
      ensures Valid() && Model() == map[] && this.zero == zero
    {
      queues := map[];
      this.zero := zero;
    }

    /** What a change of one list leaves alone. */
    twostate predicate OthersUnchanged(queue: string)
      reads this, queues.Values, Elements()
    {
      forall q | q in old(queues) && q != queue ::
        q in queues && queues[q] == old(queues[q]) && unchanged(queues[q]) && unchanged(queues[q].nodes)
    }

    /** One list is new, or has changed and taken in new elements only; the others are as they were. */
    twostate predicate OneChanged(queue: string)
      reads this, queues.Values, Elements()
    {
      && OthersUnchanged(queue)
      && queues.Keys == old(queues).Keys + {queue}
      && queues[queue].Valid() && queues[queue].zero == zero
      && (if queue in old(queues) then queues[queue] == old(queues[queue]) else fresh(queues[queue]))
      && (forall n | n in queues[queue].nodes :: fresh(n) || (queue in old(queues) && n in old(queues[queue].nodes)))
    }

    twostate lemma StillApart(queue: string)
      requires old(Valid()) && OneChanged(queue)
      ensures AllApart()
    {
      forall q, r | q in queues && r in queues && q != r ensures Apart(queues[q], queues[r]) {
        if q in old(queues) && r in old(queues) {
          assert old(Apart(queues[q], queues[r]));
        }
      }
    }

    twostate lemma StillLists(queue: string)
      requires old(Valid()) && OneChanged(queue)
      ensures AllLists()
    {
      forall q | q in queues ensures queues[q].Valid() && queues[q].zero == zero {
        if q != queue {
          assert old(queues[q].Valid());
        }
      }
    }

    twostate lemma StillValid(queue: string)
      requires old(Valid()) && OneChanged(queue)
      ensures Valid()
    {
      StillLists(queue);
      StillApart(queue);
    }

    static lemma SameBut(m: map<string, seq<T>>, m': map<string, seq<T>>, queue: string)
      requires m'.Keys == m.Keys + {queue} && forall q | q in m && q != queue :: m'[q] == m[q]
      ensures m' == m[queue := m'[queue]]
    {
    }

    twostate lemma ModelChanged(queue: string)
      requires old(Valid()) && OneChanged(queue)
      ensures Model() == old(Model())[queue := queues[queue].contents]
    {
      assert Model().Keys == old(Model()).Keys + {queue};
      SameBut(old(Model()), Model(), queue);
    }

    /** A change of one list, seen from the others. */
    twostate lemma FrameOfOne(queue: string)
      requires old(Valid()) && queue in old(queues) && queues == old(queues)
      requires forall q | q in queues && q != queue :: unchanged(queues[q])
      requires forall n | n in old(Elements()) && n !in old(queues[queue].nodes) :: unchanged(n)
      ensures OthersUnchanged(queue)
    {
      forall q | q in queues && q != queue ensures unchanged(queues[q].nodes) {
        assert old(Apart(queues[q], queues[queue]));
        forall i | 0 <= i < |queues[q].nodes| ensures unchanged(queues[q].nodes[i]) {
          assert queues[q].nodes[i] in old(queues[q].nodes);
        }
      }
    }

    method Push(queue: string, value: T)
      requires Valid()
      modifies this, queues.Values, Elements()
      ensures Valid() && Model() == PushOf(old(Model()), queue, value)
      ensures OthersUnchanged(queue)
    {
      if queue in queues {
        AppendTo(queue, value);
      } else {
        var l := new List.New(zero, [value]);
        queues := queues[queue := l];
        assert [] + [value] == [value];
      }
      StillValid(queue);
      ModelChanged(queue);
    }

    method AppendTo(queue: string, value: T)
      requires Valid() && queue in queues
      modifies queues.Values, Elements()
      ensures OneChanged(queue) && queues[queue].contents == old(queues[queue].contents) + [value]
    {
      var v := queues[queue];
      assert v in queues.Values && forall n | n in v.nodes :: n in Elements();
      assert forall q | q in queues && q != queue :: Apart(v, queues[q]);
      v.Append([value]);
      FrameOfOne(queue);
    }

    method Pop(queue: string) returns (t: T, exist: bool)
      requires Valid()
      modifies this, queues.Values, Elements()
      ensures Valid() && Model() == PopOf(old(Model()), queue)
      ensures exist == (Queued(old(Model()), queue) != [])
      ensures t == if exist then Queued(old(Model()), queue)[0] else zero
      ensures queues == old(queues) && OthersUnchanged(queue)
    {
      t, exist := zero, false;
      if queue in queues {
        t, exist := PopFrom(queue);
      }
    }

    method PopFrom(queue: string) returns (t: T, exist: bool)
      requires Valid() && queue in queues
      modifies queues.Values, Elements()
      ensures Valid() && Model() == PopOf(old(Model()), queue)
      ensures exist == (Queued(old(Model()), queue) != [])
      ensures t == if exist then Queued(old(Model()), queue)[0] else zero
      ensures OthersUnchanged(queue)
    {
      PopIsUpdate(Model(), queue);
      t, exist := PopList(queue);
      StillValid(queue);
      ModelChanged(queue);
    }

    method PopList(queue: string) returns (t: T, exist: bool)
      requires Valid() && queue in queues
      modifies queues.Values, Elements()
      ensures OneChanged(queue) && exist == (old(queues[queue].contents) != [])
      ensures if exist then t == old(queues[queue].contents)[0] && queues[queue].contents == old(queues[queue].contents)[1..]
                    else t == zero && queues[queue].contents == []
    {
      var v := queues[queue];
      assert v in queues.Values && forall n | n in v.nodes :: n in Elements();
      assert forall q | q in queues && q != queue :: Apart(v, queues[q]);
      t, exist := v.Pop();
      FrameOfOne(queue);
    }
  }
}
