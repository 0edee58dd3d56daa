/**
  The singly-linked list, updated in place through `first`, `last`, `size` and `next`, proved against
  operations on a plain sequence; and what those operations promise together.
 */
module LinkedList {
  import opened Distinct

  // ------------------------------------------------------------ the list as a sequence

  function InsertAt<T>(s: seq<T>, index: int, vs: seq<T>): seq<T> {
    if 0 <= index <= |s| then s[..index] + vs + s[index..] else s
  }

  function RemoveAt<T>(s: seq<T>, index: int): seq<T> {
    if 0 <= index < |s| then s[..index] + s[index + 1..] else s
  }

  function SwapAt<T>(s: seq<T>, i: int, j: int): seq<T> {
    if 0 <= i < |s| && 0 <= j < |s| then s[i := s[j]][j := s[i]] else s
  }

  function SetAt<T>(s: seq<T>, index: int, v: T): seq<T> {
    if 0 <= index < |s| then s[index := v] else if index == |s| then s + [v] else s
  }

  /** `n` removals at the same place. */
  function RemoveMany<T>(s: seq<T>, index: int, n: nat): seq<T> {
    if n == 0 then s else RemoveMany(RemoveAt(s, index), index, n - 1)
  }

  /** Removing what was inserted, one element after the other, gives the list back. */
  lemma {:induction false} InsertThenRemove<T>(s: seq<T>, index: int, vs: seq<T>)
    requires 0 <= index <= |s|
    ensures RemoveMany(InsertAt(s, index, vs), index, |vs|) == s
  {
    if vs != [] {
      InsertThenRemove(s, index, vs[1..]);
      assert RemoveAt(InsertAt(s, index, vs), index) == InsertAt(s, index, vs[1..]);
    } else {
      assert InsertAt(s, index, vs) == s;
    }
  }

  /** Two insertions at one place are one; prepending, appending and adding are insertions at the ends. */
  lemma InsertInsert<T>(s: seq<T>, index: int, vs: seq<T>, ws: seq<T>)
    requires 0 <= index <= |s|
    ensures InsertAt(InsertAt(s, index, ws), index, vs) == InsertAt(s, index, vs + ws)
    ensures InsertAt(s, 0, vs) == vs + s && InsertAt(s, |s|, vs) == s + vs
  {
    var t := InsertAt(s, index, ws);
    assert t[..index] == s[..index] && t[index..] == ws + s[index..];
  }

  /** Swapping twice is the identity, in either order of the indices. */
  lemma SwapTwice<T>(s: seq<T>, i: int, j: int)
    ensures SwapAt(SwapAt(s, i, j), j, i) == s
    ensures SwapAt(SwapAt(s, i, j), i, j) == s
  {
  }

  class Element<T> {
    var value: T
    var next: Element?<T>

    constructor (value: T, next: Element?<T>)
      ensures this.value == value && this.next == next
    {
      this.value, this.next := value, next;
    }
  }

  /** `nodes` is a chain of distinct elements that carry `contents`; where the last one points is left open. */
  ghost predicate Chain<T>(nodes: seq<Element<T>>, contents: seq<T>)
    reads nodes
  {
    && |nodes| == |contents|
    && NoDup(nodes)
    && (forall i {:trigger nodes[i].next} :: 0 <= i < |nodes| - 1 ==> nodes[i].next == nodes[i + 1])
    && (forall i {:trigger nodes[i].value} :: 0 <= i < |nodes| ==> nodes[i].value == contents[i])
  }

  /** Cutting out `nodes[lo..hi]` leaves two disjoint chains, also when the end of the first was redirected. */
  lemma ChainCut<T>(nodes: seq<Element<T>>, contents: seq<T>, lo: int, hi: int)
    requires |nodes| == |contents| && NoDup(nodes) && 0 <= lo <= hi <= |nodes|
    requires forall i {:trigger nodes[i].next} :: 0 <= i < |nodes| - 1 && i != lo - 1 ==> nodes[i].next == nodes[i + 1]
    requires forall i {:trigger nodes[i].value} :: 0 <= i < |nodes| ==> nodes[i].value == contents[i]
    ensures Chain(nodes[..lo], contents[..lo]) && Chain(nodes[hi..], contents[hi..])
    ensures forall n | n in nodes[..lo] :: n !in nodes[hi..]
  {
    NoDupCut(nodes, lo, hi);
  }

  lemma ChainJoin<T>(a: seq<Element<T>>, ca: seq<T>, b: seq<Element<T>>, cb: seq<T>)
    requires Chain(a, ca) && Chain(b, cb)
    requires forall n | n in a :: n !in b
    requires a != [] && b != [] ==> a[|a| - 1].next == b[0]
    ensures Chain(a + b, ca + cb)
  {
    NoDupJoin(a, b);
  }

  lemma PieceMembers<T>(s: seq<T>, index: int, vs: seq<T>)
    requires 0 <= index <= |s|
    ensures forall n | n in s[..index] + vs + s[index..] :: n in s || n in vs
  {
  }

  lemma ChainJoin3<T>(a: seq<Element<T>>, ca: seq<T>, b: seq<Element<T>>, cb: seq<T>, c: seq<Element<T>>, cc: seq<T>)
    requires Chain(a, ca) && Chain(b, cb) && Chain(c, cc) && a != [] && c != []
    requires forall n | n in a :: n !in b && n !in c
    requires forall n | n in b :: n !in c
    requires if b == [] then a[|a| - 1].next == c[0] else a[|a| - 1].next == b[0] && b[|b| - 1].next == c[0]
    ensures Chain(a + b + c, ca + cb + cc)
    ensures (a + b + c)[0] == a[0] && (a + b + c)[|a| + |b| + |c| - 1] == c[|c| - 1]
  {
    ChainJoin(b, cb, c, cc);
    ChainJoin(a, ca, b + c, cb + cc);
    assert a + b + c == a + (b + c) && ca + cb + cc == ca + (cb + cc);
  }

  class List<T> {
    var first: Element?<T>
    var last: Element?<T>
    var size: int

    /** The zero value of `T`. */
    const zero: T

    /** The elements from `first` on, and their values. */
    ghost var nodes: seq<Element<T>>
    ghost var contents: seq<T>

    ghost predicate Valid()
      reads this, nodes
    {
      && size == |nodes|
      && Chain(nodes, contents)
      && (if size == 0 then first == null && last == null
          else first == nodes[0] && last == nodes[size - 1] && last.next == null)
    }

    constructor (zero: T)
      ensures Valid() && contents == [] && nodes == [] && this.zero == zero
    {
      first, last, size := null, null, 0;
      this.zero := zero;
      nodes, contents := [], [];
    }

    /** `New` of the original: the given values, in order. */
    constructor New(zero: T, values: seq<T>)
      ensures Valid() && contents == values && this.zero == zero
      ensures forall n | n in nodes :: fresh(n)
    {
      first, last, size := null, null, 0;
      this.zero := zero;
      nodes, contents := [], [];
      new;
      if |values| > 0 {
        Add(values);
      }
    }

    /** One round of the loop in `Add`. */
    method AddOne(value: T)
      requires Valid()
      modifies this, last
      ensures Valid() && contents == old(contents) + [value]
      ensures forall n | n in nodes :: n in old(nodes) || fresh(n)
    {
      var newElement := new Element(value, null);
      if size == 0 {
        first := newElement;
        last := newElement;
      } else {
        last.next := newElement;
        last := newElement;
      }
      size := size + 1;
      ChainJoin(nodes, contents, [newElement], [value]);
      nodes, contents := nodes + [newElement], contents + [value];
    }

    method Add(values: seq<T>)
      requires Valid()
      modifies this, nodes
      ensures Valid() && contents == old(contents) + values
      ensures forall n | n in nodes :: n in old(nodes) || fresh(n)
    {
      for k := 0 to |values|
        invariant Valid() && contents == old(contents) + values[..k]
        invariant forall n | n in nodes :: n in old(nodes) || fresh(n)
      {
        assert last != null ==> last in nodes;
        AddOne(values[k]);
      }
    }

    method Append(values: seq<T>)
      requires Valid()
      modifies this, nodes
      ensures Valid() && contents == old(contents) + values
      ensures forall n | n in nodes :: n in old(nodes) || fresh(n)
    {
      Add(values);
    }

    /** One round of the loop in `Prepend`. */
    method PrependOne(value: T)
      requires Valid()
      modifies this
      ensures Valid() && contents == [value] + old(contents)
      ensures forall n | n in nodes :: n in old(nodes) || fresh(n)
    {
      var newElement := new Element(value, first);
      first := newElement;
      if size == 0 {
        last := newElement;
      }
      size := size + 1;
      ChainJoin([newElement], [value], nodes, contents);
      nodes, contents := [newElement] + nodes, [value] + contents;
    }

    method Prepend(values: seq<T>)
      requires Valid()
      modifies this
      ensures Valid() && contents == values + old(contents)
      ensures forall n | n in nodes :: n in old(nodes) || fresh(n)
    {
      var v := |values| - 1;
      while v >= 0
        invariant -1 <= v < |values|
        invariant Valid() && contents == values[v + 1..] + old(contents)
        invariant forall n | n in nodes :: n in old(nodes) || fresh(n)
      {
        assert [values[v]] + (values[v + 1..] + old(contents)) == values[v..] + old(contents);
        PrependOne(values[v]);
        v := v - 1;
      }
    }

    predicate WithinRange(index: int)
      reads this
    {
      0 <= index < size
    }

    method Get(index: int) returns (value: T, ok: bool)
      requires Valid()
      ensures ok <==> 0 <= index < |contents|
      ensures value == if ok then contents[index] else zero
    {
      if !WithinRange(index) {
        return zero, false;
      }
      var e, element := 0, first;
      while e != index
        invariant 0 <= e <= index && element == nodes[e]
      {
        e, element := e + 1, element.next;
      }
      return element.value, true;
    }

    method Pop() returns (value: T, ok: bool)
      requires Valid()
      modifies this, nodes
      ensures Valid() && ok == (old(contents) != [])
      ensures if ok then value == old(contents)[0] && contents == old(contents)[1..]
                    else value == zero && contents == old(contents)
      ensures forall n | n in nodes :: n in old(nodes)
    {
      if size == 0 {
        return zero, false;
      }
      var element := first;
      Remove(0);
      return element.value, true;
    }

    /** The element before `index`, if any, and the one at it. */
    method Find(index: int) returns (beforeElement: Element?<T>, element: Element?<T>)
      requires Chain(nodes, contents) && 0 <= index < |nodes| && first == nodes[0]
      ensures element == nodes[index]
      ensures beforeElement == if index == 0 then null else nodes[index - 1]
    {
      beforeElement, element := null, first;
      var e := 0;
      while e != index
        invariant 0 <= e <= index && element == nodes[e]
        invariant beforeElement == if e == 0 then null else nodes[e - 1]
      {
        beforeElement := element;
        e, element := e + 1, element.next;
      }
    }

    method Remove(index: int)
      requires Valid()
      modifies this, nodes
      ensures Valid() && contents == RemoveAt(old(contents), index)
      ensures contents == if 0 <= index < |old(contents)| then old(contents)[..index] + old(contents)[index + 1..] else old(contents)
      ensures nodes == RemoveAt(old(nodes), index)
      ensures forall n | n in old(nodes) :: n.value == old(n.value)
    {
      if !WithinRange(index) {
        return;
      }
      if size == 1 {
        Clear();
        return;
      }
      var beforeElement, element := Find(index);
      assert beforeElement != null ==> beforeElement in nodes;
      Unlink(index, beforeElement, element);
    }

    /** The pointer updates of `Remove`. */
    method Unlink(index: int, beforeElement: Element?<T>, element: Element?<T>)
      requires Valid() && 0 <= index < size && size > 1
      requires element == nodes[index]
      requires beforeElement == if index == 0 then null else nodes[index - 1]
      modifies this, beforeElement
      ensures Valid() && contents == RemoveAt(old(contents), index) && nodes == RemoveAt(old(nodes), index)
      ensures beforeElement != null ==> beforeElement.value == old(beforeElement.value)
    {
      ghost var before, after := nodes[..index], nodes[index + 1..];
      ghost var all, values := nodes, contents;
      assert (element == first <==> index == 0) && (element == last <==> index == size - 1);
      assert element.next == if index == size - 1 then null else nodes[index + 1];
      if element == first {
        first := element.next;
      }
      if element == last {
        last := beforeElement;
      }
      if beforeElement != null {
        beforeElement.next := element.next;
      }
      size := size - 1;
      assert first == all[if index == 0 then 1 else 0] && last.next == null;
      assert last == all[if index == size then index - 1 else size];
      if index > 0 {
        NoDupAt(all, index - 1);
      }
      ChainCut(all, values, index, index + 1);
      ChainJoin(before, contents[..index], after, contents[index + 1..]);
      nodes, contents := before + after, contents[..index] + contents[index + 1..];
    }

    method Values() returns (values: array<T>)
      requires Valid()
      ensures fresh(values) && values[..] == contents
    {
      values := new T[size](_ => zero);
      var e, element := 0, first;
      while element != null
        invariant 0 <= e <= size
        invariant element == if e < size then nodes[e] else null
        invariant values[..e] == contents[..e]
        decreases size - e
      {
        values[e] := element.value;
        e, element := e + 1, element.next;
      }
    }

    method Clear()
      modifies this
      ensures Valid() && contents == [] && nodes == []
    {
      size := 0;
      first := null;
      last := null;
      nodes, contents := [], [];
    }

    method Swap(i: int, j: int)
      requires Valid()
      modifies this, nodes
      ensures Valid() && contents == SwapAt(old(contents), i, j) && nodes == old(nodes)
      ensures |contents| == |old(contents)|
      ensures if 0 <= i < |contents| && 0 <= j < |contents|
              then contents[i] == old(contents)[j] && contents[j] == old(contents)[i]
                   && forall k | 0 <= k < |contents| && k != i && k != j :: contents[k] == old(contents)[k]
              else contents == old(contents)
    {
      if WithinRange(i) && WithinRange(j) && i != j {
        var element1: Element?<T>, element2: Element?<T> := null, null;
        var e, currentElement := 0, first;
        while element1 == null || element2 == null
          invariant 0 <= e <= size
          invariant currentElement == if e < size then nodes[e] else null
          invariant element1 == if e > i then nodes[i] else null
          invariant element2 == if e > j then nodes[j] else null
          decreases size - e
        {
          if e == i {
            element1 := currentElement;
          } else if e == j {
            element2 := currentElement;
          }
          e, currentElement := e + 1, currentElement.next;
        }
        NoDupAt(nodes, i);
        NoDupAt(nodes, j);
        element1.value, element2.value := element2.value, element1.value;
        contents := SwapAt(contents, i, j);
      }
    }

    /** Nothing may be inserted nowhere: no values before the first element make the original follow nil. */
    method Insert(index: int, values: seq<T>)
      requires Valid()
      requires index == 0 && size > 0 ==> values != []
      modifies this, nodes
      ensures Valid() && contents == InsertAt(old(contents), index, values)
      ensures contents == if 0 <= index <= |old(contents)| then old(contents)[..index] + values + old(contents)[index..] else old(contents)
      ensures forall n | n in nodes :: n in old(nodes) || fresh(n)
    {
      if !WithinRange(index) {
        if index == size {
          Add(values);
        }
        return;
      }
      size := size + |values|;
      var beforeElement, foundElement := Find(index);
      if foundElement == first {
        InsertFront(values);
      } else {
        assert beforeElement in nodes;
        InsertAfter(index, beforeElement, values);
      }
    }

    /** `size` has been raised already. */
    method InsertFront(values: seq<T>)
      requires Chain(nodes, contents) && nodes != [] && values != [] && size == |nodes| + |values|
      requires first == nodes[0] && last == nodes[|nodes| - 1] && last.next == null
      modifies this
      ensures Valid() && contents == values + old(contents)
      ensures forall n | n in nodes :: n in old(nodes) || fresh(n)
    {
      var oldNextElement := first;
      var beforeElement;
      ghost var added;
      first, beforeElement, added := LinkNew(values);
      NoDupAt(added, |added| - 1);
      assert beforeElement in added;
      beforeElement.next := oldNextElement;
      ChainJoin(added, values, nodes, contents);
      nodes, contents := added + nodes, values + contents;
    }

    /** New elements for `values`: the first round of the loop yields the first, the others follow on. */
    static method LinkNew(values: seq<T>)
      returns (firstElement: Element<T>, beforeElement: Element<T>, ghost added: seq<Element<T>>)
      requires values != []
      ensures Chain(added, values) && forall n | n in added :: fresh(n)
      ensures firstElement == added[0] && beforeElement == added[|added| - 1]
    {
      firstElement := new Element(values[0], null);
      ghost var rest;
      beforeElement, rest := LinkAfter(firstElement, values[1..]);
      ChainJoin([firstElement], [values[0]], rest, values[1..]);
      added := [firstElement] + rest;
      assert [values[0]] + values[1..] == values;
    }

    /** `size` has been raised already. */
    method InsertAfter(index: int, before: Element<T>, values: seq<T>)
      requires Chain(nodes, contents) && 0 < index < |nodes| && size == |nodes| + |values|
      requires first == nodes[0] && last == nodes[|nodes| - 1] && last.next == null && before == nodes[index - 1]
      modifies this, before
      ensures Valid() && contents == InsertAt(old(contents), index, values)
      ensures forall n | n in nodes :: n in old(nodes) || fresh(n)
    {
      assert last == nodes[|nodes| - 1] && last != before;
      ghost var added := Splice(nodes, contents, index, before, values);
      assert nodes[..index][index - 1] == before;
      ChainJoin3(nodes[..index], contents[..index], added, values, nodes[index..], contents[index..]);
      PieceMembers(nodes, index, added);
      nodes, contents := nodes[..index] + added + nodes[index..], contents[..index] + values + contents[index..];
    }

    /** Puts new elements between `before` and its successor; the three pieces stay chains. */
    static method Splice(ghost nodes: seq<Element<T>>, ghost contents: seq<T>, ghost index: int, before: Element<T>, values: seq<T>)
      returns (ghost added: seq<Element<T>>)
      requires Chain(nodes, contents) && 0 < index < |nodes| && before == nodes[index - 1]
      modifies before
      ensures Chain(nodes[..index], contents[..index]) && Chain(nodes[index..], contents[index..])
      ensures forall n | n in nodes[..index] :: n !in nodes[index..]
      ensures Chain(added, values) && forall n | n in added :: fresh(n)
      ensures if values == [] then before.next == nodes[index]
              else before.next == added[0] && added[|added| - 1].next == nodes[index]
    {
      var oldNextElement := before.next;
      var beforeElement;
      beforeElement, added := LinkAfter(before, values);
      if values != [] {
        NoDupAt(added, |added| - 1);
        assert beforeElement in added;
      }
      beforeElement.next := oldNextElement;
      NoDupAt(nodes, index - 1);
      ChainCut(nodes, contents, index, index);
    }

    /** The loop of `Insert`: new elements after `before`, of which the last one is returned. */
    static method LinkAfter(before: Element<T>, values: seq<T>)
      returns (beforeElement: Element<T>, ghost added: seq<Element<T>>)
      modifies before`next
      ensures Chain(added, values) && forall n | n in added :: fresh(n) && n != before
      ensures beforeElement == if values == [] then before else added[|values| - 1]
      ensures if values == [] then before.next == old(before.next) else before.next == added[0]
    {
      beforeElement, added := before, [];
      for i := 0 to |values|
        invariant Chain(added, values[..i]) && forall n | n in added :: fresh(n) && n != before
        invariant beforeElement == if i == 0 then before else added[i - 1]
        invariant if i == 0 then before.next == old(before.next) else before.next == added[0]
      {
        var newElement := new Element(values[i], null);
        if i > 0 {
          NoDupAt(added, i - 1);
          assert beforeElement in added;
        }
        beforeElement.next := newElement;
        beforeElement := newElement;
        ChainJoin(added, values[..i], [newElement], [values[i]]);
        added := added + [newElement];
        assert values[..i] + [values[i]] == values[..i + 1];
      }
      assert values[..|values|] == values;
    }

    method Set(index: int, value: T)
      requires Valid()
      modifies this, nodes
      ensures Valid() && contents == SetAt(old(contents), index, value)
      ensures if 0 <= index < |old(contents)|
              then |contents| == |old(contents)| && contents[index] == value
                   && forall k | 0 <= k < |contents| && k != index :: contents[k] == old(contents)[k]
              else contents == if index == |old(contents)| then old(contents) + [value] else old(contents)
      ensures forall n | n in nodes :: n in old(nodes) || fresh(n)
    {
      if !WithinRange(index) {
        if index == size {
          Add([value]);
        }
        return;
      }
      var foundElement := first;
      var e := 0;
      while e != index
        invariant 0 <= e <= index && foundElement == nodes[e]
      {
        e, foundElement := e + 1, foundElement.next;
      }
      NoDupAt(nodes, index);
      foundElement.value := value;
      contents := contents[index := value];
    }
  }
}
