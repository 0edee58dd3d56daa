/** Sequences without repetition, and the sets they enumerate. */
module Distinct {

  predicate NoDup<T(==)>(s: seq<T>) {
    s == [] || (s[0] !in s[1..] && NoDup(s[1..]))
  }

  lemma {:induction false} NoDupAt<T>(s: seq<T>, k: int)
    requires NoDup(s) && 0 <= k < |s|
    ensures forall i | 0 <= i < |s| && i != k :: s[i] != s[k]
  {
    if k == 0 {
      assert forall i | 1 <= i < |s| :: s[i] in s[1..];
    } else {
      NoDupAt(s[1..], k - 1);
      assert s[k] in s[1..];
    }
  }

  lemma {:induction false} NoDupJoin<T>(a: seq<T>, b: seq<T>)
    requires NoDup(a) && NoDup(b) && forall x | x in a :: x !in b
    ensures NoDup(a + b)
  {
    if a == [] {
      assert a + b == b;
    } else {
      NoDupJoin(a[1..], b);
      assert (a + b)[1..] == a[1..] + b;
    }
  }

  lemma {:induction false} NoDupCut<T>(s: seq<T>, lo: int, hi: int)
    requires NoDup(s) && 0 <= lo <= hi <= |s|
    ensures NoDup(s[..lo]) && NoDup(s[hi..]) && forall x | x in s[..lo] :: x !in s[hi..]
  {
    if lo > 0 {
      NoDupCut(s[1..], lo - 1, hi - 1);
      assert s[1..][..lo - 1] == s[..lo][1..] && s[1..][hi - 1..] == s[hi..];
      assert forall x | x in s[hi..] :: x in s[1..];
      assert s[..lo] == [s[0]] + s[..lo][1..];
    } else if hi > 0 {
      NoDupCut(s[1..], 0, hi - 1);
      assert s[1..][hi - 1..] == s[hi..];
    }
  }

  /** `order` lists the elements of `s`, each once, as a walk over a hash set does in some order. */
  ghost predicate Enumerates<T(!new)>(order: seq<T>, s: set<T>) {
    NoDup(order) && forall x :: x in order <==> x in s
  }

  lemma {:induction false} EnumeratesSnoc<T(!new)>(order: seq<T>, s: set<T>, x: T)
    requires Enumerates(order, s) && x !in s
    ensures Enumerates(order + [x], s + {x})
  {
    NoDupJoin(order, [x]);
  }
}
