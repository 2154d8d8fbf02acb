/**
 * Enumerable.OrderBy: a stable sort by a key. The key order is passed as a
 * comparison `leq`; the proofs need it to be a total preorder.
 */
module Sorting {

  ghost predicate TotalPreorder<T(!new)>(leq: (T, T) -> bool) {
    && (forall a, b :: leq(a, b) || leq(b, a))
    && (forall a, b, c :: leq(a, b) && leq(b, c) ==> leq(a, c))
  }

  predicate Sorted<T>(xs: seq<T>, leq: (T, T) -> bool) {
    forall i, j :: 0 <= i < j < |xs| ==> leq(xs[i], xs[j])
  }

  /** a and b have the same key. */
  predicate Equivalent<T>(a: T, b: T, leq: (T, T) -> bool) {
    leq(a, b) && leq(b, a)
  }

  /** The elements of xs with the same key as e, in their order in xs. */
  function Equivalents<T>(xs: seq<T>, e: T, leq: (T, T) -> bool): seq<T> {
    if xs == [] then []
    else
      var x := xs[|xs| - 1];
      Equivalents(xs[..|xs| - 1], e, leq) + (if Equivalent(x, e, leq) then [x] else [])
  }

  /** Inserts x into a sorted list after every element whose key is not greater than x's. */
  function Insert<T>(ys: seq<T>, x: T, leq: (T, T) -> bool): (r: seq<T>)
    ensures multiset(r) == multiset(ys) + multiset{x}
    ensures |r| == |ys| + 1
  {
    if ys == [] then [x]
    else if leq(ys[|ys| - 1], x) then ys + [x]
    else
      var init := ys[..|ys| - 1];
      assert init + [ys[|ys| - 1]] == ys;
      Insert(init, x, leq) + [ys[|ys| - 1]]
  }

  /** The list ordered by leq; elements with equal keys keep their relative order. */
  function SortBy<T>(xs: seq<T>, leq: (T, T) -> bool): (r: seq<T>)
    ensures multiset(r) == multiset(xs)
    ensures |r| == |xs|
  {
    if xs == [] then []
    else
      assert xs[..|xs| - 1] + [xs[|xs| - 1]] == xs;
      Insert(SortBy(xs[..|xs| - 1], leq), xs[|xs| - 1], leq)
  }

  lemma {:induction false} InsertSorted<T(!new)>(ys: seq<T>, x: T, leq: (T, T) -> bool)
    requires TotalPreorder(leq)
    requires Sorted(ys, leq)
    ensures Sorted(Insert(ys, x, leq), leq)
    decreases |ys|
  {
    if ys != [] {
      var last := ys[|ys| - 1];
      if !leq(last, x) {
        var init := ys[..|ys| - 1];
        InsertSorted(init, x, leq);
        var r := Insert(init, x, leq);
        forall k | 0 <= k < |r|
          ensures leq(r[k], last)
        {
          assert r[k] in multiset(r);
          assert r[k] == x || r[k] in init;
        }
      }
    }
  }

  lemma {:induction false} SortBySorted<T(!new)>(xs: seq<T>, leq: (T, T) -> bool)
    requires TotalPreorder(leq)
    ensures Sorted(SortBy(xs, leq), leq)
    decreases |xs|
  {
    if xs != [] {
      SortBySorted(xs[..|xs| - 1], leq);
      InsertSorted(SortBy(xs[..|xs| - 1], leq), xs[|xs| - 1], leq);
    }
  }

  lemma {:induction false} EquivalentsAppend<T>(a: seq<T>, b: seq<T>, e: T, leq: (T, T) -> bool)
    ensures Equivalents(a + b, e, leq) == Equivalents(a, e, leq) + Equivalents(b, e, leq)
    decreases |b|
  {
    if b == [] {
      assert a + b == a;
    } else {
      EquivalentsAppend(a, b[..|b| - 1], e, leq);
      assert (a + b)[..|a + b| - 1] == a + b[..|b| - 1];
    }
  }

  lemma EquivalentsSingle<T>(x: T, e: T, leq: (T, T) -> bool)
    ensures Equivalents([x], e, leq) == if Equivalent(x, e, leq) then [x] else []
  {
    assert [x][..0] == [];
  }

  lemma {:induction false} InsertStable<T(!new)>(ys: seq<T>, x: T, e: T, leq: (T, T) -> bool)
    requires TotalPreorder(leq)
    ensures Equivalents(Insert(ys, x, leq), e, leq) == Equivalents(ys, e, leq) + Equivalents([x], e, leq)
    decreases |ys|
  {
    if ys == [] {
      assert Insert(ys, x, leq) == [x];
    } else {
      var last := ys[|ys| - 1];
      if leq(last, x) {
        EquivalentsAppend(ys, [x], e, leq);
      } else {
        InsertStable(ys[..|ys| - 1], x, e, leq);
        NotBothEquivalent(x, last, e, leq);
        InsertStableStep(ys, x, e, leq);
      }
    }
  }

  /** The step of InsertStable where x goes before the last element. */
  lemma InsertStableStep<T>(ys: seq<T>, x: T, e: T, leq: (T, T) -> bool)
    requires ys != [] && !leq(ys[|ys| - 1], x)
    requires Equivalents(Insert(ys[..|ys| - 1], x, leq), e, leq)
          == Equivalents(ys[..|ys| - 1], e, leq) + Equivalents([x], e, leq)
    requires Equivalents([x], e, leq) == [] || Equivalents([ys[|ys| - 1]], e, leq) == []
    ensures Equivalents(Insert(ys, x, leq), e, leq) == Equivalents(ys, e, leq) + Equivalents([x], e, leq)
  {
    var init, last := ys[..|ys| - 1], ys[|ys| - 1];
    var ins := Insert(init, x, leq);
    var front, xs, ls := Equivalents(init, e, leq), Equivalents([x], e, leq), Equivalents([last], e, leq);
    assert Insert(ys, x, leq) == ins + [last];
    EquivalentsAppend(ins, [last], e, leq);
    EquivalentsSingle(last, e, leq);
    assert Equivalents(ys, e, leq) == front + ls;
    SwapEmpty(front, xs, ls);
  }

  /** Appending two lists of which one is empty does not depend on their order. */
  lemma SwapEmpty<T>(a: seq<T>, b: seq<T>, c: seq<T>)
    requires b == [] || c == []
    ensures (a + b) + c == (a + c) + b
  {
    if b == [] {
      assert a + b == a;
    } else {
      assert a + c == a;
    }
  }

  /** Of two elements in strictly decreasing key order, at most one has e's key. */
  lemma NotBothEquivalent<T(!new)>(x: T, y: T, e: T, leq: (T, T) -> bool)
    requires TotalPreorder(leq) && !leq(y, x)
    ensures Equivalents([x], e, leq) == [] || Equivalents([y], e, leq) == []
  {
    EquivalentsSingle(x, e, leq);
    EquivalentsSingle(y, e, leq);
    assert leq(y, e) && leq(e, x) ==> leq(y, x);
  }

  /** Stability: the elements sharing a key appear in the sorted list in their input order. */
  lemma {:induction false} SortByStable<T(!new)>(xs: seq<T>, e: T, leq: (T, T) -> bool)
    requires TotalPreorder(leq)
    ensures Equivalents(SortBy(xs, leq), e, leq) == Equivalents(xs, e, leq)
    decreases |xs|
  {
    if xs != [] {
      var init, x := xs[..|xs| - 1], xs[|xs| - 1];
      SortByStable(init, e, leq);
      InsertStable(SortBy(init, leq), x, e, leq);
    }
  }
}
