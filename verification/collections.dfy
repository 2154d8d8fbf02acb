/** List operations of the base library: List<T>.IndexOf and the first-seen dedupe of Enumerable.Distinct. */
module Collections {

  predicate NoDuplicates<T(==)>(xs: seq<T>) {
    forall i, j :: 0 <= i < j < |xs| ==> xs[i] != xs[j]
  }

  /** One more element keeps a list free of duplicates exactly when it is new. */
  lemma NoDuplicatesSnoc<T>(xs: seq<T>, x: T)
    ensures NoDuplicates(xs + [x]) <==> NoDuplicates(xs) && x !in xs
  {
    var ys := xs + [x];
    if NoDuplicates(ys) {
      forall i | 0 <= i < |xs|
        ensures xs[i] != x
      {
        assert ys[i] == xs[i] && ys[|xs|] == x;
      }
      forall i, j | 0 <= i < j < |xs|
        ensures xs[i] != xs[j]
      {
        assert ys[i] == xs[i] && ys[j] == xs[j];
      }
    }
  }

  /** List<T>.IndexOf: the position of the first occurrence of x, or -1. */
  function IndexOf<T(==)>(xs: seq<T>, x: T): (r: int)
    ensures -1 <= r < |xs|
    ensures r >= 0 ==> xs[r] == x && forall j :: 0 <= j < r ==> xs[j] != x
    ensures r == -1 <==> x !in xs
  {
    if xs == [] then -1
    else if xs[0] == x then 0
    else
      var k := IndexOf(xs[1..], x);
      if k < 0 then -1 else k + 1
  }

  /** The first occurrence of an element of a prefix does not move when the list grows. */
  lemma {:induction false} IndexOfPrefix<T>(xs: seq<T>, ys: seq<T>, x: T)
    requires x in xs
    ensures IndexOf(xs + ys, x) == IndexOf(xs, x)
  {
    if xs[0] != x {
      assert (xs + ys)[1..] == xs[1..] + ys;
      IndexOfPrefix(xs[1..], ys, x);
    }
  }

  /**
   * Appends to acc, in order, every element of xs that is not already present:
   * the effect of adding xs one by one, each only if the list does not contain it yet.
   */
  function AppendNew<T(==)>(acc: seq<T>, xs: seq<T>): (r: seq<T>)
    ensures acc <= r
    ensures forall i :: 0 <= i < |r| ==> r[i] in acc || r[i] in xs
    ensures forall i :: 0 <= i < |xs| ==> xs[i] in r
    ensures NoDuplicates(acc) ==> NoDuplicates(r)
    decreases |xs|
  {
    if xs == [] then acc
    else
      var a := AppendNew(acc, xs[..|xs| - 1]);
      var x := xs[|xs| - 1];
      if x in a then a else a + [x]
  }

  /** Adding two lists one after the other is adding their concatenation. */
  lemma {:induction false} AppendNewConcat<T>(acc: seq<T>, xs: seq<T>, ys: seq<T>)
    ensures AppendNew(AppendNew(acc, xs), ys) == AppendNew(acc, xs + ys)
    decreases |ys|
  {
    if ys == [] {
      assert xs + ys == xs;
    } else {
      AppendNewConcat(acc, xs, ys[..|ys| - 1]);
      assert (xs + ys)[..|xs + ys| - 1] == xs + ys[..|ys| - 1];
    }
  }

  /**
   * The values AppendNew adds come from xs, none of them was in acc, and they
   * follow the order in which they are first seen in xs.
   */
  lemma {:induction false} AppendNewOrder<T>(acc: seq<T>, xs: seq<T>)
    ensures forall i :: |acc| <= i < |AppendNew(acc, xs)| ==>
      AppendNew(acc, xs)[i] !in acc && AppendNew(acc, xs)[i] in xs
    ensures FirstSeenOrder(xs, AppendNew(acc, xs)[|acc|..])
    decreases |xs|
  {
    if xs != [] {
      var init, x := xs[..|xs| - 1], xs[|xs| - 1];
      assert init + [x] == xs;
      AppendNewOrder(acc, init);
      var a := AppendNew(acc, init);
      var d := a[|acc|..];
      assert forall i :: 0 <= i < |d| ==> d[i] == a[|acc| + i];
      FirstSeenOrderExtend(init, [x], d);
      if x !in a {
        assert AppendNew(acc, xs)[|acc|..] == d + [x];
        assert x !in init by {
          assert forall i :: 0 <= i < |init| ==> init[i] in a;
        }
        assert IndexOf(xs, x) == |init| by {
          assert xs[|init|] == x;
          assert forall j :: 0 <= j < |init| ==> xs[j] == init[j];
        }
        forall i | 0 <= i < |d|
          ensures IndexOf(xs, d[i]) < IndexOf(xs, x)
        {
          IndexOfPrefix(init, [x], d[i]);
        }
        FirstSeenOrderSnoc(xs, d, x);
      } else {
        assert AppendNew(acc, xs) == a;
      }
    }
  }

  /** Enumerable.Distinct: first occurrences, in the order they are first seen. */
  function Distinct<T(==)>(xs: seq<T>): (r: seq<T>)
    ensures NoDuplicates(r)
    ensures forall i :: 0 <= i < |r| ==> r[i] in xs
    ensures forall i :: 0 <= i < |xs| ==> xs[i] in r
  {
    AppendNew([], xs)
  }

  /** The elements of d appear in the order of their first occurrences in xs. */
  predicate FirstSeenOrder<T(==)>(xs: seq<T>, d: seq<T>) {
    forall i, j :: 0 <= i < j < |d| ==> IndexOf(xs, d[i]) < IndexOf(xs, d[j])
  }

  /** Distinct keeps the order of first occurrences. */
  lemma {:induction false} DistinctOrder<T>(xs: seq<T>)
    ensures forall i, j :: 0 <= i < j < |Distinct(xs)| ==>
      IndexOf(xs, Distinct(xs)[i]) < IndexOf(xs, Distinct(xs)[j])
    decreases |xs|
  {
    if xs != [] {
      var init, x := xs[..|xs| - 1], xs[|xs| - 1];
      DistinctOrder(init);
      assert init + [x] == xs;
      DistinctSnoc(init, x);
    }
  }

  /** One more element: Distinct grows by it when it is new, and earlier first occurrences stay put. */
  lemma DistinctSnoc<T>(init: seq<T>, x: T)
    requires FirstSeenOrder(init, Distinct(init))
    ensures FirstSeenOrder(init + [x], Distinct(init + [x]))
  {
    var xs, d := init + [x], Distinct(init);
    DistinctAppendOne(init, x);
    FirstSeenOrderExtend(init, [x], d);
    if x !in d {
      assert x !in init;
      assert IndexOf(xs, x) == |init| by {
        assert xs[|init|] == x;
        assert forall j :: 0 <= j < |init| ==> xs[j] == init[j];
      }
      FirstSeenOrderSnoc(xs, d, x);
    }
  }

  /** Growing the list keeps the order of elements already seen. */
  lemma FirstSeenOrderExtend<T>(xs: seq<T>, ys: seq<T>, d: seq<T>)
    requires FirstSeenOrder(xs, d) && forall i :: 0 <= i < |d| ==> d[i] in xs
    ensures FirstSeenOrder(xs + ys, d)
  {
    forall i | 0 <= i < |d|
      ensures IndexOf(xs + ys, d[i]) == IndexOf(xs, d[i])
    {
      IndexOfPrefix(xs, ys, d[i]);
    }
  }

  /** An element first seen after all of d may follow them. */
  lemma FirstSeenOrderSnoc<T>(xs: seq<T>, d: seq<T>, x: T)
    requires FirstSeenOrder(xs, d)
    requires forall i :: 0 <= i < |d| ==> IndexOf(xs, d[i]) < IndexOf(xs, x)
    ensures FirstSeenOrder(xs, d + [x])
  {
    var dx := d + [x];
    forall i, j | 0 <= i < j < |dx|
      ensures IndexOf(xs, dx[i]) < IndexOf(xs, dx[j])
    {
      assert dx[i] == d[i];
      if j < |d| {
        assert dx[j] == d[j];
      }
    }
  }

  /** Distinct of a longer list: the last element is appended when it is new. */
  lemma DistinctAppendOne<T>(init: seq<T>, x: T)
    ensures Distinct(init + [x]) == if x in Distinct(init) then Distinct(init) else Distinct(init) + [x]
  {
    assert (init + [x])[..|init|] == init;
  }

  /** FirstOrDefault(pred) as a position: the first element satisfying pred, or -1. */
  function FirstWhere<T>(xs: seq<T>, pred: T -> bool): (r: int)
    ensures -1 <= r < |xs|
    ensures r >= 0 ==> pred(xs[r]) && forall j :: 0 <= j < r ==> !pred(xs[j])
    ensures r < 0 ==> forall j :: 0 <= j < |xs| ==> !pred(xs[j])
  {
    if xs == [] then -1
    else if pred(xs[0]) then 0
    else
      var k := FirstWhere(xs[1..], pred);
      if k < 0 then -1 else k + 1
  }

  /** Enumerable.Any(pred) */
  predicate Any<T>(xs: seq<T>, pred: T -> bool) {
    exists i :: 0 <= i < |xs| && pred(xs[i])
  }

  /** Some element of a longer list satisfies pred exactly when one of its front does or its last one does. */
  lemma AnySnoc<T>(xs: seq<T>, pred: T -> bool)
    requires xs != []
    ensures Any(xs, pred) <==> Any(xs[..|xs| - 1], pred) || pred(xs[|xs| - 1])
  {
    var n := |xs| - 1;
    if Any(xs, pred) {
      var i :| 0 <= i < |xs| && pred(xs[i]);
      if i < n {
        assert xs[..n][i] == xs[i];
      }
    }
    if Any(xs[..n], pred) {
      var i :| 0 <= i < n && pred(xs[..n][i]);
      assert xs[..n][i] == xs[i];
    }
  }

  /** Each element of xs is related to the element of ys at the same index. */
  predicate Pointwise<A, B>(xs: seq<A>, ys: seq<B>, rel: (A, B) -> bool) {
    |xs| == |ys| && forall i :: 0 <= i < |xs| ==> rel(xs[i], ys[i])
  }

  /** Two longer lists are related pointwise exactly when their fronts are and their last elements are. */
  lemma PointwiseSnoc<A, B>(xs: seq<A>, ys: seq<B>, rel: (A, B) -> bool)
    requires xs != [] && |xs| == |ys|
    ensures Pointwise(xs, ys, rel) <==>
      Pointwise(xs[..|xs| - 1], ys[..|ys| - 1], rel) && rel(xs[|xs| - 1], ys[|ys| - 1])
  {
    var n := |xs| - 1;
    if Pointwise(xs[..n], ys[..n], rel) && rel(xs[n], ys[n]) {
      forall i | 0 <= i < |xs|
        ensures rel(xs[i], ys[i])
      {
        if i < n {
          assert xs[..n][i] == xs[i] && ys[..n][i] == ys[i];
        }
      }
    }
    if Pointwise(xs, ys, rel) {
      forall i | 0 <= i < n
        ensures rel(xs[..n][i], ys[..n][i])
      {
        assert xs[..n][i] == xs[i] && ys[..n][i] == ys[i];
      }
    }
  }

  /** In a list without duplicates every element occurs once. */
  lemma {:induction false} NoDuplicatesCount<T>(xs: seq<T>, x: T)
    requires NoDuplicates(xs)
    ensures multiset(xs)[x] <= 1
  {
    if xs != [] {
      var init, last := xs[..|xs| - 1], xs[|xs| - 1];
      assert init + [last] == xs;
      NoDuplicatesCount(init, x);
      if last == x {
        forall i | 0 <= i < |init|
          ensures init[i] != x
        {
          assert init[i] == xs[i];
        }
      }
    }
  }

  /** Reordering a list without duplicates gives a list without duplicates. */
  lemma PermutationNoDuplicates<T>(xs: seq<T>, ys: seq<T>)
    requires multiset(xs) == multiset(ys)
    requires NoDuplicates(xs)
    ensures NoDuplicates(ys)
  {
    forall i, j | 0 <= i < j < |ys|
      ensures ys[i] != ys[j]
    {
      NoDuplicatesCount(xs, ys[i]);
      assert ys == ys[..j] + [ys[j]] + ys[j + 1..];
      assert ys[..j][i] == ys[i];
      assert multiset(ys)[ys[j]] >= multiset(ys[..j])[ys[j]] + 1;
    }
  }

  /** Enumerable.Where: the elements that satisfy keep, in their order. */
  function Filter<T>(xs: seq<T>, keep: T -> bool): (r: seq<T>)
    ensures |r| <= |xs|
    ensures forall i :: 0 <= i < |r| ==> keep(r[i]) && r[i] in xs
    ensures forall i :: 0 <= i < |xs| && keep(xs[i]) ==> xs[i] in r
  {
    WhereMembers(xs, keep);
    Where(xs, keep)
  }

  /** The recursion behind Filter, element by element from the back. */
  function Where<T>(xs: seq<T>, keep: T -> bool): seq<T> {
    if xs == [] then []
    else
      var n := |xs| - 1;
      Where(xs[..n], keep) + (if keep(xs[n]) then [xs[n]] else [])
  }

  lemma {:induction false} WhereMembers<T>(xs: seq<T>, keep: T -> bool)
    ensures |Where(xs, keep)| <= |xs|
    ensures forall i :: 0 <= i < |Where(xs, keep)| ==> keep(Where(xs, keep)[i]) && Where(xs, keep)[i] in xs
    ensures forall i :: 0 <= i < |xs| && keep(xs[i]) ==> xs[i] in Where(xs, keep)
  {
    if xs != [] {
      var n := |xs| - 1;
      WhereMembers(xs[..n], keep);
      assert xs == xs[..n] + [xs[n]];
    }
  }

  /** Where keeps order and repeats: it distributes over concatenation. */
  lemma FilterConcat<T>(xs: seq<T>, ys: seq<T>, keep: T -> bool)
    ensures Filter(xs + ys, keep) == Filter(xs, keep) + Filter(ys, keep)
  {
    WhereConcat(xs, ys, keep);
  }

  lemma {:induction false} WhereConcat<T>(xs: seq<T>, ys: seq<T>, keep: T -> bool)
    ensures Where(xs + ys, keep) == Where(xs, keep) + Where(ys, keep)
    decreases |ys|
  {
    if ys == [] {
      assert xs + ys == xs;
    } else {
      var n := |ys| - 1;
      var zs := xs + ys;
      assert zs[..|zs| - 1] == xs + ys[..n];
      assert zs[|zs| - 1] == ys[n];
      WhereConcat(xs, ys[..n], keep);
    }
  }

  /** Where on one element keeps it exactly when it satisfies keep. */
  lemma FilterSingleton<T>(x: T, keep: T -> bool)
    ensures Filter([x], keep) == if keep(x) then [x] else []
  {
    assert [x][..0] == [];
    assert Where([x], keep) == Where([], keep) + (if keep(x) then [x] else []);
  }
}
