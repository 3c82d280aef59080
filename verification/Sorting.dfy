/** A stable insertion sort, the library's sort for up to twenty elements, and what it does under a linear order. */
module Sorting {

  function Insert<T>(lt: (T, T) -> bool, x: T, sorted: seq<T>): seq<T> {
    var n := |sorted|;
    if n > 0 && lt(x, sorted[n - 1]) then Insert(lt, x, sorted[..n - 1]) + [sorted[n - 1]] else sorted + [x]
  }

  function StableSort<T>(lt: (T, T) -> bool, s: seq<T>): seq<T> {
    if s == [] then [] else Insert(lt, s[|s| - 1], StableSort(lt, s[..|s| - 1]))
  }

  lemma {:induction false} InsertKeepsAll<T>(lt: (T, T) -> bool, x: T, s: seq<T>)
    ensures multiset(Insert(lt, x, s)) == multiset(s) + multiset{x}
    ensures forall y :: y in Insert(lt, x, s) <==> y == x || y in s
  {
    var n := |s|;
    if n > 0 {
      InsertKeepsAll(lt, x, s[..n - 1]);
      assert s == s[..n - 1] + [s[n - 1]];
    }
  }

  lemma WithoutLast<T>(s: seq<T>)
    requires s != []
    ensures multiset(s) == multiset(s[..|s| - 1]) + multiset{s[|s| - 1]}
  {
    assert s == s[..|s| - 1] + [s[|s| - 1]];
  }

  /** Sorting loses and repeats nothing, whatever the comparison. */
  lemma {:induction false} SortKeepsAll<T>(lt: (T, T) -> bool, s: seq<T>)
    ensures multiset(StableSort(lt, s)) == multiset(s)
  {
    if s != [] {
      var n := |s| - 1;
      SortKeepsAll(lt, s[..n]);
      InsertKeepsAll(lt, s[n], StableSort(lt, s[..n]));
      WithoutLast(s);
    }
  }

  lemma SameElements<T>(s: seq<T>, t: seq<T>)
    requires multiset(s) == multiset(t)
    ensures forall x :: x in s <==> x in t
    ensures |s| == |t|
  {
    forall x
      ensures x in s <==> x in t
    {
      assert x in s <==> x in multiset(s);
      assert x in t <==> x in multiset(t);
    }
    assert |multiset(s)| == |s| && |multiset(t)| == |t|;
  }

  ghost predicate NoRepeats<T>(s: seq<T>) {
    forall x :: x in s ==> multiset(s)[x] == 1
  }

  /** `lt` orders the members of `s` linearly. */
  ghost predicate Linear<T>(lt: (T, T) -> bool, s: set<T>) {
    && (forall a, b {:trigger lt(a, b)} :: a in s && b in s && a != b ==> lt(a, b) || lt(b, a))
    && (forall a, b {:trigger lt(a, b)} :: a in s && b in s ==> !(lt(a, b) && lt(b, a)))
    && (forall a, b, c {:trigger lt(a, b), lt(b, c)} :: a in s && b in s && c in s && lt(a, b) && lt(b, c) ==> lt(a, c))
  }

  ghost predicate Sorted<T>(lt: (T, T) -> bool, s: seq<T>) {
    forall i, j :: 0 <= i < j < |s| ==> lt(s[i], s[j])
  }

  /** Insertion puts `x` right after the last element it does not precede. */
  lemma {:induction false} InsertShape<T>(lt: (T, T) -> bool, x: T, s: seq<T>) returns (k: nat)
    ensures k <= |s| && Insert(lt, x, s) == s[..k] + [x] + s[k..]
    ensures k > 0 ==> !lt(x, s[k - 1])
    ensures forall i :: k <= i < |s| ==> lt(x, s[i])
  {
    var n := |s|;
    if n > 0 && lt(x, s[n - 1]) {
      k := InsertShape(lt, x, s[..n - 1]);
      assert s == s[..n - 1] + [s[n - 1]];
    } else {
      k := n;
    }
  }

  lemma InsertSorts<T>(lt: (T, T) -> bool, x: T, s: seq<T>, all: set<T>)
    requires Sorted(lt, s) && Linear(lt, all) && x in all
    requires forall i :: 0 <= i < |s| ==> s[i] in all && s[i] != x
    ensures Sorted(lt, Insert(lt, x, s))
  {
    var k := InsertShape(lt, x, s);
    if k > 0 {
      assert lt(s[k - 1], x);
      forall i | 0 <= i < k - 1
        ensures lt(s[i], x)
      {
        assert lt(s[i], s[k - 1]);
      }
    }
    SortedMiddle(lt, s, x, k);
  }

  lemma SortedMiddle<T>(lt: (T, T) -> bool, s: seq<T>, x: T, k: nat)
    requires k <= |s| && Sorted(lt, s)
    requires forall i :: 0 <= i < k ==> lt(s[i], x)
    requires forall i :: k <= i < |s| ==> lt(x, s[i])
    ensures Sorted(lt, s[..k] + [x] + s[k..])
  {
    var out := s[..k] + [x] + s[k..];
    forall i, j | 0 <= i < j < |out|
      ensures lt(out[i], out[j])
    {
      var a := if i <= k then i else i - 1;
      var b := if j <= k then j else j - 1;
      if i != k && j != k {
        assert out[i] == s[a] && out[j] == s[b];
      }
    }
  }

  lemma NoRepeatsInFront<T>(init: seq<T>, x: T)
    requires NoRepeats(init + [x])
    ensures NoRepeats(init) && x !in init
  {
    var s := init + [x];
    assert multiset(s) == multiset(init) + multiset{x};
    assert x in s;
    forall y | y in init
      ensures multiset(init)[y] == 1 && y != x
    {
      assert y in s && y in multiset(init);
    }
  }

  lemma {:induction false} SortSorts<T>(lt: (T, T) -> bool, s: seq<T>, all: set<T>)
    requires Linear(lt, all) && NoRepeats(s)
    requires forall y :: y in s ==> y in all
    ensures Sorted(lt, StableSort(lt, s))
  {
    if s != [] {
      var n := |s| - 1;
      var init, x := s[..n], s[n];
      assert s == init + [x];
      assert x in s;
      NoRepeatsInFront(init, x);
      MembersInFront(init, x, all);
      SortSorts(lt, init, all);
      SortedMembers(lt, init, x, all);
      InsertSorts(lt, x, StableSort(lt, init), all);
    }
  }

  lemma MembersInFront<T>(init: seq<T>, x: T, all: set<T>)
    requires forall y :: y in init + [x] ==> y in all
    ensures forall y :: y in init ==> y in all
  {
    forall y | y in init
      ensures y in all
    {
      assert y in init + [x];
    }
  }

  lemma SortedMembers<T>(lt: (T, T) -> bool, init: seq<T>, x: T, all: set<T>)
    requires x !in init && forall y :: y in init ==> y in all
    ensures forall i :: 0 <= i < |StableSort(lt, init)| ==>
              StableSort(lt, init)[i] in all && StableSort(lt, init)[i] != x
  {
    SortKeepsAll(lt, init);
    var t := StableSort(lt, init);
    forall i | 0 <= i < |t|
      ensures t[i] in all && t[i] != x
    {
      assert t[i] in multiset(t);
    }
  }

  lemma SortedHasOneHead<T>(lt: (T, T) -> bool, s: seq<T>, t: seq<T>)
    requires Sorted(lt, s) && Sorted(lt, t) && s != [] && t != []
    requires t[0] in s && s[0] in t && !(lt(s[0], t[0]) && lt(t[0], s[0]))
    ensures s[0] == t[0]
  {
    var i :| 0 <= i < |t| && t[i] == s[0];
    var j :| 0 <= j < |s| && s[j] == t[0];
  }

  lemma SortedTail<T>(lt: (T, T) -> bool, s: seq<T>)
    requires Sorted(lt, s) && s != []
    ensures Sorted(lt, s[1..])
  {
  }

  lemma {:induction false} SortedIsUnique<T>(lt: (T, T) -> bool, s: seq<T>, t: seq<T>)
    requires Sorted(lt, s) && Sorted(lt, t) && multiset(s) == multiset(t)
    requires forall a, b :: a in s && b in s ==> !(lt(a, b) && lt(b, a))
    ensures s == t
    decreases |s|
  {
    SameElements(s, t);
    if s != [] {
      assert s[0] in s && t[0] in t;
      SortedHasOneHead(lt, s, t);
      assert s == [s[0]] + s[1..] && t == [t[0]] + t[1..];
      assert multiset(s[1..]) == multiset(s) - multiset{s[0]};
      assert multiset(t[1..]) == multiset(t) - multiset{t[0]};
      SortedTail(lt, s);
      SortedTail(lt, t);
      forall a | a in s[1..]
        ensures a in s
      {
      }
      SortedIsUnique(lt, s[1..], t[1..]);
    }
  }

  ghost function Elements<T>(s: seq<T>): set<T> {
    set x | x in s
  }

  lemma SortOfElements<T>(lt: (T, T) -> bool, s: seq<T>, t: seq<T>)
    requires multiset(s) == multiset(t) && NoRepeats(s) && Linear(lt, Elements(s))
    ensures Sorted(lt, StableSort(lt, t)) && multiset(StableSort(lt, t)) == multiset(s)
  {
    SameElements(s, t);
    SortSorts(lt, t, Elements(s));
    SortKeepsAll(lt, t);
  }

  lemma AsymmetricOn<T>(lt: (T, T) -> bool, s: seq<T>, all: seq<T>)
    requires Linear(lt, Elements(all)) && multiset(s) == multiset(all)
    ensures forall a, b :: a in s && b in s ==> !(lt(a, b) && lt(b, a))
  {
    SameElements(s, all);
  }

  /** Under a linear order the sorted sequence does not depend on how the elements are listed. */
  lemma SortIgnoresListing<T>(lt: (T, T) -> bool, s: seq<T>, t: seq<T>)
    requires multiset(s) == multiset(t) && NoRepeats(s) && Linear(lt, Elements(s))
    ensures StableSort(lt, s) == StableSort(lt, t)
  {
    var a, b := StableSort(lt, s), StableSort(lt, t);
    SortOfElements(lt, s, s);
    SortOfElements(lt, s, t);
    AsymmetricOn(lt, a, s);
    SortedIsUnique(lt, a, b);
  }

  // ---- Under a comparison with ties ---------------------------------------------------------

  /** `lt` is asymmetric, and not being preceded passes on. */
  ghost predicate Weak<T>(lt: (T, T) -> bool, s: set<T>) {
    && (forall a, b {:trigger lt(a, b)} :: a in s && b in s ==> !(lt(a, b) && lt(b, a)))
    && (forall a, b, c {:trigger lt(b, a), lt(c, b)} :: a in s && b in s && c in s && !lt(b, a) && !lt(c, b) ==>
          !lt(c, a))
  }

  /** No element precedes an earlier one. */
  ghost predicate InOrder<T>(lt: (T, T) -> bool, s: seq<T>) {
    forall i, j :: 0 <= i < j < |s| ==> !lt(s[j], s[i])
  }

  lemma InsertKeepsOrder<T>(lt: (T, T) -> bool, x: T, s: seq<T>, all: set<T>)
    requires InOrder(lt, s) && Weak(lt, all) && x in all && forall y :: y in s ==> y in all
    ensures InOrder(lt, Insert(lt, x, s))
  {
    var k := InsertShape(lt, x, s);
    var out := s[..k] + [x] + s[k..];
    forall i | 0 <= i < |s|
      ensures i < k ==> !lt(x, s[i])
      ensures i >= k ==> !lt(s[i], x)
    {
      assert s[i] in s;
      if i + 1 < k {
        assert s[k - 1] in s && !lt(s[k - 1], s[i]);
      }
      assert i >= k ==> lt(x, s[i]);
    }
    forall i, j | 0 <= i < j < |out|
      ensures !lt(out[j], out[i])
    {
      if i != k && j != k {
        assert out[i] == s[if i < k then i else i - 1] && out[j] == s[if j < k then j else j - 1];
      }
    }
  }

  lemma SortStaysWithin<T>(lt: (T, T) -> bool, s: seq<T>, all: set<T>)
    requires forall y :: y in s ==> y in all
    ensures forall y :: y in StableSort(lt, s) ==> y in all
  {
    SortKeepsAll(lt, s);
    forall y | y in StableSort(lt, s)
      ensures y in all
    {
      assert y in multiset(StableSort(lt, s));
      assert y in multiset(s);
    }
  }

  lemma {:induction false} SortPutsInOrder<T>(lt: (T, T) -> bool, s: seq<T>, all: set<T>)
    requires Weak(lt, all) && forall y :: y in s ==> y in all
    ensures InOrder(lt, StableSort(lt, s))
  {
    if s != [] {
      var n := |s| - 1;
      SortPutsInOrder(lt, s[..n], all);
      SortStaysWithin(lt, s[..n], all);
      assert s[n] in s;
      InsertKeepsOrder(lt, s[n], StableSort(lt, s[..n]), all);
    }
  }

  /** No element precedes the one right before it. */
  ghost predicate StepwiseInOrder<T>(lt: (T, T) -> bool, s: seq<T>) {
    forall i :: 0 < i < |s| ==> !lt(s[i], s[i - 1])
  }

  lemma InsertKeepsSteps<T>(lt: (T, T) -> bool, x: T, s: seq<T>, all: set<T>)
    requires StepwiseInOrder(lt, s) && x in all && forall y :: y in s ==> y in all
    requires forall a, b {:trigger lt(a, b)} :: a in all && b in all ==> !(lt(a, b) && lt(b, a))
    ensures StepwiseInOrder(lt, Insert(lt, x, s))
  {
    var k := InsertShape(lt, x, s);
    var out := s[..k] + [x] + s[k..];
    forall i | 0 < i < |out|
      ensures !lt(out[i], out[i - 1])
    {
      if i == k + 1 {
        assert out[i] == s[k] && s[k] in s && lt(x, s[k]);
      } else if i != k {
        assert out[i] == s[if i < k then i else i - 1] && out[i - 1] == s[if i < k then i - 1 else i - 2];
      }
    }
  }

  /** Whatever else an asymmetric comparison is, sorting by it leaves no neighbours the wrong way round. */
  lemma {:induction false} SortStepsInOrder<T>(lt: (T, T) -> bool, s: seq<T>, all: set<T>)
    requires forall y :: y in s ==> y in all
    requires forall a, b {:trigger lt(a, b)} :: a in all && b in all ==> !(lt(a, b) && lt(b, a))
    ensures StepwiseInOrder(lt, StableSort(lt, s))
  {
    if s != [] {
      var n := |s| - 1;
      SortStepsInOrder(lt, s[..n], all);
      SortStaysWithin(lt, s[..n], all);
      assert s[n] in s;
      InsertKeepsSteps(lt, s[n], StableSort(lt, s[..n]), all);
    }
  }
}
