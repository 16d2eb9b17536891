/** Python's `sorted`: a stable sort, here as insertion into an already sorted rest. */
module StableSort {

  /** A strict weak order, the only orders `sorted` is called with. */
  ghost predicate WeakOrder<T(!new)>(lt: (T, T) -> bool) {
    && (forall x :: !lt(x, x))
    && (forall x, y, z :: lt(x, y) && lt(y, z) ==> lt(x, z))
    && (forall x, y, z :: !lt(x, y) && !lt(y, z) ==> !lt(x, z))
  }

  ghost predicate Sorted<T>(s: seq<T>, lt: (T, T) -> bool) {
    forall i, j :: 0 <= i < j < |s| ==> !lt(s[j], s[i])
  }

  function Insert<T>(x: T, s: seq<T>, lt: (T, T) -> bool): seq<T> {
    if s == [] then [x]
    else if lt(s[0], x) then [s[0]] + Insert(x, s[1..], lt)
    else [x] + s
  }

  function Sort<T>(s: seq<T>, lt: (T, T) -> bool): seq<T> {
    if s == [] then [] else Insert(s[0], Sort(s[1..], lt), lt)
  }

  lemma {:induction false} InsertMembers<T>(x: T, s: seq<T>, lt: (T, T) -> bool)
    ensures multiset(Insert(x, s, lt)) == multiset{x} + multiset(s)
    ensures |Insert(x, s, lt)| == |s| + 1
  {
    if s != [] {
      assert s == [s[0]] + s[1..];
      if lt(s[0], x) {
        InsertMembers(x, s[1..], lt);
      }
    }
  }

  lemma {:induction false} SortMembers<T>(s: seq<T>, lt: (T, T) -> bool)
    ensures multiset(Sort(s, lt)) == multiset(s)
    ensures |Sort(s, lt)| == |s|
  {
    if s != [] {
      assert s == [s[0]] + s[1..];
      SortMembers(s[1..], lt);
      InsertMembers(s[0], Sort(s[1..], lt), lt);
    }
  }

  lemma {:induction false} InsertKeepsSorted<T(!new)>(x: T, s: seq<T>, lt: (T, T) -> bool)
    requires WeakOrder(lt) && Sorted(s, lt)
    ensures Sorted(Insert(x, s, lt), lt)
  {
    if s != [] && lt(s[0], x) {
      InsertKeepsSorted(x, s[1..], lt);
      var r := Insert(x, s[1..], lt);
      InsertMembers(x, s[1..], lt);
      forall j | 0 <= j < |r| ensures !lt(r[j], s[0]) {
        assert r[j] in multiset(r);
        if r[j] != x {
          assert r[j] in multiset(s[1..]);
          var k :| 0 <= k < |s[1..]| && s[1..][k] == r[j];
          assert r[j] == s[k + 1];
        }
      }
    } else if s != [] {
      forall j | 0 <= j < |s| ensures !lt(s[j], x) {
        assert !lt(s[j], s[0]);
      }
    }
  }

  lemma {:induction false} SortSorts<T(!new)>(s: seq<T>, lt: (T, T) -> bool)
    requires WeakOrder(lt)
    ensures Sorted(Sort(s, lt), lt)
  {
    if s != [] {
      SortSorts(s[1..], lt);
      InsertKeepsSorted(s[0], Sort(s[1..], lt), lt);
    }
  }

  /** The elements that tie with `x`, in order. */
  ghost function Ties<T>(s: seq<T>, x: T, lt: (T, T) -> bool): seq<T> {
    if s == [] then [] else (if !lt(s[0], x) && !lt(x, s[0]) then [s[0]] else []) + Ties(s[1..], x, lt)
  }

  lemma {:induction false} InsertIsStable<T(!new)>(y: T, s: seq<T>, x: T, lt: (T, T) -> bool)
    requires WeakOrder(lt)
    ensures Ties(Insert(y, s, lt), x, lt) == Ties([y] + s, x, lt)
  {
    assert ([y] + s)[1..] == s;
    if s != [] && lt(s[0], y) {
      InsertIsStable(y, s[1..], x, lt);
      var r := Insert(y, s[1..], lt);
      assert ([s[0]] + r)[1..] == r && ([y] + s[1..])[1..] == s[1..];
    }
  }

  /** Elements that tie keep their order. */
  lemma {:induction false} SortIsStable<T(!new)>(s: seq<T>, x: T, lt: (T, T) -> bool)
    requires WeakOrder(lt)
    ensures Ties(Sort(s, lt), x, lt) == Ties(s, x, lt)
  {
    if s != [] {
      var rest := Sort(s[1..], lt);
      SortIsStable(s[1..], x, lt);
      InsertIsStable(s[0], rest, x, lt);
      assert ([s[0]] + rest)[1..] == rest;
    }
  }

  /** No element sorts before the first one. */
  lemma FirstIsLeast<T(!new)>(a: seq<T>, b: seq<T>, lt: (T, T) -> bool)
    requires WeakOrder(lt) && Sorted(a, lt) && a != [] && b != [] && multiset(a) == multiset(b)
    ensures !lt(b[0], a[0])
  {
    assert b[0] in multiset(a);
    var i :| 0 <= i < |a| && a[i] == b[0];
  }

  /** Sorted arrangements of the same elements agree when no two elements tie. */
  lemma {:induction false} SortedUnique<T(!new)>(a: seq<T>, b: seq<T>, lt: (T, T) -> bool)
    requires WeakOrder(lt) && Sorted(a, lt) && Sorted(b, lt)
    requires multiset(a) == multiset(b)
    requires forall x, y :: x in a && y in a && x != y ==> lt(x, y) || lt(y, x)
    ensures a == b
  {
    hide WeakOrder;
    assert |a| == |multiset(a)| == |multiset(b)| == |b|;
    if a != [] {
      FirstIsLeast(a, b, lt);
      FirstIsLeast(b, a, lt);
      assert b[0] in multiset(a);
      assert a[0] == b[0];
      assert a == [a[0]] + a[1..] && b == [b[0]] + b[1..];
      assert multiset(a[1..]) == multiset(a) - multiset{a[0]};
      SortedUnique(a[1..], b[1..], lt);
    }
  }
}
