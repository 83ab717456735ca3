/** Stable sorting by a `less` test, standing for Go's `sort.Slice`, `sort.SliceStable`,
    `sort.Strings` and for Python's `sorted`. */
module Sorting {
  ghost predicate StrictWeakOrder<T(!new)>(less: (T, T) -> bool) {
    && (forall x :: !less(x, x))
    && (forall x, y, z :: less(x, y) && less(y, z) ==> less(x, z))
    && (forall x, y, z :: !less(x, y) && !less(y, z) ==> !less(x, z))
  }

  ghost predicate Sorted<T>(less: (T, T) -> bool, s: seq<T>) {
    forall i, j :: 0 <= i < j < |s| ==> !less(s[j], s[i])
  }

  function Insert<T>(less: (T, T) -> bool, x: T, s: seq<T>): (r: seq<T>)
    ensures multiset(r) == multiset{x} + multiset(s)
  {
    if s == [] then [x]
    else if less(s[0], x) then
      assert s == [s[0]] + s[1..];
      [s[0]] + Insert(less, x, s[1..])
    else [x] + s
  }

  function StableSort<T>(less: (T, T) -> bool, s: seq<T>): (r: seq<T>)
    ensures multiset(r) == multiset(s)
  {
    if s == [] then []
    else
      assert s == [s[0]] + s[1..];
      Insert(less, s[0], StableSort(less, s[1..]))
  }

  lemma {:induction false} InsertSorted<T(!new)>(less: (T, T) -> bool, x: T, s: seq<T>)
    requires StrictWeakOrder(less) && Sorted(less, s)
    ensures Sorted(less, Insert(less, x, s))
  {
    if s == [] {
    } else if less(s[0], x) {
      InsertSorted(less, x, s[1..]);
      var t := Insert(less, x, s[1..]);
      forall k | 0 <= k < |t| ensures !less(t[k], s[0]) {
        assert t[k] in multiset(t);
        if t[k] != x {
          assert t[k] in s[1..];
        }
      }
    } else {
      forall k | 0 <= k < |s| ensures !less(s[k], x) {
        assert k == 0 || !less(s[k], s[0]);
      }
    }
  }

  lemma {:induction false} SortSorted<T(!new)>(less: (T, T) -> bool, s: seq<T>)
    requires StrictWeakOrder(less)
    ensures Sorted(less, StableSort(less, s))
  {
    if s != [] {
      SortSorted(less, s[1..]);
      InsertSorted(less, s[0], StableSort(less, s[1..]));
    }
  }

  lemma SameElements<T>(s: seq<T>, t: seq<T>)
    requires multiset(s) == multiset(t)
    ensures |s| == |t|
    ensures forall x :: x in s <==> x in t
  {
    assert |s| == |multiset(s)| == |multiset(t)| == |t|;
    assert forall x :: x in s <==> x in multiset(s);
    assert forall x :: x in t <==> x in multiset(t);
  }

  lemma RepeatedElement<T>(s: seq<T>, i: nat, j: nat)
    requires i < j < |s| && s[i] == s[j]
    ensures multiset(s)[s[i]] >= 2
  {
    assert s == s[..i] + [s[i]] + s[i + 1..j] + [s[j]] + s[j + 1..];
  }

  /** The first element that no element is less than. */
  function FirstLeast<T>(less: (T, T) -> bool, s: seq<T>): (m: T)
    requires s != []
    ensures m in s
  {
    if |s| == 1 then s[0]
    else var m := FirstLeast(less, s[1..]); if less(m, s[0]) then m else s[0]
  }

  lemma {:induction false} SortedHead<T>(less: (T, T) -> bool, s: seq<T>)
    requires s != []
    ensures StableSort(less, s) != [] && StableSort(less, s)[0] == FirstLeast(less, s)
  {
    SameElements(s, StableSort(less, s));
    if |s| > 1 {
      SortedHead(less, s[1..]);
    }
  }

  lemma {:induction false} FirstLeastIsLeast<T(!new)>(less: (T, T) -> bool, s: seq<T>)
    requires s != [] && StrictWeakOrder(less)
    ensures forall x :: x in s ==> !less(x, FirstLeast(less, s))
  {
    if |s| > 1 {
      FirstLeastIsLeast(less, s[1..]);
      forall x | x in s ensures !less(x, FirstLeast(less, s)) {
        assert x == s[0] || x in s[1..];
      }
    }
  }

  /** Where it is: it comes strictly before everything earlier, and nothing comes strictly before it. */
  lemma {:induction false} FirstLeastAt<T(!new)>(less: (T, T) -> bool, s: seq<T>) returns (i: nat)
    requires s != [] && StrictWeakOrder(less)
    ensures i < |s| && s[i] == FirstLeast(less, s)
    ensures forall j :: 0 <= j < i ==> less(s[i], s[j])
    ensures forall j :: 0 <= j < |s| ==> !less(s[j], s[i])
  {
    i := 0;
    FirstLeastIsLeast(less, s);
    if |s| > 1 {
      var k := FirstLeastAt(less, s[1..]);
      if less(s[1..][k], s[0]) {
        i := k + 1;
        forall j | 0 <= j < i ensures less(s[i], s[j]) {
          assert j > 0 ==> s[j] == s[1..][j - 1];
        }
      }
    }
  }

  /** The elements of a set, in some order. */
  method SetToSeq<T(==)>(s: set<T>) returns (list: seq<T>)
    ensures multiset(list) == multiset(s)
  {
    list := [];
    var left := s;
    while left != {}
      invariant left <= s && multiset(list) == multiset(s - left)
      decreases left
    {
      var x :| x in left;
      assert s - (left - {x}) == (s - left) + {x};
      left := left - {x};
      list := list + [x];
    }
    assert s - left == s;
  }
}
