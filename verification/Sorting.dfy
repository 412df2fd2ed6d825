/** Stable sorting by a strict order, and why its result is unique. */
module Sorting {

  ghost predicate Transitive<T(!new)>(before: (T, T) -> bool) {
    forall x, y, z :: before(x, y) && before(y, z) ==> before(x, z)
  }

  ghost predicate Irreflexive<T(!new)>(before: (T, T) -> bool) {
    forall x :: !before(x, x)
  }

  ghost predicate Sorted<T>(s: seq<T>, before: (T, T) -> bool) {
    forall i, j :: 0 <= i < j < |s| ==> before(s[i], s[j])
  }

  /** Any two elements at different places can be told apart by the order. */
  ghost predicate Comparable<T>(s: seq<T>, before: (T, T) -> bool) {
    forall i, j :: 0 <= i < j < |s| ==> before(s[i], s[j]) || before(s[j], s[i])
  }

  /** Puts x in front of the first element that is not before it. */
  function Insert<T>(x: T, s: seq<T>, before: (T, T) -> bool): (r: seq<T>)
    ensures multiset(r) == multiset(s) + multiset{x}
  {
    if s == [] then [x]
    else if !before(s[0], x) then [x] + s
    else
      assert s == [s[0]] + s[1..];
      [s[0]] + Insert(x, s[1..], before)
  }

  /** sort.SliceStable */
  function Sort<T>(s: seq<T>, before: (T, T) -> bool): (r: seq<T>)
    ensures multiset(r) == multiset(s)
  {
    if s == [] then []
    else
      assert s == [s[0]] + s[1..];
      Insert(s[0], Sort(s[1..], before), before)
  }

  lemma InMultiset<T>(s: seq<T>, r: seq<T>, i: int) returns (j: int)
    requires multiset(s) == multiset(r) && 0 <= i < |s|
    ensures 0 <= j < |r| && r[j] == s[i]
  {
    assert s[i] in multiset(r);
    j :| 0 <= j < |r| && r[j] == s[i];
  }

  lemma {:induction false} InsertSorted<T(!new)>(x: T, s: seq<T>, before: (T, T) -> bool)
    requires Transitive(before) && Sorted(s, before)
    requires forall i :: 0 <= i < |s| ==> before(x, s[i]) || before(s[i], x)
    ensures Sorted(Insert(x, s, before), before)
  {
    if s == [] {
    } else {
      if before(s[0], x) {
        var rest := s[1..];
        InsertSorted(x, rest, before);
        var tail := Insert(x, rest, before);
        forall j | 0 <= j < |tail| ensures before(s[0], tail[j]) {
          assert tail[j] in multiset(rest) + multiset{x};
          if tail[j] in multiset(rest) {
            var k :| 0 <= k < |rest| && rest[k] == tail[j];
            assert s[k + 1] == rest[k];
          }
        }
      } else {
        forall j | 0 <= j < |s| ensures before(x, s[j]) {
          assert before(x, s[0]);
          assert j > 0 ==> before(s[0], s[j]);
        }
      }
    }
  }

  lemma {:induction false} SortSorted<T(!new)>(s: seq<T>, before: (T, T) -> bool)
    requires Transitive(before) && Comparable(s, before)
    ensures Sorted(Sort(s, before), before)
  {
    if s == [] {
    } else {
      var rest := s[1..];
      SortSorted(rest, before);
      var sorted := Sort(rest, before);
      forall i | 0 <= i < |sorted| ensures before(s[0], sorted[i]) || before(sorted[i], s[0]) {
        var j := InMultiset(sorted, rest, i);
        assert s[j + 1] == rest[j];
      }
      InsertSorted(s[0], sorted, before);
    }
  }

  lemma FirstOfSorted<T(!new)>(a: seq<T>, b: seq<T>, before: (T, T) -> bool)
    requires Transitive(before) && Irreflexive(before)
    requires Sorted(a, before) && Sorted(b, before)
    requires a != [] && b != [] && multiset(a) == multiset(b)
    ensures a[0] == b[0]
  {
    var i := InMultiset(b, a, 0);
    var j := InMultiset(a, b, 0);
    if i > 0 && j > 0 {
      assert false;
    }
  }

  lemma RestOf<T>(a: seq<T>)
    requires a != []
    ensures multiset(a[1..]) == multiset(a) - multiset{a[0]} && a == [a[0]] + a[1..]
  {
    assert a == [a[0]] + a[1..];
  }

  /** A collection has only one sorted arrangement. */
  lemma {:induction false} SortedUnique<T(!new)>(a: seq<T>, b: seq<T>, before: (T, T) -> bool)
    requires Transitive(before) && Irreflexive(before)
    requires Sorted(a, before) && Sorted(b, before)
    requires multiset(a) == multiset(b)
    ensures a == b
  {
    assert |multiset(a)| == |a| && |multiset(b)| == |b|;
    if a == [] {
    } else {
      FirstOfSorted(a, b, before);
      RestOf(a);
      RestOf(b);
      SortedUnique(a[1..], b[1..], before);
    }
  }
}
