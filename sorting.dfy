/** What Python's `list.sort()` does to a list of ints: it leaves the unique
    ascending permutation of it. */
module Sorting {

  ghost predicate Sorted(s: seq<int>)
  {
    forall i, j :: 0 <= i < j < |s| ==> s[i] <= s[j]
  }

  ghost predicate StrictlyIncreasing(s: seq<int>)
  {
    forall i, j :: 0 <= i < j < |s| ==> s[i] < s[j]
  }

  ghost predicate NoDuplicates<T>(s: seq<T>)
  {
    forall i, j :: 0 <= i < j < |s| ==> s[i] != s[j]
  }

  function Insert(x: int, s: seq<int>): (r: seq<int>)
    requires Sorted(s)
    ensures Sorted(r)
    ensures multiset(r) == multiset(s) + multiset{x}
    ensures forall y :: y in r <==> y == x || y in s
  {
    if s == [] || x <= s[0] then [x] + s
    else
      assert s == [s[0]] + s[1..];
      var rest := Insert(x, s[1..]);
      assert forall k :: 0 <= k < |rest| ==> s[0] <= rest[k] by {
        forall k | 0 <= k < |rest| ensures s[0] <= rest[k] {
          assert rest[k] in rest;
        }
      }
      [s[0]] + rest
  }

  /** The ascending permutation of `s` (insertion sort). */
  function Sort(s: seq<int>): (r: seq<int>)
    ensures Sorted(r)
    ensures multiset(r) == multiset(s)
  {
    if s == [] then []
    else
      assert s == [s[0]] + s[1..];
      Insert(s[0], Sort(s[1..]))
  }

  lemma SortMembers(s: seq<int>, x: int)
    ensures x in Sort(s) <==> x in s
  {
    assert x in Sort(s) <==> x in multiset(Sort(s));
    assert x in s <==> x in multiset(s);
  }

  lemma SortedNoDuplicatesIncreasing(s: seq<int>)
    requires Sorted(s) && NoDuplicates(s)
    ensures StrictlyIncreasing(s)
  {
  }

  /** A sequence has no duplicates exactly when its multiset counts each
      element once. */
  lemma {:induction false} NoDuplicatesMultiset<T>(s: seq<T>)
    ensures NoDuplicates(s) <==> forall x :: x in multiset(s) ==> multiset(s)[x] == 1
  {
    if s != [] {
      var t := s[1..];
      assert s == [s[0]] + t;
      NoDuplicatesMultiset(t);
      if NoDuplicates(s) {
        assert NoDuplicates(t);
        assert s[0] !in t;
      } else {
        var i, j :| 0 <= i < j < |s| && s[i] == s[j];
        var x := s[i];
        if i == 0 {
          assert x in t by { assert t[j - 1] == x; }
          assert multiset(s)[x] == multiset(t)[x] + 1;
        } else {
          assert !NoDuplicates(t) by { assert t[i - 1] == t[j - 1]; }
          var y :| y in multiset(t) && multiset(t)[y] != 1;
          assert multiset(s)[y] >= multiset(t)[y];
        }
      }
    }
  }

  lemma SortKeepsNoDuplicates(s: seq<int>)
    requires NoDuplicates(s)
    ensures NoDuplicates(Sort(s)) && StrictlyIncreasing(Sort(s))
  {
    NoDuplicatesMultiset(s);
    NoDuplicatesMultiset(Sort(s));
  }
}
