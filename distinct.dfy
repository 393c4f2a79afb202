/**
 * Removing repeated elements while keeping each one where it first
 * occurs, as copying a list into a `LinkedHashSet` does.
 */
module Distinct {

  /** The elements of `s` without repeats, each at its first occurrence. */
  function Distinct<T(==)>(s: seq<T>): (d: seq<T>)
    ensures forall x :: x in d ==> x in s
    ensures forall x :: x in s ==> x in d
  {
    if s == [] then []
    else
      var d := Distinct(s[..|s| - 1]);
      assert forall x :: x in s ==> x in s[..|s| - 1] || x == s[|s| - 1];
      if s[|s| - 1] in d then d else d + [s[|s| - 1]]
  }

  predicate NoDuplicates<T(==)>(s: seq<T>) {
    forall i, j :: 0 <= i < j < |s| ==> s[i] != s[j]
  }

  /** Where `x` first occurs in `s`. */
  function FirstIndex<T(==)>(s: seq<T>, x: T): (i: nat)
    requires x in s
    ensures i < |s| && s[i] == x && x !in s[..i]
  {
    if s[0] == x then 0 else 1 + FirstIndex(s[1..], x)
  }

  lemma {:induction false} FirstIndexAppend<T>(s: seq<T>, x: T, y: T)
    requires y in s
    ensures FirstIndex(s + [x], y) == FirstIndex(s, y)
  {
    if s[0] != y {
      assert (s + [x])[1..] == s[1..] + [x];
      FirstIndexAppend(s[1..], x, y);
    }
  }

  /** No element appears twice. */
  lemma {:induction false} DistinctHasNoDuplicates<T>(s: seq<T>)
    ensures NoDuplicates(Distinct(s))
  {
    if s != [] {
      DistinctHasNoDuplicates(s[..|s| - 1]);
    }
  }

  /** The elements of `d`, all drawn from `s`, come in the order of their first occurrences in `s`. */
  ghost predicate InFirstOccurrenceOrder<T>(d: seq<T>, s: seq<T>)
    requires forall x :: x in d ==> x in s
  {
    forall i, j :: 0 <= i < j < |d| ==> FirstIndex(s, d[i]) < FirstIndex(s, d[j])
  }

  /** The elements keep the order of their first occurrences. */
  lemma {:induction false} DistinctKeepsFirstOccurrenceOrder<T>(s: seq<T>)
    ensures InFirstOccurrenceOrder(Distinct(s), s)
  {
    if s != [] {
      var init, x := s[..|s| - 1], s[|s| - 1];
      assert s == init + [x];
      DistinctKeepsFirstOccurrenceOrder(init);
      var d0 := Distinct(init);
      forall y | y in d0
        ensures FirstIndex(s, y) == FirstIndex(init, y)
      {
        FirstIndexAppend(init, x, y);
      }
      if x !in d0 {
        var d := Distinct(s);
        assert d == d0 + [x];
        assert FirstIndex(s, x) == |init|;
        forall i, j | 0 <= i < j < |d|
          ensures FirstIndex(s, d[i]) < FirstIndex(s, d[j])
        {
          assert d[i] == d0[i] && d0[i] in d0;
          if j < |d0| {
            assert d[j] == d0[j] && d0[j] in d0;
            assert FirstIndex(init, d0[i]) < FirstIndex(init, d0[j]);
          } else {
            assert d[j] == x;
            assert FirstIndex(s, d[i]) == FirstIndex(init, d0[i]) < |init|;
          }
        }
      } else {
        assert Distinct(s) == d0;
        forall i, j | 0 <= i < j < |d0|
          ensures FirstIndex(s, d0[i]) < FirstIndex(s, d0[j])
        {
          assert d0[i] in d0 && d0[j] in d0;
          assert FirstIndex(init, d0[i]) < FirstIndex(init, d0[j]);
        }
      }
    }
  }

  /** A list without repeats is left as it is. */
  lemma {:induction false} DistinctOfDistinct<T>(s: seq<T>)
    requires NoDuplicates(s)
    ensures Distinct(s) == s
  {
    if s != [] {
      var init := s[..|s| - 1];
      DistinctOfDistinct(init);
      assert s == init + [s[|s| - 1]];
    }
  }

  /** `n` copies of `x`. */
  function Repeat<T>(x: T, n: nat): (r: seq<T>)
    ensures |r| == n && forall y :: y in r ==> y == x
  {
    if n == 0 then [] else Repeat(x, n - 1) + [x]
  }

  lemma DistinctAppend<T>(s: seq<T>, x: T)
    ensures Distinct(s + [x]) == if x in Distinct(s) then Distinct(s) else Distinct(s) + [x]
  {
    assert (s + [x])[..|s|] == s;
  }

  /** Further copies of an element already kept change nothing. */
  lemma {:induction false} DistinctAppendRepeat<T>(s: seq<T>, x: T, n: nat)
    requires n >= 1
    ensures Distinct(s + Repeat(x, n)) == Distinct(s + [x])
  {
    if n > 1 {
      DistinctAppendRepeat(s, x, n - 1);
      assert s + Repeat(x, n) == (s + Repeat(x, n - 1)) + [x];
      DistinctAppend(s + Repeat(x, n - 1), x);
      assert x in s + Repeat(x, n - 1);
    }
  }
}
