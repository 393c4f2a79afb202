/**
 * The list-view engine shared by the recipe and blog listing pages:
 * filtering, a stable sort by an integer key, JavaScript `Array.prototype.slice`,
 * fixed-size pagination and the page-number window with "..." markers.
 */
module ListView {

  // ----- filtering -----

  /** `s.filter(p)`. */
  function Filter<T>(s: seq<T>, p: T -> bool): (r: seq<T>)
    ensures |r| <= |s|
    ensures forall i :: 0 <= i < |r| ==> p(r[i])
    ensures forall x :: x in r ==> x in s && p(x)
    ensures multiset(r) <= multiset(s)
    ensures forall x :: x in s && p(x) ==> x in r
  {
    if s == [] then []
    else
      assert s == [s[0]] + s[1..];
      if p(s[0]) then [s[0]] + Filter(s[1..], p)
      else Filter(s[1..], p)
  }

  /** `a` is `b` with some elements left out, the rest in their original order. */
  predicate IsSubsequence<T(==)>(a: seq<T>, b: seq<T>)
    decreases |b|
  {
    if a == [] then true
    else if b == [] then false
    else if a[0] == b[0] then IsSubsequence(a[1..], b[1..])
    else IsSubsequence(a, b[1..])
  }

  /** The first `k` elements of a subsequence are a subsequence too. */
  lemma {:induction false} PrefixIsSubsequence<T>(a: seq<T>, b: seq<T>, k: nat)
    requires IsSubsequence(a, b) && k <= |a|
    ensures IsSubsequence(a[..k], b)
    decreases |b|
  {
    if k > 0 {
      if a[0] == b[0] {
        PrefixIsSubsequence(a[1..], b[1..], k - 1);
        assert a[..k][1..] == a[1..][..k - 1];
      } else {
        PrefixIsSubsequence(a, b[1..], k);
      }
    }
  }

  lemma {:induction false} FilterIsSubsequence<T>(s: seq<T>, p: T -> bool)
    ensures IsSubsequence(Filter(s, p), s)
  {
    if s != [] {
      FilterIsSubsequence(s[1..], p);
      if p(s[0]) {
        assert Filter(s, p)[1..] == Filter(s[1..], p);
      }
    }
  }

  /** Filtering with a predicate that holds everywhere keeps the whole list. */
  lemma {:induction false} FilterAll<T>(s: seq<T>, p: T -> bool)
    requires forall x :: x in s ==> p(x)
    ensures Filter(s, p) == s
  {
    if s != [] {
      assert s[0] in s;
      FilterAll(s[1..], p);
      assert s == [s[0]] + s[1..];
    }
  }

  /** The number of elements satisfying `p`, `s.filter(p).length`. */
  function Count<T>(s: seq<T>, p: T -> bool): nat {
    |Filter(s, p)|
  }

  /** Three pairwise-exclusive tests together count no more elements than the list has. */
  lemma {:induction false} DisjointCountsBounded<T>(s: seq<T>, p: T -> bool, q: T -> bool, r: T -> bool)
    requires forall x :: !(p(x) && q(x)) && !(p(x) && r(x)) && !(q(x) && r(x))
    ensures Count(s, p) + Count(s, q) + Count(s, r) <= |s|
  {
    if s != [] {
      DisjointCountsBounded(s[1..], p, q, r);
      assert !(p(s[0]) && q(s[0])) && !(p(s[0]) && r(s[0])) && !(q(s[0]) && r(s[0]));
    }
  }

  /** `s.findIndex(p)`: the first position satisfying `p`, or -1. */
  function FindIndex<T>(s: seq<T>, p: T -> bool): (i: int)
    ensures -1 <= i < |s|
    ensures i == -1 <==> forall x :: x in s ==> !p(x)
    ensures i >= 0 ==> p(s[i]) && forall j :: 0 <= j < i ==> !p(s[j])
  {
    if s == [] then -1
    else if p(s[0]) then 0
    else
      var j := FindIndex(s[1..], p);
      assert forall x :: x in s[1..] ==> x in s;
      assert forall x :: x in s ==> x == s[0] || x in s[1..];
      if j == -1 then -1 else j + 1
  }

  // ----- stable sort by key -----

  predicate SortedBy<T>(s: seq<T>, key: T -> int) {
    forall i, j :: 0 <= i < j < |s| ==> key(s[i]) <= key(s[j])
  }

  /** Puts `x` in front of the first element whose key is not below `key(x)`. */
  function InsertBy<T>(x: T, s: seq<T>, key: T -> int): seq<T> {
    if s == [] || key(x) <= key(s[0]) then [x] + s
    else [s[0]] + InsertBy(x, s[1..], key)
  }

  /**
   * `Array.prototype.sort` with the comparator `(a, b) => key(a) - key(b)`:
   * a stable sort, ascending by key.  A descending comparator is the same sort
   * with the key negated.
   */
  function SortBy<T>(s: seq<T>, key: T -> int): seq<T> {
    if s == [] then [] else InsertBy(s[0], SortBy(s[1..], key), key)
  }

  lemma {:induction false} InsertByElements<T>(x: T, s: seq<T>, key: T -> int)
    ensures multiset(InsertBy(x, s, key)) == multiset([x]) + multiset(s)
    ensures |InsertBy(x, s, key)| == |s| + 1
  {
    if s != [] && key(x) > key(s[0]) {
      InsertByElements(x, s[1..], key);
      assert s == [s[0]] + s[1..];
    }
  }

  lemma {:induction false} InsertByMembers<T>(x: T, s: seq<T>, key: T -> int)
    ensures forall y :: y in InsertBy(x, s, key) ==> y == x || y in s
  {
    if s != [] && key(x) > key(s[0]) {
      InsertByMembers(x, s[1..], key);
      assert forall y :: y in s[1..] ==> y in s;
    }
  }

  lemma {:induction false} InsertBySorted<T>(x: T, s: seq<T>, key: T -> int)
    requires SortedBy(s, key)
    ensures SortedBy(InsertBy(x, s, key), key)
  {
    if s != [] && key(x) > key(s[0]) {
      var rest := InsertBy(x, s[1..], key);
      InsertBySorted(x, s[1..], key);
      InsertByMembers(x, s[1..], key);
      forall k | 0 <= k < |rest|
        ensures key(s[0]) <= key(rest[k])
      {
        assert rest[k] in rest;
        if rest[k] != x {
          var j :| 0 <= j < |s[1..]| && s[1..][j] == rest[k];
          assert s[j + 1] == rest[k];
        }
      }
      assert InsertBy(x, s, key) == [s[0]] + rest;
    }
  }

  /** The sorted list is ordered by key and is a permutation of the input. */
  lemma {:induction false} SortByFacts<T>(s: seq<T>, key: T -> int)
    ensures SortedBy(SortBy(s, key), key)
    ensures multiset(SortBy(s, key)) == multiset(s)
    ensures |SortBy(s, key)| == |s|
  {
    if s != [] {
      SortByFacts(s[1..], key);
      InsertBySorted(s[0], SortBy(s[1..], key), key);
      InsertByElements(s[0], SortBy(s[1..], key), key);
      assert s == [s[0]] + s[1..];
    }
  }

  /** With every key equal (the comparator that always answers 0) the order is kept. */
  lemma {:induction false} SortByConstantKey<T>(s: seq<T>, key: T -> int)
    requires forall x, y :: key(x) == key(y)
    ensures SortBy(s, key) == s
  {
    if s != [] {
      SortByConstantKey(s[1..], key);
      assert s == [s[0]] + s[1..];
    }
  }

  // ----- JavaScript slice and pagination -----

  /** How `slice` normalises an index: negative counts from the end, then clamp to `[0, n]`. */
  function ClampIndex(i: int, n: nat): (r: nat)
    ensures r <= n
    ensures 0 <= i <= n ==> r == i
    ensures i > n ==> r == n
  {
    if i < 0 then (if n + i < 0 then 0 else n + i) else if i > n then n else i
  }

  /** `s.slice(start, end)`. */
  function JsSlice<T>(s: seq<T>, start: int, end: int): (r: seq<T>)
    ensures |r| <= |s|
    ensures forall x :: x in r ==> x in s
    ensures 0 <= start <= end ==> r == s[ClampIndex(start, |s|)..ClampIndex(end, |s|)]
  {
    var a := ClampIndex(start, |s|);
    var b := ClampIndex(end, |s|);
    if a < b then s[a..b] else []
  }

  /** `s.slice(0, k)` keeps the first `min(k, |s|)` elements. */
  lemma JsSlicePrefix<T>(s: seq<T>, k: nat)
    ensures JsSlice(s, 0, k) == s[..if k < |s| then k else |s|]
  {
  }

  /** `Math.ceil(n / perPage)`. */
  function TotalPages(n: nat, perPage: nat): nat
    requires perPage > 0
  {
    (n + perPage - 1) / perPage
  }

  /** The page count is the least number of pages that holds every item. */
  lemma TotalPagesIsCeiling(n: nat, perPage: nat)
    requires perPage > 0
    ensures TotalPages(n, perPage) * perPage >= n
    ensures TotalPages(n, perPage) > 0 ==> (TotalPages(n, perPage) - 1) * perPage < n
  {
    var m := n + perPage - 1;
    var q := m / perPage;
    var r := m % perPage;
    assert m == q * perPage + r;
    assert (q - 1) * perPage == q * perPage - perPage;
  }

  /** The items of page `page` (counting from 1). */
  function PageSlice<T>(s: seq<T>, page: int, perPage: nat): seq<T> {
    JsSlice(s, (page - 1) * perPage, (page - 1) * perPage + perPage)
  }

  /** A page never holds more than `perPage` items. */
  lemma PageSliceBounded<T>(s: seq<T>, page: int, perPage: nat)
    ensures |PageSlice(s, page, perPage)| <= perPage
  {
  }

  function Flatten<T>(pages: seq<seq<T>>): seq<T> {
    if pages == [] then [] else Flatten(pages[..|pages| - 1]) + pages[|pages| - 1]
  }

  /** Pages `1..count`. */
  function PagesUpTo<T>(s: seq<T>, perPage: nat, count: nat): (r: seq<seq<T>>)
    ensures |r| == count
  {
    if count == 0 then [] else PagesUpTo(s, perPage, count - 1) + [PageSlice(s, count, perPage)]
  }

  function Min(a: int, b: int): int {
    if a < b then a else b
  }

  /** A page with a non-negative start is the contiguous run of items from its start. */
  lemma PageSliceFrom<T>(s: seq<T>, page: int, perPage: nat, lo: nat)
    requires lo == (page - 1) * perPage
    ensures PageSlice(s, page, perPage) == s[Min(lo, |s|)..Min(lo + perPage, |s|)]
  {
  }

  lemma MulSucc(a: nat, b: nat)
    ensures a * b >= 0 && (a + 1) * b == a * b + b
  {
  }

  lemma PagesUpToStep<T>(s: seq<T>, perPage: nat, count: nat)
    requires count > 0
    ensures Flatten(PagesUpTo(s, perPage, count)) == Flatten(PagesUpTo(s, perPage, count - 1)) + PageSlice(s, count, perPage)
  {
    var pages := PagesUpTo(s, perPage, count);
    assert pages[..count - 1] == PagesUpTo(s, perPage, count - 1);
  }

  lemma PrefixThenSlice<T>(s: seq<T>, a: nat, b: nat)
    requires a <= b <= |s|
    ensures s[..a] + s[a..b] == s[..b]
  {
  }

  lemma {:induction false} PagesUpToPrefix<T>(s: seq<T>, perPage: nat, count: nat)
    requires perPage > 0
    ensures Flatten(PagesUpTo(s, perPage, count)) == s[..Min(count * perPage, |s|)]
  {
    if count > 0 {
      PagesUpToPrefix(s, perPage, count - 1);
      PagesUpToStep(s, perPage, count);
      MulSucc(count - 1, perPage);
      var lo: nat := (count - 1) * perPage;
      PageSliceFrom(s, count, perPage, lo);
      PrefixThenSlice(s, Min(lo, |s|), Min(lo + perPage, |s|));
    }
  }

  /** Pages `1..totalPages` laid end to end give back the whole list, each item exactly once. */
  lemma PagesCoverList<T>(s: seq<T>, perPage: nat)
    requires perPage > 0
    ensures Flatten(PagesUpTo(s, perPage, TotalPages(|s|, perPage))) == s
  {
    TotalPagesIsCeiling(|s|, perPage);
    PagesUpToPrefix(s, perPage, TotalPages(|s|, perPage));
  }

  // ----- the page-number window -----

  datatype PageEntry = Num(n: int) | Ellipsis

  const MaxVisible := 5

  /** `Num(lo), ..., Num(hi - 1)`. */
  function Range(lo: int, hi: int): (r: seq<PageEntry>)
    decreases hi - lo
    ensures |r| == if lo < hi then hi - lo else 0
    ensures forall i :: 0 <= i < |r| ==> r[i] == Num(lo + i)
  {
    if lo >= hi then [] else [Num(lo)] + Range(lo + 1, hi)
  }

  /** The entries the pager shows for `totalPages` pages while on `currentPage`. */
  function PageWindow(totalPages: int, currentPage: int): seq<PageEntry> {
    var t, c := totalPages, currentPage;
    if t <= MaxVisible then Range(1, t + 1)
    else if c <= 3 then [Num(1), Num(2), Num(3), Num(4), Ellipsis, Num(t)]
    else if c >= t - 2 then [Num(1), Ellipsis, Num(t - 3), Num(t - 2), Num(t - 1), Num(t)]
    else [Num(1), Ellipsis, Num(c - 1), Num(c), Num(c + 1), Ellipsis, Num(t)]
  }

  /** `getPageNumbers`: pushes the entries one by one, as the listing pages do. */
  method GetPageNumbers(totalPages: nat, currentPage: int) returns (pages: seq<PageEntry>)
    ensures pages == PageWindow(totalPages, currentPage)
  {
    pages := [];
    if totalPages <= MaxVisible {
      for i := 1 to totalPages + 1
        invariant pages == Range(1, i)
      {
        pages := pages + [Num(i)];
      }
    } else {
      if currentPage <= 3 {
        for i := 1 to 5
          invariant pages == Range(1, i)
        {
          pages := pages + [Num(i)];
        }
        pages := pages + [Ellipsis];
        pages := pages + [Num(totalPages)];
      } else if currentPage >= totalPages - 2 {
        pages := pages + [Num(1)];
        pages := pages + [Ellipsis];
        for i := totalPages - 3 to totalPages + 1
          invariant pages == [Num(1), Ellipsis] + Range(totalPages - 3, i)
        {
          pages := pages + [Num(i)];
        }
      } else {
        pages := pages + [Num(1)];
        pages := pages + [Ellipsis];
        for i := currentPage - 1 to currentPage + 2
          invariant pages == [Num(1), Ellipsis] + Range(currentPage - 1, i)
        {
          pages := pages + [Num(i)];
        }
        pages := pages + [Ellipsis];
        pages := pages + [Num(totalPages)];
      }
    }
  }

  predicate NumbersIncreasing(w: seq<PageEntry>) {
    forall i, j :: 0 <= i < j < |w| && w[i].Num? && w[j].Num? ==> w[i].n < w[j].n
  }

  /** With at most five pages, the window is exactly `1..totalPages`. */
  lemma WindowSmall(totalPages: nat, currentPage: int)
    requires totalPages <= MaxVisible
    ensures var w := PageWindow(totalPages, currentPage);
      |w| == totalPages && forall i :: 0 <= i < |w| ==> w[i] == Num(i + 1)
  {
  }

  /**
   * With more than five pages: 6 or 7 entries, first 1, last `totalPages`, and a "..."
   * can only stand second or second to last.
   */
  lemma WindowLarge(totalPages: nat, currentPage: int)
    requires totalPages > MaxVisible
    ensures var w := PageWindow(totalPages, currentPage);
      && (|w| == 6 || |w| == 7)
      && w[0] == Num(1) && w[|w| - 1] == Num(totalPages)
      && forall i :: 0 <= i < |w| && w[i] == Ellipsis ==> i == 1 || i == |w| - 2
  {
  }

  /** Numeric entries are strictly increasing and all lie in `1..totalPages`. */
  lemma WindowIncreasing(totalPages: nat, currentPage: int)
    ensures NumbersIncreasing(PageWindow(totalPages, currentPage))
    ensures var w := PageWindow(totalPages, currentPage);
      forall i :: 0 <= i < |w| && w[i].Num? ==> 1 <= w[i].n <= totalPages
  {
  }

  /** Every page from 1 to `totalPages` that is the current one is shown. */
  lemma WindowHasCurrent(totalPages: nat, currentPage: int)
    requires 1 <= currentPage <= totalPages
    ensures Num(currentPage) in PageWindow(totalPages, currentPage)
  {
    var w := PageWindow(totalPages, currentPage);
    if totalPages <= MaxVisible {
      assert w[currentPage - 1] == Num(currentPage);
    } else if currentPage <= 3 {
      assert w[currentPage - 1] == Num(currentPage);
    } else if currentPage >= totalPages - 2 {
      assert w[2 + currentPage - (totalPages - 3)] == Num(currentPage);
    } else {
      assert w[3] == Num(currentPage);
    }
  }
}
