/** The list operations every page of the hotel front end is built from:
    `filter`, a summing `reduce`, `slice`, `reverse` and page arithmetic. */
module ListView {

  /** `a` can be obtained from `b` by deleting elements (order kept). */
  predicate IsSubsequence<T(==)>(a: seq<T>, b: seq<T>)
    decreases |b|
  {
    if |a| == 0 then true
    else if |b| == 0 then false
    else if a[0] == b[0] then IsSubsequence(a[1..], b[1..])
    else IsSubsequence(a, b[1..])
  }

  /** Every list is a subsequence of itself. */
  lemma {:induction false} IsSubsequenceRefl<T>(xs: seq<T>)
    ensures IsSubsequence(xs, xs)
    decreases |xs|
  {
    if |xs| > 0 {
      IsSubsequenceRefl(xs[1..]);
    }
  }

  /** A subsequence of the tail of a list is a subsequence of the list. */
  lemma {:induction false} IsSubsequenceOfTail<T>(a: seq<T>, b: seq<T>)
    requires |b| > 0 && IsSubsequence(a, b[1..])
    ensures IsSubsequence(a, b)
    decreases |b|, 1
  {
    if |a| > 0 && a[0] == b[0] {
      IsSubsequenceDropHead(a, b[1..]);
    }
  }

  /** Dropping the first element of a subsequence keeps it a subsequence. */
  lemma {:induction false} IsSubsequenceDropHead<T>(a: seq<T>, c: seq<T>)
    requires |a| > 0 && IsSubsequence(a, c)
    ensures IsSubsequence(a[1..], c)
    decreases |c|, 2
  {
    if a[0] == c[0] {
      IsSubsequenceOfTail(a[1..], c);
    } else {
      IsSubsequenceDropHead(a, c[1..]);
      IsSubsequenceOfTail(a[1..], c);
    }
  }

  /** A subsequence of a subsequence is a subsequence. */
  lemma {:induction false} IsSubsequenceTransitive<T>(a: seq<T>, b: seq<T>, c: seq<T>)
    requires IsSubsequence(a, b) && IsSubsequence(b, c)
    ensures IsSubsequence(a, c)
    decreases |c|
  {
    if |a| > 0 {
      if b[0] == c[0] {
        if a[0] == b[0] {
          IsSubsequenceTransitive(a[1..], b[1..], c[1..]);
        } else {
          IsSubsequenceTransitive(a, b[1..], c[1..]);
        }
      } else {
        IsSubsequenceTransitive(a, b, c[1..]);
        if a[0] == c[0] {
          IsSubsequenceDropHead(a, c[1..]);
        }
      }
    }
  }

  /** A prefix of a list is a subsequence of it. */
  lemma {:induction false} PrefixIsSubsequence<T>(xs: seq<T>, n: nat)
    requires n <= |xs|
    ensures IsSubsequence(xs[..n], xs)
    decreases n
  {
    if n > 0 {
      PrefixIsSubsequence(xs[1..], n - 1);
      assert xs[..n][1..] == xs[1..][..n - 1];
    }
  }

  /** A list is its prefix followed by the rest. */
  lemma PrefixThenRest<T>(p: seq<T>, s: seq<T>)
    requires p <= s
    ensures s == p + s[|p|..]
  {
    assert |p| <= |s|;
    assert s[..|p|] == p;
  }

  /** Putting the same list in front keeps one list a prefix of the other. */
  lemma PrefixAfterSame<T>(x: seq<T>, a: seq<T>, b: seq<T>)
    requires a <= b
    ensures x + a <= x + b
  {
    assert |a| <= |b| && b[..|a|] == a;
    assert (x + b)[..|x + a|] == x + a;
  }

  /** `xs.filter(p)`: the elements satisfying `p`, in their original order. */
  function Filter<T(==, !new)>(xs: seq<T>, p: T -> bool): (r: seq<T>)
    ensures |r| <= |xs|
    ensures forall x :: x in r <==> x in xs && p(x)
    ensures IsSubsequence(r, xs)
  {
    if |xs| == 0 then []
    else
      var rest := Filter(xs[1..], p);
      assert forall x :: x in xs <==> x == xs[0] || x in xs[1..];
      if p(xs[0]) then [xs[0]] + rest else rest
  }

  /** `if (on) rows = rows.filter(p)`: a filter step that only applies when its input is set. */
  function FilterIf<T(==, !new)>(xs: seq<T>, on: bool, p: T -> bool): (r: seq<T>)
    ensures forall x :: x in r <==> x in xs && (on ==> p(x))
    ensures IsSubsequence(r, xs)
  {
    if on then Filter(xs, p)
    else
      IsSubsequenceRefl(xs);
      xs
  }

  /** A filter every element passes keeps the list as it is. */
  lemma {:induction false} FilterAll<T(!new)>(xs: seq<T>, p: T -> bool)
    requires forall i :: 0 <= i < |xs| ==> p(xs[i])
    ensures Filter(xs, p) == xs
  {
    if |xs| > 0 {
      FilterAll(xs[1..], p);
    }
  }

  /** Filtering distributes over concatenation. */
  lemma {:induction false} FilterAppend<T(!new)>(a: seq<T>, b: seq<T>, p: T -> bool)
    ensures Filter(a + b, p) == Filter(a, p) + Filter(b, p)
    decreases |a|
  {
    if |a| > 0 {
      assert (a + b)[1..] == a[1..] + b;
      FilterAppend(a[1..], b, p);
    } else {
      assert a + b == b;
    }
  }

  /** Two filters that split what a third keeps between them keep as many
      elements together, and each kept element is kept by exactly one of them. */
  lemma {:induction false} FilterSplitCount<T(!new)>(xs: seq<T>, whole: T -> bool, a: T -> bool, b: T -> bool)
    requires forall x :: whole(x) == (a(x) || b(x)) && !(a(x) && b(x))
    ensures |Filter(xs, a)| + |Filter(xs, b)| == |Filter(xs, whole)|
    ensures forall x :: x in Filter(xs, whole) <==> (x in Filter(xs, a)) != (x in Filter(xs, b))
  {
    if |xs| > 0 {
      FilterSplitCount(xs[1..], whole, a, b);
    }
  }

  /** `xs.reduce((s, x) => s + f(x), 0)` over integers, accumulated left to right. */
  function Sum<T>(xs: seq<T>, f: T -> int): int {
    if |xs| == 0 then 0 else Sum(xs[..|xs| - 1], f) + f(xs[|xs| - 1])
  }

  lemma {:induction false} SumAppend<T>(a: seq<T>, b: seq<T>, f: T -> int)
    ensures Sum(a + b, f) == Sum(a, f) + Sum(b, f)
    decreases |b|
  {
    if |b| > 0 {
      assert (a + b)[..|a + b| - 1] == a + b[..|b| - 1];
      SumAppend(a, b[..|b| - 1], f);
    } else {
      assert a + b == a;
    }
  }

  lemma {:induction false} SumNonNegative<T>(xs: seq<T>, f: T -> int)
    requires forall i :: 0 <= i < |xs| ==> f(xs[i]) >= 0
    ensures Sum(xs, f) >= 0
  {
    if |xs| > 0 { SumNonNegative(xs[..|xs| - 1], f); }
  }

  /** The sum over the kept rows plus the sum over the dropped rows is the sum over all rows. */
  lemma {:induction false} SumFilterPartition<T(!new)>(xs: seq<T>, keep: T -> bool, drop: T -> bool, f: T -> int)
    requires forall x :: drop(x) == !keep(x)
    ensures Sum(Filter(xs, keep), f) + Sum(Filter(xs, drop), f) == Sum(xs, f)
  {
    if |xs| > 0 {
      SumFilterPartition(xs[1..], keep, drop, f);
      var x := xs[0];
      assert xs == [x] + xs[1..];
      SumAppend([x], xs[1..], f);
      SumAppend([x], Filter(xs[1..], keep), f);
      SumAppend([x], Filter(xs[1..], drop), f);
      assert Sum([x], f) == f(x) by { assert [x][..0] == []; }
    }
  }

  /** How many elements satisfy `p`. */
  function Count<T(==, !new)>(xs: seq<T>, p: T -> bool): nat {
    |Filter(xs, p)|
  }

  /** `Math.max(1, Math.ceil(n / size))`. */
  function TotalPages(n: nat, size: nat): (r: nat)
    requires size > 0
    ensures r >= 1
    ensures n == 0 ==> r == 1
    ensures n > 0 ==> (r - 1) * size < n <= r * size
  {
    var c := (n + size - 1) / size;
    if c < 1 then 1 else c
  }

  /** Where `Array.prototype.slice` moves an index: negative counts from the end. */
  function SliceIndex(i: int, n: nat): (r: nat)
    ensures r <= n
    ensures 0 <= i ==> r == if i < n then i else n
    ensures i < 0 ==> r == if n + i < 0 then 0 else n + i
  {
    if i < 0 then (if n + i < 0 then 0 else n + i) else if i > n then n else i
  }

  /** `xs.slice(start, end)`. */
  function JsSlice<T>(xs: seq<T>, start: int, end: int): (r: seq<T>)
    ensures |r| <= |xs|
    ensures 0 <= start <= end ==> |r| <= end - start
    ensures 0 <= start <= |xs| && start <= end ==>
              r == xs[start..SliceIndex(end, |xs|)]
    ensures SliceIndex(start, |xs|) < SliceIndex(end, |xs|) ==>
              r == xs[SliceIndex(start, |xs|)..SliceIndex(end, |xs|)]
    ensures SliceIndex(end, |xs|) <= SliceIndex(start, |xs|) ==> r == []
    ensures start < 0 && |xs| <= end ==>
              |r| == (if -start < |xs| then -start else |xs|) && r == xs[|xs| - |r|..]
    ensures forall x :: x in r ==> x in xs
  {
    var lo := SliceIndex(start, |xs|);
    var hi := SliceIndex(end, |xs|);
    if lo < hi then
      SliceElements(xs, lo, hi);
      xs[lo..hi]
    else []
  }

  /** `xs.slice((page - 1) * size, (page - 1) * size + size)`: the rows of one page. */
  function PageRows<T>(xs: seq<T>, page: int, size: nat): (r: seq<T>)
    requires size > 0
    ensures page >= 1 ==> |r| <= size
    ensures page > TotalPages(|xs|, size) ==> r == []
    ensures forall x :: x in r ==> x in xs
  {
    var start := (page - 1) * size;
    if page > TotalPages(|xs|, size) then
      PastLastPage(|xs|, size, page);
      JsSlice(xs, start, start + size)
    else
      JsSlice(xs, start, start + size)
  }

  /** A page after the last one starts at or beyond the end of the list. */
  lemma PastLastPage(n: nat, size: nat, page: int)
    requires size > 0 && page > TotalPages(n, size)
    ensures (page - 1) * size >= n
  {
    var t := TotalPages(n, size);
    MulMonotone(t, page - 1, size);
  }

  lemma MulMonotone(a: int, b: int, size: nat)
    requires a <= b
    ensures a * size <= b * size
  {
  }

  /** Every row is on exactly one page, page `i / size + 1`, at position `i % size`,
      and that page is within the page count. */
  lemma RowOnItsPage<T>(xs: seq<T>, size: nat, i: nat)
    requires size > 0 && i < |xs|
    ensures var page := i / size + 1;
      page <= TotalPages(|xs|, size) &&
      i % size < |PageRows(xs, page, size)| && PageRows(xs, page, size)[i % size] == xs[i]
  {
    var page := i / size + 1;
    var start := (page - 1) * size;
    assert start == i - i % size;
    assert start <= i < start + size;
    var t := TotalPages(|xs|, size);
    if t < page {
      MulMonotone(t, page - 1, size);
    }
    var r := PageRows(xs, page, size);
    assert r == xs[start..SliceIndex(start + size, |xs|)];
  }

  /** What a list page shows under its filters: `totalAmount`, `totalPages` and `pageRows`. */
  datatype PageView<T> = PageView(total: int, totalPages: nat, rows: seq<T>)

  /** The summary line and the current page of `filtered`, `size` rows to a page. */
  function View<T>(filtered: seq<T>, amount: T -> int, page: int, size: nat): (v: PageView<T>)
    requires size > 0
    ensures v.total == Sum(filtered, amount)
    ensures page >= 1 ==> |v.rows| <= size
    ensures 1 <= page <= v.totalPages ==> (page - 1) * size <= |filtered|
    ensures 1 <= page <= v.totalPages ==>
      v.rows == filtered[(page - 1) * size..SliceIndex((page - 1) * size + size, |filtered|)]
    ensures page > v.totalPages ==> v.rows == []
    ensures forall x :: x in v.rows ==> x in filtered
    ensures v.totalPages == TotalPages(|filtered|, size)
  {
    PageFacts(filtered, page, size);
    PageView(Sum(filtered, amount), TotalPages(|filtered|, size), PageRows(filtered, page, size))
  }

  /** What the pager promises of page `page`'s rows. */
  lemma PageFacts<T>(xs: seq<T>, page: int, size: nat)
    requires size > 0
    ensures 1 <= page <= TotalPages(|xs|, size) ==> (page - 1) * size <= |xs|
    ensures 1 <= page <= TotalPages(|xs|, size) ==>
      PageRows(xs, page, size) == xs[(page - 1) * size..SliceIndex((page - 1) * size + size, |xs|)]
  {
    if 1 <= page <= TotalPages(|xs|, size) {
      PageSlice(xs, page, size);
    }
  }

  lemma SliceElements<T>(xs: seq<T>, lo: nat, hi: nat)
    requires lo <= hi <= |xs|
    ensures forall x :: x in xs[lo..hi] ==> x in xs
  {
    forall x | x in xs[lo..hi] ensures x in xs {
      var k :| 0 <= k < hi - lo && xs[lo..hi][k] == x;
      assert xs[lo + k] == x;
    }
  }

  /** A page the pager can reach is the slice of the list from its first row on. */
  lemma PageSlice<T>(xs: seq<T>, page: int, size: nat)
    requires size > 0 && 1 <= page <= TotalPages(|xs|, size)
    ensures 0 <= (page - 1) * size <= |xs|
    ensures PageRows(xs, page, size) == xs[(page - 1) * size..SliceIndex((page - 1) * size + size, |xs|)]
  {
    PageStart(|xs|, size, page);
  }

  lemma PagesCover(n: nat, size: nat)
    requires size > 0
    ensures (TotalPages(n, size) - 1) * size <= n <= TotalPages(n, size) * size
  {
  }

  /** Page `page` of the pager starts inside the list and ends `size` rows later. */
  lemma PageStart(n: nat, size: nat, page: int)
    requires size > 0 && 1 <= page <= TotalPages(n, size)
    ensures 0 <= (page - 1) * size <= n
    ensures (page - 1) * size + size == page * size
  {
    MulMonotone(page - 1, TotalPages(n, size) - 1, size);
    PagesCover(n, size);
  }

  /** Every filtered row appears on exactly the page its position gives, and that
      page is one the pager can reach. */
  lemma EveryRowShown<T>(filtered: seq<T>, amount: T -> int, size: nat, i: nat)
    requires size > 0 && i < |filtered|
    ensures var page := i / size + 1;
      var v := View(filtered, amount, page, size);
      page <= v.totalPages && i % size < |v.rows| && v.rows[i % size] == filtered[i]
  {
    RowOnItsPage(filtered, size, i);
  }

  lemma SumFront<T>(xs: seq<T>, f: T -> int)
    requires |xs| > 0
    ensures Sum(xs, f) == f(xs[0]) + Sum(xs[1..], f)
  {
    assert xs == [xs[0]] + xs[1..];
    SumAppend([xs[0]], xs[1..], f);
    assert [xs[0]][..0] == [];
  }

  /** Over non-negative amounts, the total of a subsequence is no larger than the total of the list. */
  lemma {:induction false} SubsequenceSumNoLarger<T>(a: seq<T>, b: seq<T>, f: T -> int)
    requires IsSubsequence(a, b)
    requires forall i :: 0 <= i < |b| ==> f(b[i]) >= 0
    ensures Sum(a, f) <= Sum(b, f)
    decreases |b|
  {
    if |a| > 0 {
      SumFront(a, f);
      SumFront(b, f);
      if a[0] == b[0] {
        SubsequenceSumNoLarger(a[1..], b[1..], f);
      } else {
        SubsequenceSumNoLarger(a, b[1..], f);
      }
    } else {
      SumNonNegative(b, f);
    }
  }

  /** `xs.slice().reverse()`. */
  function Reverse<T>(xs: seq<T>): (r: seq<T>)
    ensures |r| == |xs|
    ensures forall i :: 0 <= i < |xs| ==> r[i] == xs[|xs| - 1 - i]
  {
    if |xs| == 0 then [] else Reverse(xs[1..]) + [xs[0]]
  }

  lemma ReverseReverse<T>(xs: seq<T>)
    ensures Reverse(Reverse(xs)) == xs
  {
  }

  lemma ReverseSameElements<T(!new)>(xs: seq<T>)
    ensures forall x :: x in Reverse(xs) <==> x in xs
  {
    forall x ensures x in Reverse(xs) <==> x in xs {
      if x in xs {
        var i :| 0 <= i < |xs| && xs[i] == x;
        assert Reverse(xs)[|xs| - 1 - i] == x;
      }
    }
  }

  /** `xs.slice(-k).reverse()` for k > 0: the last k elements, newest first. */
  function LastReversed<T>(xs: seq<T>, k: nat): (r: seq<T>)
    requires k > 0
    ensures |r| == if |xs| < k then |xs| else k
    ensures forall i :: 0 <= i < |r| ==> r[i] == xs[|xs| - 1 - i]
  {
    Reverse(JsSlice(xs, -(k as int), |xs|))
  }

  /** `xs.slice(0, n)` for n >= 0. */
  function Take<T>(xs: seq<T>, n: nat): (r: seq<T>)
    ensures |r| == if |xs| < n then |xs| else n
    ensures r == xs[..|r|]
  {
    JsSlice(xs, 0, n)
  }
}
