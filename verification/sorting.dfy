/** `Array.prototype.sort` with a comparator, modelled as a stable insertion
    sort over a total "may come before" relation. */
module Sorting {

  /** Any two elements are comparable. */
  ghost predicate Total<T(!new)>(le: (T, T) -> bool) {
    forall a, b :: le(a, b) || le(b, a)
  }

  /** Neighbouring elements are in order. */
  predicate Sorted<T>(xs: seq<T>, le: (T, T) -> bool) {
    forall i :: 0 < i < |xs| ==> le(xs[i - 1], xs[i])
  }

  /** Puts `x` in front of the first element it may precede. */
  function Insert<T(!new, ==)>(x: T, xs: seq<T>, le: (T, T) -> bool): (r: seq<T>)
    requires Total(le) && Sorted(xs, le)
    ensures |r| == |xs| + 1
    ensures Sorted(r, le)
    ensures multiset(r) == multiset(xs) + multiset{x}
    ensures r[0] == x || (|xs| > 0 && r[0] == xs[0])
  {
    if |xs| == 0 || le(x, xs[0]) then [x] + xs
    else
      var rest := Insert(x, xs[1..], le);
      assert xs == [xs[0]] + xs[1..];
      [xs[0]] + rest
  }

  /** The elements of `xs` rearranged into `le` order. */
  function Sort<T(!new, ==)>(xs: seq<T>, le: (T, T) -> bool): (r: seq<T>)
    requires Total(le)
    ensures |r| == |xs|
    ensures Sorted(r, le)
    ensures multiset(r) == multiset(xs)
  {
    if |xs| == 0 then []
    else
      assert xs == [xs[0]] + xs[1..];
      Insert(xs[0], Sort(xs[1..], le), le)
  }

  function IntLe(a: int, b: int): bool { a <= b }

  lemma IntLeTotal()
    ensures Total(IntLe)
  {
  }

  /** Two ascending integer sequences holding the same multiset are equal:
      the ascending order of a collection of numbers does not depend on how it was given. */
  lemma {:induction false} AscendingUnique(a: seq<int>, b: seq<int>)
    requires Sorted(a, IntLe) && Sorted(b, IntLe)
    requires multiset(a) == multiset(b)
    ensures a == b
    decreases |a|
  {
    if |a| > 0 {
      assert |b| == |multiset(b)| == |a|;
      assert a[0] in multiset(b) && b[0] in multiset(a);
      AscendingMin(a, b[0]);
      AscendingMin(b, a[0]);
      assert a == [a[0]] + a[1..] && b == [b[0]] + b[1..];
      assert multiset(a) == multiset{a[0]} + multiset(a[1..]);
      assert multiset(b) == multiset{b[0]} + multiset(b[1..]);
      assert a[0] == b[0];
      assert multiset(a[1..]) == multiset(a) - multiset{a[0]};
      assert multiset(b[1..]) == multiset(b) - multiset{b[0]};
      AscendingUnique(a[1..], b[1..]);
    } else {
      assert |b| == |multiset(b)| == 0;
    }
  }

  /** The first element of an ascending sequence is its least. */
  lemma {:induction false} AscendingMin(a: seq<int>, x: int)
    requires Sorted(a, IntLe) && x in multiset(a)
    ensures a[0] <= x
    decreases |a|
  {
    if a[0] != x {
      assert a == [a[0]] + a[1..];
      assert x in multiset(a[1..]);
      AscendingMin(a[1..], x);
    }
  }
}
