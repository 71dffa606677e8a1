/** Small shared vocabulary: an optional value and sequence facts used by every page model. */
module Base {

  /** `null`/absent versus a present value. */
  datatype Option<+T> = None | Some(value: T)

  /** No element occurs twice. */
  predicate NoDuplicates<T(==)>(s: seq<T>) {
    forall i, j :: 0 <= i < j < |s| ==> s[i] != s[j]
  }

  /** The elements of `s` that are not `x`, in order (`s.filter(e => e !== x)`). */
  function Without<T(==,!new)>(s: seq<T>, x: T): (r: seq<T>)
    ensures x !in r
    ensures forall e :: e in r <==> e in s && e != x
    ensures |r| <= |s|
    ensures x !in s ==> r == s
  {
    if s == [] then []
    else if s[|s| - 1] == x then Without(s[..|s| - 1], x)
    else Without(s[..|s| - 1], x) + [s[|s| - 1]]
  }

  /** Removing an element that occurs (once) shortens the sequence by one and keeps it duplicate-free. */
  lemma {:induction false} WithoutShortens<T(!new)>(s: seq<T>, x: T)
    requires NoDuplicates(s) && x in s
    ensures |Without(s, x)| == |s| - 1
    ensures NoDuplicates(Without(s, x))
  {
    var init, last := s[..|s| - 1], s[|s| - 1];
    assert s == init + [last];
    assert NoDuplicates(init);
    if last == x {
      assert x !in init;
    } else {
      WithoutShortens(init, x);
      var w := Without(init, x);
      assert last !in init;
      assert last !in w;
      assert Without(s, x) == w + [last];
    }
  }

  /** Removing never introduces duplicates. */
  lemma {:induction false} WithoutKeepsDistinct<T(!new)>(s: seq<T>, x: T)
    requires NoDuplicates(s)
    ensures NoDuplicates(Without(s, x))
  {
    if x in s {
      WithoutShortens(s, x);
    }
  }

  /** `s` with every element in reverse position (`Array.prototype.reverse`). */
  function Backwards<T>(s: seq<T>): (r: seq<T>)
    ensures |r| == |s|
    ensures forall i :: 0 <= i < |s| ==> r[i] == s[|s| - 1 - i]
  {
    seq(|s|, i requires 0 <= i < |s| => s[|s| - 1 - i])
  }

  /** Reversing twice gives the sequence back. */
  lemma BackwardsInvolutive<T>(s: seq<T>)
    ensures Backwards(Backwards(s)) == s
  {
  }

  /** `a.reverse()`: swaps the ends pairwise, moving inward, in place. */
  method Reverse<T>(a: array<T>)
    modifies a
    ensures a[..] == Backwards(old(a[..]))
  {
    var lo, hi := 0, a.Length - 1;
    while lo < hi
      invariant 0 <= lo <= a.Length && hi == a.Length - 1 - lo
      invariant lo <= hi + 1
      invariant forall i :: 0 <= i < lo ==> a[i] == old(a[a.Length - 1 - i])
      invariant forall i :: hi < i < a.Length ==> a[i] == old(a[a.Length - 1 - i])
      invariant forall i :: lo <= i <= hi ==> a[i] == old(a[i])
    {
      a[lo], a[hi] := a[hi], a[lo];
      lo, hi := lo + 1, hi - 1;
    }
  }

  /** `xs.filter(keep)`: the elements that pass, in their order. */
  function Filter<T(!new)>(xs: seq<T>, keep: T -> bool): (r: seq<T>)
    ensures |r| <= |xs|
    ensures forall x :: x in r <==> x in xs && keep(x)
  {
    if xs == [] then []
    else (if keep(xs[0]) then [xs[0]] else []) + Filter(xs[1..], keep)
  }

  /** Filtering a list with a head: the head if it passes, then the filtered rest. */
  lemma FilterCons<T(!new)>(x: T, xs: seq<T>, keep: T -> bool)
    ensures Filter([x] + xs, keep) == (if keep(x) then [x] else []) + Filter(xs, keep)
  {
    assert ([x] + xs)[1..] == xs;
  }

  /** Filtering distributes over concatenation, so it keeps the relative order. */
  lemma {:induction false} FilterAppend<T(!new)>(a: seq<T>, b: seq<T>, keep: T -> bool)
    ensures Filter(a + b, keep) == Filter(a, keep) + Filter(b, keep)
  {
    if a == [] {
      assert a + b == b;
    } else {
      var t := a[1..];
      assert a == [a[0]] + t;
      assert a + b == [a[0]] + (t + b);
      FilterCons(a[0], t + b, keep);
      FilterCons(a[0], t, keep);
      FilterAppend(t, b, keep);
    }
  }

  /** The filter test `e => e !== x`. */
  function Unequal<T(==)>(x: T): T -> bool {
    e => e != x
  }

  /** `Without` is `s.filter(e => e !== x)`: the other elements keep their order and
    * their number of occurrences, and every occurrence of `x` goes. */
  lemma {:induction false} WithoutIsFilter<T(!new)>(s: seq<T>, x: T)
    ensures Without(s, x) == Filter(s, Unequal(x))
    ensures multiset(Without(s, x)) == multiset(s)[x := 0]
  {
    if s != [] {
      var init, last := s[..|s| - 1], s[|s| - 1];
      assert s == init + [last];
      WithoutIsFilter(init, x);
      FilterAppend(init, [last], Unequal(x));
      FilterCons(last, [], Unequal(x));
      assert [last] + [] == [last];
    }
  }

  /** A filter that removes nothing is the identity, and filtering twice is filtering once. */
  lemma {:induction false} FilterIdempotent<T(!new)>(xs: seq<T>, keep: T -> bool)
    ensures (forall x :: x in xs ==> keep(x)) ==> Filter(xs, keep) == xs
    ensures Filter(Filter(xs, keep), keep) == Filter(xs, keep)
  {
    if xs != [] {
      FilterIdempotent(xs[1..], keep);
      if (forall x :: x in xs ==> keep(x)) {
        assert forall x :: x in xs[1..] ==> x in xs;
      }
      var f := Filter(xs, keep);
      if keep(xs[0]) {
        assert f == [xs[0]] + Filter(xs[1..], keep);
        assert f[0] == xs[0] && f[1..] == Filter(xs[1..], keep);
      } else {
        assert f == [] + Filter(xs[1..], keep) == Filter(xs[1..], keep);
      }
    }
  }
}
