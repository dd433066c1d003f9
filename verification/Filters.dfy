/** Keeping the items of a list that satisfy a test. */
module Filters {
  /** The items that satisfy a test, in order. */
  function Filter<T>(xs: seq<T>, test: T -> bool): (r: seq<T>) {
    if xs == [] then []
    else Filter(xs[..|xs| - 1], test) + (if test(xs[|xs| - 1]) then [xs[|xs| - 1]] else [])
  }

  lemma {:induction false} FilterAppend<T(!new)>(xs: seq<T>, ys: seq<T>, test: T -> bool)
    ensures Filter(xs + ys, test) == Filter(xs, test) + Filter(ys, test)
    decreases |ys|
  {
    if ys == [] {
      assert xs + ys == xs;
    } else {
      var front := ys[..|ys| - 1];
      assert (xs + ys)[..|xs + ys| - 1] == xs + front;
      FilterAppend(xs, front, test);
    }
  }

  /** Keeping from one item more. */
  lemma FilterSnoc<T>(xs: seq<T>, x: T, test: T -> bool)
    ensures Filter(xs + [x], test) == Filter(xs, test) + (if test(x) then [x] else [])
  {
    assert (xs + [x])[..|xs|] == xs;
  }

  lemma FilterNext<T>(xs: seq<T>, i: nat, test: T -> bool)
    requires i < |xs|
    ensures Filter(xs[..i + 1], test) == Filter(xs[..i], test) + (if test(xs[i]) then [xs[i]] else [])
    ensures xs[..i + 1] == xs[..i] + [xs[i]]
  {
    FilterSnoc(xs[..i], xs[i], test);
    assert xs[..i + 1] == xs[..i] + [xs[i]];
  }

  lemma {:induction false} FilterSame<T(!new)>(xs: seq<T>, test: T -> bool, other: T -> bool)
    requires forall x :: x in xs ==> test(x) == other(x)
    ensures Filter(xs, test) == Filter(xs, other)
  {
    if xs != [] {
      FilterSame(xs[..|xs| - 1], test, other);
    }
  }

  lemma {:induction false} FilterKeepsAll<T(!new)>(xs: seq<T>, test: T -> bool)
    requires forall x :: x in xs ==> test(x)
    ensures Filter(xs, test) == xs
  {
    if xs != [] {
      var front, last := xs[..|xs| - 1], xs[|xs| - 1];
      FilterKeepsAll(front, test);
      assert last in xs;
      assert front + [last] == xs;
    }
  }

  lemma {:induction false} FilterDropsAll<T(!new)>(xs: seq<T>, test: T -> bool)
    ensures Filter(xs, test) == [] <==> forall x :: x in xs ==> !test(x)
  {
    if xs != [] {
      FilterDropsAll(xs[..|xs| - 1], test);
    }
  }

  lemma {:induction false} FilterMembers<T(!new)>(xs: seq<T>, test: T -> bool)
    ensures forall x :: x in Filter(xs, test) <==> x in xs && test(x)
  {
    if xs != [] {
      FilterMembers(xs[..|xs| - 1], test);
    }
  }

  lemma OneMore<T>(front: seq<T>, kept: seq<T>, left: seq<T>, x: T, first: bool)
    requires multiset(kept) + multiset(left) == multiset(front)
    ensures multiset(kept + if first then [x] else []) + multiset(left + if first then [] else [x]) == multiset(front + [x])
  {
  }

  /** Two complementary tests split a list. */
  lemma {:induction false} FilterPartition<T(!new)>(xs: seq<T>, test: T -> bool, other: T -> bool)
    requires forall x :: x in xs ==> (test(x) <==> !other(x))
    ensures multiset(Filter(xs, test)) + multiset(Filter(xs, other)) == multiset(xs)
  {
    if xs != [] {
      var front, last := xs[..|xs| - 1], xs[|xs| - 1];
      assert last in xs && xs == front + [last];
      FilterPartition(front, test, other);
      var kept, left := Filter(front, test), Filter(front, other);
      assert Filter(xs, test) == kept + if test(last) then [last] else [];
      assert Filter(xs, other) == left + if test(last) then [] else [last];
      OneMore(front, kept, left, last, test(last));
    }
  }

  function Both<T>(test: T -> bool, other: T -> bool): T -> bool {
    x => test(x) && other(x)
  }

  lemma {:induction false} FilterTwice<T(!new)>(xs: seq<T>, test: T -> bool, other: T -> bool)
    ensures Filter(Filter(xs, test), other) == Filter(xs, Both(test, other))
  {
    if xs != [] {
      var front := xs[..|xs| - 1];
      FilterTwice(front, test, other);
      var last := if test(xs[|xs| - 1]) then [xs[|xs| - 1]] else [];
      FilterAppend(Filter(front, test), last, other);
    }
  }

  lemma FiltersCommute<T(!new)>(xs: seq<T>, test: T -> bool, other: T -> bool)
    ensures Filter(Filter(xs, test), other) == Filter(Filter(xs, other), test)
  {
    FilterTwice(xs, test, other);
    FilterTwice(xs, other, test);
    FilterSame(xs, Both(test, other), Both(other, test));
  }

  /** Putting `ts` in front of what a test keeps, twice over. */
  lemma FilterOnto<T(!new)>(ts: seq<T>, es: seq<T>, keep: T -> bool)
    ensures ts + Filter(ts + Filter(es, keep), keep) == ts + Filter(es, keep) <==> Filter(ts, keep) == []
  {
    var rest := Filter(es, keep);
    FilterMembers(es, keep);
    FilterKeepsAll(rest, keep);
    FilterAppend(ts, rest, keep);
    if Filter(ts, keep) == [] {
      assert [] + rest == rest;
    } else {
      assert |ts + (Filter(ts, keep) + rest)| > |ts + rest|;
    }
  }

  /** A list without one of its items. */
  function Without<T>(xs: seq<T>, i: nat): (r: seq<T>)
    requires i < |xs|
    ensures |r| == |xs| - 1
  {
    xs[..i] + xs[i + 1..]
  }

  lemma WithoutMultiset<T>(xs: seq<T>, i: nat)
    requires i < |xs|
    ensures multiset(xs) == multiset(Without(xs, i)) + multiset{xs[i]}
  {
    assert xs == xs[..i] + ([xs[i]] + xs[i + 1..]);
  }

  lemma SameMultisetFind<T>(x: T, xs: seq<T>, ys: seq<T>) returns (i: nat)
    requires xs != [] && xs[0] == x && multiset(xs) == multiset(ys)
    ensures i < |ys| && ys[i] == x
    ensures multiset(Without(xs, 0)) == multiset(Without(ys, i))
  {
    assert xs[0] in multiset(ys);
    i :| 0 <= i < |ys| && ys[i] == x;
    WithoutMultiset(xs, 0);
    WithoutMultiset(ys, i);
    assert multiset(Without(xs, 0)) == multiset(xs) - multiset{x};
  }
}
