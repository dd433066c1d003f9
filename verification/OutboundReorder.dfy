/** Reordering the outbounds by a list of tags, when several outbounds may share a tag. */
module OutboundReorder {
  import opened Filters
  import opened Json

  function Tagged(items: seq<Json>, tag: string): int -> bool {
    (i: int) => 0 <= i < |items| && tag != "" && TagOf(items[i]) == tag
  }

  function Upto(n: nat): (r: seq<int>)
    ensures |r| == n && forall i :: 0 <= i < n ==> r[i] == i
  {
    if n == 0 then [] else Upto(n - 1) + [n - 1]
  }

  /** The indices where a tag occurs, in order. */
  function Occurrences(items: seq<Json>, tag: string): seq<int> {
    Filter(Upto(|items|), Tagged(items, tag))
  }

  function Count(tags: seq<string>, tag: string): nat {
    if tags == [] then 0 else Count(tags[..|tags| - 1], tag) + (if tags[|tags| - 1] == tag then 1 else 0)
  }

  function Min(a: nat, b: nat): nat {
    if a < b then a else b
  }

  /** The indices the requests get: the k-th request for a tag gets the tag's k-th occurrence, if it has one. */
  function Picks(items: seq<Json>, tags: seq<string>): seq<int> {
    if tags == [] then []
    else
      var front, tag := tags[..|tags| - 1], tags[|tags| - 1];
      Picks(items, front) + Served(Occurrences(items, tag), Count(front, tag))
  }

  function Served(occurrences: seq<int>, k: nat): seq<int> {
    if k < |occurrences| then [occurrences[k]] else []
  }

  function NotIn(used: seq<int>): int -> bool {
    (i: int) => i !in used
  }

  /** The new order of the old indices: the requested ones, then the others as they were. */
  function Order(items: seq<Json>, tags: seq<string>): seq<int> {
    Picks(items, tags) + Filter(Upto(|items|), NotIn(Picks(items, tags)))
  }

  predicate Within(order: seq<int>, n: nat) {
    forall k :: 0 <= k < |order| ==> 0 <= order[k] < n
  }

  function At(items: seq<Json>, order: seq<int>): (r: seq<Json>)
    requires Within(order, |items|)
    ensures |r| == |order| && forall i :: 0 <= i < |r| ==> r[i] == items[order[i]]
  {
    if order == [] then [] else At(items, order[..|order| - 1]) + [items[order[|order| - 1]]]
  }

  lemma AtAppend(items: seq<Json>, a: seq<int>, b: seq<int>)
    requires Within(a, |items|) && Within(b, |items|)
    ensures At(items, a + b) == At(items, a) + At(items, b)
  {
  }

  ghost predicate Increasing(xs: seq<int>) {
    forall i, j :: 0 <= i < j < |xs| ==> xs[i] < xs[j]
  }

  ghost predicate Distinct(xs: seq<int>) {
    forall i, j :: 0 <= i < j < |xs| ==> xs[i] != xs[j]
  }

  lemma {:induction false} FilterIncreasing(xs: seq<int>, test: int -> bool)
    requires Increasing(xs)
    ensures Increasing(Filter(xs, test))
  {
    if xs != [] {
      FilterIncreasing(xs[..|xs| - 1], test);
      FilterMembers(xs[..|xs| - 1], test);
      var kept := Filter(xs[..|xs| - 1], test);
      forall i | 0 <= i < |kept|
        ensures kept[i] < xs[|xs| - 1]
      {
        assert kept[i] in kept;
      }
    }
  }

  lemma UptoMembers(n: nat)
    ensures forall i :: i in Upto(n) <==> 0 <= i < n
  {
    forall i | 0 <= i < n
      ensures i in Upto(n)
    {
      assert Upto(n)[i] == i;
    }
  }

  lemma FilterWithin(xs: seq<int>, test: int -> bool, n: nat)
    requires Within(xs, n)
    ensures Within(Filter(xs, test), n)
  {
    FilterMembers(xs, test);
    var kept := Filter(xs, test);
    forall k | 0 <= k < |kept|
      ensures 0 <= kept[k] < n
    {
      assert kept[k] in kept;
    }
  }

  lemma OccurrenceFacts(items: seq<Json>, tag: string)
    ensures Increasing(Occurrences(items, tag))
    ensures forall i :: i in Occurrences(items, tag) <==> Tagged(items, tag)(i)
    ensures forall k :: 0 <= k < |Occurrences(items, tag)| ==> Tagged(items, tag)(Occurrences(items, tag)[k])
  {
    UptoMembers(|items|);
    FilterIncreasing(Upto(|items|), Tagged(items, tag));
    FilterMembers(Upto(|items|), Tagged(items, tag));
    forall k | 0 <= k < |Occurrences(items, tag)|
      ensures Tagged(items, tag)(Occurrences(items, tag)[k])
    {
      assert Occurrences(items, tag)[k] in Occurrences(items, tag);
    }
  }

  lemma Rejoin(all: seq<int>, first: seq<int>)
    requires |first| <= |all| && forall i :: 0 <= i < |first| ==> first[i] == all[i]
    ensures first + all[|first|..] == all
  {
  }

  lemma DropUpto(n: nat, m: nat)
    requires m <= n
    ensures Filter(Upto(n), NotIn(Upto(m))) == Upto(n)[m..]
  {
    UptoMembers(m);
    DropPrefix(Upto(n), Upto(m), m);
  }

  // ---------- Which occurrences the requests use up

  lemma PicksSnoc(items: seq<Json>, front: seq<string>, tag: string)
    ensures Picks(items, front + [tag]) == Picks(items, front) + Served(Occurrences(items, tag), Count(front, tag))
    ensures forall t :: Count(front + [tag], t) == Count(front, t) + (if t == tag then 1 else 0)
  {
    assert (front + [tag])[..|front|] == front;
  }

  /** The occurrences of a tag that have been picked are its first ones, in order. */
  lemma {:induction false} PicksOfTag(items: seq<Json>, tags: seq<string>, t: string)
    ensures var occ := Occurrences(items, t);
            Filter(Picks(items, tags), Tagged(items, t)) == occ[..Min(Count(tags, t), |occ|)]
  {
    if tags != [] {
      var front, tag := tags[..|tags| - 1], tags[|tags| - 1];
      PicksOfTag(items, front, t);
      assert tags == front + [tag];
      PicksOfTagStep(items, front, tag, t);
    }
  }

  lemma PicksOfTagStep(items: seq<Json>, front: seq<string>, tag: string, t: string)
    requires var occ := Occurrences(items, t);
             Filter(Picks(items, front), Tagged(items, t)) == occ[..Min(Count(front, t), |occ|)]
    ensures var occ := Occurrences(items, t);
            Filter(Picks(items, front + [tag]), Tagged(items, t)) == occ[..Min(Count(front + [tag], t), |occ|)]
  {
    PicksSnoc(items, front, tag);
    PickOne(items, Picks(items, front), tag, Count(front, tag), t);
    TakeOneMore(Occurrences(items, t), Count(front, t));
  }

  lemma TakeOneMore(occ: seq<int>, c: nat)
    ensures occ[..Min(c, |occ|)] + Served(occ, c) == occ[..Min(c + 1, |occ|)]
    ensures occ[..Min(c, |occ|)] + [] == occ[..Min(c, |occ|)]
  {
  }

  /** Serving a request adds to the picks of its own tag only. */
  lemma PickOne(items: seq<Json>, picks: seq<int>, tag: string, k: nat, t: string)
    ensures Filter(picks + Served(Occurrences(items, tag), k), Tagged(items, t)) ==
            Filter(picks, Tagged(items, t)) + (if t == tag then Served(Occurrences(items, tag), k) else [])
  {
    var occ := Occurrences(items, tag);
    OccurrenceFacts(items, tag);
    if k < |occ| {
      FilterSnoc(picks, occ[k], Tagged(items, t));
    } else {
      assert picks + [] == picks;
    }
  }

  lemma {:induction false} PicksWithin(items: seq<Json>, tags: seq<string>)
    ensures Within(Picks(items, tags), |items|)
  {
    if tags != [] {
      PicksWithin(items, tags[..|tags| - 1]);
      OccurrenceFacts(items, tags[|tags| - 1]);
    }
  }

  /** An occurrence is picked exactly if there are enough requests for its tag. */
  lemma PickedOccurrence(items: seq<Json>, tags: seq<string>, t: string, k: nat)
    requires k < |Occurrences(items, t)|
    ensures Occurrences(items, t)[k] in Picks(items, tags) <==> k < Count(tags, t)
  {
    var occ := Occurrences(items, t);
    var m := Min(Count(tags, t), |occ|);
    OccurrenceFacts(items, t);
    PicksOfTag(items, tags, t);
    FilterMembers(Picks(items, tags), Tagged(items, t));
    assert occ[k] in occ;
    assert occ[k] in occ[..m] <==> k < m by {
      if k < m {
        assert occ[..m][k] == occ[k];
      }
    }
  }

  lemma {:induction false} PicksDistinct(items: seq<Json>, tags: seq<string>)
    ensures Distinct(Picks(items, tags))
  {
    if tags != [] {
      var front, tag := tags[..|tags| - 1], tags[|tags| - 1];
      PicksDistinct(items, front);
      if Count(front, tag) < |Occurrences(items, tag)| {
        PickedOccurrence(items, front, tag, Count(front, tag));
      }
    }
  }

  // ---------- Nothing is lost

  lemma RestFacts(items: seq<Json>, tags: seq<string>)
    ensures var rest := Filter(Upto(|items|), NotIn(Picks(items, tags)));
            Increasing(rest) && Within(rest, |items|) &&
            forall i :: i in rest <==> 0 <= i < |items| && i !in Picks(items, tags)
  {
    FilterIncreasing(Upto(|items|), NotIn(Picks(items, tags)));
    FilterMembers(Upto(|items|), NotIn(Picks(items, tags)));
    FilterWithin(Upto(|items|), NotIn(Picks(items, tags)), |items|);
    UptoMembers(|items|);
  }

  /** Every index stands in the new order exactly once. */
  lemma OrderVisitsAll(items: seq<Json>, tags: seq<string>)
    ensures Distinct(Order(items, tags))
    ensures Within(Order(items, tags), |items|)
    ensures forall i :: 0 <= i < |items| ==> i in Order(items, tags)
  {
    var picks, rest := Picks(items, tags), Filter(Upto(|items|), NotIn(Picks(items, tags)));
    PicksDistinct(items, tags);
    PicksWithin(items, tags);
    RestFacts(items, tags);
    forall i, j | 0 <= i < |picks| && 0 <= j < |rest|
      ensures picks[i] != rest[j]
    {
      assert picks[i] in picks && rest[j] in rest;
    }
  }

  function Reordered(items: seq<Json>, tags: seq<string>): seq<Json> {
    OrderVisitsAll(items, tags);
    At(items, Order(items, tags))
  }

  lemma {:induction false} DistinctMultiset(xs: seq<int>)
    requires Distinct(xs)
    ensures forall x :: multiset(xs)[x] == if x in xs then 1 else 0
  {
    if xs != [] {
      var front, last := xs[..|xs| - 1], xs[|xs| - 1];
      DistinctMultiset(front);
      assert xs == front + [last];
      assert last !in front;
    }
  }

  lemma DistinctCover(xs: seq<int>, n: nat)
    requires Distinct(xs) && Within(xs, n) && forall i :: 0 <= i < n ==> i in xs
    ensures multiset(xs) == multiset(Upto(n))
  {
    UptoMembers(n);
    DistinctMultiset(xs);
    DistinctMultiset(Upto(n));
    forall x
      ensures x in xs <==> x in Upto(n)
    {
      if x in xs {
        var k :| 0 <= k < |xs| && xs[k] == x;
      }
    }
  }

  lemma AtWithout(items: seq<Json>, b: seq<int>, i: nat)
    requires Within(b, |items|) && i < |b|
    ensures Within(Without(b, i), |items|)
    ensures At(items, Without(b, i)) == Without(At(items, b), i)
  {
    var w := Without(b, i);
    forall k | 0 <= k < |w|
      ensures At(items, w)[k] == Without(At(items, b), i)[k]
    {
      assert w[k] == if k < i then b[k] else b[k + 1];
    }
  }

  lemma {:induction false} AtPermutes(items: seq<Json>, a: seq<int>, b: seq<int>)
    requires Within(a, |items|) && Within(b, |items|) && multiset(a) == multiset(b)
    ensures multiset(At(items, a)) == multiset(At(items, b))
    decreases |a|
  {
    assert |multiset(a)| == |multiset(b)|;
    if a != [] {
      var i := SameMultisetFind(a[0], a, b);
      AtWithout(items, a, 0);
      AtWithout(items, b, i);
      AtPermutes(items, Without(a, 0), Without(b, i));
      WithoutMultiset(At(items, a), 0);
      WithoutMultiset(At(items, b), i);
    }
  }

  /** The result is a permutation of the outbounds. */
  lemma ReorderPermutes(items: seq<Json>, tags: seq<string>)
    ensures multiset(Reordered(items, tags)) == multiset(items)
    ensures |Reordered(items, tags)| == |items|
  {
    OrderVisitsAll(items, tags);
    DistinctCover(Order(items, tags), |items|);
    AtPermutes(items, Order(items, tags), Upto(|items|));
    assert At(items, Upto(|items|)) == items;
    assert |multiset(Reordered(items, tags))| == |multiset(items)|;
  }

  lemma OrderLength(items: seq<Json>, tags: seq<string>)
    ensures |Order(items, tags)| == |items| && Within(Order(items, tags), |items|)
    ensures Reordered(items, tags) == At(items, Order(items, tags))
  {
    OrderVisitsAll(items, tags);
    ReorderPermutes(items, tags);
  }

  // ---------- Where things end up

  lemma {:induction false} PicksPrefix(items: seq<Json>, tags: seq<string>, j: nat)
    requires j <= |tags|
    ensures Picks(items, tags[..j]) <= Picks(items, tags)
    decreases |tags|
  {
    if j < |tags| {
      PicksPrefix(items, tags[..|tags| - 1], j);
      assert tags[..|tags| - 1][..j] == tags[..j];
    } else {
      assert tags[..j] == tags;
    }
  }

  lemma PicksStep(items: seq<Json>, tags: seq<string>, j: nat)
    requires j < |tags|
    ensures Picks(items, tags[..j + 1]) ==
            Picks(items, tags[..j]) + Served(Occurrences(items, tags[j]), Count(tags[..j], tags[j]))
    ensures forall t :: Count(tags[..j + 1], t) == Count(tags[..j], t) + (if t == tags[j] then 1 else 0)
  {
    assert tags[..j + 1] == tags[..j] + [tags[j]];
    PicksSnoc(items, tags[..j], tags[j]);
  }

  /** The j-th request: behind what earlier requests got stands the occurrence it is due, or it is skipped. */
  lemma RequestIsServed(items: seq<Json>, tags: seq<string>, j: nat)
    requires j < |tags|
    ensures var occ, k, p := Occurrences(items, tags[j]), Count(tags[..j], tags[j]), |Picks(items, tags[..j])|;
            if k < |occ|
            then 0 <= occ[k] < |items| && p < |Reordered(items, tags)| && Reordered(items, tags)[p] == items[occ[k]] &&
                 |Picks(items, tags[..j + 1])| == p + 1
            else Picks(items, tags[..j + 1]) == Picks(items, tags[..j])
  {
    PicksStep(items, tags, j);
    PicksPrefix(items, tags, j + 1);
    OccurrenceFacts(items, tags[j]);
    OrderLength(items, tags);
  }

  function WithTag(tag: string): Json -> bool {
    (v: Json) => v.Obj? && tag != "" && Tag(v.fields) == tag
  }

  lemma {:induction false} FilterAt(items: seq<Json>, order: seq<int>, t: string)
    requires Within(order, |items|)
    ensures Within(Filter(order, Tagged(items, t)), |items|)
    ensures Filter(At(items, order), WithTag(t)) == At(items, Filter(order, Tagged(items, t)))
  {
    FilterWithin(order, Tagged(items, t), |items|);
    if order != [] {
      var front, last := order[..|order| - 1], order[|order| - 1];
      FilterAt(items, front, t);
      assert At(items, order)[..|order| - 1] == At(items, front);
      if Tagged(items, t)(last) {
        AtAppend(items, Filter(front, Tagged(items, t)), [last]);
      }
    }
  }

  lemma {:induction false} DropPrefix(xs: seq<int>, used: seq<int>, m: nat)
    requires m <= |xs| && forall k :: 0 <= k < |xs| ==> (xs[k] in used <==> k < m)
    ensures Filter(xs, NotIn(used)) == xs[m..]
  {
    FilterAppend(xs[..m], xs[m..], NotIn(used));
    assert xs == xs[..m] + xs[m..];
    FilterDropsAll(xs[..m], NotIn(used));
    FilterKeepsAll(xs[m..], NotIn(used));
  }

  /** The occurrences of a tag stand in the new order as in the old. */
  lemma TagOrderIsKept(items: seq<Json>, tags: seq<string>, t: string)
    ensures Filter(Order(items, tags), Tagged(items, t)) == Occurrences(items, t)
  {
    var picks, all, has := Picks(items, tags), Upto(|items|), Tagged(items, t);
    FilterAppend(picks, Filter(all, NotIn(picks)), has);
    PicksOfTag(items, tags, t);
    FiltersCommute(all, NotIn(picks), has);
    UnpickedOccurrences(items, tags, t);
  }

  lemma UnpickedOccurrences(items: seq<Json>, tags: seq<string>, t: string)
    ensures var occ := Occurrences(items, t);
            var m := Min(Count(tags, t), |occ|);
            Filter(occ, NotIn(Picks(items, tags))) == occ[m..] && occ[..m] + occ[m..] == occ
  {
    var picks, occ := Picks(items, tags), Occurrences(items, t);
    var m := Min(Count(tags, t), |occ|);
    forall k | 0 <= k < |occ|
      ensures occ[k] in picks <==> k < m
    {
      PickedOccurrence(items, tags, t, k);
    }
    DropPrefix(occ, picks, m);
    Rejoin(occ, occ[..m]);
  }

  /** Outbounds that share a tag never overtake each other. */
  lemma SameTagSameOrder(items: seq<Json>, tags: seq<string>, t: string)
    ensures Filter(Reordered(items, tags), WithTag(t)) == Filter(items, WithTag(t))
  {
    OrderVisitsAll(items, tags);
    FilterAt(items, Order(items, tags), t);
    TagOrderIsKept(items, tags, t);
    FilterAt(items, Upto(|items|), t);
    assert At(items, Upto(|items|)) == items;
  }

  /** Nor do the outbounds that no request got. */
  lemma OthersKeepTheirOrder(items: seq<Json>, tags: seq<string>)
    ensures var m := |Picks(items, tags)|;
            m <= |Order(items, tags)| && Increasing(Order(items, tags)[m..])
  {
    FilterIncreasing(Upto(|items|), NotIn(Picks(items, tags)));
    assert Order(items, tags)[|Picks(items, tags)|..] == Filter(Upto(|items|), NotIn(Picks(items, tags)));
  }

  // ---------- Once is enough

  /** A tag occurs as often among the first p of the items in an order as among the first p of the order. */
  lemma {:induction false} CountAt(items: seq<Json>, order: seq<int>, t: string, p: nat)
    requires Within(order, |items|) && p <= |order|
    ensures |Filter(Upto(p), Tagged(At(items, order), t))| == |Filter(order[..p], Tagged(items, t))|
  {
    if p > 0 {
      CountAt(items, order, t, p - 1);
      CountUpto(p, Tagged(At(items, order), t));
      CountTaken(order, p, Tagged(items, t));
      TaggedAt(items, order, t, p - 1);
    }
  }

  lemma CountTaken(xs: seq<int>, p: nat, test: int -> bool)
    requires 0 < p <= |xs|
    ensures |Filter(xs[..p], test)| == |Filter(xs[..p - 1], test)| + (if test(xs[p - 1]) then 1 else 0)
  {
    FilterSnoc(xs[..p - 1], xs[p - 1], test);
    assert xs[..p] == xs[..p - 1] + [xs[p - 1]];
  }

  lemma CountUpto(p: nat, test: int -> bool)
    requires 0 < p
    ensures |Filter(Upto(p), test)| == |Filter(Upto(p - 1), test)| + (if test(p - 1) then 1 else 0)
  {
    FilterSnoc(Upto(p - 1), p - 1, test);
  }

  lemma TaggedAt(items: seq<Json>, order: seq<int>, t: string, i: nat)
    requires Within(order, |items|) && i < |order|
    ensures Tagged(At(items, order), t)(i) == Tagged(items, t)(order[i])
  {
  }

  lemma {:induction false} FilterUptoPrefix(n: nat, p: nat, test: int -> bool)
    requires p <= n
    ensures Filter(Upto(p), test) <= Filter(Upto(n), test)
    decreases n
  {
    if p < n {
      FilterUptoPrefix(n - 1, p, test);
      assert Upto(n)[..n - 1] == Upto(n - 1);
    }
  }

  /** Before place p of the result, which the j-th request fills, stand as many of its tag as were requested before. */
  lemma CountBefore(items: seq<Json>, tags: seq<string>, j: nat, order: seq<int>, p: nat)
    requires j < |tags| && Count(tags[..j], tags[j]) < |Occurrences(items, tags[j])|
    requires order == Order(items, tags) && Within(order, |items|) && p == |Picks(items, tags[..j])|
    ensures p < |order| && Tagged(At(items, order), tags[j])(p)
    ensures |Filter(Upto(p), Tagged(At(items, order), tags[j]))| == Count(tags[..j], tags[j])
  {
    RequestIsServed(items, tags, j);
    OrderLength(items, tags);
    OccurrenceFacts(items, tags[j]);
    CountAt(items, order, tags[j], p);
    OrderStartsWithPicks(items, tags, j);
    PicksOfTag(items, tags[..j], tags[j]);
  }

  lemma OrderStartsWithPicks(items: seq<Json>, tags: seq<string>, j: nat)
    requires j <= |tags|
    ensures var picks := Picks(items, tags[..j]);
            |picks| <= |Order(items, tags)| && Order(items, tags)[..|picks|] == picks
  {
    PicksPrefix(items, tags, j);
  }

  /** The result has as many occurrences of a tag. */
  lemma SameCount(items: seq<Json>, tags: seq<string>, t: string)
    ensures |Occurrences(Reordered(items, tags), t)| == |Occurrences(items, t)|
  {
    var order := Order(items, tags);
    OrderLength(items, tags);
    CountAt(items, order, t, |order|);
    assert order[..|order|] == order;
    TagOrderIsKept(items, tags, t);
  }

  /** In the result, the occurrence that the j-th request is due stands where the request puts it. */
  lemma ResultServes(items: seq<Json>, tags: seq<string>, j: nat)
    requires j < |tags| && Count(tags[..j], tags[j]) < |Occurrences(items, tags[j])|
    ensures var k, p := Count(tags[..j], tags[j]), |Picks(items, tags[..j])|;
            k < |Occurrences(Reordered(items, tags), tags[j])| && Occurrences(Reordered(items, tags), tags[j])[k] == p
  {
    var p, order := |Picks(items, tags[..j])|, Order(items, tags);
    OrderLength(items, tags);
    CountBefore(items, tags, j, order, p);
    var has := Tagged(At(items, order), tags[j]);
    FilterSnoc(Upto(p), p, has);
    FilterUptoPrefix(|items|, p + 1, has);
  }

  lemma PicksAgainStep(result: seq<Json>, tags: seq<string>, j: nat, p: nat, served: bool)
    requires 0 < j <= |tags| && Picks(result, tags[..j - 1]) == Upto(p)
    requires var occ, k := Occurrences(result, tags[j - 1]), Count(tags[..j - 1], tags[j - 1]);
             if served then k < |occ| && occ[k] == p else |occ| <= k
    ensures Picks(result, tags[..j]) == Upto(if served then p + 1 else p)
  {
    PicksStep(result, tags, j - 1);
    if served {
      assert Upto(p) + [p] == Upto(p + 1);
    } else {
      assert Upto(p) + [] == Upto(p);
    }
  }

  lemma {:induction false} PicksAgain(items: seq<Json>, tags: seq<string>, j: nat)
    requires j <= |tags|
    ensures Picks(Reordered(items, tags), tags[..j]) == Upto(|Picks(items, tags[..j])|)
  {
    if j > 0 {
      PicksAgain(items, tags, j - 1);
      RequestAgain(items, tags, j, Reordered(items, tags));
    }
  }

  lemma RequestAgain(items: seq<Json>, tags: seq<string>, j: nat, result: seq<Json>)
    requires 0 < j <= |tags| && result == Reordered(items, tags)
    requires Picks(result, tags[..j - 1]) == Upto(|Picks(items, tags[..j - 1])|)
    ensures Picks(result, tags[..j]) == Upto(|Picks(items, tags[..j])|)
  {
    var t, k := tags[j - 1], Count(tags[..j - 1], tags[j - 1]);
    PicksStep(items, tags, j - 1);
    SameCount(items, tags, t);
    if k < |Occurrences(items, t)| {
      ResultServes(items, tags, j - 1);
    }
    PicksAgainStep(result, tags, j, |Picks(items, tags[..j - 1])|, k < |Occurrences(items, t)|);
  }

  lemma PickingFirst(items: seq<Json>, tags: seq<string>, m: nat)
    requires Picks(items, tags) == Upto(m)
    ensures m <= |items| && Order(items, tags) == Upto(|items|)
  {
    PicksWithin(items, tags);
    assert m <= |items| by {
      if m > 0 {
        assert Upto(m)[m - 1] < |items|;
      }
    }
    UptoSplits(|items|, m);
  }

  lemma UptoSplits(n: nat, m: nat)
    requires m <= n
    ensures Upto(m) + Filter(Upto(n), NotIn(Upto(m))) == Upto(n)
  {
    DropUpto(n, m);
    UptoPrefix(n, m);
  }

  lemma UptoPrefix(n: nat, m: nat)
    requires m <= n
    ensures Upto(m) + Upto(n)[m..] == Upto(n)
  {
    var all, first := Upto(n), Upto(m);
    Rejoin(all, first);
  }

  /** If the requests pick the first m outbounds, everything stays where it is. */
  lemma PickingFirstKeeps(items: seq<Json>, tags: seq<string>, m: nat)
    requires Picks(items, tags) == Upto(m)
    ensures Reordered(items, tags) == items
  {
    PickingFirst(items, tags, m);
    OrderLength(items, tags);
    assert At(items, Upto(|items|)) == items;
  }

  /** Asking again for the same order changes nothing. */
  lemma ReorderIsIdempotent(items: seq<Json>, tags: seq<string>)
    ensures Reordered(Reordered(items, tags), tags) == Reordered(items, tags)
  {
    assert tags[..|tags|] == tags;
    PicksAgain(items, tags, |tags|);
    PickingFirstKeeps(Reordered(items, tags), tags, |Picks(items, tags)|);
  }

  // ---------- The algorithm

  function Queue(queues: map<string, seq<int>>, tag: string): seq<int> {
    if tag in queues then queues[tag] else []
  }

  /** What the requests leave in the queue of a tag. */
  function Remaining(items: seq<Json>, tags: seq<string>, t: string): seq<int> {
    Occurrences(items, t)[Min(Count(tags, t), |Occurrences(items, t)|)..]
  }

  /** The queues after the given requests. */
  ghost predicate Pending(items: seq<Json>, tags: seq<string>, queues: map<string, seq<int>>) {
    forall t :: Queue(queues, t) == Remaining(items, tags, t)
  }

  /** The queues when the first n outbounds have been looked at. */
  ghost predicate Indexed(items: seq<Json>, n: nat, queues: map<string, seq<int>>) {
    forall t :: Queue(queues, t) == Filter(Upto(n), Tagged(items, t))
  }

  lemma OccurrencesNext(items: seq<Json>, n: nat, t: string)
    requires n < |items|
    ensures Filter(Upto(n + 1), Tagged(items, t)) ==
            Filter(Upto(n), Tagged(items, t)) + (if t != "" && TagOf(items[n]) == t then [n] else [])
  {
    FilterSnoc(Upto(n), n, Tagged(items, t));
  }

  lemma IndexNext(items: seq<Json>, n: nat, before: map<string, seq<int>>, after: map<string, seq<int>>)
    requires n < |items| && Indexed(items, n, before)
    requires var tag := TagOf(items[n]);
             after == if tag == "" then before else before[tag := Queue(before, tag) + [n]]
    ensures Indexed(items, n + 1, after)
  {
    forall t
      ensures Queue(after, t) == Filter(Upto(n + 1), Tagged(items, t))
    {
      OccurrencesNext(items, n, t);
      assert Queue(before, t) == Filter(Upto(n), Tagged(items, t));
    }
  }

  method IndexTags(obArr: seq<Json>) returns (indicesByTag: map<string, seq<int>>)
    ensures Indexed(obArr, |obArr|, indicesByTag)
  {
    indicesByTag := map[];
    for i := 0 to |obArr|
      invariant Indexed(obArr, i, indicesByTag)
    {
      ghost var before := indicesByTag;
      if obArr[i].Obj? {
        var tag := Tag(obArr[i].fields);
        if tag != "" {
          indicesByTag := indicesByTag[tag := Queue(indicesByTag, tag) + [i]];
        }
      }
      IndexNext(obArr, i, before, indicesByTag);
    }
  }

  /** The first index of a queue that is not in use; what stands before it is dropped. */
  method TakeFree(queue: seq<int>, used: set<int>) returns (found: bool, index: int, rest: seq<int>)
    ensures found ==> exists d :: 0 <= d < |queue| && queue[d] == index && index !in used && rest == queue[d + 1..] &&
                                  forall e :: 0 <= e < d ==> queue[e] in used
    ensures !found ==> rest == [] && forall e :: 0 <= e < |queue| ==> queue[e] in used
    ensures queue != [] && queue[0] !in used ==> found && index == queue[0] && rest == queue[1..]
  {
    rest, found, index := queue, false, 0;
    ghost var d := 0;
    while |rest| > 0
      invariant 0 <= d <= |queue| && rest == queue[d..]
      invariant forall e :: 0 <= e < d ==> queue[e] in used
    {
      index, rest := rest[0], rest[1..];
      if index !in used {
        found := true;
        break;
      }
      d := d + 1;
    }
  }

  /** The head of a tag's queue is the occurrence the next request for it is due, and it is free. */
  lemma QueueHead(items: seq<Json>, tags: seq<string>, tag: string, queues: map<string, seq<int>>)
    requires Pending(items, tags, queues)
    ensures var queue := Queue(queues, tag);
            if queue == [] then Served(Occurrences(items, tag), Count(tags, tag)) == []
            else Served(Occurrences(items, tag), Count(tags, tag)) == [queue[0]] && queue[0] !in Picks(items, tags)
  {
    var occ, k := Occurrences(items, tag), Count(tags, tag);
    if k < |occ| {
      PickedOccurrence(items, tags, tag, k);
    }
  }

  lemma RemainingStep(items: seq<Json>, tags: seq<string>, j: nat, t: string)
    requires j < |tags|
    ensures var rest := Remaining(items, tags[..j], t);
            Remaining(items, tags[..j + 1], t) == if t == tags[j] && rest != [] then rest[1..] else rest
  {
    PicksStep(items, tags, j);
  }

  lemma IndexedIsPending(items: seq<Json>, queues: map<string, seq<int>>)
    requires Indexed(items, |items|, queues)
    ensures Pending(items, [], queues)
  {
    forall t
      ensures Queue(queues, t) == Remaining(items, [], t)
    {
      assert Queue(queues, t) == Occurrences(items, t);
    }
  }

  lemma AtSnoc(items: seq<Json>, a: seq<int>, i: int)
    requires Within(a + [i], |items|)
    ensures 0 <= i < |items| && Within(a, |items|)
    ensures At(items, a + [i]) == At(items, a) + [items[i]]
  {
    assert (a + [i])[|a|] == i;
    assert forall k :: 0 <= k < |a| ==> (a + [i])[k] == a[k];
    AtAppend(items, a, [i]);
  }

  /** One request: what is due to it is the head of the queue, if there is one. */
  method ServeRequest(obArr: seq<Json>, ghost picks: seq<int>, ghost due: seq<int>,
                      reordered: seq<Json>, used: set<int>, queue: seq<int>)
    returns (reordered': seq<Json>, used': set<int>, rest: seq<int>)
    requires Within(picks, |obArr|) && Within(picks + due, |obArr|)
    requires if queue == [] then due == [] else due == [queue[0]] && queue[0] !in picks
    requires reordered == At(obArr, picks) && forall i :: i in used <==> i in picks
    ensures reordered' == At(obArr, picks + due)
    ensures forall i :: i in used' <==> i in picks + due
    ensures rest == if queue == [] then [] else queue[1..]
  {
    assert queue == [] || queue[0] !in used by {
      if queue != [] {
        var head: int := queue[0];
        assert head !in used;
      }
    }
    var found, index, rest' := TakeFree(queue, used);
    rest, reordered', used' := rest', reordered, used;
    if found {
      assert due == [index];
      AtSnoc(obArr, picks, index);
      reordered' := reordered + [obArr[index]];
      used' := used + {index};
    } else {
      assert picks + due == picks;
    }
  }

  method ServeRequests(obArr: seq<Json>, tags: seq<string>, queues: map<string, seq<int>>)
    returns (reordered: seq<Json>, used: set<int>)
    requires Indexed(obArr, |obArr|, queues)
    ensures Within(Picks(obArr, tags), |obArr|)
    ensures reordered == At(obArr, Picks(obArr, tags))
    ensures forall i :: i in used <==> i in Picks(obArr, tags)
  {
    reordered, used := [], {};
    var indicesByTag := queues;
    IndexedIsPending(obArr, queues);
    for j := 0 to |tags|
      invariant Within(Picks(obArr, tags[..j]), |obArr|)
      invariant reordered == At(obArr, Picks(obArr, tags[..j]))
      invariant forall i :: i in used <==> i in Picks(obArr, tags[..j])
      invariant Pending(obArr, tags[..j], indicesByTag)
    {
      var tag := tags[j];
      ghost var before := indicesByTag;
      QueueHead(obArr, tags[..j], tag, before);
      var queue := Queue(indicesByTag, tag);
      NextRequest(obArr, tags, j, before, before[tag := if queue == [] then [] else queue[1..]]);
      ghost var due := Served(Occurrences(obArr, tag), Count(tags[..j], tag));
      reordered, used, queue := ServeRequest(obArr, Picks(obArr, tags[..j]), due, reordered, used, queue);
      indicesByTag := indicesByTag[tag := queue];
    }
    assert tags[..|tags|] == tags;
  }

  lemma PendingStep(items: seq<Json>, tags: seq<string>, j: nat,
                    before: map<string, seq<int>>, after: map<string, seq<int>>)
    requires j < |tags| && Pending(items, tags[..j], before)
    requires var q := Queue(before, tags[j]); after == before[tags[j] := if q == [] then [] else q[1..]]
    ensures Pending(items, tags[..j + 1], after)
  {
    forall t
      ensures Queue(after, t) == Remaining(items, tags[..j + 1], t)
    {
      RemainingStep(items, tags, j, t);
      assert Queue(before, t) == Remaining(items, tags[..j], t);
    }
  }

  lemma NextRequest(items: seq<Json>, tags: seq<string>, j: nat,
                    before: map<string, seq<int>>, after: map<string, seq<int>>)
    requires j < |tags| && Pending(items, tags[..j], before)
    requires var q := Queue(before, tags[j]); after == before[tags[j] := if q == [] then [] else q[1..]]
    ensures Pending(items, tags[..j + 1], after)
    ensures Picks(items, tags[..j + 1]) ==
            Picks(items, tags[..j]) + Served(Occurrences(items, tags[j]), Count(tags[..j], tags[j]))
    ensures Within(Picks(items, tags[..j + 1]), |items|)
  {
    PendingStep(items, tags, j, before, after);
    PicksStep(items, tags, j);
    PicksWithin(items, tags[..j + 1]);
  }

  method Reorder(obArr: seq<Json>, tags: seq<string>) returns (reordered: seq<Json>)
    ensures reordered == Reordered(obArr, tags)
  {
    var indicesByTag := IndexTags(obArr);
    var used: set<int>;
    reordered, used := ServeRequests(obArr, tags, indicesByTag);
    ghost var picks := Picks(obArr, tags);
    for i := 0 to |obArr|
      invariant Within(picks + Filter(Upto(i), NotIn(picks)), |obArr|)
      invariant reordered == At(obArr, picks + Filter(Upto(i), NotIn(picks)))
    {
      FilterSnoc(Upto(i), i, NotIn(picks));
      Snoc(obArr, picks, Filter(Upto(i), NotIn(picks)), i);
      if i !in used {
        reordered := reordered + [obArr[i]];
      }
    }
  }

  lemma Snoc(items: seq<Json>, a: seq<int>, b: seq<int>, i: int)
    requires Within(a + b, |items|) && 0 <= i < |items|
    ensures a + (b + [i]) == (a + b) + [i] && a + (b + []) == a + b
    ensures Within((a + b) + [i], |items|)
    ensures At(items, (a + b) + [i]) == At(items, a + b) + [items[i]]
  {
    AtAppend(items, a + b, [i]);
    assert a + (b + [i]) == (a + b) + [i];
    assert b + [] == b;
  }
}
