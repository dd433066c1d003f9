/** Arrays of inbounds that agree on tags and protocols, and such arrays in which only two inbounds list clients. */
module DedupeShapes {
  import opened ClientList
  import opened Json
  import opened TagDedupe

  function ProtocolOf(item: Json): string {
    if item.Obj? then Protocol(item.fields) else ""
  }

  ghost predicate SameShape(xs: seq<Json>, ys: seq<Json>) {
    |xs| == |ys| &&
    forall i :: 0 <= i < |xs| ==>
      TagOf(xs[i]) == TagOf(ys[i]) && (xs[i].Obj? <==> ys[i].Obj?) && ProtocolOf(xs[i]) == ProtocolOf(ys[i])
  }

  /** The first item with the tag of item i. */
  function First(items: seq<Json>, i: nat): Json
    requires i < |items|
  {
    var f := Spot(items, TagOf(items[i]));
    if f < |items| then items[f] else items[i]
  }

  lemma FirstFacts(items: seq<Json>, i: nat)
    requires i < |items| && TagOf(items[i]) != ""
    ensures Spot(items, TagOf(items[i])) <= i && First(items, i) == items[Spot(items, TagOf(items[i]))]
    ensures TagOf(First(items, i)) == TagOf(items[i]) && First(items, i).Obj?
  {
    SpotFacts(items, TagOf(items[i]));
  }

  lemma SpotOfShape(xs: seq<Json>, ys: seq<Json>, tag: string)
    requires SameShape(xs, ys)
    ensures Spot(xs, tag) == Spot(ys, tag)
  {
    SpotFacts(xs, tag);
    SpotUnique(ys, tag, Spot(xs, tag));
  }

  /** fmt.Sprint on nil and on strings. */
  ghost predicate PlainPrinter(sprint: Printer) {
    sprint(Null) == "<nil>" && forall s :: sprint(Str(s)) == s
  }

  /** An inbound with the tag and protocol of another and the given settings. */
  function Dressed(x: Json, settings: Json): Json {
    if x.Obj? then Obj(map["tag" := Str(TagOf(x)), "protocol" := Str(ProtocolOf(x)), "settings" := settings]) else x
  }

  /** Only the inbounds f and i have settings. */
  function TwoDressed(shape: seq<Json>, f: nat, a: Json, i: nat, b: Json): (items: seq<Json>)
    ensures |items| == |shape|
    ensures forall k :: 0 <= k < |items| ==>
              items[k] == Dressed(shape[k], if k == f then a else if k == i then b else Null)
  {
    seq(|shape|, k requires 0 <= k < |shape| => Dressed(shape[k], if k == f then a else if k == i then b else Null))
  }

  lemma DressedShape(shape: seq<Json>, f: nat, a: Json, i: nat, b: Json)
    ensures SameShape(shape, TwoDressed(shape, f, a, i, b))
  {
  }

  lemma BareCopyAddsNothing(sprint: Printer, first: Json, copy: Json)
    requires copy.Obj? ==> !HasSettings(copy.fields)
    ensures Update(sprint, first, copy) == first
  {
  }

  /** What is kept for a tag. */
  ghost predicate KeptFor(sprint: Printer, items: seq<Json>, tag: string, x: Json) {
    var kept := Deduped(sprint, true, items);
    Spot(kept, tag) < |kept| && kept[Spot(kept, tag)] == x
  }

  predicate OthersBare(items: seq<Json>, f: nat, i: nat) {
    forall k :: 0 <= k < |items| && k != f && k != i && items[k].Obj? ==> !HasSettings(items[k].fields)
  }

  /** If only the first inbound of a tag and one copy of it have settings, the kept one is the merge of these two. */
  lemma KeptOfTwo(sprint: Printer, items: seq<Json>, f: nat, i: nat)
    requires f < i < |items| && OthersBare(items, f, i)
    requires TagOf(items[i]) != "" && f == Spot(items, TagOf(items[i]))
    ensures KeptFor(sprint, items, TagOf(items[i]), Update(sprint, items[f], items[i]))
  {
    var tag, first, copy := TagOf(items[i]), items[f], items[i];
    NoneBefore(items, f, tag, items[..f]);
    FirstKept(sprint, items[..f], first);
    CutAround(items, f, i);
    BareRun(sprint, items[..f] + [first], items[f + 1..i], tag, first);
    CopyKept(sprint, items[..i], copy, tag, first);
    BareRun(sprint, items[..i] + [copy], items[i + 1..], tag, Update(sprint, first, copy));
  }

  lemma CutAround(items: seq<Json>, f: nat, i: nat)
    requires f < i < |items| && OthersBare(items, f, i)
    ensures (items[..f] + [items[f]]) + items[f + 1..i] == items[..i]
    ensures (items[..i] + [items[i]]) + items[i + 1..] == items
    ensures forall x :: x in items[f + 1..i] || x in items[i + 1..] ==> x.Obj? ==> !HasSettings(x.fields)
  {
  }

  lemma {:induction false} BareRun(sprint: Printer, front: seq<Json>, more: seq<Json>, tag: string, x: Json)
    requires tag != "" && KeptFor(sprint, front, tag, x) && forall y :: y in more ==> y.Obj? ==> !HasSettings(y.fields)
    ensures KeptFor(sprint, front + more, tag, x)
    decreases |more|
  {
    if more == [] {
      assert front + more == front;
    } else {
      var some, last := more[..|more| - 1], more[|more| - 1];
      assert last in more && front + more == (front + some) + [last];
      BareRun(sprint, front, some, tag, x);
      BareKept(sprint, front + some, last, tag, x);
    }
  }

  lemma NoneBefore(items: seq<Json>, f: nat, tag: string, front: seq<Json>)
    requires tag != "" && f == Spot(items, tag) < |items| && front == items[..f]
    ensures TagOf(items[f]) == tag && forall k :: 0 <= k < |front| ==> TagOf(front[k]) != TagOf(items[f])
  {
    SpotFacts(items, tag);
  }

  lemma CopyKept(sprint: Printer, front: seq<Json>, last: Json, tag: string, x: Json)
    requires tag != "" && KeptFor(sprint, front, tag, x) && TagOf(last) == tag
    ensures KeptFor(sprint, front + [last], tag, Update(sprint, x, last))
  {
    KeptStep(sprint, front, last, tag);
  }

  lemma BareKept(sprint: Printer, front: seq<Json>, last: Json, tag: string, x: Json)
    requires tag != "" && KeptFor(sprint, front, tag, x) && (last.Obj? ==> !HasSettings(last.fields))
    ensures KeptFor(sprint, front + [last], tag, x)
  {
    KeptStep(sprint, front, last, tag);
    BareCopyAddsNothing(sprint, x, last);
  }

  lemma FirstKept(sprint: Printer, front: seq<Json>, last: Json)
    requires TagOf(last) != "" && forall k :: 0 <= k < |front| ==> TagOf(front[k]) != TagOf(last)
    ensures KeptFor(sprint, front + [last], TagOf(last), last)
  {
    var before := Deduped(sprint, true, front);
    assert (front + [last])[..|front|] == front;
    SpotUnique(front, TagOf(last), |front|);
    DedupeKeepsFirsts(sprint, true, front);
    TagsSurvive(true, front, before, TagOf(last));
    SpotSnoc(before, last);
  }
}
