/** Dropping inbounds and outbounds whose tag has been seen before, without losing the clients of the dropped ones. */
module TagDedupe {
  import opened ClientList
  import opened Json

  // ---------- Merging the clients of a copy into the first

  predicate Duplicates(sprint: Printer, item: Json, client: Client, protocol: string) {
    Matches(sprint, item, client, protocol) || HasEmailOf(sprint, item, client)
  }

  predicate Known(sprint: Printer, arr: seq<Json>, client: Client, protocol: string) {
    exists i :: 0 <= i < |arr| && Duplicates(sprint, arr[i], client, protocol)
  }

  /** What a client of the copy adds to the list; what is not an object is added in any case. */
  function Absorbed(sprint: Printer, arr: seq<Json>, c: Json, protocol: string): seq<Json> {
    if c.Obj? && Known(sprint, arr, c.fields, protocol) then arr else arr + [c]
  }

  function AbsorbedAll(sprint: Printer, arr: seq<Json>, cs: seq<Json>, protocol: string): seq<Json> {
    if cs == [] then arr
    else Absorbed(sprint, AbsorbedAll(sprint, arr, cs[..|cs| - 1], protocol), cs[|cs| - 1], protocol)
  }

  method IsKnown(sprint: Printer, arr: seq<Json>, client: Client, protocol: string) returns (dup: bool)
    ensures dup <==> Known(sprint, arr, client, protocol)
  {
    for i := 0 to |arr|
      invariant forall k :: 0 <= k < i ==> !Duplicates(sprint, arr[k], client, protocol)
    {
      if arr[i].Obj? && (Match(sprint, arr[i].fields, client, protocol) || SameEmail(sprint, arr[i].fields, client)) {
        return true;
      }
    }
    return false;
  }

  method AbsorbClients(sprint: Printer, dstArr: seq<Json>, srcArr: seq<Json>, protocol: string)
    returns (r: seq<Json>)
    ensures r == AbsorbedAll(sprint, dstArr, srcArr, protocol)
  {
    r := dstArr;
    for i := 0 to |srcArr|
      invariant r == AbsorbedAll(sprint, dstArr, srcArr[..i], protocol)
    {
      assert srcArr[..i + 1][..i] == srcArr[..i];
      var sc := srcArr[i];
      if !sc.Obj? {
        r := r + [sc];
        continue;
      }
      var dup := IsKnown(sprint, r, sc.fields, protocol);
      if !dup {
        r := r + [sc];
      }
    }
    assert srcArr[..|srcArr|] == srcArr;
  }

  /** A client is covered by a list that has it, or one that counts as the same. */
  ghost predicate Covers(sprint: Printer, arr: seq<Json>, c: Json, protocol: string) {
    c in arr || (c.Obj? && Known(sprint, arr, c.fields, protocol))
  }

  lemma CoverGrows(sprint: Printer, arr: seq<Json>, more: seq<Json>, c: Json, protocol: string)
    requires Covers(sprint, arr, c, protocol)
    ensures Covers(sprint, arr + more, c, protocol)
  {
    if c !in arr {
      var i :| 0 <= i < |arr| && Duplicates(sprint, arr[i], c.fields, protocol);
      assert (arr + more)[i] == arr[i];
    }
  }

  /** The list only grows, and covers every client of the copy. */
  lemma {:induction false} AbsorbCovers(sprint: Printer, arr: seq<Json>, cs: seq<Json>, protocol: string)
    ensures arr <= AbsorbedAll(sprint, arr, cs, protocol)
    ensures forall c :: c in cs ==> Covers(sprint, AbsorbedAll(sprint, arr, cs, protocol), c, protocol)
  {
    if cs != [] {
      var front, last := cs[..|cs| - 1], cs[|cs| - 1];
      var before, after := AbsorbedAll(sprint, arr, front, protocol), AbsorbedAll(sprint, arr, cs, protocol);
      AbsorbCovers(sprint, arr, front, protocol);
      forall c | c in cs
        ensures Covers(sprint, after, c, protocol)
      {
        if c in front {
          CoverGrows(sprint, before, after[|before|..], c, protocol);
        }
      }
    }
  }

  /** Merging keeps a list sound, whatever the copy holds. */
  lemma {:induction false} AbsorbKeepsSound(sprint: Printer, arr: seq<Json>, cs: seq<Json>, protocol: string)
    requires Sound(sprint, arr, protocol)
    ensures Sound(sprint, AbsorbedAll(sprint, arr, cs, protocol), protocol)
  {
    if cs != [] {
      var front, last := cs[..|cs| - 1], cs[|cs| - 1];
      var before := AbsorbedAll(sprint, arr, front, protocol);
      AbsorbKeepsSound(sprint, arr, front, protocol);
      forall k | 0 <= k < |before| && !(last.Obj? && Known(sprint, before, last.fields, protocol))
        ensures Apart(sprint, before[k], last, protocol)
      {
        if last.Obj? {
          assert !Duplicates(sprint, before[k], last.fields, protocol);
          NewcomerIsApart(sprint, before[k], last.fields, protocol);
        }
      }
    }
  }

  /** The protocol that decides: the copy's if it has one. */
  function DecidingProtocol(dst: map<string, Json>, src: map<string, Json>): string {
    if Protocol(src) != "" then Protocol(src) else Protocol(dst)
  }

  function CopyClients(dst: map<string, Json>, src: map<string, Json>): seq<Json> {
    Clients(src, ListKey(DecidingProtocol(dst, src)))
  }

  function MergedClients(sprint: Printer, dst: map<string, Json>, src: map<string, Json>): map<string, Json> {
    var proto := DecidingProtocol(dst, src);
    var key := ListKey(proto);
    if !HasSettings(dst) || !HasSettings(src) || key == "" || CopyClients(dst, src) == [] then dst
    else WithClients(dst, key, AbsorbedAll(sprint, Clients(dst, key), CopyClients(dst, src), proto))
  }

  method MergeInboundClients(sprint: Printer, dst: map<string, Json>, src: map<string, Json>)
    returns (r: map<string, Json>)
    ensures r == MergedClients(sprint, dst, src)
  {
    if !HasSettings(dst) || !HasSettings(src) {
      return dst;
    }
    var proto := Protocol(dst);
    if Protocol(src) != "" {
      proto := Protocol(src);
    }
    var arrKey := ListKey(proto);
    if arrKey == "" {
      return dst;
    }
    var dstArr, srcArr := Clients(dst, arrKey), Clients(src, arrKey);
    if |srcArr| == 0 {
      return dst;
    }
    dstArr := AbsorbClients(sprint, dstArr, srcArr, proto);
    return WithClients(dst, arrKey, dstArr);
  }

  /** Two versions of an inbound that differ at most in their settings' client lists, and there only by additions. */
  ghost predicate Extends(was: map<string, Json>, now: map<string, Json>) {
    && was.Keys == now.Keys
    && (forall k :: k in was && k != "settings" ==> now[k] == was[k])
    && (HasSettings(was) <==> HasSettings(now))
    && (!HasSettings(was) ==> now == was)
    && (forall k :: k !in ["clients", "users", "accounts"] ==> Field(Settings(now), k) == Field(Settings(was), k))
    && (forall k :: k in ["clients", "users", "accounts"] ==> Clients(was, k) <= Clients(now, k))
  }

  lemma MergeExtends(sprint: Printer, dst: map<string, Json>, src: map<string, Json>)
    ensures Extends(dst, MergedClients(sprint, dst, src))
  {
    var proto := DecidingProtocol(dst, src);
    var now := MergedClients(sprint, dst, src);
    if now != dst {
      AbsorbCovers(sprint, Clients(dst, ListKey(proto)), CopyClients(dst, src), proto);
      assert Settings(now) == Settings(dst)[ListKey(proto) :=
        Arr(AbsorbedAll(sprint, Clients(dst, ListKey(proto)), CopyClients(dst, src), proto))];
    }
  }

  /** What has been appended to a list comes from another, and no client of it was known when it was appended. */
  predicate OnlyNews(sprint: Printer, arr: seq<Json>, now: seq<Json>, cs: seq<Json>, protocol: string) {
    forall i :: |arr| <= i < |now| ==>
      now[i] in cs && (now[i].Obj? ==> !Known(sprint, now[..i], now[i].fields, protocol))
  }

  lemma {:induction false} AbsorbOnlyNews(sprint: Printer, arr: seq<Json>, cs: seq<Json>, protocol: string)
    ensures OnlyNews(sprint, arr, AbsorbedAll(sprint, arr, cs, protocol), cs, protocol)
  {
    if cs != [] {
      var front, last := cs[..|cs| - 1], cs[|cs| - 1];
      AbsorbOnlyNews(sprint, arr, front, protocol);
      NewsMore(sprint, arr, AbsorbedAll(sprint, arr, front, protocol), front, last, protocol);
      assert cs == front + [last];
    }
  }

  lemma NewsMore(sprint: Printer, arr: seq<Json>, now: seq<Json>, cs: seq<Json>, c: Json, protocol: string)
    requires OnlyNews(sprint, arr, now, cs, protocol)
    ensures OnlyNews(sprint, arr, Absorbed(sprint, now, c, protocol), cs + [c], protocol)
  {
    var after := Absorbed(sprint, now, c, protocol);
    forall i | |arr| <= i < |after|
      ensures after[i] in cs + [c] && (after[i].Obj? ==> !Known(sprint, after[..i], after[i].fields, protocol))
    {
      assert after[..i] == now[..i];
      if i == |now| {
        assert now[..i] == now;
      } else {
        assert now[i] in cs;
      }
    }
  }

  predicate Names(inbound: map<string, Json>, protocol: string) {
    protocol != "" && "protocol" in inbound && inbound["protocol"] == Str(protocol)
  }

  /** What a merge does to the lists, said of the protocol that the copy names, or, if it names none, the first: the first's
      clients under the key of that protocol stay in front, every client of the copy is covered behind, nothing else is
      added, and no other list changes. */
  lemma MergeOutcome(sprint: Printer, dst: map<string, Json>, src: map<string, Json>, protocol: string)
    requires Names(src, protocol) || (Names(dst, protocol) && forall p :: !Names(src, p))
    requires HasSettings(dst) && HasSettings(src) && ListKey(protocol) != ""
    ensures var now, key := MergedClients(sprint, dst, src), ListKey(protocol);
            && Clients(dst, key) <= Clients(now, key)
            && (forall c :: c in Clients(src, key) ==> Covers(sprint, Clients(now, key), c, protocol))
            && OnlyNews(sprint, Clients(dst, key), Clients(now, key), Clients(src, key), protocol)
            && forall k :: k != key ==> Clients(now, k) == Clients(dst, k)
  {
    assert !Names(src, Protocol(src)) ==> Protocol(src) == "";
    var key := ListKey(protocol);
    AbsorbCovers(sprint, Clients(dst, key), Clients(src, key), protocol);
    AbsorbOnlyNews(sprint, Clients(dst, key), Clients(src, key), protocol);
  }

  // ---------- The array

  /** Where a tag stands, |items| if nowhere. */
  function Spot(items: seq<Json>, tag: string): (at: nat)
    ensures at <= |items|
  {
    if items == [] then 0
    else
      var at := Spot(items[..|items| - 1], tag);
      if at < |items| - 1 then at
      else if TagOf(items[|items| - 1]) == tag then |items| - 1 else |items|
  }

  /** The first inbound of a tag after a copy has been merged into it. */
  function Update(sprint: Printer, first: Json, copy: Json): Json {
    if first.Obj? && copy.Obj? then Obj(MergedClients(sprint, first.fields, copy.fields)) else first
  }

  /** One more item. */
  function Deduped1(sprint: Printer, inbounds: bool, kept: seq<Json>, item: Json): seq<Json> {
    var at := Spot(kept, TagOf(item));
    if TagOf(item) == "" || at == |kept| then kept + [item]
    else if inbounds then kept[at := Update(sprint, kept[at], item)]
    else kept
  }

  function Deduped(sprint: Printer, inbounds: bool, items: seq<Json>): seq<Json> {
    if items == [] then []
    else Deduped1(sprint, inbounds, Deduped(sprint, inbounds, items[..|items| - 1]), items[|items| - 1])
  }

  lemma SpotSnoc(kept: seq<Json>, item: Json)
    ensures forall t :: Spot(kept + [item], t) ==
              if Spot(kept, t) < |kept| then Spot(kept, t) else if TagOf(item) == t then |kept| else |kept| + 1
  {
    assert (kept + [item])[..|kept|] == kept;
  }

  lemma {:induction false} SpotFacts(items: seq<Json>, tag: string)
    ensures var at := Spot(items, tag);
            (at < |items| ==> TagOf(items[at]) == tag) && forall k :: 0 <= k < at ==> TagOf(items[k]) != tag
  {
    if items != [] {
      SpotFacts(items[..|items| - 1], tag);
    }
  }

  lemma SpotUnique(items: seq<Json>, tag: string, at: nat)
    requires at <= |items| && (forall k :: 0 <= k < at ==> TagOf(items[k]) != tag)
    requires at < |items| ==> TagOf(items[at]) == tag
    ensures Spot(items, tag) == at
  {
    SpotFacts(items, tag);
  }

  lemma UpdateKeepsTag(sprint: Printer, first: Json, copy: Json)
    ensures TagOf(Update(sprint, first, copy)) == TagOf(first)
    ensures first.Obj? <==> Update(sprint, first, copy).Obj?
  {
    if first.Obj? && copy.Obj? {
      MergeExtends(sprint, first.fields, copy.fields);
    }
  }

  lemma SpotUpdate(sprint: Printer, kept: seq<Json>, at: nat, copy: Json)
    requires at < |kept|
    ensures forall t :: Spot(kept[at := Update(sprint, kept[at], copy)], t) == Spot(kept, t)
  {
    var now := kept[at := Update(sprint, kept[at], copy)];
    UpdateKeepsTag(sprint, kept[at], copy);
    forall t
      ensures Spot(now, t) == Spot(kept, t)
    {
      SpotFacts(kept, t);
      SpotUnique(now, t, Spot(kept, t));
    }
  }

  // ---------- What is kept

  ghost predicate UniqueTags(items: seq<Json>) {
    forall i, j :: 0 <= i < j < |items| && TagOf(items[i]) != "" ==> TagOf(items[i]) != TagOf(items[j])
  }

  /** The indices of the untagged items and of the first item of each tag, in order. */
  function Firsts(items: seq<Json>): (r: seq<nat>)
    ensures |r| <= |items|
    ensures forall k :: 0 <= k < |r| ==> r[k] < |items|
    ensures forall k, l :: 0 <= k < l < |r| ==> r[k] < r[l]
  {
    if items == [] then []
    else
      var front, tag := items[..|items| - 1], TagOf(items[|items| - 1]);
      Firsts(front) + (if tag == "" || Spot(front, tag) == |front| then [|front|] else [])
  }

  /** An item as it was, or with clients of its copies added. */
  ghost predicate Evolved(inbounds: bool, was: Json, now: Json) {
    was == now || (inbounds && was.Obj? && now.Obj? && Extends(was.fields, now.fields))
  }

  lemma UpdateEvolves(sprint: Printer, was: Json, now: Json, copy: Json)
    requires Evolved(true, was, now)
    ensures Evolved(true, was, Update(sprint, now, copy))
    ensures TagOf(Update(sprint, now, copy)) == TagOf(now)
  {
    UpdateKeepsTag(sprint, now, copy);
    if now.Obj? && copy.Obj? {
      MergeExtends(sprint, now.fields, copy.fields);
    }
  }

  /** What is kept, in which order, and in which form. */
  ghost predicate Keeps(inbounds: bool, items: seq<Json>, kept: seq<Json>) {
    var firsts := Firsts(items);
    && |kept| == |firsts|
    && (forall k :: 0 <= k < |kept| ==> Evolved(inbounds, items[firsts[k]], kept[k]))
    && (forall k :: 0 <= k < |kept| ==> TagOf(kept[k]) == TagOf(items[firsts[k]]))
  }

  /** Every tag of the items is a tag of what is kept. */
  lemma {:induction false} TagsSurvive(inbounds: bool, items: seq<Json>, kept: seq<Json>, tag: string)
    requires Keeps(inbounds, items, kept) && tag != ""
    ensures Spot(kept, tag) < |kept| <==> Spot(items, tag) < |items|
    ensures Spot(kept, tag) < |kept| ==> Firsts(items)[Spot(kept, tag)] == Spot(items, tag)
  {
    FirstsHasFirst(items, tag);
    SpotFacts(items, tag);
    SpotFacts(kept, tag);
    var f, at, firsts := Spot(items, tag), Spot(kept, tag), Firsts(items);
    if at < |kept| {
      assert TagOf(items[firsts[at]]) == tag;
      assert f <= firsts[at];
    }
    if f < |items| {
      var k :| 0 <= k < |firsts| && firsts[k] == f;
      assert TagOf(kept[k]) == tag;
      assert at <= k;
    }
  }

  lemma {:induction false} FirstsHasFirst(items: seq<Json>, tag: string)
    requires tag != ""
    ensures Spot(items, tag) < |items| ==> exists k :: 0 <= k < |Firsts(items)| && Firsts(items)[k] == Spot(items, tag)
  {
    if items != [] {
      var front := items[..|items| - 1];
      FirstsHasFirst(front, tag);
      if Spot(front, tag) < |front| {
        var k :| 0 <= k < |Firsts(front)| && Firsts(front)[k] == Spot(front, tag);
        assert Firsts(items)[k] == Firsts(front)[k];
      } else if Spot(items, tag) < |items| {
        assert Firsts(items)[|Firsts(front)|] == |front|;
      }
    }
  }

  lemma FirstsSnoc(front: seq<Json>, last: Json)
    ensures Firsts(front + [last]) ==
            Firsts(front) + (if TagOf(last) == "" || Spot(front, TagOf(last)) == |front| then [|front|] else [])
  {
    assert (front + [last])[..|front|] == front;
  }

  lemma KeepsNew(inbounds: bool, front: seq<Json>, kept: seq<Json>, last: Json)
    requires Keeps(inbounds, front, kept) && (TagOf(last) == "" || Spot(front, TagOf(last)) == |front|)
    ensures Keeps(inbounds, front + [last], kept + [last])
  {
    FirstsSnoc(front, last);
    var items, firsts, now := front + [last], Firsts(front + [last]), kept + [last];
    forall k | 0 <= k < |now|
      ensures Evolved(inbounds, items[firsts[k]], now[k]) && TagOf(now[k]) == TagOf(items[firsts[k]])
    {
      if k < |kept| {
        assert items[firsts[k]] == front[Firsts(front)[k]] && now[k] == kept[k];
      } else {
        assert items[firsts[k]] == last && now[k] == last;
      }
    }
  }

  lemma KeepsDrop(inbounds: bool, front: seq<Json>, kept: seq<Json>, last: Json)
    requires Keeps(inbounds, front, kept) && TagOf(last) != "" && Spot(front, TagOf(last)) < |front|
    ensures Keeps(inbounds, front + [last], kept)
  {
    FirstsSnoc(front, last);
    assert Firsts(front) + [] == Firsts(front);
  }

  lemma KeepsUpdate(sprint: Printer, items: seq<Json>, kept: seq<Json>, at: nat, copy: Json)
    requires Keeps(true, items, kept) && at < |kept|
    ensures Keeps(true, items, kept[at := Update(sprint, kept[at], copy)])
  {
    UpdateEvolves(sprint, items[Firsts(items)[at]], kept[at], copy);
  }

  /** The first occurrence of every tag and all untagged items are kept, in order. */
  lemma {:induction false} DedupeKeepsFirsts(sprint: Printer, inbounds: bool, items: seq<Json>)
    ensures Keeps(inbounds, items, Deduped(sprint, inbounds, items))
  {
    if items != [] {
      var front, last := items[..|items| - 1], items[|items| - 1];
      var kept := Deduped(sprint, inbounds, front);
      DedupeKeepsFirsts(sprint, inbounds, front);
      assert items == front + [last];
      if TagOf(last) == "" {
        KeepsNew(inbounds, front, kept, last);
      } else {
        TagsSurvive(inbounds, front, kept, TagOf(last));
        DedupeStepKeeps(sprint, inbounds, front, kept, last);
      }
    }
  }

  lemma DedupeStepKeeps(sprint: Printer, inbounds: bool, front: seq<Json>, kept: seq<Json>, last: Json)
    requires Keeps(inbounds, front, kept) && TagOf(last) != ""
    requires Spot(kept, TagOf(last)) < |kept| <==> Spot(front, TagOf(last)) < |front|
    ensures Keeps(inbounds, front + [last], Deduped1(sprint, inbounds, kept, last))
  {
    var at := Spot(kept, TagOf(last));
    if at == |kept| {
      KeepsNew(inbounds, front, kept, last);
    } else {
      KeepsDrop(inbounds, front, kept, last);
      if inbounds {
        KeepsUpdate(sprint, front + [last], kept, at, last);
      }
    }
  }

  ghost predicate UniqueFirsts(items: seq<Json>, firsts: seq<nat>)
    requires forall k :: 0 <= k < |firsts| ==> firsts[k] < |items|
  {
    forall k, l :: 0 <= k < l < |firsts| && TagOf(items[firsts[k]]) != "" ==>
      TagOf(items[firsts[k]]) != TagOf(items[firsts[l]])
  }

  lemma {:induction false} FirstsUnique(items: seq<Json>)
    ensures UniqueFirsts(items, Firsts(items))
  {
    if items != [] {
      var front, last := items[..|items| - 1], items[|items| - 1];
      FirstsUnique(front);
      SpotFacts(front, TagOf(last));
      assert forall k :: 0 <= k < |front| ==> items[k] == front[k];
    }
  }

  lemma {:induction false} AllFirst(items: seq<Json>)
    ensures |Firsts(items)| == |items| <==> UniqueTags(items)
  {
    if items != [] {
      var front, last := items[..|items| - 1], items[|items| - 1];
      AllFirst(front);
      SpotFacts(front, TagOf(last));
      UniqueSnoc(front, last);
      assert items == front + [last];
    }
  }

  lemma UniqueSnoc(front: seq<Json>, last: Json)
    ensures UniqueTags(front + [last]) <==>
            UniqueTags(front) && (TagOf(last) == "" || Spot(front, TagOf(last)) == |front|)
  {
    var items := front + [last];
    SpotFacts(front, TagOf(last));
    assert items[|front|] == last;
    assert forall k :: 0 <= k < |front| ==> items[k] == front[k];
    if UniqueTags(items) {
      forall k | 0 <= k < |front| && TagOf(front[k]) != ""
        ensures TagOf(front[k]) != TagOf(last)
      {
        assert TagOf(items[k]) != TagOf(items[|front|]);
      }
    }
  }

  /** After deduplication the tags are unique. */
  lemma DedupeMakesUnique(sprint: Printer, inbounds: bool, items: seq<Json>)
    ensures UniqueTags(Deduped(sprint, inbounds, items))
  {
    DedupeKeepsFirsts(sprint, inbounds, items);
    FirstsUnique(items);
  }

  lemma {:induction false} UniqueUntouched(sprint: Printer, inbounds: bool, items: seq<Json>)
    requires UniqueTags(items)
    ensures Deduped(sprint, inbounds, items) == items
  {
    if items != [] {
      var front, tag := items[..|items| - 1], TagOf(items[|items| - 1]);
      assert UniqueTags(front) by {
        assert forall k :: 0 <= k < |front| ==> front[k] == items[k];
      }
      UniqueUntouched(sprint, inbounds, front);
      forall k | 0 <= k < |front| && tag != ""
        ensures TagOf(front[k]) != tag
      {
        assert TagOf(items[k]) == TagOf(front[k]) && TagOf(items[|front|]) == tag;
      }
      SpotFacts(front, tag);
      assert front + [items[|front|]] == items;
    }
  }

  /** Deduplication leaves alone exactly what has unique tags already; so once is enough. */
  lemma DedupeIsIdempotent(sprint: Printer, inbounds: bool, items: seq<Json>)
    ensures Deduped(sprint, inbounds, items) == items <==> UniqueTags(items)
    ensures Deduped(sprint, inbounds, Deduped(sprint, inbounds, items)) == Deduped(sprint, inbounds, items)
  {
    DedupeMakesUnique(sprint, inbounds, items);
    UniqueUntouched(sprint, inbounds, Deduped(sprint, inbounds, items));
    if UniqueTags(items) {
      UniqueUntouched(sprint, inbounds, items);
    }
  }

  lemma NoneRemoved(sprint: Printer, inbounds: bool, items: seq<Json>)
    ensures |Deduped(sprint, inbounds, items)| == |items| ==> Deduped(sprint, inbounds, items) == items
  {
    DedupeKeepsFirsts(sprint, inbounds, items);
    AllFirst(items);
    if UniqueTags(items) {
      UniqueUntouched(sprint, inbounds, items);
    }
  }

  // ---------- What becomes of the first item of a tag

  lemma ExtendsItself(m: map<string, Json>)
    ensures Extends(m, m)
  {
  }

  /** An item's tag is found among the items and among what is kept. */
  lemma TagIsFound(sprint: Printer, items: seq<Json>, i: nat)
    requires i < |items| && TagOf(items[i]) != ""
    ensures Spot(items, TagOf(items[i])) <= i
    ensures Spot(Deduped(sprint, true, items), TagOf(items[i])) < |Deduped(sprint, true, items)|
  {
    SpotFacts(items, TagOf(items[i]));
    DedupeKeepsFirsts(sprint, true, items);
    TagsSurvive(true, items, Deduped(sprint, true, items), TagOf(items[i]));
  }

  /** What is kept for a tag grows with every further item. */
  lemma KeptGrows(sprint: Printer, front: seq<Json>, last: Json, tag: string)
    requires var before := Deduped(sprint, true, front); tag != "" && Spot(before, tag) < |before|
    ensures var before, kept := Deduped(sprint, true, front), Deduped(sprint, true, front + [last]);
            var at := Spot(before, tag);
            Spot(kept, tag) == at < |kept| && before[at].Obj? && kept[at].Obj? &&
            Extends(before[at].fields, kept[at].fields)
  {
    var before := Deduped(sprint, true, front);
    var at, spot := Spot(before, tag), Spot(before, TagOf(last));
    assert (front + [last])[..|front|] == front;
    SpotFacts(before, tag);
    ExtendsItself(before[at].fields);
    if TagOf(last) == "" || spot == |before| {
      SpotSnoc(before, last);
    } else {
      SpotUpdate(sprint, before, spot, last);
      if spot == at && last.Obj? {
        MergeExtends(sprint, before[at].fields, last.fields);
      }
    }
  }

  /** One item more, as it concerns the kept item of a tag. */
  lemma KeptStep(sprint: Printer, front: seq<Json>, last: Json, tag: string)
    requires var before := Deduped(sprint, true, front); tag != "" && Spot(before, tag) < |before|
    ensures var before, kept := Deduped(sprint, true, front), Deduped(sprint, true, front + [last]);
            var at := Spot(before, tag);
            Spot(kept, tag) == at < |kept| &&
            kept[at] == if TagOf(last) == tag then Update(sprint, before[at], last) else before[at]
  {
    var before := Deduped(sprint, true, front);
    assert (front + [last])[..|front|] == front;
    SpotFacts(before, tag);
    SpotFacts(before, TagOf(last));
    if TagOf(last) == "" || Spot(before, TagOf(last)) == |before| {
      SpotSnoc(before, last);
    } else {
      SpotUpdate(sprint, before, Spot(before, TagOf(last)), last);
    }
  }

  // ---------- The algorithm

  /** The map of seen tags says where each stands. */
  ghost predicate Indexes(seen: map<string, nat>, kept: seq<Json>) {
    forall t :: if t in seen then t != "" && seen[t] == Spot(kept, t) < |kept| else t == "" || Spot(kept, t) == |kept|
  }

  lemma StepUntagged(sprint: Printer, inbounds: bool, seen: map<string, nat>, kept: seq<Json>, item: Json)
    requires Indexes(seen, kept) && TagOf(item) == ""
    ensures Indexes(seen, kept + [item])
    ensures Deduped1(sprint, inbounds, kept, item) == kept + [item]
  {
    SpotSnoc(kept, item);
  }

  lemma StepNew(sprint: Printer, inbounds: bool, seen: map<string, nat>, kept: seq<Json>, item: Json)
    requires Indexes(seen, kept) && TagOf(item) != "" && TagOf(item) !in seen
    ensures Indexes(seen[TagOf(item) := |kept|], kept + [item])
    ensures Deduped1(sprint, inbounds, kept, item) == kept + [item]
  {
    SpotSnoc(kept, item);
  }

  lemma StepCopy(sprint: Printer, inbounds: bool, seen: map<string, nat>, kept: seq<Json>, copy: Json)
    requires Indexes(seen, kept) && TagOf(copy) in seen
    ensures var at := seen[TagOf(copy)];
            at < |kept| && kept[at].Obj? &&
            Indexes(seen, kept[at := Update(sprint, kept[at], copy)]) &&
            Deduped1(sprint, inbounds, kept, copy) ==
              if inbounds then kept[at := Update(sprint, kept[at], copy)] else kept
  {
    SpotFacts(kept, TagOf(copy));
    SpotUpdate(sprint, kept, Spot(kept, TagOf(copy)), copy);
  }

  lemma DedupedStep(sprint: Printer, inbounds: bool, items: seq<Json>, i: nat)
    requires i < |items|
    ensures Deduped(sprint, inbounds, items[..i + 1]) ==
            Deduped1(sprint, inbounds, Deduped(sprint, inbounds, items[..i]), items[i])
    ensures items[..i + 1] == items[..i] + [items[i]]
  {
    assert items[..i + 1] == items[..i] + [items[i]];
    DedupedSnoc(sprint, inbounds, items[..i], items[i]);
  }

  lemma DedupedSnoc(sprint: Printer, inbounds: bool, front: seq<Json>, last: Json)
    ensures Deduped(sprint, inbounds, front + [last]) == Deduped1(sprint, inbounds, Deduped(sprint, inbounds, front), last)
  {
    assert (front + [last])[..|front|] == front;
  }

  /** One round of the loop. */
  method DedupeItem(sprint: Printer, inbounds: bool, seen: map<string, nat>, kept: seq<Json>, item: Json)
    returns (seen': map<string, nat>, kept': seq<Json>, dropped: bool)
    requires Indexes(seen, kept)
    ensures Indexes(seen', kept')
    ensures kept' == Deduped1(sprint, inbounds, kept, item)
    ensures if dropped then |kept'| == |kept| else kept' == kept + [item]
  {
    if TagOf(item) == "" {
      StepUntagged(sprint, inbounds, seen, kept, item);
      return seen, kept + [item], false;
    }
    var tag := TagOf(item);
    if tag in seen {
      var first := seen[tag];
      StepCopy(sprint, inbounds, seen, kept, item);
      if !inbounds {
        return seen, kept, true;
      }
      var m := MergeInboundClients(sprint, kept[first].fields, item.fields);
      return seen, kept[first := Obj(m)], true;
    }
    StepNew(sprint, inbounds, seen, kept, item);
    return seen[tag := |kept|], kept + [item], false;
  }

  /** dedupeTaggedArrayInPlace, on the array itself; `inbounds` says whether the key is that. */
  method DedupeTaggedArray(sprint: Printer, inbounds: bool, arr: seq<Json>) returns (r: seq<Json>, removed: nat)
    ensures r == Deduped(sprint, inbounds, arr)
    ensures removed == |arr| - |r|
    ensures removed == 0 ==> r == arr
  {
    var seen: map<string, nat> := map[];
    r, removed := [], 0;
    for i := 0 to |arr|
      invariant r == Deduped(sprint, inbounds, arr[..i])
      invariant removed == i - |r|
      invariant Indexes(seen, r)
    {
      DedupedStep(sprint, inbounds, arr, i);
      var dropped;
      seen, r, dropped := DedupeItem(sprint, inbounds, seen, r, arr[i]);
      if dropped {
        removed := removed + 1;
      }
    }
    assert arr[..|arr|] == arr;
    NoneRemoved(sprint, inbounds, arr);
  }
}
