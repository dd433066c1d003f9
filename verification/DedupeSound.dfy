/** After deduplication the clients of every inbound are still pairwise apart: for which tags and protocols. */
module DedupeSound {
  import opened ClientList
  import opened DedupeLoss
  import opened DedupeShapes
  import opened Json
  import opened TagDedupe

  /** A copy cannot bring clients into the first's own list by another primary key. */
  ghost predicate Compatible(first: Json, copy: Json) {
    first.Obj? && copy.Obj? ==>
      var proto := DecidingProtocol(first.fields, copy.fields);
      ListKey(proto) == ListKey(Protocol(first.fields)) ==> PrimaryKey(proto) == PrimaryKey(Protocol(first.fields))
  }

  /** Every copy is compatible with the first inbound of its tag. */
  ghost predicate CompatibleCopies(items: seq<Json>) {
    forall i :: 0 <= i < |items| && TagOf(items[i]) != "" ==> Compatible(First(items, i), items[i])
  }

  lemma SoundAlike(sprint: Printer, arr: seq<Json>, p: string, q: string)
    requires PrimaryKey(p) == PrimaryKey(q) && Sound(sprint, arr, p)
    ensures Sound(sprint, arr, q)
  {
    forall i, j | 0 <= i < j < |arr|
      ensures Apart(sprint, arr[i], arr[j], q)
    {
      assert Apart(sprint, arr[i], arr[j], p);
    }
  }

  lemma MergeKeepsSound(sprint: Printer, dst: map<string, Json>, src: map<string, Json>)
    requires SoundInbound(sprint, Obj(dst)) && Compatible(Obj(dst), Obj(src))
    ensures SoundInbound(sprint, Obj(MergedClients(sprint, dst, src)))
  {
    var proto, own := DecidingProtocol(dst, src), Protocol(dst);
    var now := MergedClients(sprint, dst, src);
    MergeExtends(sprint, dst, src);
    assert Protocol(now) == own;
    if now != dst && ListKey(own) != "" {
      if ListKey(proto) == ListKey(own) {
        var arr := Clients(dst, ListKey(own));
        SoundAlike(sprint, arr, own, proto);
        AbsorbKeepsSound(sprint, arr, CopyClients(dst, src), proto);
        assert Clients(now, ListKey(own)) == AbsorbedAll(sprint, arr, CopyClients(dst, src), proto);
        SoundAlike(sprint, Clients(now, ListKey(own)), proto, own);
      } else {
        assert Clients(now, ListKey(own)) == Clients(dst, ListKey(own));
      }
    }
  }

  lemma CopyKeepsSound(sprint: Printer, front: seq<Json>, last: Json, at: nat)
    requires CompatibleCopies(front + [last]) && TagOf(last) != ""
    requires var before := Deduped(sprint, true, front);
             at == Spot(before, TagOf(last)) < |before| && SoundInbound(sprint, before[at])
    ensures SoundInbound(sprint, Update(sprint, Deduped(sprint, true, front)[at], last))
  {
    var before, items := Deduped(sprint, true, front), front + [last];
    SpotFacts(before, TagOf(last));
    DedupeKeepsFirsts(sprint, true, front);
    TagsSurvive(true, front, before, TagOf(last));
    SpotSnoc(front, last);
    assert First(items, |front|) == front[Spot(front, TagOf(last))] && items[|front|] == last;
    assert Compatible(First(items, |front|), last);
    assert ProtocolOf(First(items, |front|)) == Protocol(before[at].fields);
    MergeKeepsSound(sprint, before[at].fields, last.fields);
  }

  lemma StepKeepsSound(sprint: Printer, kept: seq<Json>, last: Json)
    requires AllSound(sprint, kept) && SoundInbound(sprint, last)
    requires var at := Spot(kept, TagOf(last));
             TagOf(last) != "" && at < |kept| ==> SoundInbound(sprint, Update(sprint, kept[at], last))
    ensures AllSound(sprint, Deduped1(sprint, true, kept, last))
  {
    var at := Spot(kept, TagOf(last));
    if TagOf(last) == "" || at == |kept| {
      AppendSound(sprint, kept, last);
    } else {
      ReplaceSound(sprint, kept, at, Update(sprint, kept[at], last));
    }
  }

  lemma AppendSound(sprint: Printer, kept: seq<Json>, last: Json)
    requires AllSound(sprint, kept) && SoundInbound(sprint, last)
    ensures AllSound(sprint, kept + [last])
  {
  }

  lemma ReplaceSound(sprint: Printer, kept: seq<Json>, at: nat, now: Json)
    requires AllSound(sprint, kept) && SoundInbound(sprint, now) && at < |kept|
    ensures AllSound(sprint, kept[at := now])
  {
  }

  lemma CompatibleFront(front: seq<Json>, last: Json)
    requires CompatibleCopies(front + [last])
    ensures CompatibleCopies(front)
  {
    var items := front + [last];
    SpotSnoc(front, last);
    forall i | 0 <= i < |front| && TagOf(front[i]) != ""
      ensures Compatible(First(front, i), front[i])
    {
      FirstFacts(front, i);
      assert items[i] == front[i] && First(items, i) == First(front, i);
    }
  }

  lemma {:induction false} DedupeKeepsSound(sprint: Printer, items: seq<Json>)
    requires AllSound(sprint, items) && CompatibleCopies(items)
    ensures AllSound(sprint, Deduped(sprint, true, items))
  {
    if items != [] {
      var front, last := items[..|items| - 1], items[|items| - 1];
      var kept := Deduped(sprint, true, front);
      assert items == front + [last];
      CompatibleFront(front, last);
      DedupeKeepsSound(sprint, front);
      var at := Spot(kept, TagOf(last));
      if TagOf(last) != "" && at < |kept| {
        CopyKeepsSound(sprint, front, last, at);
      }
      StepKeepsSound(sprint, kept, last);
    }
  }

  // ---------- Exactly for those

  /** Two clients with one identity, which the other protocol tells apart. */
  lemma Twins(sprint: Printer, x: Client, y: Client, p: string, q: string)
    requires PlainPrinter(sprint) && PrimaryKey(p) != "" && PrimaryKey(q) != "" && PrimaryKey(p) != PrimaryKey(q)
    requires x == map[PrimaryKey(p) := Str("a"), "email" := Str("e")]
    requires y == map[PrimaryKey(p) := Str("a"), PrimaryKey(q) := Str("s"), "email" := Str("f")]
    ensures !Known(sprint, [Obj(x)], y, q) && !Apart(sprint, Obj(x), Obj(y), p)
  {
    assert x[PrimaryKey(p)] == Str("a") && y[PrimaryKey(p)] == Str("a");
    assert PrimaryKey(q) !in x && x["email"] == Str("e") && y["email"] == Str("f");
    assert TrimSpace("e") == "e" && TrimSpace("f") == "f";
    assert !Duplicates(sprint, Obj(x), y, q);
  }

  lemma SingleIsSound(sprint: Printer, arr: seq<Json>, protocol: string)
    requires |arr| <= 1
    ensures Sound(sprint, arr, protocol)
  {
  }

  /** Merging a copy of an incompatible protocol can bring in a second client with the same identity. */
  lemma MergeBringsTwin(sprint: Printer, first: map<string, Json>, copy: map<string, Json>, x: Client, y: Client)
    requires PlainPrinter(sprint) && !Compatible(Obj(first), Obj(copy))
    requires var p, q := Protocol(first), DecidingProtocol(first, copy);
             x == map[PrimaryKey(p) := Str("a"), "email" := Str("e")] &&
             y == map[PrimaryKey(p) := Str("a"), PrimaryKey(q) := Str("s"), "email" := Str("f")] &&
             Field(first, "settings") == OneClient(ListKey(q), x) && Field(copy, "settings") == OneClient(ListKey(q), y)
    ensures SoundInbound(sprint, Obj(first)) && SoundInbound(sprint, Obj(copy))
    ensures !SoundInbound(sprint, Obj(MergedClients(sprint, first, copy)))
  {
    var p, q := Protocol(first), DecidingProtocol(first, copy);
    var now := MergedClients(sprint, first, copy);
    MergeExtends(sprint, first, copy);
    assert Protocol(now) == p;
    Twins(sprint, x, y, p, q);
    BothListed(sprint, first, copy, x, y);
    TwinsAreUnsound(sprint, now, x, y);
    OneClientIsSound(sprint, first, ListKey(q), x);
    OneClientIsSound(sprint, copy, ListKey(q), y);
  }

  lemma TwinsAreUnsound(sprint: Printer, m: map<string, Json>, x: Client, y: Client)
    requires ListKey(Protocol(m)) != "" && Clients(m, ListKey(Protocol(m))) == [Obj(x), Obj(y)]
    requires !Apart(sprint, Obj(x), Obj(y), Protocol(m))
    ensures !SoundInbound(sprint, Obj(m))
  {
    var arr := Clients(m, ListKey(Protocol(m)));
    assert !Apart(sprint, arr[0], arr[1], Protocol(m));
  }

  lemma OneClientIsSound(sprint: Printer, m: map<string, Json>, key: string, c: Client)
    requires Field(m, "settings") == OneClient(key, c)
    ensures SoundInbound(sprint, Obj(m))
  {
    SingleIsSound(sprint, Clients(m, ListKey(Protocol(m))), Protocol(m));
  }

  lemma BothListed(sprint: Printer, first: map<string, Json>, copy: map<string, Json>, x: Client, y: Client)
    requires var q := DecidingProtocol(first, copy);
             ListKey(q) != "" && !Known(sprint, [Obj(x)], y, q) &&
             Field(first, "settings") == OneClient(ListKey(q), x) && Field(copy, "settings") == OneClient(ListKey(q), y)
    ensures Clients(MergedClients(sprint, first, copy), ListKey(DecidingProtocol(first, copy))) == [Obj(x), Obj(y)]
  {
    var q := DecidingProtocol(first, copy);
    assert Clients(first, ListKey(q)) == [Obj(x)] && CopyClients(first, copy) == [Obj(y)];
    AbsorbOne(sprint, [Obj(x)], Obj(y), q);
  }

  lemma PairTurnsUnsound(sprint: Printer, x: Json, y: Json)
    requires TagOf(x) == TagOf(y) != "" && SoundInbound(sprint, x) && SoundInbound(sprint, y)
    requires !SoundInbound(sprint, Update(sprint, x, y))
    ensures AllSound(sprint, [x, y]) && !AllSound(sprint, Deduped(sprint, true, [x, y]))
  {
    PairIsMerged(sprint, x, y);
    BothSound(sprint, x, y);
    OneUnsound(sprint, Deduped(sprint, true, [x, y]), Update(sprint, x, y));
  }

  lemma BothSound(sprint: Printer, x: Json, y: Json)
    requires SoundInbound(sprint, x) && SoundInbound(sprint, y)
    ensures AllSound(sprint, [x, y])
  {
  }

  lemma OneUnsound(sprint: Printer, kept: seq<Json>, x: Json)
    requires kept == [x] && !SoundInbound(sprint, x)
    ensures !AllSound(sprint, kept)
  {
    assert kept[0] == x;
  }

  lemma PairBringsTwin(sprint: Printer, first: map<string, Json>, copy: map<string, Json>, x: Client, y: Client)
    requires PlainPrinter(sprint) && !Compatible(Obj(first), Obj(copy)) && TagOf(Obj(first)) == TagOf(Obj(copy)) != ""
    requires var p, q := Protocol(first), DecidingProtocol(first, copy);
             x == map[PrimaryKey(p) := Str("a"), "email" := Str("e")] &&
             y == map[PrimaryKey(p) := Str("a"), PrimaryKey(q) := Str("s"), "email" := Str("f")] &&
             Field(first, "settings") == OneClient(ListKey(q), x) && Field(copy, "settings") == OneClient(ListKey(q), y)
    ensures AllSound(sprint, [Obj(first), Obj(copy)])
    ensures !AllSound(sprint, Deduped(sprint, true, [Obj(first), Obj(copy)]))
  {
    MergeBringsTwin(sprint, first, copy, x, y);
    PairTurnsUnsound(sprint, Obj(first), Obj(copy));
  }

  /** A vless inbound, and a trojan copy of it that lists the same id: both end up in the list of the vless inbound. */
  lemma VlessAndTrojan(sprint: Printer)
    requires PlainPrinter(sprint)
    ensures var x, y := map["id" := Str("a"), "email" := Str("e")],
                        map["id" := Str("a"), "password" := Str("s"), "email" := Str("f")];
            var vless := Obj(map["tag" := Str("t"), "protocol" := Str("vless"), "settings" := OneClient("clients", x)]);
            var trojan := Obj(map["tag" := Str("t"), "protocol" := Str("trojan"), "settings" := OneClient("clients", y)]);
            AllSound(sprint, [vless, trojan]) && !AllSound(sprint, Deduped(sprint, true, [vless, trojan]))
  {
    var x, y := map["id" := Str("a"), "email" := Str("e")],
                map["id" := Str("a"), "password" := Str("s"), "email" := Str("f")];
    var vless := map["tag" := Str("t"), "protocol" := Str("vless"), "settings" := OneClient("clients", x)];
    var trojan := map["tag" := Str("t"), "protocol" := Str("trojan"), "settings" := OneClient("clients", y)];
    VlessKeys();
    TrojanKeys();
    PairBringsTwin(sprint, vless, trojan, x, y);
  }

  lemma BareIsSound(sprint: Printer, item: Json)
    requires item.Obj? ==> !HasSettings(item.fields)
    ensures SoundInbound(sprint, item)
  {
  }

  /** Wherever a copy is incompatible, sound contents that deduplication makes unsound. */
  lemma SomeUnsound(sprint: Printer, shape: seq<Json>) returns (items: seq<Json>)
    requires PlainPrinter(sprint) && !CompatibleCopies(shape)
    ensures SameShape(shape, items) && AllSound(sprint, items)
    ensures !AllSound(sprint, Deduped(sprint, true, items))
  {
    var i :| 0 <= i < |shape| && TagOf(shape[i]) != "" && !Compatible(First(shape, i), shape[i]);
    var f := IncompatibleFirst(shape, i, First(shape, i));
    items := UnsoundAt(sprint, shape, f, i);
  }

  lemma IncompatibleFirst(shape: seq<Json>, i: nat, first: Json) returns (f: nat)
    requires i < |shape| && TagOf(shape[i]) != "" && first == First(shape, i) && !Compatible(first, shape[i])
    ensures f < i && f == Spot(shape, TagOf(shape[i])) && shape[f].Obj? && shape[i].Obj? && !Compatible(shape[f], shape[i])
  {
    f := Spot(shape, TagOf(shape[i]));
    FirstFacts(shape, i);
    SelfCompatible(shape[i]);
  }

  lemma SelfCompatible(x: Json)
    ensures Compatible(x, x)
  {
  }

  lemma UnsoundAt(sprint: Printer, shape: seq<Json>, f: nat, i: nat) returns (items: seq<Json>)
    requires PlainPrinter(sprint) && f < i < |shape| && TagOf(shape[i]) != "" && f == Spot(shape, TagOf(shape[i]))
    requires shape[f].Obj? && shape[i].Obj? && !Compatible(shape[f], shape[i])
    ensures SameShape(shape, items) && AllSound(sprint, items)
    ensures !AllSound(sprint, Deduped(sprint, true, items))
  {
    var p, q := ProtocolOf(shape[f]), DecidingProtocol(shape[f].fields, shape[i].fields);
    var x: Client := map[PrimaryKey(p) := Str("a"), "email" := Str("e")];
    var y: Client := map[PrimaryKey(p) := Str("a"), PrimaryKey(q) := Str("s"), "email" := Str("f")];
    var a, b := OneClient(ListKey(q), x), OneClient(ListKey(q), y);
    items := TwoDressed(shape, f, a, i, b);
    DressedShape(shape, f, a, i, b);
    SpotOfShape(shape, items, TagOf(shape[i]));
    DressedAt(shape, items, f, a, i, b);
    MergeBringsTwin(sprint, items[f].fields, items[i].fields, x, y);
    OthersAreBare(sprint, items, f, i);
    UnsoundOfTwo(sprint, items, f, i);
  }

  /** What the two inbounds with settings look like. */
  lemma DressedAt(shape: seq<Json>, items: seq<Json>, f: nat, a: Json, i: nat, b: Json)
    requires f < i < |shape| && shape[f].Obj? && shape[i].Obj? && items == TwoDressed(shape, f, a, i, b)
    ensures items[f].Obj? && Field(items[f].fields, "settings") == a && Protocol(items[f].fields) == Protocol(shape[f].fields)
    ensures items[i].Obj? && Field(items[i].fields, "settings") == b && Protocol(items[i].fields) == Protocol(shape[i].fields)
    ensures TagOf(items[f]) == TagOf(shape[f]) && TagOf(items[i]) == TagOf(shape[i]) && OthersBare(items, f, i)
  {
  }

  lemma OthersAreBare(sprint: Printer, items: seq<Json>, f: nat, i: nat)
    requires f < |items| && i < |items| && SoundInbound(sprint, items[f]) && SoundInbound(sprint, items[i])
    requires OthersBare(items, f, i)
    ensures AllSound(sprint, items)
  {
    forall k | 0 <= k < |items|
      ensures SoundInbound(sprint, items[k])
    {
      if k != f && k != i {
        BareIsSound(sprint, items[k]);
      }
    }
  }

  lemma UnsoundOfTwo(sprint: Printer, items: seq<Json>, f: nat, i: nat)
    requires f < i < |items| && TagOf(items[i]) != "" && f == Spot(items, TagOf(items[i]))
    requires OthersBare(items, f, i)
    requires !SoundInbound(sprint, Update(sprint, items[f], items[i]))
    ensures !AllSound(sprint, Deduped(sprint, true, items))
  {
    KeptOfTwo(sprint, items, f, i);
    var kept := Deduped(sprint, true, items);
    assert !SoundInbound(sprint, kept[Spot(kept, TagOf(items[i]))]);
  }

  lemma CompatibleShape(shape: seq<Json>, items: seq<Json>)
    requires SameShape(shape, items) && CompatibleCopies(shape)
    ensures CompatibleCopies(items)
  {
    forall i | 0 <= i < |items| && TagOf(items[i]) != ""
      ensures Compatible(First(items, i), items[i])
    {
      SameFirst(shape, items, i);
      assert Compatible(First(shape, i), shape[i]);
    }
  }

  /** Whatever the contents, deduplication keeps the clients of every inbound apart, exactly if every copy is
      compatible with the first inbound of its tag. */
  lemma DedupeIsSoundExactly(sprint: Printer, shape: seq<Json>)
    requires PlainPrinter(sprint)
    ensures (forall items :: SameShape(shape, items) && AllSound(sprint, items) ==>
               AllSound(sprint, Deduped(sprint, true, items))) <==>
            CompatibleCopies(shape)
  {
    if CompatibleCopies(shape) {
      forall items | SameShape(shape, items) && AllSound(sprint, items)
        ensures AllSound(sprint, Deduped(sprint, true, items))
      {
        CompatibleShape(shape, items);
        DedupeKeepsSound(sprint, items);
      }
    } else {
      var items := SomeUnsound(sprint, shape);
    }
  }

  // ---------- A batch of client additions, and the deduplication behind it

  lemma {:induction false} BatchKeepsShape(sprint: Printer, inbounds: seq<Json>, batch: seq<BatchItem>)
    ensures SameShape(inbounds, BatchApplied(sprint, inbounds, batch))
  {
    if batch != [] {
      BatchKeepsShape(sprint, inbounds, batch[..|batch| - 1]);
    }
  }

  function BatchDeduped(sprint: Printer, inbounds: seq<Json>, batch: seq<BatchItem>): seq<Json> {
    Deduped(sprint, true, BatchApplied(sprint, inbounds, batch))
  }

  /** After a batch and the deduplication that follows it tags are unique; and whatever the contents and the batch,
      every inbound is sound, exactly if every copy is compatible with the first inbound of its tag. */
  lemma BatchOutcome(sprint: Printer, shape: seq<Json>)
    requires PlainPrinter(sprint)
    ensures forall inbounds, batch :: UniqueTags(BatchDeduped(sprint, inbounds, batch))
    ensures (forall inbounds, batch :: SameShape(shape, inbounds) && AllSound(sprint, inbounds) ==>
               AllSound(sprint, BatchDeduped(sprint, inbounds, batch))) <==>
            CompatibleCopies(shape)
  {
    forall inbounds, batch
      ensures UniqueTags(BatchDeduped(sprint, inbounds, batch))
    {
      DedupeMakesUnique(sprint, true, BatchApplied(sprint, inbounds, batch));
    }
    if CompatibleCopies(shape) {
      forall inbounds, batch | SameShape(shape, inbounds) && AllSound(sprint, inbounds)
        ensures AllSound(sprint, BatchDeduped(sprint, inbounds, batch))
      {
        BatchKeepsSound(sprint, inbounds, batch);
        BatchKeepsShape(sprint, inbounds, batch);
        CompatibleShape(shape, inbounds);
        CompatibleShape(inbounds, BatchApplied(sprint, inbounds, batch));
        DedupeKeepsSound(sprint, BatchApplied(sprint, inbounds, batch));
      }
    } else {
      var items := SomeUnsound(sprint, shape);
      assert BatchDeduped(sprint, items, []) == Deduped(sprint, true, items);
    }
  }
}
