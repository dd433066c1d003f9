/** Deduplication is meant to lose no client. Which clients of dropped inbounds survive in the kept one. */
module DedupeLoss {
  import opened ClientList
  import opened DedupeShapes
  import opened Json
  import opened TagDedupe

  /** The clients that the inbound's own protocol makes it serve. */
  function OwnClients(m: map<string, Json>): seq<Json> {
    var key := ListKey(Protocol(m));
    if key == "" then [] else Clients(m, key)
  }

  /** The clients a copy lists: under the key of the deciding protocol, or under any key if that is not known. */
  function Listed(first: map<string, Json>, copy: map<string, Json>): seq<Json> {
    var key := ListKey(DecidingProtocol(first, copy));
    if key != "" then Clients(copy, key) else Clients(copy, "clients") + Clients(copy, "users") + Clients(copy, "accounts")
  }

  /** Each of them is served by the kept inbound, or one that its protocol takes for the same is. */
  ghost predicate Served(sprint: Printer, first: map<string, Json>, copy: map<string, Json>, now: map<string, Json>) {
    forall c :: c in Listed(first, copy) ==> Covers(sprint, OwnClients(now), c, Protocol(now))
  }

  /** The deciding protocol is known, and lists and identifies clients as the first's own protocol does. */
  predicate Alike(first: map<string, Json>, copy: map<string, Json>) {
    var p, q := Protocol(first), DecidingProtocol(first, copy);
    ListKey(q) != "" && ListKey(q) == ListKey(p) && PrimaryKey(q) == PrimaryKey(p)
  }

  lemma CoversAlike(sprint: Printer, arr: seq<Json>, c: Json, p: string, q: string)
    requires PrimaryKey(p) == PrimaryKey(q)
    ensures Covers(sprint, arr, c, p) <==> Covers(sprint, arr, c, q)
  {
    if c.Obj? {
      forall i | 0 <= i < |arr|
        ensures Duplicates(sprint, arr[i], c.fields, p) <==> Duplicates(sprint, arr[i], c.fields, q)
      {
      }
    }
  }

  /** Merging a copy into an inbound with settings and an alike protocol loses no client. */
  lemma MergeServes(sprint: Printer, first: map<string, Json>, copy: map<string, Json>, now: map<string, Json>)
    requires HasSettings(first) && Alike(first, copy) && Extends(first, now)
    ensures Served(sprint, first, copy, MergedClients(sprint, now, copy))
  {
    var p, q := Protocol(first), DecidingProtocol(first, copy);
    var cs, after := CopyClients(now, copy), MergedClients(sprint, now, copy);
    assert Protocol(now) == p;
    MergeExtends(sprint, now, copy);
    AbsorbCovers(sprint, Clients(now, ListKey(q)), cs, q);
    if cs != [] {
      assert Clients(after, ListKey(q)) == AbsorbedAll(sprint, Clients(now, ListKey(q)), cs, q);
      forall c | c in cs
        ensures Covers(sprint, OwnClients(after), c, Protocol(after))
      {
        CoversAlike(sprint, OwnClients(after), c, p, q);
      }
    }
  }

  /** For one merge: with an alike protocol the copy's clients are served exactly if the first has settings or there
      are none; into an inbound without settings, clients of no protocol come. */
  lemma MergeLosesNoClient(sprint: Printer, first: map<string, Json>, copy: map<string, Json>)
    ensures var served := Served(sprint, first, copy, MergedClients(sprint, first, copy));
            (Alike(first, copy) ==> (served <==> HasSettings(first) || Listed(first, copy) == [])) &&
            (!HasSettings(first) ==> (served <==> Listed(first, copy) == []))
  {
    var cs := Listed(first, copy);
    if HasSettings(first) && Alike(first, copy) {
      ExtendsItself(first);
      MergeServes(sprint, first, copy, first);
    }
    if !HasSettings(first) && cs != [] {
      assert cs[0] in cs;
    }
  }

  lemma ServedLater(sprint: Printer, first: map<string, Json>, copy: map<string, Json>,
                    now: map<string, Json>, later: map<string, Json>)
    requires Served(sprint, first, copy, now) && Extends(now, later)
    ensures Served(sprint, first, copy, later)
  {
    assert Protocol(later) == Protocol(now);
    var xs, ys := OwnClients(now), OwnClients(later);
    assert ListKey(Protocol(now)) in ["", "clients", "users", "accounts"];
    assert xs <= ys;
    forall c | c in Listed(first, copy)
      ensures Covers(sprint, ys, c, Protocol(later))
    {
      CoverGrows(sprint, xs, ys[|xs|..], c, Protocol(now));
    }
  }

  // ---------- The whole array

  /** The clients of item i are served by what is kept for its tag. */
  ghost predicate ClientsSurvive(sprint: Printer, items: seq<Json>, i: nat)
    requires i < |items|
  {
    var kept := Deduped(sprint, true, items);
    var at := Spot(kept, TagOf(items[i]));
    First(items, i).Obj? && items[i].Obj? && at < |kept| && kept[at].Obj? &&
    Served(sprint, First(items, i).fields, items[i].fields, kept[at].fields)
  }

  /** The first item of a tag is kept, with at most more clients. */
  lemma KeptIsFirst(sprint: Printer, items: seq<Json>, i: nat)
    requires i < |items| && TagOf(items[i]) != ""
    ensures var kept := Deduped(sprint, true, items);
            var at := Spot(kept, TagOf(items[i]));
            at < |kept| && First(items, i).Obj? && kept[at].Obj? && Extends(First(items, i).fields, kept[at].fields)
  {
    var kept := Deduped(sprint, true, items);
    TagIsFound(sprint, items, i);
    FirstFacts(items, i);
    DedupeKeepsFirsts(sprint, true, items);
    TagsSurvive(true, items, kept, TagOf(items[i]));
    SpotFacts(kept, TagOf(items[i]));
    ExtendsItself(First(items, i).fields);
  }

  predicate FirstTakes(items: seq<Json>, i: nat)
    requires i < |items|
  {
    First(items, i).Obj? && items[i].Obj? && HasSettings(First(items, i).fields) &&
    Alike(First(items, i).fields, items[i].fields)
  }

  lemma EarlierSurvives(sprint: Printer, front: seq<Json>, last: Json, i: nat)
    requires i < |front| && TagOf(front[i]) != "" && ClientsSurvive(sprint, front, i)
    ensures ClientsSurvive(sprint, front + [last], i)
  {
    var items, tag := front + [last], TagOf(front[i]);
    SpotSnoc(front, last);
    FirstFacts(front, i);
    KeptGrows(sprint, front, last, tag);
    var before, kept := Deduped(sprint, true, front), Deduped(sprint, true, items);
    ServedLater(sprint, First(front, i).fields, front[i].fields,
                before[Spot(before, tag)].fields, kept[Spot(kept, tag)].fields);
  }

  lemma LastSurvives(sprint: Printer, front: seq<Json>, last: Json)
    requires TagOf(last) != "" && FirstTakes(front + [last], |front|)
    ensures ClientsSurvive(sprint, front + [last], |front|)
  {
    var items, tag := front + [last], TagOf(last);
    var f := Spot(front, tag);
    SpotSnoc(front, last);
    SpotFacts(front, tag);
    if f < |front| {
      KeptIsFirst(sprint, front, f);
      KeptStep(sprint, front, last, tag);
      var before := Deduped(sprint, true, front);
      MergeServes(sprint, First(items, |front|).fields, last.fields, before[Spot(before, tag)].fields);
    } else {
      FirstKept(sprint, front, last);
    }
  }

  /** Every client of every inbound is served by the kept one of its tag, if the first of the tag has settings and
      the protocols are alike. */
  lemma {:induction false} NoClientLost(sprint: Printer, items: seq<Json>, i: nat)
    requires i < |items| && TagOf(items[i]) != "" && FirstTakes(items, i)
    ensures ClientsSurvive(sprint, items, i)
    decreases |items|
  {
    var front, last := items[..|items| - 1], items[|items| - 1];
    assert items == front + [last];
    if i < |front| {
      SpotSnoc(front, last);
      FirstFacts(front, i);
      NoClientLost(sprint, front, i);
      EarlierSurvives(sprint, front, last, i);
    } else {
      LastSurvives(sprint, front, last);
    }
  }

  /** For one array: an inbound with an alike protocol keeps its clients exactly if the first of its tag has settings
      or it lists none; without settings, clients of no protocol survive. */
  lemma DedupeLosesNoClient(sprint: Printer, items: seq<Json>, i: nat)
    requires i < |items| && TagOf(items[i]) != ""
    ensures First(items, i).Obj? &&
            var first, copy := First(items, i).fields, items[i].fields;
            (Alike(first, copy) ==> (ClientsSurvive(sprint, items, i) <==> HasSettings(first) || Listed(first, copy) == [])) &&
            (!HasSettings(first) ==> (ClientsSurvive(sprint, items, i) <==> Listed(first, copy) == []))
  {
    KeptIsFirst(sprint, items, i);
    var kept := Deduped(sprint, true, items);
    var first, now := First(items, i), kept[Spot(kept, TagOf(items[i]))];
    var cs := Listed(first.fields, items[i].fields);
    if FirstTakes(items, i) {
      NoClientLost(sprint, items, i);
    }
    if !HasSettings(first.fields) && cs != [] {
      assert now == first;
      assert cs[0] in cs && OwnClients(now.fields) == [];
    }
  }

  // ---------- For which tags and protocols nothing can be lost

  /** Settings that list one client, whatever the list is called. */
  function OneClient(key: string, c: Client): Json {
    Obj(map[key := Arr([Obj(c)])])
  }

  /** The kept inbound serves nobody if it has no settings, or the copy's clients are listed under another key. */
  lemma LostUnderOtherKey(sprint: Printer, first: map<string, Json>, copy: map<string, Json>, c: Client, key: string)
    requires Field(first, "settings") == Null || Field(first, "settings") == Obj(map[])
    requires var q := DecidingProtocol(first, copy);
             key == (if ListKey(q) == "" then "clients" else ListKey(q)) &&
             (HasSettings(first) ==> ListKey(q) == "" || ListKey(q) != ListKey(Protocol(first)))
    requires Field(copy, "settings") == OneClient(key, c)
    ensures !Served(sprint, first, copy, MergedClients(sprint, first, copy))
  {
    var now := MergedClients(sprint, first, copy);
    MergeExtends(sprint, first, copy);
    assert Protocol(now) == Protocol(first);
    assert Clients(copy, key) == [Obj(c)];
    assert Obj(c) in Listed(first, copy);
    assert OwnClients(now) == [];
  }

  /** Two clients that one protocol takes for the same and the other tells apart. */
  lemma OneForTheOther(sprint: Printer, x: Client, y: Client, p: string, q: string)
    requires PlainPrinter(sprint) && PrimaryKey(p) != "" && PrimaryKey(q) != "" && PrimaryKey(p) != PrimaryKey(q)
    requires x == map[PrimaryKey(p) := Str("a"), PrimaryKey(q) := Str("s")]
    requires y == map[PrimaryKey(p) := Str("b"), PrimaryKey(q) := Str("s")]
    ensures Known(sprint, [Obj(x)], y, q) && !Covers(sprint, [Obj(x)], Obj(y), p)
  {
    assert x[PrimaryKey(p)] == Str("a") && y[PrimaryKey(p)] == Str("b");
    assert x[PrimaryKey(q)] == Str("s") && y[PrimaryKey(q)] == Str("s");
    NoEmail(sprint, x);
    assert Duplicates(sprint, [Obj(x)][0], y, q);
    assert !Duplicates(sprint, Obj(x), y, p);
  }

  lemma AbsorbOne(sprint: Printer, arr: seq<Json>, c: Json, protocol: string)
    ensures AbsorbedAll(sprint, arr, [c], protocol) == Absorbed(sprint, arr, c, protocol)
  {
    assert [c][..0] == [];
  }

  /** A client that agrees with one of the first in the key of the copy's protocol is taken for known, though the
      first's protocol tells the two apart. */
  lemma LostUnderOtherPrimaryKey(sprint: Printer, first: map<string, Json>, copy: map<string, Json>,
                                 x: Client, y: Client)
    requires PlainPrinter(sprint)
    requires var p, q := Protocol(first), DecidingProtocol(first, copy);
             ListKey(q) != "" && ListKey(q) == ListKey(p) && PrimaryKey(q) != PrimaryKey(p) &&
             x == map[PrimaryKey(p) := Str("a"), PrimaryKey(q) := Str("s")] &&
             y == map[PrimaryKey(p) := Str("b"), PrimaryKey(q) := Str("s")] &&
             Field(first, "settings") == OneClient(ListKey(q), x) && Field(copy, "settings") == OneClient(ListKey(q), y)
    ensures !Served(sprint, first, copy, MergedClients(sprint, first, copy))
  {
    var p, q := Protocol(first), DecidingProtocol(first, copy);
    var now := MergedClients(sprint, first, copy);
    MergeExtends(sprint, first, copy);
    OneForTheOther(sprint, x, y, p, q);
    KnownIsLost(sprint, first, copy, now, x, y, p);
  }

  lemma KnownIsLost(sprint: Printer, first: map<string, Json>, copy: map<string, Json>, now: map<string, Json>,
                    x: Client, y: Client, p: string)
    requires now == MergedClients(sprint, first, copy) && Protocol(now) == p
    requires var q := DecidingProtocol(first, copy);
             ListKey(q) != "" && ListKey(q) == ListKey(p) && Known(sprint, [Obj(x)], y, q) &&
             Field(first, "settings") == OneClient(ListKey(q), x) && Field(copy, "settings") == OneClient(ListKey(q), y)
    requires !Covers(sprint, [Obj(x)], Obj(y), p)
    ensures !Served(sprint, first, copy, now)
  {
    var q := DecidingProtocol(first, copy);
    KnownIsDropped(sprint, first, copy, x, y);
    assert Clients(copy, ListKey(q)) == [Obj(y)] && Obj(y) in Listed(first, copy);
    NotServed(sprint, first, copy, now, Obj(y), [Obj(x)], p);
  }

  lemma NotServed(sprint: Printer, first: map<string, Json>, copy: map<string, Json>, now: map<string, Json>,
                  c: Json, own: seq<Json>, p: string)
    requires c in Listed(first, copy) && own == OwnClients(now) && p == Protocol(now) && !Covers(sprint, own, c, p)
    ensures !Served(sprint, first, copy, now)
  {
  }

  lemma KnownIsDropped(sprint: Printer, first: map<string, Json>, copy: map<string, Json>, x: Client, y: Client)
    requires var q := DecidingProtocol(first, copy);
             ListKey(q) != "" && Known(sprint, [Obj(x)], y, q) &&
             Field(first, "settings") == OneClient(ListKey(q), x) && Field(copy, "settings") == OneClient(ListKey(q), y)
    ensures Clients(MergedClients(sprint, first, copy), ListKey(DecidingProtocol(first, copy))) == [Obj(x)]
  {
    var q := DecidingProtocol(first, copy);
    assert Clients(first, ListKey(q)) == [Obj(x)] && CopyClients(first, copy) == [Obj(y)];
    AbsorbOne(sprint, [Obj(x)], Obj(y), q);
  }

  lemma NoEmail(sprint: Printer, c: Client)
    requires PlainPrinter(sprint) && "email" !in c
    ensures Email(sprint, c) == "<nil>"
  {
    assert TrimLeft("<nil>") == "<nil>";
  }

  predicate FirstHasSettings(items: seq<Json>, i: nat)
    requires i < |items|
  {
    First(items, i).Obj? && HasSettings(First(items, i).fields)
  }

  /** In an array in which only the first of a tag and one copy have settings, what is kept is their merge. */
  lemma TwoDecide(sprint: Printer, shape: seq<Json>, i: nat, a: Json, b: Json) returns (items: seq<Json>)
    requires i < |shape| && TagOf(shape[i]) != "" && Spot(shape, TagOf(shape[i])) < i
    ensures SameShape(shape, items) && First(items, i).Obj? && items[i].Obj?
    ensures Field(First(items, i).fields, "settings") == a && Field(items[i].fields, "settings") == b
    ensures var first, copy := First(items, i).fields, items[i].fields;
            ClientsSurvive(sprint, items, i) <==> Served(sprint, first, copy, MergedClients(sprint, first, copy))
  {
    var f := Spot(shape, TagOf(shape[i]));
    items := TwoDressed(shape, f, a, i, b);
    DressedShape(shape, f, a, i, b);
    SpotOfShape(shape, items, TagOf(shape[i]));
    FirstFacts(shape, i);
    FirstFacts(items, i);
    KeptOfTwo(sprint, items, f, i);
  }

  /** Wherever the condition fails, contents that lose a client. */
  lemma SomeClientLost(sprint: Printer, shape: seq<Json>, i: nat, hasSettings: bool) returns (items: seq<Json>)
    requires PlainPrinter(sprint) && i < |shape| && TagOf(shape[i]) != "" && Spot(shape, TagOf(shape[i])) < i
    requires First(shape, i).Obj? && !(hasSettings && Alike(First(shape, i).fields, shape[i].fields))
    ensures SameShape(shape, items) && FirstHasSettings(items, i) == hasSettings
    ensures !ClientsSurvive(sprint, items, i)
  {
    var p, q := Protocol(First(shape, i).fields), DecidingProtocol(First(shape, i).fields, shape[i].fields);
    SpotFacts(shape, TagOf(shape[i]));
    if hasSettings && ListKey(q) != "" && ListKey(q) == ListKey(p) {
      var x: Client := map[PrimaryKey(p) := Str("a"), PrimaryKey(q) := Str("s")];
      var y: Client := map[PrimaryKey(p) := Str("b"), PrimaryKey(q) := Str("s")];
      items := TwoDecide(sprint, shape, i, OneClient(ListKey(q), x), OneClient(ListKey(q), y));
      SameFirst(shape, items, i);
      LostUnderOtherPrimaryKey(sprint, First(items, i).fields, items[i].fields, x, y);
    } else {
      var key := if ListKey(q) == "" then "clients" else ListKey(q);
      items := TwoDecide(sprint, shape, i, if hasSettings then Obj(map[]) else Null, OneClient(key, map["email" := Str("a")]));
      SameFirst(shape, items, i);
      LostUnderOtherKey(sprint, First(items, i).fields, items[i].fields, map["email" := Str("a")], key);
    }
  }

  lemma SameFirst(shape: seq<Json>, items: seq<Json>, i: nat)
    requires SameShape(shape, items) && i < |shape| && TagOf(shape[i]) != ""
    ensures First(shape, i).Obj? && First(items, i).Obj? && shape[i].Obj? && items[i].Obj?
    ensures Protocol(First(shape, i).fields) == Protocol(First(items, i).fields)
    ensures Protocol(shape[i].fields) == Protocol(items[i].fields)
  {
    SpotOfShape(shape, items, TagOf(shape[i]));
    FirstFacts(shape, i);
    FirstFacts(items, i);
  }

  /** A dropped inbound is safe from losing clients, whatever the contents, exactly if the first of its tag has settings
      and their protocols are alike. */
  lemma SafeFromLossExactly(sprint: Printer, shape: seq<Json>, i: nat, hasSettings: bool)
    requires PlainPrinter(sprint) && i < |shape| && TagOf(shape[i]) != "" && Spot(shape, TagOf(shape[i])) < i
    ensures First(shape, i).Obj? &&
            ((forall items :: SameShape(shape, items) && FirstHasSettings(items, i) == hasSettings ==>
                ClientsSurvive(sprint, items, i)) <==>
             hasSettings && Alike(First(shape, i).fields, shape[i].fields))
  {
    FirstFacts(shape, i);
    if hasSettings && Alike(First(shape, i).fields, shape[i].fields) {
      forall items | SameShape(shape, items) && FirstHasSettings(items, i) == hasSettings
        ensures ClientsSurvive(sprint, items, i)
      {
        SameFirst(shape, items, i);
        NoClientLost(sprint, items, i);
      }
    } else {
      var items := SomeClientLost(sprint, shape, i, hasSettings);
    }
  }

  // ---------- Two inputs

  lemma PairLoses(sprint: Printer, first: map<string, Json>, copy: map<string, Json>, c: Client, key: string)
    requires TagOf(Obj(first)) == TagOf(Obj(copy)) != ""
    requires Field(first, "settings") == Null || Field(first, "settings") == Obj(map[])
    requires var q := DecidingProtocol(first, copy);
             key == (if ListKey(q) == "" then "clients" else ListKey(q)) &&
             (HasSettings(first) ==> ListKey(q) == "" || ListKey(q) != ListKey(Protocol(first)))
    requires Field(copy, "settings") == OneClient(key, c)
    ensures !ClientsSurvive(sprint, [Obj(first), Obj(copy)], 1)
  {
    PairIsMerged(sprint, Obj(first), Obj(copy));
    LostUnderOtherKey(sprint, first, copy, c, key);
  }

  /** A vless inbound, and a copy of it that is socks: the account ends up in a list that vless does not read. */
  lemma VlessAndSocks(sprint: Printer)
    ensures var vless := map["tag" := Str("t"), "protocol" := Str("vless"), "settings" := Obj(map[])];
            var socks := map["tag" := Str("t"), "protocol" := Str("socks"),
                             "settings" := OneClient("accounts", map["user" := Str("u")])];
            !ClientsSurvive(sprint, [Obj(vless), Obj(socks)], 1)
  {
    var vless := map["tag" := Str("t"), "protocol" := Str("vless"), "settings" := Obj(map[])];
    var socks := map["tag" := Str("t"), "protocol" := Str("socks"),
                     "settings" := OneClient("accounts", map["user" := Str("u")])];
    VlessKeys();
    SocksKeys();
    PairLoses(sprint, vless, socks, map["user" := Str("u")], "accounts");
  }

  /** A vless inbound, and a copy whose protocol the code does not know: the copy is dropped with its clients. */
  lemma VlessAndUnknown(sprint: Printer)
    ensures var vless := map["tag" := Str("t"), "protocol" := Str("vless"), "settings" := Obj(map[])];
            var other := map["tag" := Str("t"), "protocol" := Str("tuic"),
                             "settings" := OneClient("clients", map["id" := Str("u")])];
            !ClientsSurvive(sprint, [Obj(vless), Obj(other)], 1)
  {
    var vless := map["tag" := Str("t"), "protocol" := Str("vless"), "settings" := Obj(map[])];
    var other := map["tag" := Str("t"), "protocol" := Str("tuic"),
                     "settings" := OneClient("clients", map["id" := Str("u")])];
    VlessKeys();
    TuicKeys();
    PairLoses(sprint, vless, other, map["id" := Str("u")], "clients");
  }

  lemma VlessKeys()
    ensures ListKey("vless") == "clients" && PrimaryKey("vless") == "id"
  {
    assert ToLower("vless") == "vless";
  }

  lemma TrojanKeys()
    ensures ListKey("trojan") == "clients" && PrimaryKey("trojan") == "password"
  {
    assert ToLower("trojan") == "trojan";
  }

  lemma SocksKeys()
    ensures ListKey("socks") == "accounts"
  {
    assert ToLower("socks") == "socks";
  }

  lemma TuicKeys()
    ensures ListKey("tuic") == ""
  {
    assert ToLower("tuic") == "tuic";
  }

  /** Of two inbounds with one tag, what is kept is the merge. */
  lemma PairIsMerged(sprint: Printer, x: Json, y: Json)
    requires TagOf(x) == TagOf(y) != ""
    ensures Deduped(sprint, true, [x, y]) == [Update(sprint, x, y)]
    ensures First([x, y], 1) == x && Spot([Update(sprint, x, y)], TagOf(y)) == 0
  {
    assert [x, y][..1] == [x] && [x][..0] == [];
    UpdateKeepsTag(sprint, x, y);
    SpotUnique([x, y], TagOf(y), 0);
    SpotUnique([x], TagOf(y), 0);
    SpotUnique([Update(sprint, x, y)], TagOf(y), 0);
    assert Deduped(sprint, true, [x]) == [x];
  }
}
