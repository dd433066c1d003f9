/** The clients of an inbound: when two are the same, and adding and removing them. */
module ClientList {
  import opened Filters
  import opened Json

  // ---------- Protocols

  /** unicode.ToLower, as far as a result is an ASCII letter: U+0130 and U+212A become `i` and `k`. */
  function LowerChar(c: char): char {
    if 'A' <= c <= 'Z' then (c as int + 32) as char
    else if c == '\U{0130}' then 'i'
    else if c == '\U{212A}' then 'k'
    else c
  }

  function ToLower(s: string): string {
    if s == "" then "" else [LowerChar(s[0])] + ToLower(s[1..])
  }

  /** The field that identifies a client, "" if the protocol is not known. */
  function PrimaryKey(protocol: string): string {
    var p := ToLower(protocol);
    if p == "vless" || p == "vmess" then "id"
    else if p == "trojan" || p == "shadowsocks" || p == "anytls" then "password"
    else if p == "snell" then "psk"
    else if p == "mieru" then "username"
    else if p == "hysteria" then "auth"
    else if p == "socks" || p == "http" then "user"
    else ""
  }

  /** The field of the settings that lists the clients, "" if the protocol is not known. */
  function ListKey(protocol: string): string {
    var p := ToLower(protocol);
    if p == "vless" || p == "vmess" || p == "trojan" || p == "shadowsocks" || p == "hysteria" then "clients"
    else if p == "anytls" || p == "snell" || p == "mieru" then "users"
    else if p == "socks" || p == "http" then "accounts"
    else ""
  }

  /** The protocols, what identifies their clients, and where these are listed. */
  const PROTOCOLS: seq<(string, string, string)> := [
    ("vless", "id", "clients"), ("vmess", "id", "clients"), ("trojan", "password", "clients"),
    ("shadowsocks", "password", "clients"), ("anytls", "password", "users"), ("snell", "psk", "users"),
    ("mieru", "username", "users"), ("hysteria", "auth", "clients"), ("socks", "user", "accounts"),
    ("http", "user", "accounts")]

  /** Both tables are this one, whatever the case of the name. */
  lemma KeysOfProtocol(protocol: string, i: nat)
    requires i < |PROTOCOLS| && ToLower(protocol) == PROTOCOLS[i].0
    ensures PrimaryKey(protocol) == PROTOCOLS[i].1 && ListKey(protocol) == PROTOCOLS[i].2
  {
  }

  lemma UnknownProtocol(protocol: string)
    requires forall i :: 0 <= i < |PROTOCOLS| ==> ToLower(protocol) != PROTOCOLS[i].0
    ensures PrimaryKey(protocol) == "" && ListKey(protocol) == ""
  {
    assert PROTOCOLS[0].0 == "vless" && PROTOCOLS[1].0 == "vmess" && PROTOCOLS[2].0 == "trojan" && PROTOCOLS[3].0 == "shadowsocks";
    assert PROTOCOLS[4].0 == "anytls" && PROTOCOLS[5].0 == "snell" && PROTOCOLS[6].0 == "mieru" && PROTOCOLS[7].0 == "hysteria";
    assert PROTOCOLS[8].0 == "socks" && PROTOCOLS[9].0 == "http";
  }

  // ---------- When two clients are the same

  type Client = map<string, Json>

  predicate HasValue(sprint: Printer, m: Client, key: string) {
    var v := sprint(Field(m, key));
    v != "" && v != "<nil>"
  }

  predicate BothEqual(sprint: Printer, a: Client, b: Client, key: string) {
    HasValue(sprint, a, key) && HasValue(sprint, b, key) && sprint(Field(a, key)) == sprint(Field(b, key))
  }

  /** matchClientCredential */
  predicate Match(sprint: Printer, a: Client, b: Client, protocol: string) {
    var key := PrimaryKey(protocol);
    if key != "" && HasValue(sprint, a, key) && HasValue(sprint, b, key)
    then BothEqual(sprint, a, b, key)
    else BothEqual(sprint, a, b, "email")
  }

  /** The rule in the comment on the code: the primary key or the email is there on both sides and equal. */
  predicate EitherAgrees(sprint: Printer, a: Client, b: Client, protocol: string) {
    (PrimaryKey(protocol) != "" && BothEqual(sprint, a, b, PrimaryKey(protocol))) || BothEqual(sprint, a, b, "email")
  }

  /** Two clients with different primary keys share an email. */
  predicate SharedEmail(sprint: Printer, a: Client, b: Client, protocol: string) {
    var key := PrimaryKey(protocol);
    key != "" && HasValue(sprint, a, key) && HasValue(sprint, b, key) && sprint(Field(a, key)) != sprint(Field(b, key)) &&
    BothEqual(sprint, a, b, "email")
  }

  /** The code follows that rule exactly for clients that do not. */
  lemma MatchIsEitherExactly(sprint: Printer, a: Client, b: Client, protocol: string)
    ensures (Match(sprint, a, b, protocol) <==> EitherAgrees(sprint, a, b, protocol)) <==>
            !SharedEmail(sprint, a, b, protocol)
  {
  }

  /** Two vless clients with one email are not the same client. */
  lemma OneEmailTwoIds(sprint: Printer)
    requires forall s :: sprint(Str(s)) == s
    ensures var a: Client := map["id" := Str("x"), "email" := Str("e")];
            var b: Client := map["id" := Str("y"), "email" := Str("e")];
            EitherAgrees(sprint, a, b, "vless") && !Match(sprint, a, b, "vless")
  {
    var a: Client := map["id" := Str("x"), "email" := Str("e")];
    var b: Client := map["id" := Str("y"), "email" := Str("e")];
    assert ToLower("vless") == "vless";
    assert Field(a, "id") == Str("x") && Field(b, "id") == Str("y");
    assert Field(a, "email") == Str("e") && Field(b, "email") == Str("e");
  }

  /** unicode.IsSpace */
  predicate IsSpace(c: char) {
    '\t' <= c <= '\r' || c == ' ' || c == '\U{0085}' || c == '\U{00A0}' || c == '\U{1680}' ||
    '\U{2000}' <= c <= '\U{200A}' || c == '\U{2028}' || c == '\U{2029}' || c == '\U{202F}' ||
    c == '\U{205F}' || c == '\U{3000}'
  }

  function TrimLeft(s: string): string {
    if s != "" && IsSpace(s[0]) then TrimLeft(s[1..]) else s
  }

  function TrimRight(s: string): string {
    if s != "" && IsSpace(s[|s| - 1]) then TrimRight(s[..|s| - 1]) else s
  }

  function TrimSpace(s: string): string {
    TrimRight(TrimLeft(s))
  }

  predicate AllSpace(s: string) {
    forall i :: 0 <= i < |s| ==> IsSpace(s[i])
  }

  lemma {:induction false} TrimmedLeft(s: string) returns (front: string)
    ensures AllSpace(front) && s == front + TrimLeft(s)
    ensures TrimLeft(s) == "" || !IsSpace(TrimLeft(s)[0])
  {
    if s != "" && IsSpace(s[0]) {
      var more := TrimmedLeft(s[1..]);
      front := [s[0]] + more;
      assert s == [s[0]] + s[1..];
    } else {
      front := "";
    }
  }

  lemma {:induction false} TrimmedRight(s: string) returns (back: string)
    ensures AllSpace(back) && s == TrimRight(s) + back
    ensures TrimRight(s) == "" || !IsSpace(TrimRight(s)[|TrimRight(s)| - 1])
  {
    if s != "" && IsSpace(s[|s| - 1]) {
      var more := TrimmedRight(s[..|s| - 1]);
      back := more + [s[|s| - 1]];
      assert s == s[..|s| - 1] + [s[|s| - 1]];
    } else {
      back := "";
    }
  }

  /** Trimming takes the spaces at both ends and nothing else. */
  lemma Trimmed(s: string) returns (front: string, back: string)
    ensures AllSpace(front) && AllSpace(back) && s == front + TrimSpace(s) + back
    ensures var t := TrimSpace(s); t == "" || (!IsSpace(t[0]) && !IsSpace(t[|t| - 1]))
  {
    front := TrimmedLeft(s);
    back := TrimmedRight(TrimLeft(s));
  }

  function Email(sprint: Printer, m: Client): string {
    TrimSpace(sprint(Field(m, "email")))
  }

  /** sameNonEmptyClientEmail */
  predicate SameEmail(sprint: Printer, a: Client, b: Client) {
    Email(sprint, a) != "" && Email(sprint, a) != "<nil>" && Email(sprint, a) == Email(sprint, b)
  }

  /** A client that would be recognised: it has its primary key or an email. */
  predicate Identifiable(sprint: Printer, c: Client, protocol: string) {
    (PrimaryKey(protocol) != "" && HasValue(sprint, c, PrimaryKey(protocol))) || HasValue(sprint, c, "email")
  }

  lemma MatchItself(sprint: Printer, c: Client, protocol: string)
    ensures Match(sprint, c, c, protocol) <==> Identifiable(sprint, c, protocol)
    ensures SameEmail(sprint, c, c) ==> Identifiable(sprint, c, protocol)
  {
  }

  /** Nothing matches a client that has neither. */
  lemma UnidentifiableMatchesNone(sprint: Printer, a: Client, c: Client, protocol: string)
    requires !Identifiable(sprint, c, protocol)
    ensures !Match(sprint, a, c, protocol) && !SameEmail(sprint, a, c)
  {
    MatchItself(sprint, c, protocol);
  }

  // ---------- Lists of clients

  predicate Matches(sprint: Printer, item: Json, client: Client, protocol: string) {
    item.Obj? && Match(sprint, item.fields, client, protocol)
  }

  predicate Present(sprint: Printer, arr: seq<Json>, client: Client, protocol: string) {
    exists i :: 0 <= i < |arr| && Matches(sprint, arr[i], client, protocol)
  }

  predicate HasEmailOf(sprint: Printer, item: Json, client: Client) {
    item.Obj? && SameEmail(sprint, item.fields, client)
  }

  /** The first place from i on with the client's email, |arr| if there is none. */
  function EmailSpot(sprint: Printer, arr: seq<Json>, client: Client, i: nat): (at: nat)
    requires i <= |arr|
    ensures i <= at <= |arr|
    ensures forall k :: i <= k < at ==> !HasEmailOf(sprint, arr[k], client)
    ensures at < |arr| ==> HasEmailOf(sprint, arr[at], client)
    decreases |arr| - i
  {
    if i == |arr| || HasEmailOf(sprint, arr[i], client) then i else EmailSpot(sprint, arr, client, i + 1)
  }

  /** The list after add-client. */
  function Added(sprint: Printer, arr: seq<Json>, client: Client, protocol: string): seq<Json> {
    if Present(sprint, arr, client, protocol) then arr
    else
      var at := EmailSpot(sprint, arr, client, 0);
      if at < |arr| then arr[at := Obj(client)] else arr + [Obj(client)]
  }

  method AddClient(sprint: Printer, arr: seq<Json>, client: Client, protocol: string)
    returns (changed: bool, r: seq<Json>)
    ensures r == Added(sprint, arr, client, protocol)
    ensures changed <==> !Present(sprint, arr, client, protocol)
  {
    r, changed := arr, false;
    for i := 0 to |arr|
      invariant forall k :: 0 <= k < i ==> !Matches(sprint, arr[k], client, protocol)
    {
      if arr[i].Obj? && Match(sprint, arr[i].fields, client, protocol) {
        return;
      }
    }
    changed := true;
    var replacedByEmail := false;
    for i := 0 to |arr|
      invariant r == arr && !replacedByEmail
      invariant EmailSpot(sprint, arr, client, 0) == EmailSpot(sprint, arr, client, i)
    {
      if arr[i].Obj? && SameEmail(sprint, arr[i].fields, client) {
        r := r[i := Obj(client)];
        replacedByEmail := true;
        break;
      }
    }
    if !replacedByEmail {
      r := r + [Obj(client)];
    }
  }

  function Kept(sprint: Printer, client: Client, protocol: string): Json -> bool {
    (item: Json) => !Matches(sprint, item, client, protocol)
  }

  /** The list after remove-client. */
  function Removed(sprint: Printer, arr: seq<Json>, client: Client, protocol: string): seq<Json> {
    Filter(arr, Kept(sprint, client, protocol))
  }

  lemma RemovedNext(sprint: Printer, arr: seq<Json>, i: nat, client: Client, protocol: string)
    requires i < |arr|
    ensures Removed(sprint, arr[..i + 1], client, protocol) ==
            Removed(sprint, arr[..i], client, protocol) +
            if arr[i].Obj? && Match(sprint, arr[i].fields, client, protocol) then [] else [arr[i]]
    ensures arr[..i + 1] == arr[..i] + [arr[i]]
  {
    FilterNext(arr, i, Kept(sprint, client, protocol));
  }

  method RemoveClient(sprint: Printer, arr: seq<Json>, client: Client, protocol: string)
    returns (removed: nat, r: seq<Json>)
    ensures r == Removed(sprint, arr, client, protocol)
    ensures removed == |arr| - |r|
    ensures removed == 0 ==> r == arr
  {
    r, removed := [], 0;
    for i := 0 to |arr|
      invariant r == Removed(sprint, arr[..i], client, protocol)
      invariant removed == i - |r|
      invariant removed == 0 ==> r == arr[..i]
    {
      RemovedNext(sprint, arr, i, client, protocol);
      if arr[i].Obj? && Match(sprint, arr[i].fields, client, protocol) {
        removed := removed + 1;
        continue;
      }
      r := r + [arr[i]];
    }
    assert arr[..|arr|] == arr;
  }

  // ---------- What every list keeps

  predicate SameKey(sprint: Printer, a: Client, b: Client, protocol: string) {
    PrimaryKey(protocol) != "" && BothEqual(sprint, a, b, PrimaryKey(protocol))
  }

  /** Neither the same email nor the same primary key. */
  predicate Apart(sprint: Printer, x: Json, y: Json, protocol: string) {
    x.Obj? && y.Obj? ==> !SameEmail(sprint, x.fields, y.fields) && !SameKey(sprint, x.fields, y.fields, protocol)
  }

  lemma ApartSymmetric(sprint: Printer, x: Json, y: Json, protocol: string)
    ensures Apart(sprint, x, y, protocol) <==> Apart(sprint, y, x, protocol)
  {
  }

  /** The clients of an inbound are pairwise apart. */
  predicate Sound(sprint: Printer, arr: seq<Json>, protocol: string) {
    forall i, j :: 0 <= i < j < |arr| ==> Apart(sprint, arr[i], arr[j], protocol)
  }

  lemma NewcomerIsApart(sprint: Printer, item: Json, client: Client, protocol: string)
    requires !Matches(sprint, item, client, protocol)
    ensures Apart(sprint, item, Obj(client), protocol) <==> !HasEmailOf(sprint, item, client)
  {
  }

  /** Adding keeps the list sound. */
  lemma AddKeepsSound(sprint: Printer, arr: seq<Json>, client: Client, protocol: string)
    requires Sound(sprint, arr, protocol)
    ensures Sound(sprint, Added(sprint, arr, client, protocol), protocol)
  {
    if !Present(sprint, arr, client, protocol) {
      var at, r := EmailSpot(sprint, arr, client, 0), Added(sprint, arr, client, protocol);
      forall k | 0 <= k < |arr| && k != at
        ensures Apart(sprint, arr[k], Obj(client), protocol) && Apart(sprint, Obj(client), arr[k], protocol)
      {
        if k > at {
          assert Apart(sprint, arr[at], arr[k], protocol);
        }
        NewcomerIsApart(sprint, arr[k], client, protocol);
        ApartSymmetric(sprint, arr[k], Obj(client), protocol);
      }
    }
  }

  lemma {:induction false} FilterKeepsSound(sprint: Printer, arr: seq<Json>, keep: Json -> bool, protocol: string)
    requires Sound(sprint, arr, protocol)
    ensures Sound(sprint, Filter(arr, keep), protocol)
  {
    if arr != [] {
      var front, last := arr[..|arr| - 1], arr[|arr| - 1];
      FilterKeepsSound(sprint, front, keep, protocol);
      FilterMembers(front, keep);
      var kept := Filter(front, keep);
      forall i | 0 <= i < |kept|
        ensures Apart(sprint, kept[i], last, protocol)
      {
        assert kept[i] in kept;
        var k :| 0 <= k < |front| && front[k] == kept[i];
        assert arr[k] == front[k];
      }
    }
  }

  datatype Edit = Add(client: Client) | Remove(client: Client)

  function Edited(sprint: Printer, arr: seq<Json>, edits: seq<Edit>, protocol: string): seq<Json> {
    if edits == [] then arr
    else
      var before := Edited(sprint, arr, edits[..|edits| - 1], protocol);
      match edits[|edits| - 1]
      case Add(c) => Added(sprint, before, c, protocol)
      case Remove(c) => Removed(sprint, before, c, protocol)
  }

  /** So does every sequence of additions and removals. */
  lemma {:induction false} EditsKeepSound(sprint: Printer, arr: seq<Json>, edits: seq<Edit>, protocol: string)
    requires Sound(sprint, arr, protocol)
    ensures Sound(sprint, Edited(sprint, arr, edits, protocol), protocol)
  {
    if edits != [] {
      EditsKeepSound(sprint, arr, edits[..|edits| - 1], protocol);
      var before := Edited(sprint, arr, edits[..|edits| - 1], protocol);
      match edits[|edits| - 1]
      case Add(c) => AddKeepsSound(sprint, before, c, protocol);
      case Remove(c) => FilterKeepsSound(sprint, before, Kept(sprint, c, protocol), protocol);
    }
  }

  // ---------- Twice and back

  lemma AddedIsPresent(sprint: Printer, arr: seq<Json>, client: Client, protocol: string)
    requires Identifiable(sprint, client, protocol)
    ensures Present(sprint, Added(sprint, arr, client, protocol), client, protocol)
  {
    MatchItself(sprint, client, protocol);
    if !Present(sprint, arr, client, protocol) {
      var at := EmailSpot(sprint, arr, client, 0);
      assert Added(sprint, arr, client, protocol)[at] == Obj(client);
    }
  }

  lemma UnidentifiableIsAppended(sprint: Printer, arr: seq<Json>, client: Client, protocol: string)
    requires !Identifiable(sprint, client, protocol)
    ensures Added(sprint, arr, client, protocol) == arr + [Obj(client)]
  {
    forall k | 0 <= k < |arr|
      ensures !Matches(sprint, arr[k], client, protocol) && !HasEmailOf(sprint, arr[k], client)
    {
      if arr[k].Obj? {
        UnidentifiableMatchesNone(sprint, arr[k].fields, client, protocol);
      }
    }
  }

  /** Adding a client twice is adding it once, exactly if it can be recognised at all. */
  lemma AddIsIdempotent(sprint: Printer, arr: seq<Json>, client: Client, protocol: string)
    ensures var once := Added(sprint, arr, client, protocol);
            Added(sprint, once, client, protocol) == once <==> Identifiable(sprint, client, protocol)
  {
    if Identifiable(sprint, client, protocol) {
      AddedIsPresent(sprint, arr, client, protocol);
    } else {
      UnidentifiableIsAppended(sprint, arr, client, protocol);
      UnidentifiableIsAppended(sprint, Added(sprint, arr, client, protocol), client, protocol);
    }
  }

  /** Removing a client straight after adding it restores the list, exactly if it can be recognised and the
      addition had appended it. */
  lemma RemoveUndoesAdd(sprint: Printer, arr: seq<Json>, client: Client, protocol: string)
    ensures Removed(sprint, Added(sprint, arr, client, protocol), client, protocol) == arr <==>
            && Identifiable(sprint, client, protocol)
            && !Present(sprint, arr, client, protocol)
            && EmailSpot(sprint, arr, client, 0) == |arr|
  {
    var r, keep := Added(sprint, arr, client, protocol), Kept(sprint, client, protocol);
    if Identifiable(sprint, client, protocol) {
      AddedIsPresent(sprint, arr, client, protocol);
      if !Present(sprint, arr, client, protocol) && EmailSpot(sprint, arr, client, 0) == |arr| {
        FilterKeepsAll(arr, keep);
        MatchItself(sprint, client, protocol);
        assert r[..|arr|] == arr;
      } else {
        RemovalShrinks(sprint, r, client, protocol);
      }
    } else {
      UnidentifiableIsAppended(sprint, arr, client, protocol);
      FilterMembers(r, keep);
      MatchItself(sprint, client, protocol);
      NothingMatches(sprint, r, client, protocol);
    }
  }

  lemma NothingMatches(sprint: Printer, arr: seq<Json>, client: Client, protocol: string)
    requires !Identifiable(sprint, client, protocol)
    ensures Removed(sprint, arr, client, protocol) == arr
  {
    forall item | item in arr
      ensures Kept(sprint, client, protocol)(item)
    {
      if item.Obj? {
        UnidentifiableMatchesNone(sprint, item.fields, client, protocol);
      }
    }
    FilterKeepsAll(arr, Kept(sprint, client, protocol));
  }

  lemma {:induction false} RemovalShrinks(sprint: Printer, arr: seq<Json>, client: Client, protocol: string)
    ensures |Removed(sprint, arr, client, protocol)| <= |arr|
    ensures Present(sprint, arr, client, protocol) ==> |Removed(sprint, arr, client, protocol)| < |arr|
  {
    if arr != [] {
      var front := arr[..|arr| - 1];
      RemovalShrinks(sprint, front, client, protocol);
      if Present(sprint, arr, client, protocol) && Kept(sprint, client, protocol)(arr[|arr| - 1]) {
        var k :| 0 <= k < |arr| && Matches(sprint, arr[k], client, protocol);
        assert front[k] == arr[k];
      }
    }
  }

  // ---------- Clients inside the inbounds of a configuration

  function Protocol(inbound: map<string, Json>): string {
    StringField(inbound, "protocol")
  }

  predicate HasSettings(inbound: map<string, Json>) {
    Field(inbound, "settings").Obj?
  }

  /** Missing settings count as empty. */
  function Settings(inbound: map<string, Json>): map<string, Json> {
    var s := Field(inbound, "settings");
    if s.Obj? then s.fields else map[]
  }

  /** The list under a key of the settings. */
  function Clients(inbound: map<string, Json>, key: string): seq<Json> {
    Items(Field(Settings(inbound), key))
  }

  function WithClients(inbound: map<string, Json>, key: string, arr: seq<Json>): map<string, Json> {
    inbound["settings" := Obj(Settings(inbound)[key := Arr(arr)])]
  }

  datatype Outcome = Changed | Unchanged | Unsupported(protocol: string) | NotFound(tag: string)

  predicate HasTag(inbound: Json, tag: string) {
    inbound.Obj? && Tag(inbound.fields) == tag
  }

  function FirstTagged(inbounds: seq<Json>, tag: string, i: nat): (at: nat)
    requires i <= |inbounds|
    ensures i <= at <= |inbounds|
    ensures forall k :: i <= k < at ==> !HasTag(inbounds[k], tag)
    ensures at < |inbounds| ==> HasTag(inbounds[at], tag)
    decreases |inbounds| - i
  {
    if i == |inbounds| || HasTag(inbounds[i], tag) then i else FirstTagged(inbounds, tag, i + 1)
  }

  /** One inbound after a client has been added. It gets settings even if nothing else happens. */
  function Joined(sprint: Printer, m: map<string, Json>, client: Client): (map<string, Json>, Outcome) {
    var key := ListKey(Protocol(m));
    var m1 := if HasSettings(m) then m else m["settings" := Obj(map[])];
    if key == "" then (m1, Unsupported(Protocol(m)))
    else if Present(sprint, Clients(m, key), client, Protocol(m)) then (m1, Unchanged)
    else (WithClients(m1, key, Added(sprint, Clients(m, key), client, Protocol(m))), Changed)
  }

  function Applied(sprint: Printer, inbounds: seq<Json>, tag: string, client: Client): (seq<Json>, Outcome) {
    var at := FirstTagged(inbounds, tag, 0);
    if at == |inbounds| then (inbounds, NotFound(tag))
    else
      var (m, outcome) := Joined(sprint, inbounds[at].fields, client);
      (inbounds[at := Obj(m)], outcome)
  }

  /** applyAddClientToConfig */
  method ApplyAddClient(sprint: Printer, inbounds: seq<Json>, tag: string, client: Client)
    returns (r: seq<Json>, outcome: Outcome)
    ensures (r, outcome) == Applied(sprint, inbounds, tag, client)
  {
    r := inbounds;
    for i := 0 to |inbounds|
      invariant r == inbounds && FirstTagged(inbounds, tag, 0) == FirstTagged(inbounds, tag, i)
    {
      if !inbounds[i].Obj? || Tag(inbounds[i].fields) != tag {
        continue;
      }
      var m := inbounds[i].fields;
      if !HasSettings(m) {
        m := m["settings" := Obj(map[])];
      }
      r := inbounds[i := Obj(m)];
      var key := ListKey(Protocol(m));
      if key == "" {
        return r, Unsupported(Protocol(m));
      }
      var changed, arr := AddClient(sprint, Clients(m, key), client, Protocol(m));
      if !changed {
        return r, Unchanged;
      }
      return inbounds[i := Obj(WithClients(m, key, arr))], Changed;
    }
    return r, NotFound(tag);
  }

  /** The inbound's own list of clients is sound. */
  predicate SoundInbound(sprint: Printer, inbound: Json) {
    inbound.Obj? && ListKey(Protocol(inbound.fields)) != "" ==>
      Sound(sprint, Clients(inbound.fields, ListKey(Protocol(inbound.fields))), Protocol(inbound.fields))
  }

  predicate AllSound(sprint: Printer, inbounds: seq<Json>) {
    forall i :: 0 <= i < |inbounds| ==> SoundInbound(sprint, inbounds[i])
  }

  lemma JoinKeepsSound(sprint: Printer, m: map<string, Json>, client: Client)
    requires SoundInbound(sprint, Obj(m))
    ensures SoundInbound(sprint, Obj(Joined(sprint, m, client).0))
  {
    var key := ListKey(Protocol(m));
    if key != "" {
      AddKeepsSound(sprint, Clients(m, key), client, Protocol(m));
    }
  }

  /** One entry of a batch; a request without a client has Null. */
  datatype BatchItem = BatchItem(tag: string, client: Json)

  /** What a batch of additions leaves. An item without tag or client is refused. */
  function BatchApplied(sprint: Printer, inbounds: seq<Json>, batch: seq<BatchItem>): seq<Json> {
    if batch == [] then inbounds
    else
      var before, item := BatchApplied(sprint, inbounds, batch[..|batch| - 1]), batch[|batch| - 1];
      if item.tag == "" || !item.client.Obj? then before
      else Applied(sprint, before, item.tag, item.client.fields).0
  }

  /** A batch over a whole configuration leaves every inbound sound. */
  lemma {:induction false} BatchKeepsSound(sprint: Printer, inbounds: seq<Json>, batch: seq<BatchItem>)
    requires AllSound(sprint, inbounds)
    ensures AllSound(sprint, BatchApplied(sprint, inbounds, batch))
  {
    if batch != [] {
      var before, item := BatchApplied(sprint, inbounds, batch[..|batch| - 1]), batch[|batch| - 1];
      BatchKeepsSound(sprint, inbounds, batch[..|batch| - 1]);
      if item.tag != "" && item.client.Obj? {
        var at := FirstTagged(before, item.tag, 0);
        if at < |before| {
          JoinKeepsSound(sprint, before[at].fields, item.client.fields);
        }
      }
    }
  }
}
