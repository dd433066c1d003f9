/** Speed limits of live connections: the bucket of an email is one object that outlives every reconfiguration, as long
    as no collection of the online users finds the email idle. */
module RateBuckets {
  import opened ConnTracking

  // ---------- Rates

  /** What a bucket lets through, in bytes a second, and at once. */
  datatype Rate = Limited(bytes: nat, burst: nat) | Unlimited

  function DetermineRate(nodeLimit: nat, userLimit: nat): (r: nat)
    ensures r == 0 <==> nodeLimit == 0 && userLimit == 0
    ensures r == nodeLimit || r == userLimit
    ensures nodeLimit != 0 ==> r <= nodeLimit
    ensures userLimit != 0 ==> r <= userLimit
  {
    if nodeLimit == 0 && userLimit == 0 then 0
    else if nodeLimit == 0 then userLimit
    else if userLimit == 0 then nodeLimit
    else if nodeLimit < userLimit then nodeLimit
    else userLimit
  }

  /** A quarter of a second's worth, at least 64 and at most 256 KiB. */
  function CalcBurst(bytesPerSec: nat): (b: nat)
    ensures 0x1_0000 <= b <= 0x4_0000
    ensures 0x4_0000 <= bytesPerSec <= 0x10_0000 ==> 4 * b <= bytesPerSec < 4 * b + 4
    ensures (bytesPerSec < 0x4_0000 ==> b == 0x1_0000) && (bytesPerSec > 0x10_0000 ==> b == 0x4_0000)
  {
    var b := bytesPerSec / 4;
    if b < 0x1_0000 then 0x1_0000 else if b > 0x4_0000 then 0x4_0000 else b
  }

  function RateFor(limit: nat): Rate {
    Limited(limit, CalcBurst(limit))
  }

  /** What a bucket starts with, and goes back to. */
  function StaticRate(nodeLimit: nat, userLimit: nat): (r: Rate)
    ensures r.Unlimited? <==> nodeLimit == 0 && userLimit == 0
    ensures r.Limited? ==>
              && r.bytes > 0 && (r.bytes == nodeLimit || r.bytes == userLimit)
              && (nodeLimit != 0 ==> r.bytes <= nodeLimit) && (userLimit != 0 ==> r.bytes <= userLimit)
              && r.burst == CalcBurst(r.bytes)
  {
    var limit := DetermineRate(nodeLimit, userLimit);
    if limit > 0 then RateFor(limit) else Unlimited
  }

  // ---------- Users

  datatype UserInfo = UserInfo(uid: int, email: string, speedLimit: nat, deviceLimit: int, connGroup: string)

  function UserConnGroup(u: UserInfo): string {
    if u.connGroup != "" then u.connGroup else u.email
  }

  function Digits(n: nat): string {
    if n < 10 then [('0' as int + n) as char] else Digits(n / 10) + [('0' as int + n % 10) as char]
  }

  function Decimal(n: int): string {
    if n < 0 then "-" + Digits(-n) else Digits(n)
  }

  lemma {:induction false} DigitsPlain(n: nat)
    ensures '|' !in Digits(n)
  {
    if n >= 10 {
      DigitsPlain(n / 10);
    }
  }

  function Prefix(tag: string, email: string): string {
    tag + ("|" + (email + "|"))
  }

  function Key(tag: string, u: UserInfo): string {
    tag + ("|" + (u.email + ("|" + Decimal(u.uid))))
  }

  /** Without '|' in emails, the prefix finds the user of that email and no other. */
  lemma PrefixFindsEmail(tag: string, u: UserInfo, email: string)
    requires '|' !in email && '|' !in u.email
    ensures Prefix(tag, email) <= Key(tag, u) <==> u.email == email
  {
    var p, k, n := Prefix(tag, email), Key(tag, u), |tag|;
    DigitsPlain(if u.uid < 0 then -u.uid else u.uid);
    var rest := u.email + ("|" + Decimal(u.uid));
    assert forall i :: 0 <= i < |rest| && i != |u.email| ==> rest[i] != '|';
    assert forall i :: 0 <= i < |rest| ==> k[n + 1 + i] == rest[i];
    assert forall i :: 0 <= i < |email| ==> p[n + 1 + i] == email[i];
    assert p[n + 1 + |email|] == '|';
    assert u.email == email ==> k == p + Decimal(u.uid);
    if p <= k {
      assert k[n + 1 + |email|] == '|';
      assert rest[|email|] == '|';
      assert |email| == |u.email|;
      forall i | 0 <= i < |email|
        ensures email[i] == u.email[i]
      {
        assert p[n + 1 + i] == k[n + 1 + i];
      }
    }
  }

  /** The users of an inbound, by key. */
  function Table(tag: string, users: seq<UserInfo>): map<string, UserInfo> {
    if users == [] then map[]
    else
      var u := users[|users| - 1];
      Table(tag, users[..|users| - 1])[Key(tag, u) := u]
  }

  /** A scan over the table may stop at any entry whose key has the prefix. */
  predicate Hit(table: map<string, UserInfo>, tag: string, email: string, u: UserInfo) {
    exists k :: k in table && Prefix(tag, email) <= k && table[k] == u
  }

  /** The speed limit that a scan yields, 0 if nothing is found. */
  predicate LimitOf(table: map<string, UserInfo>, tag: string, email: string, limit: nat) {
    (exists u :: u in table.Values && Hit(table, tag, email, u) && u.speedLimit == limit) ||
    (limit == 0 && forall u :: u in table.Values ==> !Hit(table, tag, email, u))
  }

  /** Some user with this email has this limit. */
  predicate UserLimit(table: map<string, UserInfo>, email: string, limit: nat) {
    exists k :: k in table && table[k].email == email && table[k].speedLimit == limit
  }

  /** Nobody has this email, or somebody without a limit. */
  predicate MaybeUnlimited(table: map<string, UserInfo>, email: string) {
    UserLimit(table, email, 0) || forall k :: k in table ==> table[k].email != email
  }

  /** Emails are distinct and free of '|'. */
  predicate SoundUsers(users: seq<UserInfo>) {
    (forall i :: 0 <= i < |users| ==> '|' !in users[i].email) &&
    forall i, j :: 0 <= i < j < |users| ==> users[i].email != users[j].email
  }

  lemma {:induction false} TableMembers(tag: string, users: seq<UserInfo>)
    ensures forall k :: k in Table(tag, users) ==> Table(tag, users)[k] in users && k == Key(tag, Table(tag, users)[k])
  {
    if users != [] {
      TableMembers(tag, users[..|users| - 1]);
    }
  }

  lemma KeysDiffer(tag: string, u: UserInfo, v: UserInfo)
    requires '|' !in u.email && '|' !in v.email && u.email != v.email
    ensures Key(tag, u) != Key(tag, v)
  {
    PrefixFindsEmail(tag, u, v.email);
    PrefixFindsEmail(tag, v, v.email);
  }

  lemma {:induction false} TableHas(tag: string, users: seq<UserInfo>, i: nat)
    requires SoundUsers(users) && i < |users|
    ensures Key(tag, users[i]) in Table(tag, users) && Table(tag, users)[Key(tag, users[i])] == users[i]
    decreases |users|
  {
    var front, last := users[..|users| - 1], users[|users| - 1];
    if i < |front| {
      assert SoundUsers(front) by {
        assert forall k :: 0 <= k < |front| ==> front[k] == users[k];
      }
      TableHas(tag, front, i);
      KeysDiffer(tag, users[i], last);
    }
  }

  /** With such users, a scan finds exactly the user of the email. */
  lemma ScanFindsUser(tag: string, users: seq<UserInfo>, email: string, u: UserInfo)
    requires SoundUsers(users) && '|' !in email
    ensures Hit(Table(tag, users), tag, email, u) <==> u in users && u.email == email
  {
    var table := Table(tag, users);
    TableMembers(tag, users);
    if Hit(table, tag, email, u) {
      var k :| k in table && Prefix(tag, email) <= k && table[k] == u;
      assert k == Key(tag, u);
      PrefixFindsEmail(tag, u, email);
    }
    if u in users && u.email == email {
      var i :| 0 <= i < |users| && users[i] == u;
      PrefixFindsEmail(tag, u, email);
      TableHas(tag, users, i);
    }
  }

  // ---------- Buckets

  class Bucket {
    var rate: Rate

    constructor (rate: Rate)
      ensures this.rate == rate
    {
      this.rate := rate;
    }
  }

  /** BucketHub and UserOnlineIP, which are made together and handed on together: the buckets, and the addresses seen
      since the last collection, by email. */
  class BucketHub {
    var buckets: map<string, Bucket>
    var online: map<string, set<string>>

    constructor ()
      ensures buckets == map[] && online == map[]
    {
      buckets, online := map[], map[];
    }
  }

  datatype InboundInfo = InboundInfo(nodeSpeedLimit: nat, userInfo: map<string, UserInfo>, hub: BucketHub)

  /** All limits at some moment: the inbounds, the hubs with their buckets and addresses, the rates of the buckets and
      for whom each was made, and the emails under an automatic limit. */
  datatype Limits = Limits(infos: map<string, InboundInfo>, hubs: map<BucketHub, map<string, Bucket>>,
                           online: map<BucketHub, map<string, set<string>>>,
                           rates: map<Bucket, Rate>, owners: map<Bucket, (BucketHub, string)>, auto: set<string>)

  const NO_LIMITS := Limits(map[], map[], map[], map[], map[], {})

  ghost predicate HubsOk(st: Limits) {
    && st.online.Keys == st.hubs.Keys
    && (forall t :: t in st.infos ==> st.infos[t].hub in st.hubs)
    && (forall t, t' :: t in st.infos && t' in st.infos && st.infos[t].hub == st.infos[t'].hub ==> t == t')
  }

  /** No two emails share a bucket: each bucket is where its owner is. */
  ghost predicate BucketsOk(st: Limits) {
    st.owners.Keys == st.rates.Keys &&
    forall h, e :: h in st.hubs && e in st.hubs[h] ==>
      var b := st.hubs[h][e];
      b in st.rates && st.owners[b] == (h, e)
  }

  ghost predicate LimitsOk(st: Limits) {
    HubsOk(st) && BucketsOk(st)
  }

  function Buckets(st: Limits, tag: string): map<string, Bucket> {
    if tag in st.infos && st.infos[tag].hub in st.hubs then st.hubs[st.infos[tag].hub] else map[]
  }

  function OnlineIPs(st: Limits, tag: string): map<string, set<string>> {
    if tag in st.infos && st.infos[tag].hub in st.online then st.online[st.infos[tag].hub] else map[]
  }

  /** Writing the limit of a user into the bucket, if there is one; a limit of 0 leaves it alone. */
  function RatedFor(rates: map<Bucket, Rate>, buckets: map<string, Bucket>, node: nat, u: UserInfo): map<Bucket, Rate> {
    var limit := DetermineRate(node, u.speedLimit);
    if limit > 0 && u.email in buckets then rates[buckets[u.email] := RateFor(limit)] else rates
  }

  /** The new limits of all users, one after the other. */
  function Rerated(rates: map<Bucket, Rate>, buckets: map<string, Bucket>, node: nat, users: seq<UserInfo>): map<Bucket, Rate> {
    if users == [] then rates
    else
      RatedFor(Rerated(rates, buckets, node, users[..|users| - 1]), buckets, node, users[|users| - 1])
  }

  /** The last limit other than 0 that the users have for an email. */
  function LastLimit(node: nat, users: seq<UserInfo>, email: string): nat {
    if users == [] then 0
    else
      var u := users[|users| - 1];
      var limit := DetermineRate(node, u.speedLimit);
      if limit > 0 && u.email == email then limit else LastLimit(node, users[..|users| - 1], email)
  }

  lemma {:induction false} LastLimitOfUser(node: nat, users: seq<UserInfo>, i: nat)
    requires i < |users| && forall j, k :: 0 <= j < k < |users| ==> users[j].email != users[k].email
    ensures LastLimit(node, users, users[i].email) == DetermineRate(node, users[i].speedLimit)
    decreases |users|
  {
    var front := users[..|users| - 1];
    if i < |front| {
      LastLimitOfUser(node, front, i);
    } else {
      NoLimit(node, front, users[i].email);
    }
  }

  lemma {:induction false} NoLimit(node: nat, users: seq<UserInfo>, email: string)
    requires forall j :: 0 <= j < |users| ==> users[j].email != email
    ensures LastLimit(node, users, email) == 0
  {
    if users != [] {
      NoLimit(node, users[..|users| - 1], email);
    }
  }

  predicate Separate(buckets: map<string, Bucket>) {
    forall e, e' :: e in buckets && e' in buckets && buckets[e] == buckets[e'] ==> e == e'
  }

  lemma {:induction false} ReratedAt(rates: map<Bucket, Rate>, buckets: map<string, Bucket>, node: nat, users: seq<UserInfo>, b: Bucket)
    requires Separate(buckets) && buckets.Values <= rates.Keys && b in rates
    ensures var now := Rerated(rates, buckets, node, users);
            now.Keys == rates.Keys &&
            (b !in buckets.Values ==> now[b] == rates[b]) &&
            forall e :: e in buckets && buckets[e] == b ==>
              now[b] == if LastLimit(node, users, e) > 0 then RateFor(LastLimit(node, users, e)) else rates[b]
  {
    if users != [] {
      ReratedAt(rates, buckets, node, users[..|users| - 1], b);
    }
  }

  // ---------- Operations on the store

  /** The inbound gets new users, and keeps its hub. */
  function Replaced(st: Limits, tag: string, node: nat, users: seq<UserInfo>): Limits
    requires tag in st.infos
  {
    st.(infos := st.infos[tag := InboundInfo(node, Table(tag, users), st.infos[tag].hub)])
  }

  /** The buckets of its hub get the new limits. */
  function ReratedStore(st: Limits, tag: string, node: nat, users: seq<UserInfo>): Limits {
    st.(rates := Rerated(st.rates, Buckets(st, tag), node, users))
  }

  function SyncStore(st: Limits, tag: string, node: nat, users: seq<UserInfo>): Limits
    requires tag in st.infos
  {
    ReratedStore(Replaced(st, tag, node, users), tag, node, users)
  }

  /** The users are added to those of the inbound, and the buckets of its hub get their limits. */
  function UpdateStore(st: Limits, tag: string, users: seq<UserInfo>): Limits
    requires tag in st.infos
  {
    var info := st.infos[tag];
    ReratedStore(st.(infos := st.infos[tag := info.(userInfo := info.userInfo + Table(tag, users))]), tag,
                 info.nodeSpeedLimit, users)
  }

  function AddStore(st: Limits, tag: string, node: nat, users: seq<UserInfo>, h: BucketHub): Limits {
    st.(infos := st.infos[tag := InboundInfo(node, Table(tag, users), h)], hubs := st.hubs[h := map[]],
        online := st.online[h := map[]])
  }

  /** A new bucket for an email. */
  function NewBucket(st: Limits, tag: string, email: string, b: Bucket, rate: Rate): Limits
    requires tag in st.infos
  {
    st.(hubs := st.hubs[st.infos[tag].hub := Buckets(st, tag)[email := b]], rates := st.rates[b := rate],
        owners := st.owners[b := (st.infos[tag].hub, email)])
  }

  /** One address more for an email. */
  function WithIP(online: map<string, set<string>>, email: string, ip: string): map<string, set<string>> {
    online[email := (if email in online then online[email] else {}) + {ip}]
  }

  function Seen(st: Limits, tag: string, email: string, ip: string): Limits
    requires tag in st.infos
  {
    st.(online := st.online[st.infos[tag].hub := WithIP(OnlineIPs(st, tag), email, ip)])
  }

  /** The bucket of an email is loaded, or stored with the static rate. */
  function FoundStore(st: Limits, tag: string, email: string, b: Bucket, userLimit: nat): Limits
    requires tag in st.infos
  {
    if email in Buckets(st, tag) then st
    else NewBucket(st, tag, email, b, StaticRate(st.infos[tag].nodeSpeedLimit, userLimit))
  }

  function GetStore(st: Limits, tag: string, email: string, ip: string, b: Bucket, userLimit: nat): Limits
    requires tag in st.infos
  {
    FoundStore(Seen(st, tag, email, ip), tag, email, b, userLimit)
  }

  /** The mark of an automatic limit is set or cleared, whichever inbound it is for. */
  function Marked(st: Limits, email: string, speed: nat): Limits {
    st.(auto := if speed > 0 then st.auto + {email} else st.auto - {email})
  }

  /** The bucket of an email gets a speed, or its static rate back; only for a speed is one made. */
  function Overridden(st: Limits, tag: string, email: string, b: Bucket, speed: nat, userLimit: nat): Limits
    requires tag in st.infos
  {
    var buckets := Buckets(st, tag);
    if email in buckets then
      st.(rates := st.rates[buckets[email] :=
                              if speed > 0 then RateFor(speed) else StaticRate(st.infos[tag].nodeSpeedLimit, userLimit)])
    else if speed > 0 then NewBucket(st, tag, email, b, RateFor(speed))
    else st
  }

  function SpeedStore(st: Limits, tag: string, email: string, b: Bucket, speed: nat, userLimit: nat): Limits {
    if tag !in st.infos then st else Overridden(Marked(st, email, speed), tag, email, b, speed, userLimit)
  }

  /** The buckets that a collection leaves: those of emails that were seen or are under an automatic limit. */
  function Swept(buckets: map<string, Bucket>, online: set<string>, auto: set<string>): map<string, Bucket> {
    map e | e in buckets && (e in online || e in auto) :: buckets[e]
  }

  /** The same with only some emails looked at. */
  function SweptTo(buckets: map<string, Bucket>, done: set<string>, online: set<string>, auto: set<string>): map<string, Bucket> {
    map e | e in buckets && (e in done ==> e in online || e in auto) :: buckets[e]
  }

  lemma SweepOne(buckets: map<string, Bucket>, done: set<string>, online: set<string>, auto: set<string>, email: string)
    requires email in buckets && email !in done
    ensures SweptTo(buckets, done + {email}, online, auto) ==
            if email in online || email in auto then SweptTo(buckets, done, online, auto)
            else SweptTo(buckets, done, online, auto) - {email}
  {
  }

  /** Buckets of a hub have rates. */
  lemma InStore(st: Limits, tag: string)
    requires LimitsOk(st) && tag in st.infos
    ensures Buckets(st, tag).Values <= st.rates.Keys
  {
  }

  function NonEmpty(online: map<string, set<string>>): map<string, set<string>> {
    map e | e in online && online[e] != {} :: online[e]
  }

  function CollectStore(st: Limits, tag: string): Limits
    requires tag in st.infos
  {
    var h := st.infos[tag].hub;
    st.(hubs := st.hubs[h := Swept(Buckets(st, tag), OnlineIPs(st, tag).Keys, st.auto)], online := st.online[h := map[]])
  }

  /** The operations while inbounds stay configured. Each names the object it would allocate and the limit that
      its scan of the users yields. */
  datatype Event =
    | Sync(tag: string, node: nat, users: seq<UserInfo>)
    | Update(tag: string, users: seq<UserInfo>)
    | Get(tag: string, email: string, ip: string, b: Bucket, userLimit: nat)
    | Lookup(tag: string, email: string, b: Bucket, userLimit: nat)
    | Speed(tag: string, email: string, b: Bucket, speed: nat, userLimit: nat)
    | Collect(tag: string)

  predicate Enabled(st: Limits, e: Event) {
    match e
    case Sync(tag, _, _) => tag in st.infos
    case Update(tag, _) => tag in st.infos
    case Get(tag, email, _, b, userLimit) =>
      tag in st.infos && b !in st.rates && LimitOf(st.infos[tag].userInfo, tag, email, userLimit)
    case Lookup(tag, email, b, userLimit) =>
      tag in st.infos && b !in st.rates && userLimit > 0 && UserLimit(st.infos[tag].userInfo, email, userLimit)
    case Speed(tag, email, b, _, userLimit) =>
      tag in st.infos && b !in st.rates && LimitOf(st.infos[tag].userInfo, tag, email, userLimit)
    case Collect(tag) => tag in st.infos
  }

  function Apply(st: Limits, e: Event): Limits
    requires Enabled(st, e)
  {
    match e
    case Sync(tag, node, users) => SyncStore(st, tag, node, users)
    case Update(tag, users) => UpdateStore(st, tag, users)
    case Get(tag, email, ip, b, userLimit) => GetStore(st, tag, email, ip, b, userLimit)
    case Lookup(tag, email, b, userLimit) => FoundStore(st, tag, email, b, userLimit)
    case Speed(tag, email, b, speed, userLimit) => SpeedStore(st, tag, email, b, speed, userLimit)
    case Collect(tag) => CollectStore(st, tag)
  }

  /** Events that cannot happen in a state are skipped. */
  function Run(st: Limits, es: seq<Event>): Limits {
    if es == [] then st
    else
      var before, e := Run(st, es[..|es| - 1]), es[|es| - 1];
      if Enabled(before, e) then Apply(before, e) else before
  }

  lemma ReratedKeepsKeys(st: Limits, tag: string, node: nat, users: seq<UserInfo>)
    requires LimitsOk(st) && tag in st.infos
    ensures SyncStore(st, tag, node, users).rates.Keys == st.rates.Keys
  {
    ReratedKeys(st.rates, Buckets(st, tag), node, users);
  }

  lemma {:induction false} ReratedKeys(rates: map<Bucket, Rate>, buckets: map<string, Bucket>, node: nat, users: seq<UserInfo>)
    requires buckets.Values <= rates.Keys
    ensures Rerated(rates, buckets, node, users).Keys == rates.Keys
  {
    if users != [] {
      ReratedKeys(rates, buckets, node, users[..|users| - 1]);
      var email := users[|users| - 1].email;
      assert email in buckets ==> buckets[email] in buckets.Values;
    }
  }

  lemma NewBucketOk(st: Limits, tag: string, email: string, b: Bucket, rate: Rate)
    requires LimitsOk(st) && tag in st.infos && b !in st.rates && email !in Buckets(st, tag)
    ensures LimitsOk(NewBucket(st, tag, email, b, rate))
  {
  }

  lemma AddOk(st: Limits, tag: string, node: nat, users: seq<UserInfo>, h: BucketHub)
    requires LimitsOk(st) && h !in st.hubs
    ensures LimitsOk(AddStore(st, tag, node, users, h))
  {
  }

  lemma SameHubOk(st: Limits, tag: string, info: InboundInfo)
    requires LimitsOk(st) && tag in st.infos && info.hub == st.infos[tag].hub
    ensures LimitsOk(st.(infos := st.infos[tag := info]))
  {
  }

  lemma UpdateKeepsKeys(st: Limits, tag: string, users: seq<UserInfo>)
    requires LimitsOk(st) && tag in st.infos
    ensures LimitsOk(UpdateStore(st, tag, users))
  {
    ReratedKeys(st.rates, Buckets(st, tag), st.infos[tag].nodeSpeedLimit, users);
  }

  lemma FoundOk(st: Limits, tag: string, email: string, b: Bucket, userLimit: nat)
    requires LimitsOk(st) && tag in st.infos && b !in st.rates
    ensures LimitsOk(FoundStore(st, tag, email, b, userLimit))
  {
    if email !in Buckets(st, tag) {
      NewBucketOk(st, tag, email, b, StaticRate(st.infos[tag].nodeSpeedLimit, userLimit));
    }
  }

  lemma SpeedOk(st: Limits, tag: string, email: string, b: Bucket, speed: nat, userLimit: nat)
    requires LimitsOk(st) && tag in st.infos && b !in st.rates
    ensures LimitsOk(SpeedStore(st, tag, email, b, speed, userLimit))
  {
    if email !in Buckets(st, tag) && speed > 0 {
      NewBucketOk(Marked(st, email, speed), tag, email, b, RateFor(speed));
    }
  }

  lemma CollectOk(st: Limits, tag: string)
    requires LimitsOk(st) && tag in st.infos
    ensures LimitsOk(CollectStore(st, tag))
  {
  }

  lemma ApplyOk(st: Limits, e: Event)
    requires LimitsOk(st) && Enabled(st, e)
    ensures LimitsOk(Apply(st, e))
  {
    match e
    case Sync(tag, node, users) => ReratedKeepsKeys(st, tag, node, users);
    case Update(tag, users) => UpdateKeepsKeys(st, tag, users);
    case Get(tag, email, ip, b, userLimit) => FoundOk(Seen(st, tag, email, ip), tag, email, b, userLimit);
    case Lookup(tag, email, b, userLimit) => FoundOk(st, tag, email, b, userLimit);
    case Speed(tag, email, b, speed, userLimit) => SpeedOk(st, tag, email, b, speed, userLimit);
    case Collect(tag) => CollectOk(st, tag);
  }

  lemma {:induction false} RunOk(st: Limits, es: seq<Event>)
    requires LimitsOk(st)
    ensures LimitsOk(Run(st, es))
  {
    if es != [] {
      RunOk(st, es[..|es| - 1]);
      if Enabled(Run(st, es[..|es| - 1]), es[|es| - 1]) {
        ApplyOk(Run(st, es[..|es| - 1]), es[|es| - 1]);
      }
    }
  }

  /** A collection spares the bucket of an email that was seen since the last one or is under an automatic limit;
      nothing else removes buckets. */
  predicate Spares(st: Limits, e: Event, tag: string, email: string) {
    e == Collect(tag) ==> email in OnlineIPs(st, tag) || email in st.auto
  }

  predicate SparedThrough(st: Limits, es: seq<Event>, tag: string, email: string) {
    es == [] ||
    var front, last := es[..|es| - 1], es[|es| - 1];
    SparedThrough(st, front, tag, email) && Spares(Run(st, front), last, tag, email)
  }

  /** Is b the bucket of the email? */
  predicate Has(st: Limits, tag: string, email: string, b: Bucket) {
    email in Buckets(st, tag) && Buckets(st, tag)[email] == b
  }

  /** Nothing forgets an inbound or for whom a bucket was made. */
  predicate Remembers(st: Limits, now: Limits, tag: string, b: Bucket)
    requires b in st.owners
  {
    tag in now.infos && b in now.rates && b in now.owners && now.owners[b] == st.owners[b]
  }

  /** A new bucket for another email or another inbound. */
  lemma NewBucketHas(st: Limits, t: string, other: string, next: Bucket, rate: Rate, tag: string, email: string, b: Bucket)
    requires LimitsOk(st) && t in st.infos && other !in Buckets(st, t) && next !in st.rates
    requires tag in st.infos && b in st.rates
    ensures var now := NewBucket(st, t, other, next, rate);
            Remembers(st, now, tag, b) && (Has(now, tag, email, b) <==> Has(st, tag, email, b))
  {
  }

  lemma FoundHas(st: Limits, t: string, other: string, next: Bucket, userLimit: nat, tag: string, email: string, b: Bucket)
    requires LimitsOk(st) && t in st.infos && next !in st.rates && tag in st.infos && b in st.rates
    ensures var now := FoundStore(st, t, other, next, userLimit);
            Remembers(st, now, tag, b) && (Has(now, tag, email, b) <==> Has(st, tag, email, b))
  {
    if other !in Buckets(st, t) {
      NewBucketHas(st, t, other, next, StaticRate(st.infos[t].nodeSpeedLimit, userLimit), tag, email, b);
    }
  }

  lemma SpeedHas(st: Limits, e: Event, tag: string, email: string, b: Bucket)
    requires LimitsOk(st) && Enabled(st, e) && e.Speed? && tag in st.infos && b in st.rates
    ensures Remembers(st, Apply(st, e), tag, b) && (Has(Apply(st, e), tag, email, b) <==> Has(st, tag, email, b))
  {
    if e.email !in Buckets(st, e.tag) && e.speed > 0 {
      NewBucketHas(Marked(st, e.email, e.speed), e.tag, e.email, e.b, RateFor(e.speed), tag, email, b);
    }
  }

  lemma CollectHas(st: Limits, e: Event, tag: string, email: string, b: Bucket)
    requires LimitsOk(st) && Enabled(st, e) && e.Collect? && tag in st.infos && b in st.rates
    ensures Remembers(st, Apply(st, e), tag, b)
    ensures Has(Apply(st, e), tag, email, b) <==> Has(st, tag, email, b) && Spares(st, e, tag, email)
  {
  }

  lemma RateHas(st: Limits, e: Event, tag: string, email: string, b: Bucket)
    requires LimitsOk(st) && Enabled(st, e) && (e.Sync? || e.Update?) && tag in st.infos && b in st.rates
    ensures Remembers(st, Apply(st, e), tag, b) && (Has(Apply(st, e), tag, email, b) <==> Has(st, tag, email, b))
  {
    match e
    case Sync(t, node, users) => ReratedKeepsKeys(st, t, node, users);
    case Update(t, users) => ReratedKeys(st.rates, Buckets(st, t), st.infos[t].nodeSpeedLimit, users);
  }

  lemma HasAfter(st: Limits, e: Event, tag: string, email: string, b: Bucket)
    requires LimitsOk(st) && Enabled(st, e) && tag in st.infos && b in st.rates
    ensures Remembers(st, Apply(st, e), tag, b)
    ensures Has(Apply(st, e), tag, email, b) <==> Has(st, tag, email, b) && Spares(st, e, tag, email)
  {
    match e
    case Sync(_, _, _) => RateHas(st, e, tag, email, b);
    case Update(_, _) => RateHas(st, e, tag, email, b);
    case Get(t, other, ip, next, userLimit) => FoundHas(Seen(st, t, other, ip), t, other, next, userLimit, tag, email, b);
    case Lookup(t, other, next, userLimit) => FoundHas(st, t, other, next, userLimit, tag, email, b);
    case Speed(_, _, _, _, _) => SpeedHas(st, e, tag, email, b);
    case Collect(_) => CollectHas(st, e, tag, email, b);
  }

  /** The bucket that a connection got stays the bucket of its email exactly as long as every collection spares it. */
  lemma {:induction false} OneBucket(st: Limits, es: seq<Event>, tag: string, email: string)
    requires LimitsOk(st) && tag in st.infos && email in Buckets(st, tag)
    ensures var b, now := Buckets(st, tag)[email], Run(st, es);
            Remembers(st, now, tag, b) &&
            (Has(now, tag, email, b) <==> SparedThrough(st, es, tag, email))
  {
    if es != [] {
      var before, last := Run(st, es[..|es| - 1]), es[|es| - 1];
      OneBucket(st, es[..|es| - 1], tag, email);
      RunOk(st, es[..|es| - 1]);
      if Enabled(before, last) {
        HasAfter(before, last, tag, email, Buckets(st, tag)[email]);
      }
    }
  }

  /** So a synchronisation reaches the connections that are already open, whatever happened since they were, exactly if
      no collection found their email idle: it sets their bucket to the user's new limit, unless that is no limit at
      all. Otherwise it leaves them alone. */
  lemma LiveConnectionsFollow(st: Limits, es: seq<Event>, tag: string, node: nat, users: seq<UserInfo>, email: string)
    requires LimitsOk(st) && tag in st.infos && email in Buckets(st, tag)
    ensures var b, before := Buckets(st, tag)[email], Run(st, es);
            tag in before.infos && b in before.rates &&
            var now, limit := SyncStore(before, tag, node, users), LastLimit(node, users, email);
            b in now.rates && Buckets(now, tag) == Buckets(before, tag) &&
            now.rates[b] == if SparedThrough(st, es, tag, email) && limit > 0 then RateFor(limit) else before.rates[b]
  {
    OneBucket(st, es, tag, email);
    RunOk(st, es);
    var before, b := Run(st, es), Buckets(st, tag)[email];
    assert st.owners[b] == (st.infos[tag].hub, email);
    OnlyItsEmail(before, tag, email, b);
    ReratedAt(before.rates, Buckets(before, tag), node, users, b);
  }

  lemma OnlyItsEmail(st: Limits, tag: string, email: string, b: Bucket)
    requires LimitsOk(st) && tag in st.infos && b in st.rates && st.owners[b].1 == email
    ensures Separate(Buckets(st, tag)) && Buckets(st, tag).Values <= st.rates.Keys
    ensures b in Buckets(st, tag).Values <==> Has(st, tag, email, b)
  {
  }

  lemma AutoStays(st: Limits, e: Event, email: string)
    requires Enabled(st, e) && email in st.auto && (e.Speed? && e.email == email ==> e.speed > 0)
    ensures email in Apply(st, e).auto
  {
  }

  /** An automatic limit protects the bucket through any operations, until it is taken back. */
  lemma {:induction false} AutoLimitIsKept(st: Limits, es: seq<Event>, tag: string, email: string)
    requires email in st.auto && forall e :: e in es && e.Speed? && e.email == email ==> e.speed > 0
    ensures SparedThrough(st, es, tag, email) && email in Run(st, es).auto
  {
    if es != [] {
      var before, last := Run(st, es[..|es| - 1]), es[|es| - 1];
      AutoLimitIsKept(st, es[..|es| - 1], tag, email);
      if Enabled(before, last) {
        AutoStays(before, last, email);
      }
    }
  }

  /** Does an event leave the automatic limit of an email alone? Not if it sets or takes back a limit for the email, or
      brings users that have a limit of their own for it. */
  predicate Leaves(st: Limits, e: Event, tag: string, email: string)
    requires Enabled(st, e)
  {
    match e
    case Sync(t, node, users) => t == tag ==> LastLimit(node, users, email) == 0
    case Update(t, users) => t == tag ==> LastLimit(st.infos[t].nodeSpeedLimit, users, email) == 0
    case Speed(t, other, _, speed, _) => other == email ==> t != tag && speed > 0
    case Get(_, _, _, _, _) => true
    case Lookup(_, _, _, _) => true
    case Collect(_) => true
  }

  predicate LeftThrough(st: Limits, es: seq<Event>, tag: string, email: string) {
    es == [] ||
    var before, last := Run(st, es[..|es| - 1]), es[|es| - 1];
    LeftThrough(st, es[..|es| - 1], tag, email) && (Enabled(before, last) ==> Leaves(before, last, tag, email))
  }

  lemma RerateLeaves(st: Limits, t: string, node: nat, users: seq<UserInfo>, tag: string, email: string, b: Bucket)
    requires LimitsOk(st) && tag in st.infos && t in st.infos && Has(st, tag, email, b)
    requires t == tag ==> LastLimit(node, users, email) == 0
    ensures b in ReratedStore(st, t, node, users).rates && ReratedStore(st, t, node, users).rates[b] == st.rates[b]
  {
    assert st.owners[b] == (st.infos[tag].hub, email);
    OnlyItsEmail(st, t, email, b);
    ReratedAt(st.rates, Buckets(st, t), node, users, b);
  }

  lemma RateStays(st: Limits, e: Event, tag: string, email: string, b: Bucket)
    requires LimitsOk(st) && Enabled(st, e) && tag in st.infos && Has(st, tag, email, b) && Leaves(st, e, tag, email)
    ensures b in Apply(st, e).rates && Apply(st, e).rates[b] == st.rates[b]
  {
    match e
    case Sync(t, node, users) => RerateLeaves(Replaced(st, t, node, users), t, node, users, tag, email, b);
    case Update(t, users) =>
      var info := st.infos[t];
      var added := st.(infos := st.infos[t := info.(userInfo := info.userInfo + Table(t, users))]);
      RerateLeaves(added, t, info.nodeSpeedLimit, users, tag, email, b);
    case Speed(t, other, _, _, _) =>
      assert st.owners[b] == (st.infos[tag].hub, email);
    case Get(_, _, _, _, _) =>
    case Lookup(_, _, _, _) =>
    case Collect(_) =>
  }

  /** An automatic limit stays in force, on the same bucket, through new connections, collections of the online users
      and users without a limit of their own. */
  lemma {:induction false} AutoLimitHolds(st: Limits, es: seq<Event>, tag: string, email: string, b: Bucket)
    requires LimitsOk(st) && tag in st.infos && Has(st, tag, email, b) && email in st.auto
    requires LeftThrough(st, es, tag, email)
    ensures var now := Run(st, es);
            tag in now.infos && Has(now, tag, email, b) && email in now.auto &&
            b in now.rates && now.rates[b] == st.rates[b]
  {
    if es != [] {
      var before, last := Run(st, es[..|es| - 1]), es[|es| - 1];
      AutoLimitHolds(st, es[..|es| - 1], tag, email, b);
      RunOk(st, es[..|es| - 1]);
      if Enabled(before, last) {
        AutoStays(before, last, email);
        HasAfter(before, last, tag, email, b);
        RateStays(before, last, tag, email, b);
      }
    }
  }

  /** Without one, two collections with no new connection in between remove the bucket. */
  lemma IdleIsRemoved(st: Limits, tag: string, email: string)
    requires LimitsOk(st) && tag in st.infos && email !in st.auto
    ensures email !in Buckets(CollectStore(CollectStore(st, tag), tag), tag)
  {
  }

  /** Then a connection that is still open has lost touch: an automatic limit set for its email goes to another
      bucket, and its own keeps the rate it had. */
  lemma IdleConnectionIsMissed(st: Limits, tag: string, email: string, b: Bucket, next: Bucket, speed: nat, userLimit: nat)
    requires LimitsOk(st) && tag in st.infos && Has(st, tag, email, b) && email !in st.auto
    requires next !in st.rates && speed > 0
    ensures var idle := CollectStore(CollectStore(st, tag), tag);
            var now := SpeedStore(idle, tag, email, next, speed, userLimit);
            Has(now, tag, email, next) && next in now.rates && now.rates[next] == RateFor(speed) &&
            b != next && b in now.rates && now.rates[b] == st.rates[b]
  {
    IdleIsRemoved(st, tag, email);
  }

  /** Taking an automatic limit back gives the bucket what a new one would get. */
  lemma SpeedIsRestored(st: Limits, tag: string, email: string, b: Bucket, speed: nat, userLimit: nat)
    requires LimitsOk(st) && tag in st.infos && b !in st.rates && speed > 0
    ensures var slow := SpeedStore(st, tag, email, b, speed, userLimit);
            var back := SpeedStore(slow, tag, email, b, 0, userLimit);
            email in Buckets(back, tag) && Buckets(back, tag)[email] in back.rates &&
            back.rates[Buckets(back, tag)[email]] == StaticRate(st.infos[tag].nodeSpeedLimit, userLimit) &&
            (email in Buckets(st, tag) ==> back.hubs == st.hubs)
  {
  }

  // ---------- Groups that a synchronisation removes

  function GroupsOf(table: map<string, UserInfo>): set<string> {
    set k | k in table :: UserConnGroup(table[k])
  }

  function GroupsIn(users: seq<UserInfo>): set<string> {
    set u | u in users :: UserConnGroup(u)
  }

  function RemovedGroups(table: map<string, UserInfo>, users: seq<UserInfo>): set<string> {
    GroupsOf(table) - GroupsIn(users)
  }

  function MembersOf(live: map<int, string>, groups: set<string>): set<int> {
    set c | c in live && live[c] in groups
  }

  /** All connections of some groups interrupted, each once. */
  function KickedAll(t: Tracking, groups: set<string>): Tracking {
    var gone := MembersOf(t.live, groups);
    t.(live := t.live - gone, kicked := t.kicked + multiset(gone))
  }

  lemma KickedNone(t: Tracking)
    ensures KickedAll(t, {}) == t
  {
    assert MembersOf(t.live, {}) == {};
    assert t.live - {} == t.live;
  }

  lemma DisjointUnion<T>(a: set<T>, b: set<T>)
    requires a !! b
    ensures multiset(a + b) == multiset(a) + multiset(b)
  {
  }

  lemma MembersOfMore(live: map<int, string>, groups: set<string>, g: string)
    requires g !in groups
    ensures MembersOf(live, groups + {g}) == MembersOf(live, groups) + Members(live - MembersOf(live, groups), g)
    ensures MembersOf(live, groups) !! Members(live - MembersOf(live, groups), g)
  {
  }

  lemma RemoveTwice<K, V>(m: map<K, V>, a: set<K>, b: set<K>)
    ensures (m - a) - b == m - (a + b)
  {
  }

  lemma KickOneMore(t: Tracking, groups: set<string>, g: string)
    requires g !in groups
    ensures Kicked(KickedAll(t, groups), g) == KickedAll(t, groups + {g})
  {
    var gone := MembersOf(t.live, groups);
    var more := Members(t.live - gone, g);
    MembersOfMore(t.live, groups, g);
    RemoveTwice(t.live, gone, more);
    DisjointUnion(gone, more);
    assert t.kicked + (multiset(gone) + multiset(more)) == (t.kicked + multiset(gone)) + multiset(more);
  }

  /** The groups in the table are those of the users. */
  lemma TableGroups(tag: string, users: seq<UserInfo>)
    requires SoundUsers(users)
    ensures GroupsOf(Table(tag, users)) == GroupsIn(users)
  {
    TableMembers(tag, users);
    forall u | u in users
      ensures UserConnGroup(u) in GroupsOf(Table(tag, users))
    {
      var i :| 0 <= i < |users| && users[i] == u;
      TableHas(tag, users, i);
    }
  }

  /** A synchronisation interrupts exactly the connections of the groups that were configured before and are not now,
      each once, and leaves all others tracked. */
  lemma SyncInterrupts(t: Tracking, table: map<string, UserInfo>, users: seq<UserInfo>, c: int)
    requires Consistent(t) && c in t.live
    ensures var now := KickedAll(t, RemovedGroups(table, users));
            now.kicked[c] <= 1 &&
            (now.kicked[c] == 1 <==> c !in now.live) &&
            (c !in now.live <==> (exists k :: k in table && UserConnGroup(table[k]) == t.live[c]) &&
                                 (forall u :: u in users ==> UserConnGroup(u) != t.live[c]))
  {
    var gone := MembersOf(t.live, RemovedGroups(table, users));
    assert multiset(gone)[c] == if c in gone then 1 else 0;
  }

  /** Groups are shared by all inbounds: is a group configured in one of them after one inbound got new users? */
  predicate StillConfigured(tables: map<string, map<string, UserInfo>>, tag: string, users: seq<UserInfo>, group: string) {
    group in GroupsIn(users) || exists other :: other in tables && other != tag && group in GroupsOf(tables[other])
  }

  /** A synchronisation interrupts no connection of a group that is still configured. */
  ghost predicate SparesConfigured(tables: map<string, map<string, UserInfo>>, tag: string, users: seq<UserInfo>)
    requires tag in tables
  {
    forall t: Tracking, c :: Consistent(t) && c in t.live && StillConfigured(tables, tag, users, t.live[c]) ==>
      c in KickedAll(t, RemovedGroups(tables[tag], users)).live
  }

  /** The inbound loses no group that another inbound has. No connection is tracked under the empty name. */
  predicate LosesNoSharedGroup(tables: map<string, map<string, UserInfo>>, tag: string, users: seq<UserInfo>)
    requires tag in tables
  {
    forall other, group :: other in tables && other != tag && group in GroupsOf(tables[other]) && group != "" ==>
      group !in RemovedGroups(tables[tag], users)
  }

  /** Connections of still configured groups are spared, whatever is tracked, exactly if no other inbound has a group
      that this one loses. */
  lemma SparesConfiguredExactly(tables: map<string, map<string, UserInfo>>, tag: string, users: seq<UserInfo>)
    requires tag in tables
    ensures SparesConfigured(tables, tag, users) <==> LosesNoSharedGroup(tables, tag, users)
  {
    var removed := RemovedGroups(tables[tag], users);
    if !LosesNoSharedGroup(tables, tag, users) {
      var other, group :| other in tables && other != tag && group in GroupsOf(tables[other]) && group != "" && group in removed;
      var t := Tracking(map[0 := group], multiset{}, 1);
      assert StillConfigured(tables, tag, users, t.live[0]);
      assert 0 !in KickedAll(t, removed).live;
    }
  }

  /** The group under which AcquireConn counts and the dispatcher tracks a connection, given what a scan found. */
  function AcquiredGroup(u: UserInfo, email: string): string {
    if u.connGroup != "" then u.connGroup else email
  }

  /** A connection that was let in for an email is interrupted by a synchronisation exactly if no user of the new
      configuration is in its group. */
  lemma DisabledUserIsInterrupted(t: Tracking, tag: string, users: seq<UserInfo>, email: string, u: UserInfo,
                                  next: seq<UserInfo>, c: int)
    requires SoundUsers(users) && '|' !in email && Hit(Table(tag, users), tag, email, u)
    requires Consistent(t) && c in t.live && t.live[c] == AcquiredGroup(u, email)
    ensures KickedAll(t, RemovedGroups(Table(tag, users), next)).kicked[c] == 1 <==>
            forall v :: v in next ==> UserConnGroup(v) != AcquiredGroup(u, email)
  {
    ScanFindsUser(tag, users, email, u);
    var i :| 0 <= i < |users| && users[i] == u;
    TableHas(tag, users, i);
    assert UserConnGroup(Table(tag, users)[Key(tag, u)]) == t.live[c];
    SyncInterrupts(t, Table(tag, users), next, c);
  }
}
