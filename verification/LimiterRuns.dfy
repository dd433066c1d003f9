/** Two calls of the limiter in a row: what a synchronisation means for the next connection and for the next one. */
module LimiterRuns {
  import opened ConnTracking
  import opened InboundLimiter
  import opened LimitsInForce
  import opened RateBuckets

  /** While users are in force, what a synchronisation removes are the groups of theirs that it drops. */
  lemma DroppedGroups(infos: map<string, InboundInfo>, tag: string, node: nat, users: seq<UserInfo>, next: seq<UserInfo>)
    requires InForce(infos, tag, node, users) && SoundUsers(users)
    ensures RemovedGroups(infos[tag].userInfo, next) == GroupsIn(users) - GroupsIn(next)
  {
  }

  /** A second synchronisation interrupts exactly the connections of the groups that the first had and the second has not. */
  method SyncAgain(l: Limiter, tag: string, node: nat, users: seq<UserInfo>, nextNode: nat, next: seq<UserInfo>)
    returns (ghost between: Tracking)
    requires l.Valid() && SoundUsers(users)
    modifies l, l.registry, l.registry.Sets(), l.store.hubs.Keys, l.store.rates.Keys
    ensures l.Valid() && l.registry.Abstract() == KickedAll(between, GroupsIn(users) - GroupsIn(next))
    ensures InForce(l.infos, tag, nextNode, next) && OthersKept(old(l.infos), l.infos, tag)
  {
    l.SyncInboundLimiter(tag, node, users);
    between := l.registry.Abstract();
    DroppedGroups(l.infos, tag, node, users, next);
    l.SyncInboundLimiter(tag, nextNode, next);
  }

  /** The smaller of two limits, where 0 is no limit. */
  predicate Smaller(limit: nat, a: nat, b: nat) {
    if a == 0 then limit == b else if b == 0 then limit == a else limit == if a <= b then a else b
  }

  /** What a bucket is set to for a limit: that many bytes a second, and a quarter of them at once, between 64 and 256 KiB. */
  predicate SetTo(rate: Rate, limit: nat) {
    && rate.Limited? && rate.bytes == limit
    && rate.burst == if limit / 4 < 65536 then 65536 else if limit / 4 > 262144 then 262144 else limit / 4
  }

  lemma RerateReaches(st: Limits, tag: string, node: nat, users: seq<UserInfo>, u: UserInfo, limit: nat)
    requires LimitsOk(st) && tag in st.infos && SoundUsers(users) && u in users && u.email in Buckets(st, tag)
    requires Smaller(limit, node, u.speedLimit)
    ensures var b, now := Buckets(st, tag)[u.email], SyncStore(st, tag, node, users);
            && b in st.rates && b in now.rates && Buckets(now, tag) == Buckets(st, tag)
            && if limit > 0 then SetTo(now.rates[b], limit) else now.rates[b] == st.rates[b]
  {
    var i :| 0 <= i < |users| && users[i] == u;
    var b := Buckets(st, tag)[u.email];
    LastLimitOfUser(node, users, i);
    OnlyItsEmail(st, tag, u.email, b);
    ReratedAt(st.rates, Buckets(st, tag), node, users, b);
  }

  lemma NewBucketIsSet(st: Limits, tag: string, email: string, b: Bucket, userLimit: nat, limit: nat)
    requires tag in st.infos && email !in Buckets(st, tag) && Smaller(limit, st.infos[tag].nodeSpeedLimit, userLimit)
    ensures var now := FoundStore(st, tag, email, b, userLimit);
            b in now.rates && if limit > 0 then SetTo(now.rates[b], limit) else now.rates[b] == Unlimited
  {
  }

  lemma SeenKeepsBuckets(st: Limits, tag: string, email: string, ip: string)
    requires tag in st.infos
    ensures var now := Seen(st, tag, email, ip);
            now.infos == st.infos && Buckets(now, tag) == Buckets(st, tag) && now.rates == st.rates
  {
  }

  /** The bucket that a connection gets in a store, and its rate. */
  lemma GetIsSet(st: Limits, tag: string, users: seq<UserInfo>, u: UserInfo, ip: string, b: Bucket, userLimit: nat, limit: nat)
    requires tag in st.infos && Finds(st.infos[tag].userInfo, tag, users) && SoundUsers(users) && u in users
    requires LimitOf(st.infos[tag].userInfo, tag, u.email, userLimit)
    requires Smaller(limit, st.infos[tag].nodeSpeedLimit, u.speedLimit)
    requires u.email in Buckets(st, tag) ==> b in st.rates && Buckets(st, tag)[u.email] == b
    ensures var now := GetStore(st, tag, u.email, ip, b, userLimit);
            b in now.rates &&
            if u.email in Buckets(st, tag) then now.rates[b] == st.rates[b]
            else if limit > 0 then SetTo(now.rates[b], limit)
            else now.rates[b] == Unlimited
  {
    LimitInForce(st.infos[tag].userInfo, tag, users, u, userLimit);
    SeenKeepsBuckets(st, tag, u.email, ip);
    if u.email !in Buckets(st, tag) {
      NewBucketIsSet(Seen(st, tag, u.email, ip), tag, u.email, b, userLimit, limit);
    }
  }

  /** After a synchronisation, the next connection of one of its users gets a bucket at the smaller of the node's and his own
      limit, whether his email had a bucket or not. Without any limit a new bucket lets everything through, and one
      that is there keeps its rate. */
  method SyncThenConnect(l: Limiter, tag: string, node: nat, users: seq<UserInfo>, u: UserInfo, ip: string, ghost limit: nat)
    returns (bucket: Bucket)
    requires l.Valid() && SoundUsers(users) && u in users && Smaller(limit, node, u.speedLimit)
    modifies l, l.registry, l.registry.Sets(), l.store.hubs.Keys, l.store.rates.Keys
    ensures Has(l.store, tag, u.email, bucket)
    ensures limit > 0 ==> SetTo(bucket.rate, limit)
    ensures limit == 0 && !old(u.email in Buckets(l.store, tag)) ==> bucket.rate == Unlimited
  {
    ghost var st := l.store;
    if tag in l.infos && u.email in Buckets(st, tag) {
      RerateReaches(st, tag, node, users, u, limit);
    }
    l.SyncInboundLimiter(tag, node, users);
    bucket := Connect(l, tag, users, u, ip, limit);
  }

  method Connect(l: Limiter, tag: string, ghost users: seq<UserInfo>, u: UserInfo, ip: string, ghost limit: nat)
    returns (bucket: Bucket)
    requires LimitsOk(l.store) && l.Mirrors() && tag in l.infos && SoundUsers(users) && u in users
    requires Finds(l.infos[tag].userInfo, tag, users) && Smaller(limit, l.infos[tag].nodeSpeedLimit, u.speedLimit)
    modifies l`store, l.store.hubs.Keys
    ensures Has(l.store, tag, u.email, bucket)
    ensures if u.email in Buckets(old(l.store), tag) then
              bucket == Buckets(old(l.store), tag)[u.email] && bucket in old(l.store.rates) && bucket.rate == old(l.store.rates)[bucket]
            else if limit > 0 then SetTo(bucket.rate, limit)
            else bucket.rate == Unlimited
  {
    ghost var st := l.store;
    InStore(st, tag);
    var found;
    ghost var userLimit;
    found, userLimit := l.GetUserBucket(tag, u.email, ip);
    bucket := found;
    GetIsSet(st, tag, users, u, ip, bucket, userLimit, limit);
  }

  /** An automatic limit sets the bucket of the email, which stays the object it was if there was one, and marks the email;
      taking it back clears the mark and brings the smaller of the node's and the user's limit back into the bucket. */
  lemma SpeedIsSet(st: Limits, tag: string, email: string, b: Bucket, speed: nat, userLimit: nat, limit: nat)
    requires LimitsOk(st) && tag in st.infos && b !in st.rates && Smaller(limit, st.infos[tag].nodeSpeedLimit, userLimit)
    ensures var now, before := SpeedStore(st, tag, email, b, speed, userLimit), Buckets(st, tag);
            var target := if email in before then before[email] else b;
            && now.auto == (if speed > 0 then st.auto + {email} else st.auto - {email})
            && (speed > 0 || email in before ==> Has(now, tag, email, target) && target in now.rates)
            && (speed > 0 ==> SetTo(now.rates[target], speed))
            && (speed == 0 && email in before ==>
                  if limit > 0 then SetTo(now.rates[target], limit) else now.rates[target] == Unlimited)
            && (speed == 0 && email !in before ==> now.hubs == st.hubs && now.rates == st.rates)
            && forall other :: other in st.rates && other != target ==> other in now.rates && now.rates[other] == st.rates[other]
  {
  }
}
