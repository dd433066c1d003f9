/** The limiter: the users of each inbound, their buckets, and the connections it can interrupt. */
module InboundLimiter {
  import opened ConnRegistry
  import opened ConnTracking
  import opened LimitsInForce
  import opened RateBuckets

  class Limiter {
    /** InboundInfo */
    var infos: map<string, InboundInfo>
    var autoLimited: set<string>
    const registry: Registry
    ghost var store: Limits

    constructor ()
      ensures Valid() && fresh(registry) && registry.Abstract() == NOTHING && registry.Sets() == {}
      ensures store == NO_LIMITS
    {
      registry := new Registry();
      infos, autoLimited, store := map[], {}, NO_LIMITS;
    }

    ghost predicate Mirrors()
      reads this, store.hubs.Keys, store.rates.Keys
    {
      && store.infos == infos && store.auto == autoLimited
      && (forall h :: h in store.hubs ==> store.hubs[h] == h.buckets)
      && (forall h :: h in store.online ==> h in store.hubs && store.online[h] == h.online)
      && (forall b :: b in store.rates ==> store.rates[b] == b.rate)
    }

    ghost predicate Valid()
      reads this, registry, registry.Sets(), store.hubs.Keys, store.rates.Keys
    {
      registry.Valid() && LimitsOk(store) && Mirrors()
    }

    method AddInboundLimiter(tag: string, nodeSpeedLimit: nat, users: seq<UserInfo>) returns (ghost h: BucketHub)
      requires LimitsOk(store) && Mirrors()
      modifies this
      ensures LimitsOk(store) && Mirrors() && fresh(h) && store == AddStore(old(store), tag, nodeSpeedLimit, users, h)
      ensures InForce(infos, tag, nodeSpeedLimit, users) && OthersKept(old(infos), infos, tag)
    {
      var hub := new BucketHub();
      var table := StoreUsers(tag, users);
      h := hub;
      AddOk(store, tag, nodeSpeedLimit, users, h);
      AddPutsInForce(store, tag, nodeSpeedLimit, users, h);
      infos := infos[tag := InboundInfo(nodeSpeedLimit, table, hub)];
      store := AddStore(store, tag, nodeSpeedLimit, users, hub);
    }

    method StoreUsers(tag: string, users: seq<UserInfo>) returns (table: map<string, UserInfo>)
      ensures table == Table(tag, users)
    {
      table := map[];
      for i := 0 to |users|
        invariant table == Table(tag, users[..i])
      {
        assert users[..i + 1][..i] == users[..i];
        table := table[Key(tag, users[i]) := users[i]];
      }
      assert users[..|users|] == users;
    }

    /** An inbound that is not configured yet is added; otherwise the new users come into force for the open
        connections too: those of removed groups are interrupted and the others get their new limits. */
    method SyncInboundLimiter(tag: string, nodeSpeedLimit: nat, users: seq<UserInfo>)
      requires Valid()
      modifies this, registry, registry.Sets(), store.hubs.Keys, store.rates.Keys
      ensures Valid() && registry.Sets() == old(registry.Sets())
      ensures fresh(store.hubs.Keys - old(store.hubs.Keys)) && store.rates.Keys == old(store.rates.Keys)
      ensures tag in old(infos) ==>
                store == SyncStore(old(store), tag, nodeSpeedLimit, users) &&
                registry.Abstract() == KickedAll(old(registry.Abstract()), RemovedGroups(old(infos)[tag].userInfo, users))
      ensures tag !in old(infos) ==>
                registry.Abstract() == old(registry.Abstract()) &&
                exists h :: h !in old(store).hubs && store == AddStore(old(store), tag, nodeSpeedLimit, users, h)
      ensures InForce(infos, tag, nodeSpeedLimit, users) && OthersKept(old(infos), infos, tag)
      ensures tag in old(infos) ==> infos[tag].hub == old(infos)[tag].hub
    {
      if tag !in infos {
        AddNew(tag, nodeSpeedLimit, users);
        return;
      }
      ApplyOk(store, Sync(tag, nodeSpeedLimit, users));
      SyncPutsInForce(store, tag, nodeSpeedLimit, users);
      ReratedKeepsKeys(store, tag, nodeSpeedLimit, users);
      Resync(tag, nodeSpeedLimit, users);
    }

    method AddNew(tag: string, nodeSpeedLimit: nat, users: seq<UserInfo>)
      requires Valid()
      modifies this
      ensures Valid() && registry.Sets() == old(registry.Sets()) && registry.Abstract() == old(registry.Abstract())
      ensures fresh(store.hubs.Keys - old(store.hubs.Keys)) && store.rates.Keys == old(store.rates.Keys)
      ensures exists h :: h !in old(store).hubs && store == AddStore(old(store), tag, nodeSpeedLimit, users, h)
      ensures InForce(infos, tag, nodeSpeedLimit, users) && OthersKept(old(infos), infos, tag)
    {
      ghost var h := AddInboundLimiter(tag, nodeSpeedLimit, users);
    }

    method Resync(tag: string, nodeSpeedLimit: nat, users: seq<UserInfo>)
      requires Valid() && tag in infos
      modifies this, registry, registry.Sets(), store.rates.Keys
      ensures registry.Valid() && registry.Sets() == old(registry.Sets())
      ensures Mirrors() && store == SyncStore(old(store), tag, nodeSpeedLimit, users)
      ensures registry.Abstract() == KickedAll(old(registry.Abstract()), RemovedGroups(old(infos)[tag].userInfo, users))
    {
      var removedGroups := GroupsOf(infos[tag].userInfo) - GroupsIn(users);
      ReplaceAndKick(tag, nodeSpeedLimit, users, removedGroups);
      InStore(store, tag);
      RerateOpen(infos[tag].hub, nodeSpeedLimit, users);
    }

    method RerateOpen(hub: BucketHub, node: nat, users: seq<UserInfo>)
      requires registry.Valid() && Mirrors() && hub.buckets.Values <= store.rates.Keys
      modifies `store, store.rates.Keys
      ensures registry.Valid() && registry.Sets() == old(registry.Sets()) && registry.Abstract() == old(registry.Abstract())
      ensures Mirrors() && store == old(store).(rates := Rerated(old(store).rates, hub.buckets, node, users))
    {
      RerateHub(hub, node, users);
    }

    method ReplaceAndKick(tag: string, nodeSpeedLimit: nat, users: seq<UserInfo>, removedGroups: set<string>)
      requires Valid() && tag in infos
      modifies `infos, `store, registry, registry.Sets()
      ensures registry.Valid() && registry.Sets() == old(registry.Sets()) && LimitsOk(store) && Mirrors()
      ensures store == Replaced(old(store), tag, nodeSpeedLimit, users)
      ensures registry.Abstract() == KickedAll(old(registry.Abstract()), removedGroups)
    {
      Replace(tag, nodeSpeedLimit, users);
      KickRemoved(removedGroups);
    }

    method SetInfo(tag: string, info: InboundInfo)
      requires Mirrors()
      modifies `infos, `store
      ensures Mirrors() && store == old(store).(infos := old(infos)[tag := info])
    {
      infos := infos[tag := info];
      store := store.(infos := infos);
    }

    /** The inbound gets new users, and keeps its hub. */
    method Replace(tag: string, nodeSpeedLimit: nat, users: seq<UserInfo>)
      requires LimitsOk(store) && Mirrors() && tag in infos
      modifies `infos, `store
      ensures LimitsOk(store) && Mirrors()
      ensures store == Replaced(old(store), tag, nodeSpeedLimit, users)
    {
      var table := StoreUsers(tag, users);
      SameHubOk(store, tag, InboundInfo(nodeSpeedLimit, table, infos[tag].hub));
      SetInfo(tag, InboundInfo(nodeSpeedLimit, table, infos[tag].hub));
    }

    method KickRemoved(groups: set<string>)
      requires registry.Valid() && Mirrors()
      modifies registry, registry.Sets()
      ensures registry.Valid() && registry.Sets() == old(registry.Sets()) && Mirrors()
      ensures registry.Abstract() == KickedAll(old(registry.Abstract()), groups)
    {
      KickGroups(groups);
    }

    method KickGroups(groups: set<string>)
      requires registry.Valid()
      modifies registry, registry.Sets()
      ensures registry.Valid() && registry.Sets() == old(registry.Sets())
      ensures registry.Abstract() == KickedAll(old(registry.Abstract()), groups)
    {
      var left := groups;
      ghost var done := {};
      KickedNone(registry.Abstract());
      while left != {}
        invariant left + done == groups && left !! done
        invariant registry.Valid() && registry.Sets() == old(registry.Sets())
        invariant registry.Abstract() == KickedAll(old(registry.Abstract()), done)
        decreases |left|
      {
        var group := Any(left);
        KickOneMore(old(registry.Abstract()), done, group);
        registry.KickConnGroup(group);
        left, done := left - {group}, done + {group};
      }
      assert done == groups;
    }

    /** More users for an inbound, and their limits for the open connections. */
    method UpdateInboundLimiter(tag: string, users: seq<UserInfo>)
      requires LimitsOk(store) && Mirrors()
      modifies this, store.rates.Keys
      ensures LimitsOk(store) && Mirrors()
      ensures tag in old(infos) ==> store == UpdateStore(old(store), tag, users)
      ensures tag !in old(infos) ==> exists h :: h !in old(store).hubs && store == AddStore(old(store), tag, 0, users, h)
      ensures OthersKept(old(infos), infos, tag)
      ensures tag !in old(infos) ==> InForce(infos, tag, 0, users)
      ensures tag in old(infos) ==>
                && infos[tag].nodeSpeedLimit == old(infos)[tag].nodeSpeedLimit && infos[tag].hub == old(infos)[tag].hub
                && (SoundUsers(users) && Keyed(tag, old(infos)[tag].userInfo) ==>
                      FindsMore(old(infos)[tag].userInfo, infos[tag].userInfo, tag, users))
    {
      if tag !in infos {
        ghost var h := AddInboundLimiter(tag, 0, users);
        return;
      }
      ApplyOk(store, Update(tag, users));
      UpdatePutsInForce(store, tag, users);
      AddUsers(tag, users);
      Rerate(tag, infos[tag].nodeSpeedLimit, users);
    }

    method AddUsers(tag: string, users: seq<UserInfo>)
      requires LimitsOk(store) && Mirrors() && tag in infos
      modifies `infos, `store
      ensures LimitsOk(store) && Mirrors()
      ensures var info := old(infos)[tag];
              store == old(store).(infos := old(infos)[tag := info.(userInfo := info.userInfo + Table(tag, users))])
    {
      var table := StoreUsers(tag, users);
      SameHubOk(store, tag, infos[tag].(userInfo := infos[tag].userInfo + table));
      SetInfo(tag, infos[tag].(userInfo := infos[tag].userInfo + table));
    }

    method SetRate(b: Bucket, rate: Rate)
      requires Mirrors() && b in store.rates
      modifies `store, b
      ensures Mirrors() && store == old(store).(rates := old(store).rates[b := rate])
    {
      b.rate := rate;
      store := store.(rates := store.rates[b := rate]);
    }

    /** Writes the new limits into the buckets of the inbound's hub. */
    method Rerate(tag: string, node: nat, users: seq<UserInfo>)
      requires LimitsOk(store) && Mirrors() && tag in infos
      modifies `store, store.rates.Keys
      ensures Mirrors()
      ensures store == ReratedStore(old(store), tag, node, users)
    {
      InStore(store, tag);
      RerateHub(infos[tag].hub, node, users);
    }

    method RerateHub(hub: BucketHub, node: nat, users: seq<UserInfo>)
      requires Mirrors() && hub.buckets.Values <= store.rates.Keys
      modifies `store, store.rates.Keys
      ensures Mirrors() && store.rates.Keys == old(store).rates.Keys
      ensures store == old(store).(rates := Rerated(old(store).rates, hub.buckets, node, users))
    {
      ghost var rates := store.rates;
      for i := 0 to |users|
        invariant store == old(store).(rates := Rerated(rates, hub.buckets, node, users[..i]))
        invariant store.rates.Keys == rates.Keys && Mirrors()
      {
        assert users[..i + 1][..i] == users[..i];
        RerateUser(hub, node, users[i]);
      }
      assert users[..|users|] == users;
    }

    method RerateUser(hub: BucketHub, node: nat, u: UserInfo)
      requires Mirrors() && hub.buckets.Values <= store.rates.Keys
      modifies `store, store.rates.Keys
      ensures Mirrors() && store.rates.Keys == old(store).rates.Keys
      ensures store == old(store).(rates := RatedFor(old(store).rates, hub.buckets, node, u))
    {
      var limit := DetermineRate(node, u.speedLimit);
      if limit <= 0 {
        return;
      }
      if u.email in hub.buckets {
        assert hub.buckets[u.email] in hub.buckets.Values;
        SetRate(hub.buckets[u.email], RateFor(limit));
      }
    }

    /** Scans the users for a key with the prefix; the order of the scan is not specified. */
    method LookupUserInfo(table: map<string, UserInfo>, tag: string, email: string) returns (found: bool, u: UserInfo)
      ensures found ==> Hit(table, tag, email, u)
      ensures !found ==> forall v :: v in table.Values ==> !Hit(table, tag, email, v)
    {
      var keys := table.Keys;
      ghost var done := {};
      while keys != {}
        invariant keys + done == table.Keys
        invariant forall k :: k in done ==> !(Prefix(tag, email) <= k)
        decreases |keys|
      {
        var k := Any(keys);
        if Prefix(tag, email) <= k {
          return true, table[k];
        }
        keys, done := keys - {k}, done + {k};
      }
      return false, UserInfo(0, "", 0, 0, "");
    }

    method ScanLimit(table: map<string, UserInfo>, tag: string, email: string) returns (limit: nat)
      ensures LimitOf(table, tag, email, limit)
    {
      var found, u := LookupUserInfo(table, tag, email);
      limit := if found then u.speedLimit else 0;
    }

    method InsertBucket(tag: string, email: string, rate: Rate) returns (b: Bucket)
      requires Mirrors() && tag in store.infos && infos[tag].hub in store.hubs
      modifies `store, infos[tag].hub
      ensures Mirrors() && fresh(b) && b !in old(store).rates
      ensures store == NewBucket(old(store), tag, email, b, rate)
    {
      b := new Bucket(rate);
      var hub := infos[tag].hub;
      store := NewBucket(store, tag, email, b, rate);
      hub.buckets := hub.buckets[email := b];
    }

    /** Some user of an inbound with this email; the order of the scan is not specified. */
    method FindLimit(table: map<string, UserInfo>, email: string) returns (userLimit: nat)
      ensures userLimit > 0 ==> UserLimit(table, email, userLimit)
      ensures userLimit == 0 ==> MaybeUnlimited(table, email)
    {
      var keys := table.Keys;
      ghost var done := {};
      while keys != {}
        invariant keys + done == table.Keys
        invariant forall k :: k in done ==> table[k].email != email
        decreases |keys|
      {
        var k := Any(keys);
        if table[k].email == email {
          return table[k].speedLimit;
        }
        keys, done := keys - {k}, done + {k};
      }
      return 0;
    }

    /** The first inbound, in any order, in which the scan finds a limit for an email. */
    method FindInbound(infos: map<string, InboundInfo>, email: string) returns (tag: string, userLimit: nat)
      ensures userLimit > 0 ==> tag in infos && UserLimit(infos[tag].userInfo, email, userLimit)
      ensures userLimit == 0 ==> forall t :: t in infos ==> MaybeUnlimited(infos[t].userInfo, email)
    {
      var tags := infos.Keys;
      ghost var done := {};
      while tags != {}
        invariant tags + done == infos.Keys
        invariant forall t :: t in done ==> MaybeUnlimited(infos[t].userInfo, email)
        decreases |tags|
      {
        tag := Any(tags);
        userLimit := FindLimit(infos[tag].userInfo, email);
        if userLimit > 0 {
          return;
        }
        tags, done := tags - {tag}, done + {tag};
      }
      return "", 0;
    }

    /** The bucket of an email for a connection of which the inbound is not known: from any inbound in which a user with
        that email has a limit. */
    method LookupBucketByEmail(email: string) returns (found: Bucket?, ghost tag: string, ghost userLimit: nat)
      requires LimitsOk(store) && Mirrors()
      modifies `store, store.hubs.Keys
      ensures LimitsOk(store) && Mirrors()
      ensures found == null ==> store == old(store)
      ensures found == null && email != "" ==>
                forall t :: t in infos ==> MaybeUnlimited(infos[t].userInfo, email)
      ensures found != null ==>
                tag in infos && userLimit > 0 && UserLimit(infos[tag].userInfo, email, userLimit) &&
                Has(store, tag, email, found) && store == FoundStore(old(store), tag, email, found, userLimit) &&
                (email !in Buckets(old(store), tag) ==> fresh(found))
    {
      found, tag, userLimit := null, "", 0;
      if email == "" {
        return;
      }
      var t, limit := FindInbound(infos, email);
      if limit > 0 {
        tag, userLimit := t, limit;
        found := LoadOrStore(t, email, limit);
      }
    }

    method LoadOrStore(tag: string, email: string, userLimit: nat) returns (bucket: Bucket)
      requires LimitsOk(store) && Mirrors() && tag in infos
      modifies `store, store.hubs.Keys
      ensures LimitsOk(store) && Mirrors() && Has(store, tag, email, bucket)
      ensures store == FoundStore(old(store), tag, email, bucket, userLimit)
      ensures email !in Buckets(old(store), tag) ==> fresh(bucket)
    {
      var info := infos[tag];
      if email in info.hub.buckets {
        bucket := info.hub.buckets[email];
      } else {
        bucket := InsertBucket(tag, email, StaticRate(info.nodeSpeedLimit, userLimit));
        NewBucketOk(old(store), tag, email, bucket, StaticRate(info.nodeSpeedLimit, userLimit));
      }
    }

    method SawIP(tag: string, email: string, ip: string)
      requires LimitsOk(store) && Mirrors() && tag in infos
      modifies `store, infos[tag].hub`online
      ensures LimitsOk(store) && Mirrors() && store == Seen(old(store), tag, email, ip)
    {
      SetOnline(infos[tag].hub, WithIP(infos[tag].hub.online, email, ip));
    }

    /** The bucket of a new connection, nil if the inbound has no limits. */
    method GetUserBucket(tag: string, email: string, ip: string) returns (bucket: Bucket?, ghost userLimit: nat)
      requires LimitsOk(store) && Mirrors()
      modifies `store, store.hubs.Keys
      ensures LimitsOk(store) && Mirrors()
      ensures tag !in old(store).infos ==> bucket == null && store == old(store)
      ensures tag in old(store).infos ==>
                LimitOf(infos[tag].userInfo, tag, email, userLimit) && bucket != null &&
                email in Buckets(store, tag) && Buckets(store, tag)[email] == bucket &&
                store == GetStore(old(store), tag, email, ip, bucket, userLimit) &&
                (email !in Buckets(old(store), tag) ==> fresh(bucket))
    {
      if tag !in infos {
        return null, 0;
      }
      var info := infos[tag];
      var limit := ScanLimit(info.userInfo, tag, email);
      userLimit := limit;
      SawIP(tag, email, ip);
      bucket := LoadOrStore(tag, email, limit);
    }

    method Mark(email: string, speedLimit: nat)
      requires LimitsOk(store) && Mirrors()
      modifies `store, `autoLimited
      ensures LimitsOk(store) && Mirrors() && store == Marked(old(store), email, speedLimit)
    {
      autoLimited := if speedLimit > 0 then autoLimited + {email} else autoLimited - {email};
      store := Marked(store, email, speedLimit);
    }

    /** Overrides the limit of an email, or takes the override back with 0. */
    method SetUserSpeed(tag: string, email: string, speedLimit: nat) returns (ghost b: Bucket?, ghost userLimit: nat)
      requires LimitsOk(store) && Mirrors()
      modifies `store, `autoLimited, store.hubs.Keys, store.rates.Keys
      ensures LimitsOk(store) && Mirrors()
      ensures tag !in old(store).infos ==> store == old(store)
      ensures tag in old(store).infos ==>
                LimitOf(infos[tag].userInfo, tag, email, userLimit) &&
                if b == null then
                  store == Marked(old(store), email, 0) && speedLimit == 0 && email !in Buckets(old(store), tag)
                else store == SpeedStore(old(store), tag, email, b, speedLimit, userLimit) &&
                     (email !in Buckets(old(store), tag) ==> fresh(b))
    {
      if tag !in infos {
        return null, 0;
      }
      var info := infos[tag];
      var limit := ScanLimit(info.userInfo, tag, email);
      userLimit := limit;
      Mark(email, speedLimit);
      b := Override(tag, email, speedLimit, limit);
    }

    method Override(tag: string, email: string, speedLimit: nat, userLimit: nat) returns (ghost b: Bucket?)
      requires LimitsOk(store) && Mirrors() && tag in infos
      modifies `store, store.hubs.Keys, store.rates.Keys
      ensures LimitsOk(store) && Mirrors()
      ensures if b == null then store == old(store) && speedLimit == 0 && email !in Buckets(old(store), tag)
              else store == Overridden(old(store), tag, email, b, speedLimit, userLimit) &&
                   (email !in Buckets(old(store), tag) ==> fresh(b))
    {
      var info := infos[tag];
      if email in info.hub.buckets {
        var bucket := info.hub.buckets[email];
        b := bucket;
        SetRate(bucket, if speedLimit > 0 then RateFor(speedLimit) else StaticRate(info.nodeSpeedLimit, userLimit));
      } else if speedLimit > 0 {
        var bucket := InsertBucket(tag, email, RateFor(speedLimit));
        NewBucketOk(old(store), tag, email, bucket, RateFor(speedLimit));
        b := bucket;
      } else {
        b := null;
      }
    }

    /** The addresses seen since the last collection, by email. Buckets of emails that were idle meanwhile are removed,
        unless an automatic limit is in force. */
    method GetOnlineUsers(tag: string) returns (result: map<string, set<string>>)
      requires LimitsOk(store) && Mirrors()
      modifies `store, store.hubs.Keys
      ensures LimitsOk(store) && Mirrors()
      ensures tag !in old(store).infos ==> store == old(store) && result == map[]
      ensures tag in old(store).infos ==>
                store == CollectStore(old(store), tag) &&
                result == NonEmpty(old(OnlineIPs(store, tag)))
    {
      if tag !in infos {
        return map[];
      }
      CollectOk(store, tag);
      var swept := SweepBuckets(infos[tag].hub.buckets, infos[tag].hub.online.Keys);
      result := Report(infos[tag].hub.online);
      Reset(tag, swept);
    }

    method Reset(tag: string, swept: map<string, Bucket>)
      requires HubsOk(store) && Mirrors() && tag in infos
      requires swept == Swept(Buckets(store, tag), OnlineIPs(store, tag).Keys, autoLimited)
      modifies `store, infos[tag].hub
      ensures Mirrors() && store == CollectStore(old(store), tag)
    {
      SetBuckets(infos[tag].hub, swept);
      SetOnline(infos[tag].hub, map[]);
    }

    method SetBuckets(hub: BucketHub, buckets: map<string, Bucket>)
      requires Mirrors() && hub in store.hubs
      modifies `store, hub`buckets
      ensures Mirrors() && store == old(store).(hubs := old(store).hubs[hub := buckets])
    {
      hub.buckets := buckets;
      store := store.(hubs := store.hubs[hub := buckets]);
    }

    method SetOnline(hub: BucketHub, online: map<string, set<string>>)
      requires Mirrors() && hub in store.hubs
      modifies `store, hub`online
      ensures Mirrors() && store == old(store).(online := old(store).online[hub := online])
    {
      hub.online := online;
      store := store.(online := store.online[hub := online]);
    }

    /** The range over the buckets, in any order. */
    method SweepBuckets(buckets: map<string, Bucket>, online: set<string>) returns (left: map<string, Bucket>)
      ensures left == Swept(buckets, online, autoLimited)
    {
      left := buckets;
      var keys := buckets.Keys;
      ghost var done := {};
      while keys != {}
        invariant keys + done == buckets.Keys && keys !! done
        invariant left == SweptTo(buckets, done, online, autoLimited)
        decreases |keys|
      {
        var email := Any(keys);
        SweepOne(buckets, done, online, autoLimited, email);
        if email !in online && email !in autoLimited {
          left := left - {email};
        }
        keys, done := keys - {email}, done + {email};
      }
    }

    /** The range over the addresses, in any order. */
    method Report(online: map<string, set<string>>) returns (result: map<string, set<string>>)
      ensures result == NonEmpty(online)
    {
      result := map[];
      var keys := online.Keys;
      ghost var done := {};
      while keys != {}
        invariant keys + done == online.Keys && keys !! done
        invariant result == map e | e in done && online[e] != {} :: online[e]
        decreases |keys|
      {
        var email := Any(keys);
        if online[email] != {} {
          result := result[email := online[email]];
        }
        keys, done := keys - {email}, done + {email};
      }
    }
  }
}
