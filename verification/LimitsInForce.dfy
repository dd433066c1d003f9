/** What the operations on an inbound put in force, said on the users handed over: whom a scan finds afterwards, under which
    limits, and whose addresses are reported. */
module LimitsInForce {
  import opened RateBuckets

  // ---------- Users

  /** A scan finds exactly these users, each by his email. */
  ghost predicate Finds(table: map<string, UserInfo>, tag: string, users: seq<UserInfo>) {
    forall email, u :: '|' !in email ==> (Hit(table, tag, email, u) <==> u in users && u.email == email)
  }

  /** An inbound has this node limit and, if the users are sound, no users and no groups but theirs. */
  ghost predicate InForce(infos: map<string, InboundInfo>, tag: string, node: nat, users: seq<UserInfo>) {
    && tag in infos && infos[tag].nodeSpeedLimit == node
    && (SoundUsers(users) ==> Finds(infos[tag].userInfo, tag, users) && GroupsOf(infos[tag].userInfo) == GroupsIn(users))
  }

  /** No other inbound has changed. */
  predicate OthersKept(before: map<string, InboundInfo>, infos: map<string, InboundInfo>, tag: string) {
    infos.Keys == before.Keys + {tag} && forall t :: t in before && t != tag ==> infos[t] == before[t]
  }

  lemma TableFinds(tag: string, users: seq<UserInfo>)
    requires SoundUsers(users)
    ensures Finds(Table(tag, users), tag, users) && GroupsOf(Table(tag, users)) == GroupsIn(users)
  {
    forall email, u | '|' !in email
      ensures Hit(Table(tag, users), tag, email, u) <==> u in users && u.email == email
    {
      ScanFindsUser(tag, users, email, u);
    }
    TableGroups(tag, users);
  }

  /** A synchronisation brings the new users and node limit into force for its inbound, which keeps its buckets and
      addresses, and changes no other. */
  lemma SyncPutsInForce(st: Limits, tag: string, node: nat, users: seq<UserInfo>)
    requires tag in st.infos
    ensures var now := SyncStore(st, tag, node, users);
            && InForce(now.infos, tag, node, users) && OthersKept(st.infos, now.infos, tag)
            && now.infos[tag].hub == st.infos[tag].hub
            && now.hubs == st.hubs && now.online == st.online && now.owners == st.owners && now.auto == st.auto
  {
    if SoundUsers(users) {
      TableFinds(tag, users);
    }
  }

  /** Adding does so too, with a hub that has neither buckets nor addresses. */
  lemma AddPutsInForce(st: Limits, tag: string, node: nat, users: seq<UserInfo>, h: BucketHub)
    ensures var now := AddStore(st, tag, node, users, h);
            && InForce(now.infos, tag, node, users) && OthersKept(st.infos, now.infos, tag)
            && Buckets(now, tag) == map[] && OnlineIPs(now, tag) == map[]
            && now.rates == st.rates && now.owners == st.owners && now.auto == st.auto
            && forall other :: other in st.hubs && other != h ==> other in now.hubs && now.hubs[other] == st.hubs[other]
  {
    if SoundUsers(users) {
      TableFinds(tag, users);
    }
  }

  // ---------- More users

  lemma {:induction false} DigitsInjective(n: nat, m: nat)
    requires Digits(n) == Digits(m)
    ensures n == m
  {
    if n >= 10 && m >= 10 {
      var a, b := Digits(n / 10), Digits(m / 10);
      assert Digits(n)[..|a|] == a && Digits(m)[..|b|] == b;
      DigitsInjective(n / 10, m / 10);
      LastDigits(n, m);
    } else {
      DigitsLength(n);
      DigitsLength(m);
      LastDigits(n, m);
    }
  }

  lemma LastDigits(n: nat, m: nat)
    requires Digits(n) == Digits(m)
    ensures n % 10 == m % 10
  {
    assert Digits(n)[|Digits(n)| - 1] == ('0' as int + n % 10) as char;
    assert Digits(m)[|Digits(m)| - 1] == ('0' as int + m % 10) as char;
  }

  lemma {:induction false} DigitsLength(n: nat)
    ensures |Digits(n)| >= 1 && (n >= 10 <==> |Digits(n)| >= 2)
    ensures '-' != Digits(n)[0]
  {
    if n >= 10 {
      DigitsLength(n / 10);
    }
  }

  lemma DecimalInjective(n: int, m: int)
    requires Decimal(n) == Decimal(m)
    ensures n == m
  {
    var a: nat, b: nat := if n < 0 then -n else n, if m < 0 then -m else m;
    DigitsLength(a);
    DigitsLength(b);
    assert n < 0 ==> Decimal(n)[0] == '-' && Decimal(n)[1..] == Digits(a);
    assert m < 0 ==> Decimal(m)[0] == '-' && Decimal(m)[1..] == Digits(b);
    DigitsInjective(a, b);
  }

  /** Two users have one key exactly if they have one email and one id. */
  lemma SameKey(tag: string, u: UserInfo, v: UserInfo)
    requires '|' !in u.email && '|' !in v.email
    ensures Key(tag, u) == Key(tag, v) <==> u.email == v.email && u.uid == v.uid
  {
    if Key(tag, u) == Key(tag, v) {
      if u.email != v.email {
        KeysDiffer(tag, u, v);
      }
      var n := |tag| + 1 + |u.email| + 1;
      assert Key(tag, u)[n..] == Decimal(u.uid) && Key(tag, v)[n..] == Decimal(v.uid);
      DecimalInjective(u.uid, v.uid);
    }
  }

  /** A table whose entries stand under their own keys. */
  predicate Keyed(tag: string, table: map<string, UserInfo>) {
    forall k :: k in table ==> k == Key(tag, table[k]) && '|' !in table[k].email
  }

  /** Some user of the list has the email and the id of `u`. */
  predicate Supersedes(users: seq<UserInfo>, u: UserInfo) {
    exists i :: 0 <= i < |users| && users[i].email == u.email && users[i].uid == u.uid
  }

  /** After an update a scan finds the new users, and of those before the ones that no new user supersedes. */
  ghost predicate FindsMore(before: map<string, UserInfo>, table: map<string, UserInfo>, tag: string, users: seq<UserInfo>) {
    forall email, u :: '|' !in email ==>
      (Hit(table, tag, email, u) <==>
       (u in users && u.email == email) || (Hit(before, tag, email, u) && !Supersedes(users, u)))
  }

  lemma InTableExactly(tag: string, users: seq<UserInfo>, u: UserInfo)
    requires SoundUsers(users) && '|' !in u.email
    ensures Key(tag, u) in Table(tag, users) <==> Supersedes(users, u)
  {
    TableMembers(tag, users);
    if Key(tag, u) in Table(tag, users) {
      var v := Table(tag, users)[Key(tag, u)];
      var i :| 0 <= i < |users| && users[i] == v;
      SameKey(tag, u, v);
    }
    if Supersedes(users, u) {
      var i :| 0 <= i < |users| && users[i].email == u.email && users[i].uid == u.uid;
      SameKey(tag, u, users[i]);
      TableHas(tag, users, i);
    }
  }

  lemma HitOfOverlay(tag: string, before: map<string, UserInfo>, users: seq<UserInfo>, email: string, u: UserInfo)
    requires SoundUsers(users) && Keyed(tag, before) && '|' !in email
    ensures Hit(before + Table(tag, users), tag, email, u) <==>
            (u in users && u.email == email) || (Hit(before, tag, email, u) && !Supersedes(users, u))
  {
    var more := Table(tag, users);
    TableMembers(tag, users);
    ScanFindsUser(tag, users, email, u);
    if Hit(before + more, tag, email, u) {
      var k :| k in before + more && Prefix(tag, email) <= k && (before + more)[k] == u;
      if k in more {
        assert Hit(more, tag, email, u);
      } else {
        assert Hit(before, tag, email, u);
        InTableExactly(tag, users, u);
      }
    }
    if Hit(more, tag, email, u) {
      var k :| k in more && Prefix(tag, email) <= k && more[k] == u;
      assert k in before + more && (before + more)[k] == u;
    }
    if Hit(before, tag, email, u) && !Supersedes(users, u) {
      var k :| k in before && Prefix(tag, email) <= k && before[k] == u;
      InTableExactly(tag, users, u);
      assert k in before + more && (before + more)[k] == u;
    }
  }

  lemma UpdatePutsInForce(st: Limits, tag: string, users: seq<UserInfo>)
    requires tag in st.infos
    ensures var now := UpdateStore(st, tag, users);
            && tag in now.infos && now.infos[tag].nodeSpeedLimit == st.infos[tag].nodeSpeedLimit
            && now.infos[tag].hub == st.infos[tag].hub && OthersKept(st.infos, now.infos, tag)
            && (SoundUsers(users) && Keyed(tag, st.infos[tag].userInfo) ==>
                  FindsMore(st.infos[tag].userInfo, now.infos[tag].userInfo, tag, users))
            && now.hubs == st.hubs && now.online == st.online && now.owners == st.owners && now.auto == st.auto
  {
    var before := st.infos[tag].userInfo;
    if SoundUsers(users) && Keyed(tag, before) {
      forall email, u | '|' !in email
        ensures Hit(before + Table(tag, users), tag, email, u) <==>
                (u in users && u.email == email) || (Hit(before, tag, email, u) && !Supersedes(users, u))
      {
        HitOfOverlay(tag, before, users, email, u);
      }
    }
  }

  // ---------- Limits

  /** A scan that finds the one user of an email yields his limit. */
  lemma LimitInForce(table: map<string, UserInfo>, tag: string, users: seq<UserInfo>, u: UserInfo, limit: nat)
    requires Finds(table, tag, users) && SoundUsers(users) && u in users && LimitOf(table, tag, u.email, limit)
    ensures limit == u.speedLimit
  {
    assert '|' !in u.email;
    assert Hit(table, tag, u.email, u);
    if v :| v in table.Values && Hit(table, tag, u.email, v) && v.speedLimit == limit {
      assert v in users && v.email == u.email;
    }
  }

  // ---------- Addresses

  /** The addresses that connections of an email came from since the last collection. */
  function SeenSince(st: Limits, es: seq<Event>, tag: string, email: string): set<string> {
    if es == [] then {}
    else
      var front, last := es[..|es| - 1], es[|es| - 1];
      if !Enabled(Run(st, front), last) then SeenSince(st, front, tag, email)
      else if last == Collect(tag) then {}
      else if last.Get? && last.tag == tag && last.email == email then SeenSince(st, front, tag, email) + {last.ip}
      else SeenSince(st, front, tag, email)
  }

  function Addresses(st: Limits, tag: string, email: string): set<string> {
    if email in OnlineIPs(st, tag) then OnlineIPs(st, tag)[email] else {}
  }

  lemma AddressesAfter(st: Limits, e: Event, tag: string, email: string)
    requires LimitsOk(st) && Enabled(st, e) && tag in st.infos
    ensures tag in Apply(st, e).infos
    ensures Addresses(Apply(st, e), tag, email) ==
            if e == Collect(tag) then {}
            else if e.Get? && e.tag == tag && e.email == email then Addresses(st, tag, email) + {e.ip}
            else Addresses(st, tag, email)
  {
    if e.Get? {
      SeenAddresses(st, e.tag, e.email, e.ip, tag, email);
      FoundKeepsOnline(Seen(st, e.tag, e.email, e.ip), e.tag, e.email, e.b, e.userLimit);
    } else if e.Collect? {
      CollectForgetsAddresses(st, e.tag, tag, email);
    } else {
      OthersKeepAddresses(st, e, tag);
    }
  }

  lemma OthersKeepAddresses(st: Limits, e: Event, tag: string)
    requires Enabled(st, e) && !e.Get? && !e.Collect? && tag in st.infos
    ensures var now := Apply(st, e);
            tag in now.infos && now.infos[tag].hub == st.infos[tag].hub && now.online == st.online
  {
  }

  lemma CollectForgetsAddresses(st: Limits, t: string, tag: string, email: string)
    requires LimitsOk(st) && t in st.infos && tag in st.infos
    ensures Addresses(CollectStore(st, t), tag, email) == if t == tag then {} else Addresses(st, tag, email)
  {
  }

  lemma SeenAddresses(st: Limits, t: string, other: string, ip: string, tag: string, email: string)
    requires LimitsOk(st) && t in st.infos && tag in st.infos
    ensures var now := Seen(st, t, other, ip);
            && now.infos == st.infos
            && Addresses(now, tag, email) ==
               if t == tag && other == email then Addresses(st, tag, email) + {ip} else Addresses(st, tag, email)
  {
  }

  lemma FoundKeepsOnline(st: Limits, tag: string, email: string, b: Bucket, userLimit: nat)
    requires tag in st.infos
    ensures FoundStore(st, tag, email, b, userLimit).infos == st.infos
    ensures FoundStore(st, tag, email, b, userLimit).online == st.online
  {
  }

  /** A collection after any run reports exactly these. */
  lemma {:induction false} OnlineIsSeen(st: Limits, es: seq<Event>, tag: string, email: string)
    requires LimitsOk(st) && tag in st.infos && email !in OnlineIPs(st, tag)
    ensures tag in Run(st, es).infos && Addresses(Run(st, es), tag, email) == SeenSince(st, es, tag, email)
  {
    if es != [] {
      var front, last := es[..|es| - 1], es[|es| - 1];
      OnlineIsSeen(st, front, tag, email);
      RunOk(st, front);
      if Enabled(Run(st, front), last) {
        AddressesAfter(Run(st, front), last, tag, email);
      }
    }
  }
}
