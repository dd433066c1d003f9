/** Letting a connection in and tracking it are two steps, and a synchronisation can come between them. Which tracked
    connections belong to a group that is still configured. */
module LateTracking {
  import opened ConnTracking
  import opened RateBuckets

  /** One inbound: its users, the groups of the connections that were let in but are not tracked yet, by attempt, and the
      tracked connections. */
  datatype Moment = Moment(users: seq<UserInfo>, waiting: map<nat, string>, tracking: Tracking)

  datatype Action =
    | Acquire(attempt: nat, email: string, user: UserInfo)   // AcquireConn lets it in, having found this user
    | Enter(attempt: nat)                                    // TrackConn
    | Leave(conn: int)                                       // its cleanup
    | Resync(users: seq<UserInfo>)                           // SyncInboundLimiter

  predicate Possible(tag: string, m: Moment, a: Action) {
    match a
    case Acquire(t, email, u) => t !in m.waiting && email != "" && '|' !in email && Hit(Table(tag, m.users), tag, email, u)
    case Enter(t) => t in m.waiting
    case Leave(_) => true
    case Resync(_) => true
  }

  function After(tag: string, m: Moment, a: Action): Moment
    requires Possible(tag, m, a)
  {
    match a
    case Acquire(t, email, u) => m.(waiting := m.waiting[t := AcquiredGroup(u, email)])
    case Enter(t) => m.(waiting := m.waiting - {t}, tracking := Tracked(m.tracking, m.waiting[t]))
    case Leave(c) => m.(tracking := Cleaned(m.tracking, c))
    case Resync(users) => Moment(users, m.waiting, KickedAll(m.tracking, RemovedGroups(Table(tag, m.users), users)))
  }

  /** The users of a moment are those that the store has for the inbound. */
  predicate SameUsers(st: Limits, tag: string, m: Moment) {
    tag in st.infos && st.infos[tag].userInfo == Table(tag, m.users)
  }

  /** A synchronisation of the store is one of the moment: the same users come, and the same connections go. */
  lemma ResyncIsSync(st: Limits, tag: string, m: Moment, node: nat, users: seq<UserInfo>)
    requires SameUsers(st, tag, m)
    ensures var now := After(tag, m, Resync(users));
            && SameUsers(SyncStore(st, tag, node, users), tag, now)
            && now.tracking == KickedAll(m.tracking, RemovedGroups(st.infos[tag].userInfo, users))
  {
  }

  /** What is not possible is skipped. */
  function Life(tag: string, users: seq<UserInfo>, actions: seq<Action>): Moment {
    if actions == [] then Moment(users, map[], NOTHING)
    else
      var before, last := Life(tag, users, actions[..|actions| - 1]), actions[|actions| - 1];
      if Possible(tag, before, last) then After(tag, before, last) else before
  }

  predicate SoundActions(users: seq<UserInfo>, actions: seq<Action>) {
    SoundUsers(users) && forall a :: a in actions && a.Resync? ==> SoundUsers(a.users)
  }

  /** The users of the last synchronisation. */
  function LastUsers(users: seq<UserInfo>, actions: seq<Action>): seq<UserInfo> {
    if actions == [] then users
    else
      var last := actions[|actions| - 1];
      if last.Resync? then last.users else LastUsers(users, actions[..|actions| - 1])
  }

  predicate Configured(users: seq<UserInfo>, actions: seq<Action>, group: string) {
    group in GroupsIn(LastUsers(users, actions))
  }

  lemma {:induction false} LifeFacts(tag: string, users: seq<UserInfo>, actions: seq<Action>)
    requires SoundActions(users, actions)
    ensures Life(tag, users, actions).users == LastUsers(users, actions) && SoundUsers(LastUsers(users, actions))
    ensures forall c :: c in Life(tag, users, actions).tracking.live ==> c < Life(tag, users, actions).tracking.count
  {
    if actions != [] {
      LifeFacts(tag, users, actions[..|actions| - 1]);
      assert actions[|actions| - 1] in actions;
    }
  }

  /** The group under which a connection is let in is configured at that moment. */
  lemma AcquiredIsConfigured(tag: string, users: seq<UserInfo>, email: string, u: UserInfo)
    requires SoundUsers(users) && '|' !in email && Hit(Table(tag, users), tag, email, u)
    ensures AcquiredGroup(u, email) in GroupsIn(users)
  {
    ScanFindsUser(tag, users, email, u);
    assert UserConnGroup(u) == AcquiredGroup(u, email);
  }

  /** One action, as it concerns a tracked connection: it stays in its group; it is interrupted if it is in a group that
      goes, and not otherwise. */
  lemma OneAction(tag: string, m: Moment, a: Action, c: int)
    requires SoundUsers(m.users) && Possible(tag, m, a) && c < m.tracking.count
    ensures var now := After(tag, m, a);
            && c < now.tracking.count
            && (c in now.tracking.live ==> c in m.tracking.live && now.tracking.live[c] == m.tracking.live[c])
            && (c in m.tracking.live ==>
                  var g := m.tracking.live[c];
                  c in now.tracking.live <==> a != Leave(c) && !(g in GroupsIn(m.users) && g !in GroupsIn(now.users)))
  {
    TableGroups(tag, m.users);
  }

  /** Action k tracks connection c. */
  predicate TrackedBy(tag: string, users: seq<UserInfo>, actions: seq<Action>, k: nat, c: int)
    requires k < |actions|
  {
    var before := Life(tag, users, actions[..k]);
    actions[k].Enter? && Possible(tag, before, actions[k]) && c == before.tracking.count
  }

  /** The group of the connection that action k tracks. */
  function GroupAt(tag: string, users: seq<UserInfo>, actions: seq<Action>, k: nat): string
    requires k < |actions| && TrackedBy(tag, users, actions, k, Life(tag, users, actions[..k]).tracking.count)
  {
    Life(tag, users, actions[..k]).waiting[actions[k].attempt]
  }

  /** A group was configured when action k came, or at some time since. */
  ghost predicate EverSince(users: seq<UserInfo>, actions: seq<Action>, k: nat, group: string) {
    exists j :: k <= j <= |actions| && Configured(users, actions[..j], group)
  }

  lemma EverSinceSnoc(users: seq<UserInfo>, front: seq<Action>, last: Action, k: nat, group: string)
    requires k <= |front|
    ensures EverSince(users, front + [last], k, group) <==>
            EverSince(users, front, k, group) || Configured(users, front + [last], group)
  {
    var actions := front + [last];
    assert forall j :: 0 <= j <= |front| ==> actions[..j] == front[..j];
    assert actions[..|actions|] == actions;
    if EverSince(users, actions, k, group) && !Configured(users, actions, group) {
      var j :| k <= j <= |actions| && Configured(users, actions[..j], group);
      assert j <= |front| && Configured(users, front[..j], group);
    }
    if EverSince(users, front, k, group) {
      var j :| k <= j <= |front| && Configured(users, front[..j], group);
      assert Configured(users, actions[..j], group);
    }
    if Configured(users, actions, group) {
      assert Configured(users, actions[..|actions|], group);
    }
  }

  /** A connection that is still tracked is in the group under which it was let in, and that is still configured exactly if
      it was when the connection came to be tracked, or has been since. */
  lemma {:induction false} LiveIsConfigured(tag: string, users: seq<UserInfo>, actions: seq<Action>, k: nat, c: int)
    requires SoundActions(users, actions) && k < |actions| && TrackedBy(tag, users, actions, k, c)
    ensures var now := Life(tag, users, actions).tracking;
            var g := GroupAt(tag, users, actions, k);
            && c < now.count
            && (c in now.live ==> now.live[c] == g && (Configured(users, actions, g) <==> EverSince(users, actions, k, g)))
    decreases |actions|
  {
    var front, last := actions[..|actions| - 1], actions[|actions| - 1];
    assert actions == front + [last];
    var before, g := Life(tag, users, front), GroupAt(tag, users, actions, k);
    SoundFront(users, front, last);
    LifeFacts(tag, users, front);
    EverSinceSnoc(users, front, last, k, g);
    if k == |front| {
      OnlyNow(users, front, g);
    } else {
      assert actions[..k] == front[..k];
      LiveIsConfigured(tag, users, front, k, c);
      if Possible(tag, before, last) {
        OneAction(tag, before, last, c);
      }
    }
  }

  lemma SoundFront(users: seq<UserInfo>, front: seq<Action>, last: Action)
    requires SoundActions(users, front + [last])
    ensures SoundActions(users, front)
  {
    assert forall a :: a in front ==> a in front + [last];
  }

  lemma OnlyNow(users: seq<UserInfo>, actions: seq<Action>, group: string)
    ensures EverSince(users, actions, |actions|, group) <==> Configured(users, actions, group)
  {
    assert actions[..|actions|] == actions;
  }

  // ---------- Between the two steps

  /** An attempt that was let in by action i and is tracked by action k. */
  predicate LetIn(tag: string, users: seq<UserInfo>, actions: seq<Action>, i: nat, k: nat) {
    && i < k < |actions| && actions[i].Acquire? && actions[k] == Enter(actions[i].attempt)
    && Possible(tag, Life(tag, users, actions[..i]), actions[i])
    && forall j :: i < j < k ==> actions[j] != actions[k]
  }

  /** It is tracked under the group that it was let in with. */
  lemma {:induction false} StillWaiting(tag: string, users: seq<UserInfo>, actions: seq<Action>, i: nat, k: nat, n: nat)
    requires LetIn(tag, users, actions, i, k) && i < n <= k
    ensures var m, a := Life(tag, users, actions[..n]), actions[i];
            a.attempt in m.waiting && m.waiting[a.attempt] == AcquiredGroup(a.user, a.email)
    decreases n
  {
    assert actions[..n][..n - 1] == actions[..n - 1];
    if n > i + 1 {
      StillWaiting(tag, users, actions, i, k, n - 1);
      WaitingStep(tag, Life(tag, users, actions[..n - 1]), actions[n - 1], actions[i].attempt);
    }
  }

  lemma WaitingStep(tag: string, m: Moment, a: Action, t: nat)
    requires t in m.waiting && a != Enter(t)
    ensures var now := if Possible(tag, m, a) then After(tag, m, a) else m;
            t in now.waiting && now.waiting[t] == m.waiting[t]
  {
  }

  /** No synchronisation between two actions takes a group away. */
  predicate KeptBetween(actions: seq<Action>, i: nat, k: nat, group: string)
    requires k <= |actions|
  {
    forall j :: i < j < k && actions[j].Resync? ==> group in GroupsIn(actions[j].users)
  }

  lemma {:induction false} KeptIsConfigured(users: seq<UserInfo>, actions: seq<Action>, i: nat, k: nat, group: string)
    requires i < k <= |actions| && !actions[i].Resync?
    requires Configured(users, actions[..i], group) && KeptBetween(actions, i, k, group)
    ensures Configured(users, actions[..k], group)
    decreases k
  {
    assert actions[..k][..k - 1] == actions[..k - 1];
    if k > i + 1 {
      KeptIsConfigured(users, actions, i, k - 1, group);
    }
  }

  /** If no synchronisation takes the group away between letting a connection in and tracking it, every tracked connection
      is in a group that is configured: disabling a user interrupts all of his connections. */
  lemma NoneIsMissed(tag: string, users: seq<UserInfo>, actions: seq<Action>, i: nat, k: nat, c: int)
    requires SoundActions(users, actions) && LetIn(tag, users, actions, i, k) && TrackedBy(tag, users, actions, k, c)
    requires KeptBetween(actions, i, k, AcquiredGroup(actions[i].user, actions[i].email))
    ensures var now := Life(tag, users, actions).tracking;
            c in now.live ==> Configured(users, actions, now.live[c])
  {
    var a := actions[i];
    var g := AcquiredGroup(a.user, a.email);
    SoundPrefix(users, actions, i);
    LifeFacts(tag, users, actions[..i]);
    AcquiredIsConfigured(tag, LastUsers(users, actions[..i]), a.email, a.user);
    KeptIsConfigured(users, actions, i, k, g);
    StillWaiting(tag, users, actions, i, k, k);
    LiveIsConfigured(tag, users, actions, k, c);
    assert EverSince(users, actions, k, g);
  }

  lemma SoundPrefix(users: seq<UserInfo>, actions: seq<Action>, n: nat)
    requires SoundActions(users, actions) && n <= |actions|
    ensures SoundActions(users, actions[..n])
  {
    assert forall a :: a in actions[..n] ==> a in actions;
  }

  lemma TrackedIsLive(tag: string, users: seq<UserInfo>, front: seq<Action>, last: Action, c: int)
    requires TrackedBy(tag, users, front + [last], |front|, c)
    ensures c in Life(tag, users, front + [last]).tracking.live
  {
    assert (front + [last])[..|front|] == front;
  }

  lemma MissedStep(tag: string, m: Moment, a: Action, c: int)
    requires SoundUsers(m.users) && c < m.tracking.count && c in m.tracking.live && a != Leave(c)
    requires m.tracking.live[c] !in GroupsIn(m.users)
    ensures c in (if Possible(tag, m, a) then After(tag, m, a) else m).tracking.live
  {
    if Possible(tag, m, a) {
      OneAction(tag, m, a, c);
    }
  }

  /** If one does, and none brings the group back, nothing but its own end takes the connection out: no synchronisation
      interrupts it any more. */
  lemma {:induction false} MissedForGood(tag: string, users: seq<UserInfo>, actions: seq<Action>, k: nat, c: int)
    requires SoundActions(users, actions) && k < |actions| && TrackedBy(tag, users, actions, k, c)
    requires Leave(c) !in actions[k + 1..] && !EverSince(users, actions, k, GroupAt(tag, users, actions, k))
    ensures c in Life(tag, users, actions).tracking.live
    decreases |actions|
  {
    var front, last := actions[..|actions| - 1], actions[|actions| - 1];
    assert actions == front + [last];
    if k == |front| {
      TrackedIsLive(tag, users, front, last, c);
    } else {
      var g := GroupAt(tag, users, actions, k);
      SoundFront(users, front, last);
      LifeFacts(tag, users, front);
      EverSinceSnoc(users, front, last, k, g);
      assert actions[..k] == front[..k] && actions[k + 1..] == front[k + 1..] + [last];
      MissedForGood(tag, users, front, k, c);
      LiveIsConfigured(tag, users, front, k, c);
      assert front[..|front|] == front && !Configured(users, front[..|front|], g);
      MissedStep(tag, Life(tag, users, front), last, c);
    }
  }

  lemma {:induction false} NotAgain(users: seq<UserInfo>, start: seq<Action>, more: seq<Action>, group: string)
    requires !Configured(users, start, group)
    requires forall a :: a in more && a.Resync? ==> group !in GroupsIn(a.users)
    ensures !Configured(users, start + more, group)
    decreases |more|
  {
    if more == [] {
      assert start + more == start;
    } else {
      var front, last := more[..|more| - 1], more[|more| - 1];
      assert last in more && start + more == (start + front) + [last];
      NotAgain(users, start, front, group);
    }
  }

  /** A user is disabled between the two steps, for good: the connection stays, whatever synchronisations follow. */
  lemma DisabledInBetween(tag: string, u: UserInfo, more: seq<Action>)
    requires u.email != "" && '|' !in u.email && SoundActions([], more) && Leave(0) !in more
    requires forall a :: a in more && a.Resync? ==> UserConnGroup(u) !in GroupsIn(a.users)
    ensures var actions := [Acquire(0, u.email, u), Resync([]), Enter(0)] + more;
            var now := Life(tag, [u], actions).tracking;
            0 in now.live && now.live[0] == UserConnGroup(u) && !Configured([u], actions, UserConnGroup(u))
  {
    var start, rest := [Acquire(0, u.email, u), Resync([])], [Enter(0)] + more;
    var actions := [Acquire(0, u.email, u), Resync([]), Enter(0)] + more;
    var g := UserConnGroup(u);
    assert actions == start + rest && actions[..2] == start && actions[3..] == more;
    StartOfLife(tag, u);
    NeverSince([u], start, rest, g);
    assert actions[2] == Enter(0) && TrackedBy(tag, [u], actions, 2, 0);
    assert SoundActions([u], actions);
    MissedForGood(tag, [u], actions, 2, 0);
    LiveIsConfigured(tag, [u], actions, 2, 0);
  }

  lemma NeverSince(users: seq<UserInfo>, start: seq<Action>, rest: seq<Action>, group: string)
    requires !Configured(users, start, group)
    requires forall a :: a in rest && a.Resync? ==> group !in GroupsIn(a.users)
    ensures !EverSince(users, start + rest, |start|, group) && !Configured(users, start + rest, group)
  {
    var actions, n := start + rest, |start|;
    NotAgain(users, start, rest, group);
    forall j | n <= j <= |actions|
      ensures !Configured(users, actions[..j], group)
    {
      assert actions[..j] == start + rest[..j - n];
      assert forall a :: a in rest[..j - n] ==> a in rest;
      NotAgain(users, start, rest[..j - n], group);
    }
  }

  lemma StartOfLife(tag: string, u: UserInfo)
    requires u.email != "" && '|' !in u.email
    ensures var start := [Acquire(0, u.email, u), Resync([])];
            var m := Life(tag, [u], start);
            m.waiting == map[0 := UserConnGroup(u)] && m.tracking.count == 0 && LastUsers([u], start) == []
  {
    var first := [Acquire(0, u.email, u)];
    LifeSnoc(tag, [u], [], first[0]);
    LifeSnoc(tag, [u], first, Resync([]));
    assert [] + first == first && first + [Resync([])] == [Acquire(0, u.email, u), Resync([])];
    ScanFindsUser(tag, [u], u.email, u);
    assert Possible(tag, Life(tag, [u], []), first[0]);
    var m := Life(tag, [u], first);
    assert m == Moment([u], map[0 := UserConnGroup(u)], NOTHING);
  }

  lemma LifeSnoc(tag: string, users: seq<UserInfo>, front: seq<Action>, last: Action)
    ensures var m := Life(tag, users, front);
            Life(tag, users, front + [last]) == if Possible(tag, m, last) then After(tag, m, last) else m
  {
    assert (front + [last])[..|front|] == front;
  }
}
