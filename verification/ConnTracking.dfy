/** What tracking connections by group means, and the sets of interrupt functions that do it, as values. */
module ConnTracking {

  // ---------- What tracking means

  /** Connections are numbered in the order in which they are tracked. */
  datatype Tracking = Tracking(live: map<int, string>, kicked: multiset<int>, count: nat)

  datatype Op = Track(group: string) | Clean(conn: int) | Kick(group: string)

  const NOTHING := Tracking(map[], multiset{}, 0)

  function Members(live: map<int, string>, group: string): set<int> {
    set c | c in live && live[c] == group
  }

  function Tracked(t: Tracking, group: string): Tracking {
    Tracking(t.live[t.count := group], t.kicked, t.count + 1)
  }

  function Cleaned(t: Tracking, conn: int): Tracking {
    t.(live := t.live - {conn})
  }

  function Kicked(t: Tracking, group: string): Tracking {
    var gone := Members(t.live, group);
    t.(live := t.live - gone, kicked := t.kicked + multiset(gone))
  }

  function Step(t: Tracking, op: Op): Tracking {
    match op
    case Track(group) => if group == "" then t else Tracked(t, group)
    case Clean(conn) => Cleaned(t, conn)
    case Kick(group) => Kicked(t, group)
  }

  function Run(ops: seq<Op>): Tracking {
    if ops == [] then NOTHING else Step(Run(ops[..|ops| - 1]), ops[|ops| - 1])
  }

  /** A connection is live, or has been kicked once, or has been cleaned up. */
  predicate Consistent(t: Tracking) {
    && (forall c :: c in t.live ==> 0 <= c < t.count && t.live[c] != "" && t.kicked[c] == 0)
    && (forall c :: c in t.kicked ==> 0 <= c < t.count && t.kicked[c] == 1)
  }

  lemma {:induction false} RunIsConsistent(ops: seq<Op>)
    ensures Consistent(Run(ops))
  {
    if ops != [] {
      RunIsConsistent(ops[..|ops| - 1]);
    }
  }

  /** No connection is kicked twice, and cleaning up one that has been kicked changes nothing. */
  lemma KickedOnce(ops: seq<Op>, c: int)
    ensures Run(ops).kicked[c] <= 1
    ensures Run(ops).kicked[c] == 1 ==> Run(ops + [Clean(c)]) == Run(ops)
  {
    RunIsConsistent(ops);
    assert (ops + [Clean(c)])[..|ops|] == ops;
    assert c in Run(ops).kicked <==> Run(ops).kicked[c] > 0;
    assert c !in Run(ops).live ==> Run(ops).live - {c} == Run(ops).live;
  }

  lemma RunSnoc(ops: seq<Op>, op: Op)
    ensures Run(ops + [op]) == Step(Run(ops), op)
  {
    assert (ops + [op])[..|ops|] == ops;
  }

  /** A connection that is tracked, then neither cleaned up nor kicked for a while. */
  predicate Undisturbed(ops: seq<Op>, c: int, group: string) {
    Clean(c) !in ops && Kick(group) !in ops
  }

  lemma {:induction false} StaysLive(ops: seq<Op>, more: seq<Op>, c: int, group: string)
    requires c in Run(ops).live && Run(ops).live[c] == group && Undisturbed(more, c, group)
    ensures c in Run(ops + more).live && Run(ops + more).live[c] == group
    decreases |more|
  {
    if more == [] {
      assert ops + more == ops;
    } else {
      var front, last := more[..|more| - 1], more[|more| - 1];
      StaysLive(ops, front, c, group);
      assert ops + more == (ops + front) + [last];
      assert last in more;
      RunSnoc(ops + front, last);
      RunIsConsistent(ops + front);
    }
  }

  lemma {:induction false} GoneForGood(ops: seq<Op>, more: seq<Op>, c: int)
    requires c !in Run(ops).live && c < Run(ops).count
    ensures c !in Run(ops + more).live && c < Run(ops + more).count
    ensures Run(ops + more).kicked[c] == Run(ops).kicked[c]
    decreases |more|
  {
    if more == [] {
      assert ops + more == ops;
    } else {
      var front, last := more[..|more| - 1], more[|more| - 1];
      GoneForGood(ops, front, c);
      assert ops + more == (ops + front) + [last];
      RunSnoc(ops + front, last);
    }
  }

  /** What happens to a connection: the first of its cleanup and of a kick of its group decides. */
  lemma Fate(ops: seq<Op>, group: string, more: seq<Op>, last: Op, rest: seq<Op>)
    requires group != ""
    requires var c := Run(ops).count; Undisturbed(more, c, group) && (last == Clean(c) || last == Kick(group))
    ensures var c := Run(ops).count;
            var all := ops + [Track(group)] + more + [last] + rest;
            c !in Run(all).live && Run(all).kicked[c] == (if last == Kick(group) then 1 else 0)
  {
    var c := Run(ops).count;
    var tracked := ops + [Track(group)];
    RunIsConsistent(ops);
    RunSnoc(ops, Track(group));
    StaysLive(tracked, more, c, group);
    RunIsConsistent(tracked + more);
    RunSnoc(tracked + more, last);
    GoneForGood(tracked + more + [last], rest, c);
  }

  // ---------- The code

  /** connKickerSet: the interrupt functions of a group, here the numbers of the connections they interrupt. */
  class KickerSet {
    ghost const group: string
    var next: nat
    var all: map<int, int>

    constructor (ghost group: string)
      ensures next == 0 && all == map[] && this.group == group
    {
      next, all := 0, map[];
      this.group := group;
    }
  }

  /** What a cleanup function remembers. */
  datatype Ticket = NoTicket | Ticket(group: string, kickers: KickerSet, id: int)

  predicate Injective(all: map<int, int>) {
    forall i, j :: i in all && j in all && all[i] == all[j] ==> i == j
  }

  function Values(all: map<int, int>, ids: set<int>): set<int>
    requires ids <= all.Keys
  {
    set id | id in ids :: all[id]
  }

  lemma ValuesStep(all: map<int, int>, ids: set<int>, id: int)
    requires Injective(all) && ids <= all.Keys && id in all && id !in ids
    ensures all[id] !in Values(all, ids)
    ensures Values(all, ids + {id}) == Values(all, ids) + {all[id]}
  {
  }

  method Any<T>(ids: set<T>) returns (id: T)
    requires ids != {}
    ensures id in ids
  {
    id :| id in ids;
  }

  /** The values of a map in some order. */
  method Functions(all: map<int, int>) returns (functions: seq<int>)
    requires Injective(all)
    ensures multiset(functions) == multiset(Values(all, all.Keys))
  {
    functions := [];
    var ids := all.Keys;
    ghost var done := {};
    while ids != {}
      invariant ids + done == all.Keys && ids !! done
      invariant multiset(functions) == multiset(Values(all, done))
      decreases |ids|
    {
      var id := Any(ids);
      ValuesStep(all, done, id);
      functions := functions + [all[id]];
      ids, done := ids - {id}, done + {id};
    }
    assert done == all.Keys;
  }

  // ---------- The sets as values

  /** A set's fields at some moment. */
  datatype Entry = Entry(next: nat, all: map<int, int>)

  /** The registry at some moment: the active sets, every set that was ever made, the tickets given out, the live
      connections with their groups, and how many have been tracked. */
  datatype Store = Store(active: map<string, KickerSet>, sets: map<KickerSet, Entry>, issued: map<int, Ticket>,
                         live: map<int, string>, count: nat)

  /** Only the active set of a group has entries, and it has some. */
  ghost predicate SetsOk(st: Store) {
    && (forall g :: g in st.active ==> st.active[g] in st.sets && st.active[g].group == g)
    && (forall g :: g in st.active ==> st.sets[st.active[g]].all != map[])
    && (forall s :: s in st.sets && st.sets[s].all != map[] ==> s.group in st.active && st.active[s.group] == s)
  }

  ghost predicate TicketsOk(st: Store) {
    && (forall c :: c in st.issued ==> 0 <= c < st.count && st.issued[c].Ticket? && st.issued[c].kickers in st.sets)
    && (forall c :: c in st.issued ==> st.issued[c].kickers.group == st.issued[c].group &&
                                       st.issued[c].id <= st.sets[st.issued[c].kickers].next)
    && (forall c, d :: c in st.issued && d in st.issued && st.issued[c] == st.issued[d] ==> c == d)
  }

  /** Every entry of a set is a live connection. */
  ghost predicate EntriesOk(st: Store) {
    forall s, id :: s in st.sets && id in st.sets[s].all ==>
      var c := st.sets[s].all[id];
      c in st.live && c in st.issued && st.issued[c] == Ticket(s.group, s, id)
  }

  /** Every live connection is an entry of the set that its ticket names. */
  ghost predicate LiveOk(st: Store)
    requires TicketsOk(st)
  {
    forall c :: c in st.live ==>
      c in st.issued && st.live[c] == st.issued[c].group &&
      var t := st.issued[c];
      t.id in st.sets[t.kickers].all && st.sets[t.kickers].all[t.id] == c
  }

  ghost predicate Ok(st: Store) {
    SetsOk(st) && TicketsOk(st) && EntriesOk(st) && LiveOk(st)
  }

  function TrackStore(st: Store, group: string, s: KickerSet, e: Entry): Store {
    var t := Ticket(group, s, e.next + 1);
    Store(st.active[group := s], st.sets[s := Entry(e.next + 1, e.all[e.next + 1 := st.count])],
          st.issued[st.count := t], st.live[st.count := group], st.count + 1)
  }

  ghost predicate Joins(st: Store, group: string, s: KickerSet, e: Entry) {
    s.group == group &&
    if group in st.active then s == st.active[group] && s in st.sets && e == st.sets[s]
    else s !in st.sets && e == Entry(0, map[])
  }

  lemma TrackSetsOk(st: Store, group: string, s: KickerSet, e: Entry)
    requires SetsOk(st) && Joins(st, group, s, e)
    ensures SetsOk(TrackStore(st, group, s, e))
  {
    assert e.next + 1 in TrackStore(st, group, s, e).sets[s].all;
  }

  lemma TrackTicketsOk(st: Store, group: string, s: KickerSet, e: Entry)
    requires TicketsOk(st) && Joins(st, group, s, e)
    ensures TicketsOk(TrackStore(st, group, s, e))
  {
  }

  lemma TrackEntriesOk(st: Store, group: string, s: KickerSet, e: Entry)
    requires TicketsOk(st) && EntriesOk(st) && Joins(st, group, s, e)
    ensures EntriesOk(TrackStore(st, group, s, e))
  {
  }

  lemma TrackLiveOk(st: Store, group: string, s: KickerSet, e: Entry)
    requires TicketsOk(st) && LiveOk(st) && Joins(st, group, s, e)
    ensures TicketsOk(TrackStore(st, group, s, e)) && LiveOk(TrackStore(st, group, s, e))
  {
    TrackTicketsOk(st, group, s, e);
    var now := TrackStore(st, group, s, e);
    forall c | c in now.live
      ensures c in now.issued && now.live[c] == now.issued[c].group
      ensures now.issued[c].id in now.sets[now.issued[c].kickers].all
      ensures now.sets[now.issued[c].kickers].all[now.issued[c].id] == c
    {
      if c != st.count {
        assert c in st.live;
        assert now.issued[c] == st.issued[c];
      }
    }
  }

  lemma TrackOk(st: Store, group: string, s: KickerSet, e: Entry)
    requires Ok(st) && Joins(st, group, s, e)
    ensures Ok(TrackStore(st, group, s, e))
  {
    TrackSetsOk(st, group, s, e);
    TrackTicketsOk(st, group, s, e);
    TrackEntriesOk(st, group, s, e);
    TrackLiveOk(st, group, s, e);
  }

  function CleanStore(st: Store, conn: int, t: Ticket): Store
    requires t.Ticket? && t.kickers in st.sets
  {
    var e := st.sets[t.kickers];
    var all := e.all - {t.id};
    st.(sets := st.sets[t.kickers := Entry(e.next, all)], live := st.live - {conn},
        active := if all == map[] && t.group in st.active && st.active[t.group] == t.kickers
                  then st.active - {t.group} else st.active)
  }

  lemma CleanSetsOk(st: Store, conn: int, t: Ticket)
    requires SetsOk(st) && TicketsOk(st) && conn in st.issued && st.issued[conn] == t
    ensures SetsOk(CleanStore(st, conn, t)) && TicketsOk(CleanStore(st, conn, t))
  {
  }

  lemma CleanEntriesOk(st: Store, conn: int, t: Ticket)
    requires TicketsOk(st) && EntriesOk(st) && LiveOk(st) && conn in st.issued && st.issued[conn] == t
    ensures EntriesOk(CleanStore(st, conn, t))
  {
    var e := st.sets[t.kickers];
    assert t.id in e.all ==> e.all[t.id] == conn && conn in st.live;
  }

  lemma CleanLiveOk(st: Store, conn: int, t: Ticket)
    requires TicketsOk(st) && EntriesOk(st) && LiveOk(st) && conn in st.issued && st.issued[conn] == t
    requires TicketsOk(CleanStore(st, conn, t))
    ensures LiveOk(CleanStore(st, conn, t))
  {
  }

  lemma CleanTwice(st: Store, conn: int, t: Ticket)
    requires Ok(st) && conn in st.issued && st.issued[conn] == t && conn !in st.live
    ensures CleanStore(st, conn, t) == st
  {
    var e := st.sets[t.kickers];
    assert t.id !in e.all;
    assert e.all - {t.id} == e.all;
    assert st.live - {conn} == st.live;
    assert CleanStore(st, conn, t).sets == st.sets;
  }

  lemma CleanOk(st: Store, conn: int, t: Ticket)
    requires Ok(st) && conn in st.issued && st.issued[conn] == t
    ensures Ok(CleanStore(st, conn, t))
    ensures conn !in st.live ==> CleanStore(st, conn, t) == st
  {
    CleanSetsOk(st, conn, t);
    CleanEntriesOk(st, conn, t);
    CleanLiveOk(st, conn, t);
    if conn !in st.live {
      CleanTwice(st, conn, t);
    }
  }

  function KickStore(st: Store, group: string): Store
    requires group in st.active && st.active[group] in st.sets
  {
    var s := st.active[group];
    st.(active := st.active - {group}, sets := st.sets[s := Entry(st.sets[s].next, map[])],
        live := st.live - Members(st.live, group))
  }

  lemma KickOk(st: Store, group: string)
    requires Ok(st) && group in st.active
    ensures Ok(KickStore(st, group))
  {
    var now := KickStore(st, group);
    assert SetsOk(now);
    assert TicketsOk(now);
    assert LiveOk(now);
    assert EntriesOk(now);
  }

  /** The entries of a group's active set are the group's live connections. */
  lemma GroupMembers(st: Store, group: string)
    requires Ok(st)
    ensures group !in st.active ==> Members(st.live, group) == {}
    ensures group in st.active ==>
              var all := st.sets[st.active[group]].all;
              Injective(all) && Values(all, all.Keys) == Members(st.live, group)
  {
    forall c | c in Members(st.live, group)
      ensures group in st.active
      ensures c in Values(st.sets[st.active[group]].all, st.sets[st.active[group]].all.Keys)
    {
      var t := st.issued[c];
      assert st.sets[t.kickers].all != map[];
      assert st.active[group] == t.kickers && t.id in st.sets[st.active[group]].all;
    }
    if group in st.active {
      var s := st.active[group];
      var all := st.sets[s].all;
      forall v | v in Values(all, all.Keys)
        ensures v in Members(st.live, group)
      {
        var id :| id in all && all[id] == v;
        assert st.issued[v] == Ticket(s.group, s, id);
      }
    }
  }
}
