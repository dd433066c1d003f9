/** The tracked connections of each group, and interrupting them. */
module ConnRegistry {
  import opened ConnTracking

  class Registry {
    /** activeConnKickers */
    var active: map<string, KickerSet>
    /** The connections interrupted so far. */
    var kicked: seq<int>
    /** How many have been tracked; numbers their interrupt functions. */
    var count: nat
    ghost var store: Store

    constructor ()
      ensures Valid() && Abstract() == NOTHING && store.sets == map[]
    {
      active, kicked, count, store := map[], [], 0, Store(map[], map[], map[], map[], 0);
    }

    ghost function Abstract(): Tracking
      reads this
    {
      Tracking(store.live, multiset(kicked), count)
    }

    /** The objects, of which the store has the values. */
    ghost function Sets(): set<KickerSet>
      reads this
    {
      store.sets.Keys
    }

    ghost predicate Mirrors()
      reads this, Sets()
    {
      store.active == active && store.count == count && forall s :: s in store.sets ==> store.sets[s] == Entry(s.next, s.all)
    }

    ghost predicate Valid()
      reads this, Sets()
    {
      Ok(store) && Mirrors()
    }

    /** The active set of a group; a new one if it has none. */
    method LoadOrStore(group: string) returns (kickers: KickerSet)
      requires SetsOk(store) && Mirrors()
      modifies `active
      ensures active == old(active)[group := kickers]
      ensures Joins(store, group, kickers, Entry(kickers.next, kickers.all))
      ensures kickers in Sets() || fresh(kickers)
    {
      if group in active {
        kickers := active[group];
        assert active[group := kickers] == active;
      } else {
        kickers := new KickerSet(group);
        active := active[group := kickers];
      }
    }

    method TrackConn(group: string, hasKick: bool) returns (t: Ticket)
      requires Valid()
      modifies this, Sets()
      ensures Valid() && fresh(Sets() - old(Sets())) && old(Sets()) <= Sets()
      ensures Abstract() == if group == "" || !hasKick then old(Abstract()) else Tracked(old(Abstract()), group)
      ensures if group == "" || !hasKick then t == NoTicket && store == old(store)
              else store.issued == old(store.issued)[old(count) := t]
    {
      if group == "" || !hasKick {
        return NoTicket;
      }
      var kickers := LoadOrStore(group);
      TrackOk(store, group, kickers, Entry(kickers.next, kickers.all));
      t := Insert(group, kickers);
    }

    method Insert(group: string, kickers: KickerSet) returns (t: Ticket)
      requires active == store.active[group := kickers] && store.count == count
      requires forall s :: s in store.sets ==> store.sets[s] == Entry(s.next, s.all)
      modifies `store, `count, kickers
      ensures store == TrackStore(old(store), group, kickers, old(Entry(kickers.next, kickers.all)))
      ensures Mirrors() && t == store.issued[old(count)]
      ensures Abstract() == Tracked(old(Abstract()), group)
    {
      store := TrackStore(store, group, kickers, Entry(kickers.next, kickers.all));
      kickers.next := kickers.next + 1;
      var id := kickers.next;
      kickers.all := kickers.all[id := count];
      count := count + 1;
      t := Ticket(group, kickers, id);
    }

    /** The cleanup function of a connection. */
    method Cleanup(t: Ticket, ghost conn: int)
      requires Valid() && conn in store.issued && store.issued[conn] == t
      modifies this, Sets()
      ensures Valid() && Sets() == old(Sets()) && store.issued == old(store.issued)
      ensures Abstract() == Cleaned(old(Abstract()), conn)
      ensures conn !in old(store.live) ==> store == old(store)
    {
      CleanOk(store, conn, t);
      Delete(t, conn);
    }

    method Delete(t: Ticket, ghost conn: int)
      requires Mirrors() && t.Ticket? && t.kickers in Sets()
      modifies `active, `store, t.kickers
      ensures Mirrors() && store == CleanStore(old(store), conn, t)
      ensures Abstract() == Cleaned(old(Abstract()), conn)
    {
      store := CleanStore(store, conn, t);
      var kickers := t.kickers;
      kickers.all := kickers.all - {t.id};
      var empty := kickers.all == map[];
      if empty && t.group in active && active[t.group] == kickers {
        active := active - {t.group};
      }
    }

    method KickConnGroup(group: string)
      requires Valid()
      modifies this, Sets()
      ensures Valid() && Sets() == old(Sets()) && store.issued == old(store.issued)
      ensures Abstract() == Kicked(old(Abstract()), group)
    {
      GroupMembers(store, group);
      if group !in active {
        assert store.live - {} == store.live;
        return;
      }
      KickOk(store, group);
      var functions := Detach(group);
      Interrupt(functions);
    }

    /** Takes a group's set out of service, and its entries out of the set. */
    method Detach(group: string) returns (functions: seq<int>)
      requires Mirrors() && group in active && active[group] in Sets() && Injective(active[group].all)
      modifies `active, `store, active[group]
      ensures Mirrors() && store == KickStore(old(store), group)
      ensures multiset(functions) == multiset(old(Values(active[group].all, active[group].all.Keys)))
      ensures kicked == old(kicked)
    {
      var kickers := active[group];
      functions := Functions(kickers.all);
      store := KickStore(store, group);
      active := active - {group};
      kickers.all := map[];
    }

    method Interrupt(functions: seq<int>)
      modifies `kicked
      ensures kicked == old(kicked) + functions
    {
      for i := 0 to |functions|
        invariant kicked == old(kicked) + functions[..i]
      {
        kicked := kicked + [functions[i]];
      }
      assert functions[..|functions|] == functions;
    }
  }
}
