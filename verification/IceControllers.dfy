/** The controller: it keeps the connections, schedules their pings and ranks them. */
module IceControllers {
  import opened Base
  import opened ConnectionState
  import opened ConnectionRank
  import opened ChannelState
  import opened IceConnections

  predicate Lowest(ids: set<Id>, m: Id) {
    m in ids && forall y :: y in ids ==> m <= y
  }

  lemma {:induction false} LowestExists(ids: set<Id>)
    requires ids != {}
    ensures exists m :: Lowest(ids, m)
  {
    var x :| x in ids;
    if ids == {x} {
      assert Lowest(ids, x);
    } else {
      LowestExists(ids - {x});
      var m: Id :| Lowest(ids - {x}, m);
      var lowest := if x < m then x else m;
      forall y | y in ids
        ensures lowest <= y
      {
        assert y == x || y in ids - {x};
      }
      assert Lowest(ids, lowest);
    }
  }

  /** A walk in address order may add the next id to what it has seen. */
  lemma PickGrows(table: Table, weak: bool, seen: set<Id>, id: Id, now: int, r: Option<Id>)
    requires seen <= table.Keys && id in table && IsPick(table, weak, seen, now, r)
    requires forall s :: s in seen ==> s < id
    ensures IsPick(table, weak, seen + {id}, now,
                   if Pingable(weak, table[id], now)
                      && (r.None? || table[id].lastPingSent < table[r.value].lastPingSent)
                   then Some(id) else r)
  {
  }

  lemma WithoutSkips(ids: seq<Id>, i: nat, id: Id)
    requires i < |ids| && ids[i] != id
    ensures ids[..i] + Without(ids[i..], id) == ids[..i + 1] + Without(ids[i + 1..], id)
  {
    assert ids[i..][1..] == ids[i + 1..];
    assert ids[..i + 1] == ids[..i] + [ids[i]];
    hide Without;
    ConcatAssoc(ids[..i], [ids[i]], Without(ids[i + 1..], id));
  }

  ghost predicate Below(seen: set<Id>, rest: set<Id>) {
    forall s, r :: s in seen && r in rest ==> s < r
  }

  lemma NothingBelow(ids: set<Id>)
    ensures ids - ids == {} && Below({}, ids)
  {
  }

  lemma WalkStep(ids: set<Id>, rest: set<Id>, id: Id)
    requires rest <= ids && Below(ids - rest, rest) && Lowest(rest, id)
    ensures Below(ids - (rest - {id}), rest - {id}) && ids - (rest - {id}) == ids - rest + {id}
    ensures id in ids && forall s :: s in ids - rest ==> s < id
  {
    forall s, r | s in ids - (rest - {id}) && r in rest - {id}
      ensures s < r
    {
      assert s == id || s in ids - rest;
    }
  }

  lemma PickOfNothing(table: Table, weak: bool, now: int)
    ensures IsPick(table, weak, {}, now, None)
  {
  }

  class IceController {
    /** The connection objects by address. The containers and pointers below hold addresses. */
    var memory: map<Id, IceConnection>
    var connections: seq<Id>
    var unpinged: set<Id>
    var pinged: set<Id>
    var selected: Option<Id>

    /** Every object that ever was in the memory. */
    ghost var objects: set<IceConnection>

    ghost predicate Covered()
      reads `memory, `objects
    {
      forall id :: id in memory ==> memory[id] in objects
    }

    function Snapshot(): (t: Table)
      requires Covered()
      reads `memory, `objects, objects
      ensures t.Keys == memory.Keys
    {
      map id | id in memory :: memory[id].View()
    }

    /** The controller's part of the channel's state. */
    function View(): (ch: Chan)
      requires Covered()
      reads this, objects
      ensures ch.conns.Keys == memory.Keys
    {
      NewChan().(conns := Snapshot(), order := connections, unpinged := unpinged, pinged := pinged,
                 ctlSelected := selected)
    }

    ghost predicate Valid(): (b: bool)
      reads this, objects
      ensures b ==> Covered() && Wf(View())
    {
      && Covered()
      && Wf(View())
      && forall x, y :: x in memory && y in memory && x != y ==> memory[x] != memory[y]
    }

    /** What a change of one connection object does to the view. */
    twostate lemma ObjectChanged(id: Id)
      requires old(Valid()) && id in memory && unchanged(this)
      requires forall x :: x in memory && x != id ==> unchanged(memory[x])
      ensures Valid() && View() == old(View()).(conns := old(Snapshot())[id := memory[id].View()])
    {
      assert Snapshot() == old(Snapshot())[id := memory[id].View()];
    }

    constructor ()
      ensures Valid() && View() == NewChan() && memory == map[] && objects == {}
    {
      memory, connections, unpinged, pinged, selected := map[], [], {}, {}, None;
      objects := {};
    }

    method AddConnection(id: Id, conn: IceConnection)
      requires Valid() && id !in memory && conn !in objects
      modifies this
      ensures Valid() && memory == old(memory)[id := conn] && objects == old(objects) + {conn}
      ensures View() == old(View()).(conns := old(View()).conns[id := conn.View()],
                                     order := old(connections) + [id], unpinged := old(unpinged) + {id})
    {
      hide Snapshot, Wf;
      AddedIsWf(View(), id, conn.View());
      memory := memory[id := conn];
      objects := objects + {conn};
      connections := connections + [id];
      unpinged := unpinged + {id};
      ObjectAdded(id, conn);
    }

    /** What one more connection object does to the view. */
    twostate lemma ObjectAdded(id: Id, new conn: IceConnection)
      requires old(Covered()) && memory == old(memory)[id := conn] && objects == old(objects) + {conn}
      requires forall o :: o in old(objects) ==> unchanged(o)
      ensures Covered() && Snapshot() == old(Snapshot())[id := conn.View()]
    {
    }

    predicate IsWeak(): (w: bool)
      requires Valid()
      reads this, objects
      ensures w <==> ControllerWeak(View())
    {
      selected.None? || Weak(memory[selected.value].View())
    }

    predicate IsPingable(id: Id, now: int)
      requires Valid() && id in memory
      reads this, objects
    {
      Pingable(IsWeak(), memory[id].View(), now)
    }

    method HasPingableConnection(now: int) returns (r: bool)
      requires Valid()
      ensures r <==> HasPingable(View(), now)
    {
      for i := 0 to |connections|
        invariant forall k :: 0 <= k < i ==> !Pingable(ControllerWeak(View()), Snapshot()[connections[k]], now)
      {
        if IsPingable(connections[i], now) {
          return true;
        }
      }
      return false;
    }

    predicate SelectionIsDue(now: int): (due: bool)
      requires Valid()
      reads this, objects
      ensures due <==> PingsSelectedFirst(View(), now)
    {
      && selected.Some? && Writable(memory[selected.value].View())
      && PastPingInterval(IsWeak(), memory[selected.value].View(), now)
    }

    method FindNextPingable(now: int) returns (pick: Option<Id>)
      requires Valid()
      modifies this
      ensures Valid() && memory == old(memory) && objects == old(objects)
      ensures Selection(View(), pick, PingInterval(old(View()))) == ChannelState.FindNextPingable(old(View()), now)
    {
      hide Pick, PingInterval, PingsSelectedFirst, ControllerWeak, Wf, SelectionIsDue, IsWeak, Valid, Snapshot;
      if SelectionIsDue(now) {
        return selected;
      }
      var hasPingable := LookForPingable(now);
      if !hasPingable {
        StartOver();
      }
      pick := LeastRecentlyPinged(Snapshot(), IsWeak(), unpinged, now);
    }

    method StartOver()
      requires Valid()
      modifies this
      ensures Valid() && memory == old(memory) && objects == old(objects)
      ensures View() == MergeSets(old(View())) && unpinged == View().unpinged <= memory.Keys
    {
      MergedIsWf(View());
      unpinged := unpinged + pinged;
      pinged := {};
      assert View() == MergeSets(old(View()));
      hide Wf;
    }

    /** The first walk over the unpinged set stops at a pingable connection but does not say so. */
    method LookForPingable(now: int) returns (found: bool)
      requires Valid()
      ensures !found
    {
      assert unpinged <= memory.Keys;
      hide Valid, View;
      found := false;
      var rest := unpinged;
      while rest != {}
        invariant rest <= unpinged
        decreases |rest|
      {
        LowestExists(rest);
        var id :| Lowest(rest, id);
        if IsPingable(id, now) {
          break;
        }
        rest := rest - {id};
      }
    }

    /** The second walk, in address order. */
    static method LeastRecentlyPinged(table: Table, weak: bool, ids: set<Id>, now: int) returns (pick: Option<Id>)
      requires ids <= table.Keys
      ensures pick == Pick(table, weak, ids, now)
    {
      hide IsPick, Pingable, Pick, Below, Lowest;
      pick := None;
      PickOfNothing(table, weak, now);
      var rest := ids;
      NothingBelow(ids);
      while rest != {}
        invariant rest <= ids && Below(ids - rest, rest)
        invariant pick.Some? ==> pick.value in ids
        invariant IsPick(table, weak, ids - rest, now, pick)
        decreases |rest|
      {
        LowestExists(rest);
        var id :| Lowest(rest, id);
        WalkStep(ids, rest, id);
        PickGrows(table, weak, ids - rest, id, now, pick);
        if Pingable(weak, table[id], now) && (pick.None? || table[id].lastPingSent < table[pick.value].lastPingSent) {
          pick := Some(id);
        }
        rest := rest - {id};
      }
      assert ids - rest == ids;
      PickUnique(table, weak, ids, now, pick, Pick(table, weak, ids, now));
    }

    method SelectedConnectionToPing(lastPingSent: int, now: int) returns (pick: Option<Id>, interval: int)
      requires Valid()
      modifies this
      ensures Valid() && memory == old(memory) && objects == old(objects)
      ensures Selection(View(), pick, interval) == SelectConnectionToPing(old(View()), lastPingSent, now)
    {
      var needPingMore := false;
      var i := 0;
      while i < |connections|
        invariant 0 <= i <= |connections|
        invariant !needPingMore
        invariant forall k :: 0 <= k < i ==>
          View().conns[connections[k]].numPingsSent >= MIN_PINGS_AT_WEAK_PING_INTERVAL
      {
        if memory[connections[i]].numPingsSent < MIN_PINGS_AT_WEAK_PING_INTERVAL {
          needPingMore := true;
          assert View().conns[View().order[i]].numPingsSent < MIN_PINGS_AT_WEAK_PING_INTERVAL;
          break;
        }
        i := i + 1;
      }
      var weak := selected.None? || Weak(memory[selected.value].View());
      interval := if weak || needPingMore then WEAK_PING_INTERVAL else STRONG_PING_INTERVAL;
      assert interval == PingInterval(View());
      pick := None;
      if now >= lastPingSent + interval {
        pick := FindNextPingable(now);
      }
    }

    method MarkConnectionPinged(id: Id)
      requires Valid() && id in memory
      modifies this
      ensures Valid() && memory == old(memory) && objects == old(objects) && View() == MarkPinged(old(View()), id)
    {
      if id !in pinged {
        pinged := pinged + {id};
        unpinged := unpinged - {id};
      }
    }

    /** The library sorts the vector; the switch is then judged on its first element. */
    method SortAndSwitch() returns (target: Option<Id>)
      requires Valid()
      modifies this
      ensures Valid() && memory == old(memory) && objects == old(objects)
      ensures View() == SortVector(old(View())) && target == SwitchTarget(View())
    {
      hide StableSort;
      SortedIsWf(View());
      connections := StableSort(Snapshot(), connections);
      assert View() == SortVector(old(View()));
      if connections == [] {
        return None;
      }
      var top := memory[connections[0]];
      if !ReadyToSend(top.View()) || selected == Some(connections[0]) {
        return None;
      }
      if selected.None? {
        return Some(connections[0]);
      }
      if top.rtt <= memory[selected.value].rtt - MIN_IMPROVEMENT {
        return Some(connections[0]);
      }
      return None;
    }

    method SetSelectedConnection(id: Id)
      requires Valid() && id in memory
      modifies this
      ensures Valid() && memory == old(memory) && objects == old(objects)
      ensures View() == old(View()).(ctlSelected := Some(id))
    {
      selected := Some(id);
    }

    method OnConnectionDestroyed(id: Id)
      requires Valid() && id in memory
      modifies this
      ensures Valid() && memory == old(memory) && objects == old(objects)
      ensures View() == old(View()).(pinged := old(pinged) - {id}, unpinged := old(unpinged) - {id},
                                     order := Without(old(connections), id))
    {
      hide Without;
      DroppedIsWf(View(), id);
      var rest := Erase(connections, id);
      pinged := pinged - {id};
      unpinged := unpinged - {id};
      connections := rest;
      assert View() == Dropped(old(View()), id);
      hide Wf;
    }

    /** The object is gone; whoever still holds its address holds a dangling pointer. */
    method Free(id: Id)
      requires Valid() && id in memory
      modifies this
      ensures Covered() && memory == old(memory) - {id} && objects == old(objects)
      ensures View() == old(View()).(conns := old(View()).conns - {id}) && (Wf(View()) <==> Valid())
    {
      memory := memory - {id};
      assert Snapshot() == old(Snapshot()) - {id};
    }

    static method Erase(ids: seq<Id>, id: Id) returns (r: seq<Id>)
      ensures r == Without(ids, id)
    {
      var i := 0;
      while i < |ids| && ids[i] != id
        invariant 0 <= i <= |ids|
        invariant Without(ids, id) == ids[..i] + Without(ids[i..], id)
      {
        WithoutSkips(ids, i, id);
        i := i + 1;
      }
      assert i < |ids| ==> ids[i..][1..] == ids[i + 1..];
      r := if i < |ids| then ids[..i] + ids[i + 1..] else ids;
    }
  }
}
