/** What the selection of a channel settles on, and when that is not the best connection. */
module ChannelSelection {
  import opened Base
  import opened ConnectionState
  import opened ConnectionRank
  import opened ChannelState
  import opened ChannelTheorems

  /** The comparison does not look at the flag a switch sets. */
  lemma BetterIgnoresFlag(a: Conn, b: Conn, x: bool, y: bool)
    ensures Better(a.(selected := x), b.(selected := y)) == Better(a, b)
  {
    hide PairPriority;
  }

  lemma SetSelectedAt(table: Table, id: Option<Id>, on: bool, x: Id)
    requires (id.Some? ==> id.value in table) && x in table
    ensures var c := SetSelected(table, id, on)[x]; c == table[x].(selected := c.selected)
  {
  }

  lemma SwitchAt(ch: Chan, target: Option<Id>, x: Id)
    requires Wf(ch) && (target.Some? ==> target.value in ch.conns) && x in ch.conns
    ensures var c := Switch(ch, target).conns[x]; c == ch.conns[x].(selected := c.selected)
  {
    hide SetSelected;
    SetSelectedAt(ch.conns, ch.selected, false, x);
    if target.Some? {
      SetSelectedAt(SetSelected(ch.conns, ch.selected, false), target, true, x);
    }
  }

  lemma SortedVector(ch: Chan)
    requires Wf(ch)
    ensures var s := SortVector(ch);
      forall p, q :: 0 <= p < q < |s.order| ==> !Better(s.conns[s.order[q]], s.conns[s.order[p]])
  {
    hide Better, StableSort;
    StableSortIsStable(ch.conns, ch.order);
    var s := SortVector(ch);
    forall p, q | 0 <= p < q < |s.order|
      ensures !Better(s.conns[s.order[q]], s.conns[s.order[p]])
    {
      assert Ahead(ch.conns, ch.order, s.order[p], s.order[q]);
      BetterIsStrictWeakOrder(s.conns[s.order[p]], s.conns[s.order[q]], s.conns[s.order[p]]);
    }
  }

  /** A switch leaves the sorted vector sorted. */
  lemma SwitchKeepsOrder(ch: Chan)
    requires Wf(ch)
    ensures var s := SortVector(ch);
      var t := Switch(s, SwitchTarget(s));
      Wf(t) && SortVector(t) == t
  {
    hide Better, StableSort, SwitchTarget, Switch;
    var s := SortVector(ch);
    SwitchTargetExists(s);
    SwitchKeepsTable(s, SwitchTarget(s));
    var t := Switch(s, SwitchTarget(s));
    SortedVector(ch);
    forall p, q | 0 <= p < q < |t.order|
      ensures !Better(t.conns[t.order[q]], t.conns[t.order[p]])
    {
      var a, b := t.order[p], t.order[q];
      SwitchAt(s, SwitchTarget(s), a);
      SwitchAt(s, SwitchTarget(s), b);
      BetterIgnoresFlag(s.conns[b], s.conns[a], t.conns[b].selected, t.conns[a].selected);
    }
    SortOfOrdered(t.conns, t.order);
  }

  lemma SwitchKeepsTable(ch: Chan, target: Option<Id>)
    requires Wf(ch) && (target.Some? ==> target.value in ch.conns)
    ensures var t := Switch(ch, target); Wf(t) && t.order == ch.order && t.conns.Keys == ch.conns.Keys
  {
  }

  /** Once the switch that a sort asks for is made, sorting again moves nothing and asks for nothing. */
  lemma SelectionSettles(ch: Chan)
    requires Wf(ch)
    ensures var s := SortVector(ch);
      var t := Switch(s, SwitchTarget(s));
      Wf(t) && SortVector(t) == t && SwitchTarget(t) == None
  {
    hide StableSort, SetSelected;
    SwitchKeepsOrder(ch);
  }

  /** So re-sorting twice is re-sorting once, flags, selection and timer included. */
  lemma ResortIsIdempotent(ch: Chan, now: int)
    requires Wf(ch)
    ensures Resort(Resort(ch, now), now) == Resort(ch, now)
  {
    hide StableSort, SwitchTarget, Switch, HasPingable;
    SelectionSettles(ch);
    var s := SortVector(ch);
    SwitchTargetExists(s);
    var t := Switch(s, SwitchTarget(s));
    var r := Resort(ch, now);
    SameForSorting(t, r);
    SwitchNowhere(r);
    SameForPinging(t, Summarise(t), now);
    SameForPinging(t, r, now);
  }

  /** The head of the sorted vector; no connection is better. */
  function Top(ch: Chan): Id
    requires Wf(ch) && ch.order != []
  {
    StableSort(ch.conns, ch.order)[0]
  }

  lemma TopIsBest(ch: Chan)
    requires Core(ch) && ch.order != []
    ensures Top(ch) in ch.conns && forall id :: id in ch.conns ==> !Better(ch.conns[id], ch.conns[Top(ch)])
  {
    hide Better, StableSort;
    SortedVector(ch);
    var s := SortVector(ch);
    PermutationKeepsMembers(ch.order, s.order);
    assert s.order[0] in s.order;
    forall id | id in ch.conns
      ensures !Better(ch.conns[id], ch.conns[Top(ch)])
    {
      assert id in s.order;
      var q :| 0 <= q < |s.order| && s.order[q] == id;
      BetterIsStrictWeakOrder(ch.conns[id], ch.conns[id], ch.conns[id]);
    }
  }

  lemma TopIsReady(ch: Chan, id: Id)
    requires Core(ch) && id in ch.conns
    ensures ch.order != []
    ensures Rank(ch.conns[Top(ch)].writeState) <= Rank(ch.conns[id].writeState)
  {
    hide Better, StableSort;
    assert id in ch.order;
    TopIsBest(ch);
    BetterIsLexicographic(ch.conns[id], ch.conns[Top(ch)]);
  }

  /** The selection after a re-sort, from the state before it. */
  lemma SelectionOutcome(ch: Chan, now: int)
    requires Core(ch)
    ensures var sel := Resort(ch, now).selected;
      if ch.order == [] || !ReadyToSend(ch.conns[Top(ch)]) then sel == ch.selected
      else if ch.selected == None || ch.conns[Top(ch)].rtt <= ch.conns[ch.selected.value].rtt - 10
      then sel == Some(Top(ch))
      else sel == ch.selected
    ensures Resort(ch, now).writable <==>
      Resort(ch, now).selected.Some? && Writable(ch.conns[Resort(ch, now).selected.value])
  {
    hide StableSort, HasPingable, Switch, SetSelected;
    var s := SortVector(ch);
    SortKeepsCore(ch);
    SwitchTargetExists(s);
    SwitchMoves(s, SwitchTarget(s));
    var t := Switch(s, SwitchTarget(s));
    if t.selected.Some? {
      SwitchAt(s, SwitchTarget(s), t.selected.value);
    }
  }

  /** When the controller asks for a switch, and to which connection: to the best of the sorted vector if that can be
      written to, reliably or not, and nothing is selected or its round trip is at least 10 ms shorter. */
  lemma SwitchDecided(ch: Chan, target: Id)
    requires Core(ch)
    ensures SwitchTarget(ch) == Some(target) <==>
      && ch.order != [] && target == ch.order[0]
      && (ch.conns[target].writeState == StateWritable || ch.conns[target].writeState == StateUnreliable)
      && (ch.selected == None
          || (ch.selected != Some(target) && ch.conns[target].rtt + 10 <= ch.conns[ch.selected.value].rtt))
  {
  }

  /** Where the connections stand in the two ping sets. A new one is unpinged. */
  lemma AddSets(ch: Chan, id: Id, user: seq<byte>, lp: u32, rp: u32, now: int)
    requires Wf(ch) && id !in ch.conns
    ensures var n := AddConnection(ch, id, user, lp, rp, now);
      n.unpinged == ch.unpinged + {id} && n.pinged == ch.pinged && n.conns.Keys == ch.conns.Keys + {id}
  {
    hide SortVector, HasPingable;
    var c := NewConn(user, ch.remotePwd, lp, rp);
    var added := ch.(conns := ch.conns[id := c], order := ch.order + [id], unpinged := ch.unpinged + {id});
    ResortSets(added, now);
  }

  /** A new connection comes behind every other that it does not beat. */
  lemma NewcomerIsBehind(ch: Chan, id: Id, user: seq<byte>, lp: u32, rp: u32, now: int, i: nat, j: nat)
    requires Core(ch) && id !in ch.conns
    requires var order := AddConnection(ch, id, user, lp, rp, now).order;
      i < |order| && j < |order| && order[i] == id && order[j] != id
    ensures var order := AddConnection(ch, id, user, lp, rp, now).order;
      order[j] in ch.conns && (!Better(NewConn(user, ch.remotePwd, lp, rp), ch.conns[order[j]]) ==> j < i)
  {
    hide Better, StableSort, Resort;
    var c := NewConn(user, ch.remotePwd, lp, rp);
    var added := ch.(conns := ch.conns[id := c], order := ch.order + [id], unpinged := ch.unpinged + {id});
    ResortSorts(added, now);
    var order := StableSort(added.conns, added.order);
    SameMembers(order, added.order);
    if !Better(c, added.conns[order[j]]) {
      LastInSort(added.conns, ch.order, id, i, j);
    }
  }

  lemma ResortSorts(ch: Chan, now: int)
    requires Wf(ch)
    ensures Resort(ch, now).order == StableSort(ch.conns, ch.order)
  {
    hide StableSort, SetSelected, HasPingable;
  }

  lemma LastInSort(table: Table, ids: seq<Id>, id: Id, i: nat, j: nat)
    requires AllIn(table, ids + [id]) && id !in ids
    requires var order := StableSort(table, ids + [id]);
      i < |order| && j < |order| && order[i] == id && order[j] != id && !Better(table[id], table[order[j]])
    ensures j < i
  {
    hide Better, StableSort;
    StableSortIsStable(table, ids + [id]);
    var order := StableSort(table, ids + [id]);
    if i < j {
      assert Ahead(table, ids + [id], order[i], order[j]);
      LastIsNotEarlier(ids, id, order[j]);
    }
  }

  lemma LastIsNotEarlier(ids: seq<Id>, id: Id, x: Id)
    requires id !in ids && x != id
    ensures !Earlier(ids + [id], id, x)
  {
  }

  lemma ResortSets(ch: Chan, now: int)
    requires Wf(ch)
    ensures var n := Resort(ch, now);
      n.unpinged == ch.unpinged && n.pinged == ch.pinged && n.conns.Keys == ch.conns.Keys
  {
    hide StableSort, SetSelected, HasPingable;
  }

  lemma SwitchMoves(ch: Chan, target: Option<Id>)
    requires Wf(ch) && (target.Some? ==> target.value in ch.conns)
    ensures var t := Switch(ch, target);
      Wf(t) && t.selected == (if target.None? then ch.selected else target) && t.conns.Keys == ch.conns.Keys
  {
  }

  /** With a writable connection at hand the channel is writable after a re-sort, unless the selection is
      not writable itself and its round trip is not beaten by 10 ms: exactly then it is kept. */
  lemma WritableUnlessKept(ch: Chan, now: int, id: Id)
    requires Core(ch) && id in ch.conns && Writable(ch.conns[id])
    ensures ch.order != [] && Writable(ch.conns[Top(ch)])
    ensures !Resort(ch, now).writable <==>
      && ch.selected.Some? && !Writable(ch.conns[ch.selected.value])
      && ch.conns[Top(ch)].rtt > ch.conns[ch.selected.value].rtt - 10
  {
    hide Resort, StableSort;
    TopIsReady(ch, id);
    SelectionOutcome(ch, now);
  }

  /** No connection is selected after a re-sort exactly if none was before and none can send. */
  lemma UnselectedMeansNoneReady(ch: Chan, now: int)
    requires Core(ch)
    ensures Resort(ch, now).selected == None <==>
      ch.selected == None && forall id :: id in ch.conns ==> !ReadyToSend(ch.conns[id])
  {
    hide Resort, StableSort;
    SelectionOutcome(ch, now);
    forall id | id in ch.conns
      ensures ch.order != [] && (ReadyToSend(ch.conns[id]) ==> ReadyToSend(ch.conns[Top(ch)]))
    {
      TopIsReady(ch, id);
    }
    if ch.order != [] {
      TopIsBest(ch);
    }
  }

  // ---- Nothing selected means nothing can send ----

  ghost predicate Settled(ch: Chan) {
    ch.selected == None ==> forall id :: id in ch.conns ==> !ReadyToSend(ch.conns[id])
  }

  lemma ResortSettles(ch: Chan, now: int)
    requires Core(ch)
    ensures Settled(Resort(ch, now))
  {
    hide Resort, Core;
    ResortKeepsCore(ch, now);
    UnselectedMeansNoneReady(ch, now);
    if Resort(ch, now).selected == None {
      forall id | id in ch.conns
        ensures !ReadyToSend(Resort(ch, now).conns[id])
      {
        ResortLeavesState(ch, now, id);
      }
    }
  }

  lemma ResortLeavesState(ch: Chan, now: int, id: Id)
    requires Wf(ch) && id in ch.conns
    ensures Resort(ch, now).conns[id].writeState == ch.conns[id].writeState
  {
    hide StableSort, SwitchTarget, Switch, HasPingable;
    SwitchTargetExists(SortVector(ch));
    SwitchAt(SortVector(ch), SwitchTarget(SortVector(ch)), id);
  }

  lemma TouchSettles(ch: Chan, id: Id, c: Conn, now: int)
    requires Core(ch) && Settled(ch) && id in ch.conns && c.selected == ch.conns[id].selected
    ensures Settled(Touch(ch, id, c, now))
  {
    hide Core, Resort;
    ReplaceKeepsCore(ch, id, c);
    ResortSettles(ch.(conns := ch.conns[id := c]), now);
  }

  lemma UpdateSettles(ch: Chan, id: Id, now: int)
    requires Core(ch) && Summarised(ch) && Settled(ch) && id in ch.conns
    ensures Settled(UpdateConnection(ch, id, now))
  {
    hide Core, Summarised, Touch, Settled;
    var c1 := Degrade(ch.conns[id], now);
    TouchSettles(ch, id, c1, now);
    TouchKeeps(ch, id, c1, now);
    var n1 := Touch(ch, id, c1, now);
    var c2 := Expire(n1.conns[id], now);
    TouchSettles(n1, id, c2, now);
    TouchKeeps(n1, id, c2, now);
    var n2 := Touch(n1, id, c2, now);
    TouchSettles(n2, id, UpdateReceiving(n2.conns[id], now), now);
  }

  lemma {:induction false} UpdatesSettle(ch: Chan, ids: seq<Id>, now: int)
    requires Core(ch) && Summarised(ch) && Settled(ch) && AllIn(ch.conns, ids)
    ensures Settled(UpdateConnections(ch, ids, now))
    decreases |ids|
  {
    hide Core, Summarised, UpdateConnection, Settled;
    if ids == [] {
    } else {
      UpdateSettles(ch, ids[0], now);
      UpdateConnectionKeeps(ch, ids[0], now);
      UpdatesSettle(UpdateConnection(ch, ids[0], now), ids[1..], now);
    }
  }

  lemma TickSettles(ch: Chan, pingId: seq<byte>, now: int)
    requires Core(ch) && Summarised(ch) && Settled(ch)
    ensures Settled(CheckAndPing(ch, pingId, now))
  {
    hide Core, Summarised, UpdateConnections, SelectConnectionToPing, CheckAndPing;
    UpdatesSettle(ch, ch.order, now);
    TickShape(ch, pingId, now);
  }

  lemma ResponseSettles(ch: Chan, id: Id, rtt: int, now: int, average: Average)
    requires Core(ch) && Summarised(ch) && Settled(ch) && id in ch.conns
    ensures Settled(PingResponse(ch, id, rtt, now, average))
  {
    hide Core, Summarised, Touch;
    var noted := NoteResponse(ch.conns[id], rtt, now, average);
    ReplaceKeepsCore(ch, id, noted);
    ReplaceKeepsSummary(ch, id, noted);
    var x := ch.(conns := ch.conns[id := noted]);
    TouchSettles(x, id, UpdateReceiving(x.conns[id], now), now);
    TouchKeeps(x, id, UpdateReceiving(x.conns[id], now), now);
    var y := Touch(x, id, UpdateReceiving(x.conns[id], now), now);
    TouchSettles(y, id, y.conns[id].(writeState := StateWritable), now);
  }

  lemma AddSettles(ch: Chan, id: Id, user: seq<byte>, lp: u32, rp: u32, now: int)
    requires Core(ch) && id !in ch.conns
    ensures Settled(AddConnection(ch, id, user, lp, rp, now))
  {
    hide Resort, Settled;
    var added := ch.(conns := ch.conns[id := NewConn(user, ch.remotePwd, lp, rp)],
                     order := ch.order + [id], unpinged := ch.unpinged + {id});
    assert Core(added);
    ResortSettles(added, now);
  }

  lemma ParamsSettle(ch: Chan, user: seq<byte>, pwd: seq<byte>, now: int)
    requires Core(ch)
    ensures Settled(SetRemoteParams(ch, user, pwd, now))
  {
    hide Resort, Settled;
    var given := ch.(remotePwd := pwd, conns := GiveRemoteParams(ch.conns, ch.order, user, pwd));
    assert Core(given);
    ResortSettles(given, now);
  }
}
