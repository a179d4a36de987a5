/** Runs of a channel: all events in any order under a clock that does not run backwards. */
module ChannelRuns {
  import opened Base
  import opened ConnectionState
  import opened ConnectionRank
  import opened ChannelState
  import opened ChannelTheorems

  datatype ChannelEvent =
    | Tick(pingId: seq<byte>)
    | Answer(from: Id, rtt: int)
    | UnknownAddress(id: Id, user: seq<byte>, localPriority: u32, remotePriority: u32)
    | NewRemoteParams(user: seq<byte>, pwd: seq<byte>)
    | Destroy(id: Id)

  /** What a run leaves to its surroundings: the library's average, and whether messages of level INFO
      are formatted, as they are by default. */
  datatype Setup = Setup(average: Average, logsInfo: bool)

  /** The timer fires only once it was started; an answer comes to an existing connection, a new
      connection has an address of its own. Anything else is no event. Once a pointer dangles or a null
      pointer was followed the program's behaviour is undefined; the model then stands still. */
  ghost function ChannelStep(ch: Chan, e: ChannelEvent, now: int, setup: Setup): Chan {
    if !Wf(ch) then ch
    else match e
    case Tick(pingId) => if ch.started then CheckAndPing(ch, pingId, now) else ch
    case Answer(id, rtt) => if id in ch.conns then PingResponse(ch, id, rtt, now, setup.average) else ch
    case UnknownAddress(id, user, lp, rp) => if id in ch.conns then ch else AddConnection(ch, id, user, lp, rp, now)
    case NewRemoteParams(user, pwd) => SetRemoteParams(ch, user, pwd, now)
    case Destroy(id) => if id in ch.conns then DestroyConnection(ch, id, now, setup.logsInfo) else ch
  }

  // ---- Destroying a connection ----

  lemma HeadAndTail(ids: seq<Id>)
    requires ids != []
    ensures forall x :: x in ids <==> x == ids[0] || x in ids[1..]
    ensures NoDuplicates(ids) <==> ids[0] !in ids[1..] && NoDuplicates(ids[1..])
  {
    var tail := ids[1..];
    assert ids == [ids[0]] + tail;
    forall i, j | 0 <= i < j < |tail| && NoDuplicates(ids)
      ensures tail[i] != tail[j]
    {
      assert tail[i] == ids[i + 1] && tail[j] == ids[j + 1];
    }
  }

  lemma {:induction false} WithoutMembers(ids: seq<Id>, id: Id)
    requires NoDuplicates(ids)
    ensures NoDuplicates(Without(ids, id))
    ensures forall x :: x in Without(ids, id) <==> (x in ids && x != id)
    decreases ids
  {
    if ids == [] {
    } else {
      var rest := Without(ids[1..], id);
      HeadAndTail(ids);
      if ids[0] != id {
        WithoutMembers(ids[1..], id);
        HeadAndTail([ids[0]] + rest);
        assert ([ids[0]] + rest)[1..] == rest;
      }
    }
  }

  /** The others keep their places. */
  lemma {:induction false} WithoutKeepsPlaces(a: seq<Id>, id: Id, b: seq<Id>)
    requires id !in a
    ensures Without(a + [id] + b, id) == a + b
    decreases a
  {
    if a == [] {
      assert ([] + [id] + b)[1..] == b && [] + b == b;
    } else {
      assert (a + [id] + b)[1..] == a[1..] + [id] + b;
      WithoutKeepsPlaces(a[1..], id, b);
      assert [a[0]] + (a[1..] + b) == a + b;
    }
  }

  /** Another connection is ready, and beats the round trip of the one that goes by at least 10 ms. */
  ghost predicate HandsOver(ch: Chan, id: Id)
    requires Wf(ch) && id in ch.conns
  {
    var table := SetSelected(ch.conns, Some(id), false);
    var rest := StableSort(table, Without(ch.order, id));
    rest != [] && ReadyToSend(table[rest[0]]) && table[rest[0]].rtt <= table[id].rtt - MIN_IMPROVEMENT
  }

  /** The invariant while `id` has left the controller's containers but not yet the memory. The
      controller may hold another selection than the channel. */
  ghost predicate Leaving(ch: Chan, id: Id): (b: bool)
    ensures b ==> Wf(ch)
  {
    && Wf(ch) && id in ch.conns
    && NoDuplicates(ch.order)
    && (forall x :: x in ch.order <==> (x in ch.conns && x != id))
    && ch.pinged !! ch.unpinged && ch.pinged + ch.unpinged == ch.conns.Keys - {id}
    && ch.selected != Some(id)
    && (forall x :: x in ch.conns ==> (ch.conns[x].selected <==> ch.selected == Some(x)))
    && (ch.started <==> ch.timer.Some?) && (ch.timer.Some? ==> ch.timer.value == ch.pingInterval * 1000)
  }

  lemma FreeingRestores(ch: Chan, id: Id)
    requires Leaving(ch, id) && ch.ctlSelected == ch.selected && Summarised(ch)
    ensures Core(Freed(ch, id)) && Summarised(Freed(ch, id))
  {
    var n := Freed(ch, id);
    assert forall i :: 0 <= i < |ch.order| ==> ch.order[i] in ch.order;
    assert Wf(n);
    assert forall i :: 0 <= i < |ch.order| ==> n.conns[ch.order[i]] == ch.conns[ch.order[i]];
  }

  lemma DroppedLeaves(ch: Chan, id: Id)
    requires Core(ch) && id in ch.conns && ch.selected != Some(id)
    ensures Leaving(Dropped(ch, id), id)
  {
    WithoutMembers(ch.order, id);
    var o := Dropped(ch, id);
    assert forall i :: 0 <= i < |o.order| ==> o.order[i] in o.order;
  }

  lemma DestroyOther(ch: Chan, id: Id, now: int, logsInfo: bool)
    requires Core(ch) && id in ch.conns && ch.selected != Some(id)
    ensures var n := DestroyConnection(ch, id, now, logsInfo); Core(n) && Summarised(n)
  {
    hide Core;
    DroppedLeaves(ch, id);
    var told := Summarise(Dropped(ch, id));
    assert Leaving(told, id) && Summarised(told) && told.ctlSelected == told.selected by {
      assert ch.ctlSelected == ch.selected by { SidesAgree(ch); }
    }
    FreeingRestores(told, id);
  }

  lemma SidesAgree(ch: Chan)
    requires Core(ch)
    ensures ch.ctlSelected == ch.selected
  {
  }

  lemma OrphanedLeaves(ch: Chan, id: Id)
    requires Core(ch) && id in ch.conns && ch.selected == Some(id)
    ensures Leaving(Orphaned(ch, id), id) && Orphaned(ch, id).ctlSelected == Some(id)
  {
    WithoutMembers(ch.order, id);
    var o := Orphaned(ch, id);
    assert forall i :: 0 <= i < |o.order| ==> o.order[i] in o.order;
  }

  lemma SortKeepsLeaving(ch: Chan, id: Id)
    requires Leaving(ch, id)
    ensures Leaving(SortVector(ch), id)
  {
    hide StableSort;
    PermutationKeepsMembers(ch.order, StableSort(ch.conns, ch.order));
  }

  lemma SwitchKeepsLeaving(ch: Chan, id: Id, target: Id)
    requires Leaving(ch, id) && target in ch.order
    ensures Leaving(Switch(ch, Some(target)), id)
    ensures Switch(ch, Some(target)).ctlSelected == Switch(ch, Some(target)).selected == Some(target)
  {
  }

  lemma TargetInVector(ch: Chan)
    requires Wf(ch)
    ensures SwitchTarget(ch).Some? ==> SwitchTarget(ch).value in ch.order
  {
  }

  lemma HandsOverMeansTarget(ch: Chan, id: Id)
    requires Core(ch) && id in ch.conns && ch.selected == Some(id)
    ensures Wf(Orphaned(ch, id)) && (SwitchTarget(SortVector(Orphaned(ch, id))).Some? <==> HandsOver(ch, id))
  {
    hide Leaving, StableSort, Without, SetSelected;
    OrphanedLeaves(ch, id);
    SortKeepsLeaving(Orphaned(ch, id), id);
    HeadStays(SortVector(Orphaned(ch, id)), id);
    hide Core;
  }

  lemma HeadStays(ch: Chan, id: Id)
    requires Leaving(ch, id)
    ensures ch.order != [] ==> ch.order[0] in ch.conns && ch.order[0] != id
  {
    assert ch.order != [] ==> ch.order[0] in ch.order;
  }

  /** Destroying the selected connection faults while INFO messages are formatted. Otherwise it leaves the
      two sides in agreement, and the whole invariant intact, exactly if a better one takes over at once;
      if none does, the channel has no selection while the controller still holds the one that is gone. */
  lemma DestroySelected(ch: Chan, id: Id, now: int, logsInfo: bool)
    requires Core(ch) && id in ch.conns && ch.selected == Some(id)
    ensures var n := DestroyConnection(ch, id, now, logsInfo);
      if logsInfo then n.faulted
      else if HandsOver(ch, id) then Core(n) && Summarised(n) && n.selected.Some?
      else n.selected == None && n.ctlSelected == Some(id) && id !in n.conns && !n.writable && !n.faulted
  {
    hide Core, Leaving, HandsOver, SwitchTarget, HasPingable, StableSort, SetSelected, Without;
    OrphanedLeaves(ch, id);
    SortKeepsLeaving(Orphaned(ch, id), id);
    HandsOverMeansTarget(ch, id);
    var s := SortVector(Orphaned(ch, id));
    var told := Resort(Orphaned(ch, id), now);
    TargetInVector(s);
    if SwitchTarget(s).Some? {
      SwitchKeepsLeaving(s, id, SwitchTarget(s).value);
      SummariseKeepsLeaving(Switch(s, SwitchTarget(s)), id, now);
      FreeingRestores(told, id);
    }
  }

  lemma SummariseKeepsLeaving(ch: Chan, id: Id, now: int)
    requires Leaving(ch, id)
    ensures var n := MaybeStartPinging(Summarise(ch), now);
      Leaving(n, id) && Summarised(n) && n.selected == ch.selected && n.ctlSelected == ch.ctlSelected
  {
    hide HasPingable;
  }
}
