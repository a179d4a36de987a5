/** The transport channel as an object. A connection signals a change of its state to the channel; here
    its methods return the signal and the channel runs the slot at once, as a direct connection does. */
module IceTransportChannels {
  import opened Base
  import opened ConnectionState
  import opened ConnectionRank
  import opened ChannelState
  import opened IceConnections
  import opened IceControllers

  lemma SetNone(table: Table, on: bool)
    ensures SetSelected(table, None, on) == table
  {
  }

  lemma UpdatesFrom(ch: Chan, ids: seq<Id>, i: nat, now: int)
    requires Wf(ch) && i < |ids| && AllIn(ch.conns, ids[i..])
    ensures ids[i] in ch.conns && AllIn(ch.conns, ids[i + 1..])
    ensures AllIn(ChannelState.UpdateConnection(ch, ids[i], now).conns, ids[i + 1..])
    ensures UpdateConnections(ch, ids[i..], now)
         == UpdateConnections(ChannelState.UpdateConnection(ch, ids[i], now), ids[i + 1..], now)
  {
    hide ChannelState.UpdateConnection;
    assert ids[i..][0] == ids[i] && ids[i..][1..] == ids[i + 1..];
  }

  lemma UpdatesEnd(ch: Chan, ids: seq<Id>, now: int)
    requires Wf(ch)
    ensures AllIn(ch.conns, ids[|ids|..]) && UpdateConnections(ch, ids[|ids|..], now) == ch
  {
  }

  lemma GivenToNone(table: Table, user: seq<byte>, pwd: seq<byte>)
    ensures GiveRemoteParams(table, [], user, pwd) == table
  {
  }

  lemma GivenToOneMore(table: Table, ids: seq<Id>, i: nat, user: seq<byte>, pwd: seq<byte>)
    requires i < |ids| && ids[i] in table
    ensures var t := GiveRemoteParams(table, ids[..i], user, pwd);
      GiveRemoteParams(table, ids[..i + 1], user, pwd) == t[ids[i] := MaybeSetRemoteParams(t[ids[i]], user, pwd)]
  {
    assert forall id :: id in ids[..i + 1] <==> id in ids[..i] || id == ids[i];
  }

  class IceTransportChannel {
    const controller: IceController
    /** Whether messages of level INFO are formatted. */
    const logsInfo: bool
    var selected: Option<Id>
    var writable: bool
    var receiving: bool
    var lastPingSent: int
    var pingInterval: int
    var started: bool
    var timer: Option<int>
    var remotePwd: seq<byte>
    /** A null pointer was followed. */
    var faulted: bool

    function View(): Chan
      requires controller.Covered()
      reads this, controller, controller.objects
    {
      controller.View().(selected := selected, writable := writable, receiving := receiving,
                         lastPingSent := lastPingSent, pingInterval := pingInterval, started := started,
                         timer := timer, remotePwd := remotePwd, faulted := faulted)
    }

    ghost predicate Valid(): (b: bool)
      reads this, controller, controller.objects
      ensures b ==> controller.Covered() && Wf(View())
    {
      controller.Valid() && (selected.Some? ==> selected.value in controller.memory) && !faulted
    }

    constructor (logsInfo: bool)
      ensures Valid() && View() == NewChan() && fresh(controller) && this.logsInfo == logsInfo
    {
      this.logsInfo := logsInfo;
      faulted := false;
      controller := new IceController();
      selected, writable, receiving := None, false, false;
      lastPingSent, pingInterval, started, timer := 0, WEAK_PING_INTERVAL, false, None;
      remotePwd := [];
    }

    // ---- The summary flags ----

    predicate SelectedWritable(): (w: bool)
      requires Valid()
      reads this, controller, controller.objects
      ensures w <==> selected.Some? && Writable(View().conns[selected.value])
    {
      selected.Some? && Writable(controller.memory[selected.value].View())
    }

    method AnyConnectionReceiving() returns (r: bool)
      requires Valid()
      ensures r <==> AnyReceiving(View().conns, View().order)
    {
      for i := 0 to |controller.connections|
        invariant forall k :: 0 <= k < i ==> !View().conns[controller.connections[k]].receiving
      {
        if controller.memory[controller.connections[i]].receiving {
          return true;
        }
      }
      return false;
    }

    method UpdateState()
      requires Valid()
      modifies this
      ensures Valid() && View() == Summarise(old(View()))
    {
      hide AnyReceiving, IceController.Valid, IceController.View, Wf;
      var w := SelectedWritable();
      var r := AnyConnectionReceiving();
      writable := w;
      receiving := r;
      assert View() == old(View()).(writable := w, receiving := r);
    }

    method MaybeStartPinging(now: int)
      requires Valid()
      modifies this
      ensures Valid() && View() == ChannelState.MaybeStartPinging(old(View()), now)
    {
      hide HasPingable, IceController.Valid, IceController.View, Wf;
      if started {
        return;
      }
      SameForPinging(controller.View(), View(), now);
      var pingable := controller.HasPingableConnection(now);
      if pingable {
        timer := Some(pingInterval * 1000);
        started := true;
      }
    }

    // ---- The selection ----

    method SetSelectedOf(id: Id, on: bool)
      requires Valid() && id in controller.memory
      modifies controller.memory[id]
      ensures Valid() && View() == old(View()).(conns := SetSelected(old(View()).conns, Some(id), on))
    {
      controller.memory[id].SetSelected(on);
      controller.ObjectChanged(id);
    }

    method Raise(id: Id)
      requires Valid() && id in controller.memory
      modifies controller, controller.memory[id]
      ensures Valid() && controller.memory == old(controller.memory) && controller.objects == old(controller.objects)
      ensures View() == old(View()).(conns := SetSelected(old(View()).conns, Some(id), true), ctlSelected := Some(id))
    {
      hide SetSelected;
      SetSelectedOf(id, true);
      controller.SetSelectedConnection(id);
    }

    method Lower(id: Option<Id>)
      requires Valid() && (id.Some? ==> id.value in controller.memory)
      modifies controller.objects
      ensures Valid() && View() == old(View()).(conns := SetSelected(old(View()).conns, id, false))
    {
      hide SetSelected;
      SetNone(View().conns, false);
      if id.Some? {
        SetSelectedOf(id.value, false);
      }
    }

    method Select(id: Id)
      requires Valid() && id in controller.memory
      modifies this, controller, controller.objects
      ensures Valid() && controller.memory == old(controller.memory) && controller.objects == old(controller.objects)
      ensures View() == Switch(old(View()), Some(id))
    {
      hide SetSelected, IceController.Valid, IceController.View, Wf;
      var previous := selected;
      selected := Some(id);
      Lower(previous);
      Raise(id);
    }

    /** Without a connection to switch to. The message about the switch asks a null pointer for its name. */
    method Deselect()
      requires Valid()
      modifies this, controller.objects
      ensures controller.Valid() && (!faulted ==> Valid())
      ensures faulted <==> old(selected).Some? && logsInfo
      ensures View() == old(View()).(selected := None, faulted := faulted,
                                     conns := SetSelected(old(View()).conns, old(selected), false))
    {
      hide SetSelected, IceController.Valid, IceController.View, Wf;
      var previous := selected;
      selected := None;
      Lower(previous);
      faulted := previous.Some? && logsInfo;
    }

    method SwitchSelectedConnection(target: Option<Id>)
      requires Valid() && (target.Some? ==> target.value in controller.memory)
      modifies this, controller, controller.objects
      ensures controller.Valid() && (!faulted ==> Valid())
      ensures controller.memory == old(controller.memory) && controller.objects == old(controller.objects)
      ensures faulted <==> target.None? && old(selected).Some? && logsInfo
      ensures View() == if target.Some? then Switch(old(View()), target)
                        else old(View()).(selected := None, faulted := faulted,
                                          conns := SetSelected(old(View()).conns, old(selected), false))
    {
      hide SetSelected, Switch, IceController.Valid, IceController.View, Wf;
      if target.Some? {
        Select(target.value);
      } else {
        Deselect();
      }
    }

    method SortConnectionsAndUpdateState(now: int)
      requires Valid()
      modifies this, controller, controller.objects
      ensures Valid() && controller.memory == old(controller.memory) && controller.objects == old(controller.objects)
      ensures View() == Resort(old(View()), now)
    {
      hide StableSort, HasPingable, SwitchTarget, Switch;
      SameForSorting(controller.View(), View());
      var target := controller.SortAndSwitch();
      ghost var sorted := View();
      assert sorted == SortVector(old(View()));
      SameForSorting(controller.View(), sorted);
      SwitchTargetExists(sorted);
      SwitchNowhere(sorted);
      if target.Some? {
        SwitchSelectedConnection(target);
      }
      assert View() == Switch(sorted, target);
      UpdateState();
      MaybeStartPinging(now);
    }

    // ---- Connections that change ----

    /** Runs the slot of the state-change signal if there was one. */
    method OnConnectionChanged(ghost before: Chan, id: Id, signal: bool, now: int)
      requires Valid() && Wf(before) && id in controller.memory
      requires View() == before.(conns := before.conns[id := controller.memory[id].View()])
      requires id in before.conns
      requires signal <==> before.conns[id].writeState != controller.memory[id].writeState
                           || before.conns[id].receiving != controller.memory[id].receiving
      modifies this, controller, controller.objects
      ensures Valid() && controller.memory == old(controller.memory) && controller.objects == old(controller.objects)
      ensures View() == Touch(before, id, old(controller.memory[id].View()), now)
    {
      hide Resort;
      if signal {
        SortConnectionsAndUpdateState(now);
      }
    }

    method UpdateReceivingOf(id: Id, now: int)
      requires Valid() && id in controller.memory
      modifies this, controller, controller.objects
      ensures Valid() && controller.memory == old(controller.memory) && controller.objects == old(controller.objects)
      ensures View() == Touch(old(View()), id, UpdateReceiving(old(View()).conns[id], now), now)
    {
      hide Touch;
      ghost var before := View();
      var signal := controller.memory[id].UpdateReceiving(now);
      controller.ObjectChanged(id);
      OnConnectionChanged(before, id, signal, now);
    }

    method SetWritableOf(id: Id, now: int)
      requires Valid() && id in controller.memory
      modifies this, controller, controller.objects
      ensures Valid() && controller.memory == old(controller.memory) && controller.objects == old(controller.objects)
      ensures View() == Touch(old(View()), id, old(View()).conns[id].(writeState := StateWritable), now)
    {
      hide Touch;
      ghost var before := View();
      var signal := controller.memory[id].SetWriteState(StateWritable);
      controller.ObjectChanged(id);
      OnConnectionChanged(before, id, signal, now);
    }

    /** `update_state` of one connection: two possible changes of the write state, then the receive state. */
    method UpdateConnection(id: Id, now: int)
      requires Valid() && id in controller.memory
      modifies this, controller, controller.objects
      ensures Valid() && controller.memory == old(controller.memory) && controller.objects == old(controller.objects)
      ensures View() == ChannelState.UpdateConnection(old(View()), id, now)
    {
      hide Touch, Degrade, Expire, UpdateReceiving;
      DegradeOf(id, now);
      ExpireOf(id, now);
      UpdateReceivingOf(id, now);
    }

    method DegradeOf(id: Id, now: int)
      requires Valid() && id in controller.memory
      modifies this, controller, controller.objects
      ensures Valid() && controller.memory == old(controller.memory) && controller.objects == old(controller.objects)
      ensures View() == Touch(old(View()), id, Degrade(old(View()).conns[id], now), now)
    {
      hide Touch;
      ghost var before := View();
      var signal := controller.memory[id].Degrade(now);
      controller.ObjectChanged(id);
      OnConnectionChanged(before, id, signal, now);
    }

    method ExpireOf(id: Id, now: int)
      requires Valid() && id in controller.memory
      modifies this, controller, controller.objects
      ensures Valid() && controller.memory == old(controller.memory) && controller.objects == old(controller.objects)
      ensures View() == Touch(old(View()), id, Expire(old(View()).conns[id], now), now)
    {
      hide Touch;
      ghost var before := View();
      var signal := controller.memory[id].Expire(now);
      controller.ObjectChanged(id);
      OnConnectionChanged(before, id, signal, now);
    }

    method UpdateConnectionState(now: int)
      requires Valid()
      modifies this, controller, controller.objects
      ensures Valid() && controller.memory == old(controller.memory) && controller.objects == old(controller.objects)
      ensures View() == UpdateConnections(old(View()), old(View()).order, now)
    {
      hide ChannelState.UpdateConnection, UpdateConnections;
      var ids := controller.connections;
      for i := 0 to |ids|
        invariant Valid()
        invariant controller.memory == old(controller.memory) && controller.objects == old(controller.objects)
        invariant AllIn(View().conns, ids[i..])
        invariant UpdateConnections(View(), ids[i..], now) == UpdateConnections(old(View()), ids, now)
      {
        UpdatesFrom(View(), ids, i, now);
        UpdateConnection(ids[i], now);
      }
      UpdatesEnd(View(), ids, now);
    }

    /** The answer to a ping arrives. */
    method ReceivedPingResponse(id: Id, rtt: int, now: int, average: Average)
      requires Valid() && id in controller.memory
      modifies this, controller, controller.objects
      ensures Valid() && controller.memory == old(controller.memory) && controller.objects == old(controller.objects)
      ensures View() == PingResponse(old(View()), id, rtt, now, average)
    {
      hide Touch, NoteResponse, UpdateReceiving, Wf;
      controller.memory[id].NoteResponse(rtt, now, average);
      controller.ObjectChanged(id);
      UpdateReceivingOf(id, now);
      SetWritableOf(id, now);
      SetStateOf(id, Succeeded);
    }

    method SetStateOf(id: Id, state: PairState)
      requires Valid() && id in controller.memory
      modifies controller.memory[id]
      ensures Valid()
      ensures View() == old(View()).(conns := old(View()).conns[id := old(View()).conns[id].(state := state)])
    {
      controller.memory[id].SetState(state);
      controller.ObjectChanged(id);
    }

    // ---- The timer ----

    method PingConnection(id: Id, pingId: seq<byte>, now: int)
      requires Valid() && id in controller.memory
      modifies this, controller, controller.memory[id]
      ensures Valid() && controller.memory == old(controller.memory) && controller.objects == old(controller.objects)
      ensures View() == ChannelState.PingConnection(old(View()), id, pingId, now)
    {
      hide Ping, MarkPinged, IceController.Valid, IceController.View, Wf;
      lastPingSent := now;
      PingOf(id, pingId, now);
      MarkPingedOf(id);
    }

    method MarkPingedOf(id: Id)
      requires Valid() && id in controller.memory
      modifies controller
      ensures Valid() && controller.memory == old(controller.memory) && controller.objects == old(controller.objects)
      ensures View() == MarkPinged(old(View()), id)
    {
      controller.MarkConnectionPinged(id);
    }

    method PingOf(id: Id, pingId: seq<byte>, now: int)
      requires Valid() && id in controller.memory
      modifies controller.memory[id]
      ensures Valid()
      ensures View() == old(View()).(conns := old(View()).conns[id := Ping(old(View()).conns[id], pingId, now)])
    {
      controller.memory[id].Ping(pingId, now);
      controller.ObjectChanged(id);
    }

    method SetPingInterval(interval: int)
      requires Valid()
      modifies this
      ensures Valid() && View() == SetInterval(old(View()), interval)
    {
      if pingInterval != interval {
        pingInterval := interval;
        timer := Some(pingInterval * 1000);
      }
    }

    method SelectToPing(last: int, now: int) returns (pick: Option<Id>, interval: int)
      requires Valid()
      modifies controller
      ensures Valid() && controller.memory == old(controller.memory) && controller.objects == old(controller.objects)
      ensures Selection(View(), pick, interval) == SelectConnectionToPing(old(View()), last, now)
      ensures pick.Some? ==> pick.value in controller.memory
    {
      hide SelectConnectionToPing;
      SameForSelection(controller.View(), View(), last, now);
      pick, interval := controller.SelectedConnectionToPing(last, now);
    }

    /** One firing of the timer; `pingId` is the transaction id drawn for the ping. */
    method OnCheckAndPing(pingId: seq<byte>, now: int)
      requires Valid()
      modifies this, controller, controller.objects
      ensures Valid() && controller.memory == old(controller.memory) && controller.objects == old(controller.objects)
      ensures View() == CheckAndPing(old(View()), pingId, now)
    {
      hide UpdateConnections, SelectConnectionToPing, ChannelState.PingConnection, SetInterval;
      UpdateConnectionState(now);
      var pick, interval := SelectToPing(lastPingSent - PING_INTERVAL_DIFF, now);
      if pick.Some? {
        PingConnection(pick.value, pingId, now);
      }
      SetPingInterval(interval);
    }

    // ---- Connections that come, learn their credentials and go ----

    method AddConnection(id: Id, user: seq<byte>, localPriority: u32, remotePriority: u32, now: int)
      requires Valid() && id !in controller.memory
      modifies this, controller, controller.objects
      ensures Valid() && fresh(controller.objects - old(controller.objects))
      ensures View() == ChannelState.AddConnection(old(View()), id, user, localPriority, remotePriority, now)
    {
      hide Resort, IceController.Valid, Wf;
      var conn := new IceConnection(user, remotePwd, localPriority, remotePriority);
      controller.AddConnection(id, conn);
      assert View() == old(View()).(conns := old(View()).conns[id := conn.View()], order := old(View()).order + [id],
                                    unpinged := old(View()).unpinged + {id});
      SortConnectionsAndUpdateState(now);
    }

    method MaybeSetRemoteParamsOf(id: Id, user: seq<byte>, pwd: seq<byte>)
      requires Valid() && id in controller.memory
      modifies controller.memory[id]
      ensures Valid()
      ensures View() ==
        old(View()).(conns := old(View()).conns[id := MaybeSetRemoteParams(old(View()).conns[id], user, pwd)])
    {
      controller.memory[id].MaybeSetRemoteParams(user, pwd);
      controller.ObjectChanged(id);
    }

    method GiveToAll(user: seq<byte>, pwd: seq<byte>)
      requires Valid()
      modifies controller.objects
      ensures Valid()
      ensures View() == old(View()).(conns := GiveRemoteParams(old(View()).conns, old(View()).order, user, pwd))
    {
      hide GiveRemoteParams, MaybeSetRemoteParams;
      var ids := controller.connections;
      GivenToNone(View().conns, user, pwd);
      for i := 0 to |ids|
        invariant Valid()
        invariant View() == old(View()).(conns := GiveRemoteParams(old(View()).conns, ids[..i], user, pwd))
      {
        GivenToOneMore(old(View()).conns, ids, i, user, pwd);
        MaybeSetRemoteParamsOf(ids[i], user, pwd);
      }
      assert ids[..|ids|] == ids;
    }

    method SetRemoteIceParams(user: seq<byte>, pwd: seq<byte>, now: int)
      requires Valid()
      modifies this, controller, controller.objects
      ensures Valid() && controller.memory == old(controller.memory) && controller.objects == old(controller.objects)
      ensures View() == SetRemoteParams(old(View()), user, pwd, now)
    {
      hide Resort, GiveRemoteParams;
      remotePwd := pwd;
      assert View() == old(View()).(remotePwd := pwd);
      GiveToAll(user, pwd);
      SortConnectionsAndUpdateState(now);
    }

    /** A connection announces its end; then its memory is freed. The channel stays usable exactly if no
        pointer to it is left, and none was followed that leads nowhere. */
    method OnConnectionDestroyed(id: Id, now: int)
      requires Valid() && id in controller.memory
      modifies this, controller, controller.objects
      ensures controller.Covered() && (!faulted ==> controller.memory == old(controller.memory) - {id})
      ensures View() == DestroyConnection(old(View()), id, now, logsInfo) && (Wf(View()) <==> Valid())
    {
      hide Resort, Without, SetSelected, Summarise;
      controller.OnConnectionDestroyed(id);
      assert View() == Dropped(old(View()), id);
      if selected == Some(id) {
        SwitchSelectedConnection(None);
        if faulted {
          return;
        }
        SortConnectionsAndUpdateState(now);
      } else {
        UpdateState();
      }
      controller.Free(id);
    }
  }
}
