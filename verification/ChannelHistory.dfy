/** What a channel step does to each single connection, and the invariant over whole runs. */
module ChannelHistory {
  import opened Base
  import opened ConnectionState
  import opened ConnectionRank
  import opened ChannelState
  import opened ChannelTheorems
  import opened ChannelRuns

  /** The table with every selected flag cleared: what the connections know of themselves. */
  function Bare(table: Table): (t: Table)
    ensures t.Keys == table.Keys
  {
    map id | id in table :: table[id].(selected := false)
  }

  lemma BareReplace(table: Table, id: Id, c: Conn)
    ensures Bare(table[id := c]) == Bare(table)[id := c.(selected := false)]
  {
  }

  lemma BareFlag(table: Table, id: Option<Id>, on: bool)
    requires id.Some? ==> id.value in table
    ensures Bare(SetSelected(table, id, on)) == Bare(table)
  {
  }

  lemma SwitchLeavesBare(ch: Chan, target: Option<Id>)
    requires Wf(ch) && (target.Some? ==> target.value in ch.conns)
    ensures Bare(Switch(ch, target).conns) == Bare(ch.conns) && Switch(ch, target).lastPingSent == ch.lastPingSent
  {
    hide SetSelected, Bare;
    BareFlag(ch.conns, ch.selected, false);
    BareFlag(SetSelected(ch.conns, ch.selected, false), target, true);
  }

  lemma ResortLeavesBare(ch: Chan, now: int)
    requires Wf(ch)
    ensures Bare(Resort(ch, now).conns) == Bare(ch.conns) && Resort(ch, now).lastPingSent == ch.lastPingSent
  {
    hide StableSort, SwitchTarget, HasPingable, Switch, Bare;
    var target := SwitchTarget(SortVector(ch));
    SwitchTargetExists(SortVector(ch));
    SwitchLeavesBare(SortVector(ch), target);
    SortedIsWf(ch);
    hide Wf;
  }

  lemma TouchBare(ch: Chan, id: Id, c: Conn, now: int)
    requires Wf(ch) && id in ch.conns
    ensures Bare(Touch(ch, id, c, now).conns) == Bare(ch.conns)[id := c.(selected := false)]
  {
    hide Resort, Bare;
    BareReplace(ch.conns, id, c);
    ResortLeavesBare(ch.(conns := ch.conns[id := c]), now);
  }

  /** One pass of the periodic update does to a connection what `UpdateState` does to it alone, whatever
      re-sorting its signals cause in between. */
  lemma UpdateBare(ch: Chan, id: Id, now: int)
    requires Wf(ch) && id in ch.conns
    ensures Bare(UpdateConnection(ch, id, now).conns)
         == Bare(ch.conns)[id := UpdateState(Bare(ch.conns)[id], now)]
  {
    hide Touch, Wf, Degrade, Expire, UpdateReceiving, Bare;
    BareAt(ch.conns, id);
    var a := Touch(ch, id, Degrade(ch.conns[id], now), now);
    TouchBare(ch, id, Degrade(ch.conns[id], now), now);
    var b := Touch(a, id, Expire(a.conns[id], now), now);
    TouchBare(a, id, Expire(a.conns[id], now), now);
    TouchBare(b, id, UpdateReceiving(b.conns[id], now), now);
    BareAt(a.conns, id);
    BareAt(b.conns, id);
    PhasesIgnoreFlag(ch.conns[id], Bare(ch.conns)[id], now);
    PhasesIgnoreFlag(a.conns[id], Bare(a.conns)[id], now);
    PhasesIgnoreFlag(b.conns[id], Bare(b.conns)[id], now);
  }

  lemma PhasesIgnoreFlag(c: Conn, d: Conn, now: int)
    requires d == c.(selected := false)
    ensures Degrade(d, now) == Degrade(c, now).(selected := false)
    ensures Expire(d, now) == Expire(c, now).(selected := false)
    ensures UpdateReceiving(d, now) == UpdateReceiving(c, now).(selected := false)
  {
  }

  /** The whole pass updates every connection exactly once. */
  lemma {:induction false} UpdatesBare(ch: Chan, ids: seq<Id>, now: int)
    requires Wf(ch) && AllIn(ch.conns, ids) && NoDuplicates(ids)
    ensures var before, after := Bare(ch.conns), Bare(UpdateConnections(ch, ids, now).conns);
      after.Keys == before.Keys
      && forall id :: id in before ==> after[id] == if id in ids then UpdateState(before[id], now) else before[id]
    decreases |ids|
  {
    hide UpdateConnection, UpdateState, Wf, Bare;
    if ids == [] {
    } else {
      UpdateBare(ch, ids[0], now);
      UpdatesBare(UpdateConnection(ch, ids[0], now), ids[1..], now);
      assert ids[0] !in ids[1..];
      assert forall id :: id in ids <==> id == ids[0] || id in ids[1..];
    }
  }

  /** The connection a tick pings, if any. */
  ghost function TickPick(ch: Chan, now: int): Option<Id>
    requires Wf(ch)
  {
    var updated := UpdateConnections(ch, ch.order, now);
    SelectConnectionToPing(updated, updated.lastPingSent - PING_INTERVAL_DIFF, now).pick
  }

  /** A tick updates every connection, then pings the one it picks. */
  lemma TickBare(ch: Chan, pingId: seq<byte>, now: int)
    requires Core(ch) && Summarised(ch)
    ensures var n, pick := CheckAndPing(ch, pingId, now), TickPick(ch, now);
      && n.conns.Keys == ch.conns.Keys && (pick.Some? ==> pick.value in ch.conns)
      && n.lastPingSent == (if pick.Some? then now else ch.lastPingSent)
      && forall id :: id in ch.conns ==>
           var updated := UpdateState(Bare(ch.conns)[id], now);
           Bare(n.conns)[id] == if pick == Some(id) then Ping(updated, pingId, now) else updated
  {
    hide Core, Summarised, UpdateConnections, SelectConnectionToPing, UpdateState, Bare, Ping, CheckAndPing;
    var updated, pick := UpdateConnections(ch, ch.order, now), TickPick(ch, now);
    CoreOrder(ch);
    UpdatesBare(ch, ch.order, now);
    UpdatesKeepClock(ch, ch.order, now);
    TickShape(ch, pingId, now);
    if pick.Some? {
      PingBare(updated.conns, pick.value, pingId, now);
    }
  }

  lemma PingBare(table: Table, id: Id, pingId: seq<byte>, now: int)
    requires id in table
    ensures Bare(table[id := Ping(table[id], pingId, now)]) == Bare(table)[id := Ping(Bare(table)[id], pingId, now)]
  {
    hide Bare;
    BareReplace(table, id, Ping(table[id], pingId, now));
    BareAt(table, id);
  }

  lemma CoreOrder(ch: Chan)
    requires Core(ch)
    ensures NoDuplicates(ch.order) && forall id :: id in ch.conns <==> id in ch.order
  {
  }

  lemma ResponseBare(ch: Chan, id: Id, rtt: int, now: int, average: Average)
    requires Wf(ch) && id in ch.conns
    ensures Bare(PingResponse(ch, id, rtt, now, average).conns)
         == Bare(ch.conns)[id := ReceivedResponse(Bare(ch.conns)[id], rtt, now, average)]
  {
    hide Touch, UpdateReceiving, NoteResponse, Bare;
    var noted := NoteResponse(ch.conns[id], rtt, now, average);
    var a := ch.(conns := ch.conns[id := noted]);
    BareReplace(ch.conns, id, noted);
    TouchBare(a, id, UpdateReceiving(a.conns[id], now), now);
    var b := Touch(a, id, UpdateReceiving(a.conns[id], now), now);
    TouchBare(b, id, b.conns[id].(writeState := StateWritable), now);
    PhasesIgnoreFlag(noted, noted.(selected := false), now);
    var c := Touch(b, id, b.conns[id].(writeState := StateWritable), now);
    BareReplace(c.conns, id, c.conns[id].(state := Succeeded));
    BareAt(b.conns, id);
    BareAt(c.conns, id);
    BareAt(ch.conns, id);
    NoteIgnoresFlag(ch.conns[id], rtt, now, average);
  }

  lemma BareAt(table: Table, id: Id)
    requires id in table
    ensures Bare(table)[id] == table[id].(selected := false)
  {
  }

  lemma NoteIgnoresFlag(c: Conn, rtt: int, now: int, average: Average)
    ensures NoteResponse(c.(selected := false), rtt, now, average)
         == NoteResponse(c, rtt, now, average).(selected := false)
  {
  }

  // ---- The connections' own invariant, through channel steps ----

  lemma InvOfBare(c: Conn, before: int, now: int)
    requires before <= now
    ensures ConnectionState.Inv(c, before) ==> ConnectionState.Inv(c.(selected := false), now)
    ensures ConnectionState.Inv(c.(selected := false), now) ==> ConnectionState.Inv(c, now)
  {
  }

  /** The same condition, on the bare table. */
  ghost predicate BareInv(table: Table, lastPingSent: int, now: int) {
    && 0 <= lastPingSent <= now
    && forall id :: id in table ==> ConnectionState.Inv(table[id], now) && table[id].lastPingSent <= lastPingSent
  }

  lemma BareDecides(ch: Chan, before: int, now: int)
    requires before <= now
    ensures ConnectionsInv(ch, before) ==> BareInv(Bare(ch.conns), ch.lastPingSent, now)
    ensures BareInv(Bare(ch.conns), ch.lastPingSent, now) ==> ConnectionsInv(ch, now)
  {
    hide ConnectionState.Inv;
    forall id | id in ch.conns
      ensures ConnectionState.Inv(ch.conns[id], before) ==> ConnectionState.Inv(Bare(ch.conns)[id], now)
      ensures ConnectionState.Inv(Bare(ch.conns)[id], now) ==> ConnectionState.Inv(ch.conns[id], now)
    {
      InvOfBare(ch.conns[id], before, now);
    }
  }

  lemma TickKeepsConnections(ch: Chan, pingId: seq<byte>, before: int, now: int)
    requires Core(ch) && Summarised(ch) && ConnectionsInv(ch, before) && before <= now
    ensures ConnectionsInv(CheckAndPing(ch, pingId, now), now)
  {
    hide Core, Summarised, ConnectionState.Inv, UpdateState, CheckAndPing, TickPick, Bare, ConnectionsInv;
    var n, pick := CheckAndPing(ch, pingId, now), TickPick(ch, now);
    TickBare(ch, pingId, now);
    BareDecides(ch, before, now);
    forall id | id in ch.conns
      ensures ConnectionState.Inv(Bare(n.conns)[id], now) && Bare(n.conns)[id].lastPingSent <= n.lastPingSent
    {
      var c := Bare(ch.conns)[id];
      UpdateKeepsInv(c, now, now);
      UpdateChangesStatesOnly(c, now);
      PingKeepsInv(UpdateState(c, now), pingId, now, now);
    }
    BareDecides(n, now, now);
  }

  lemma ResponseKeepsConnections(ch: Chan, id: Id, rtt: int, before: int, now: int, average: Average)
    requires Core(ch) && id in ch.conns && ConnectionsInv(ch, before) && before <= now
    ensures ConnectionsInv(PingResponse(ch, id, rtt, now, average), now)
  {
    hide Core, ConnectionState.Inv, ReceivedResponse, PingResponse, Bare, ConnectionsInv;
    var n, c := PingResponse(ch, id, rtt, now, average), Bare(ch.conns)[id];
    ResponseBare(ch, id, rtt, now, average);
    BareDecides(ch, before, now);
    ResponseKeepsInv(c, rtt, now, now, average);
    ResponseKeepsPingTimes(ch, id, rtt, now, average);
    BareDecides(n, now, now);
  }

  lemma ResponseKeepsPingTimes(ch: Chan, id: Id, rtt: int, now: int, average: Average)
    requires Wf(ch) && id in ch.conns
    ensures PingResponse(ch, id, rtt, now, average).lastPingSent == ch.lastPingSent
    ensures forall c :: ReceivedResponse(c, rtt, now, average).lastPingSent == c.lastPingSent
  {
    hide Touch;
    var a := ch.(conns := ch.conns[id := NoteResponse(ch.conns[id], rtt, now, average)]);
    var b := Touch(a, id, UpdateReceiving(a.conns[id], now), now);
    TouchKeepsClock(a, id, UpdateReceiving(a.conns[id], now), now);
    TouchKeepsClock(b, id, b.conns[id].(writeState := StateWritable), now);
  }

  lemma AddKeepsConnections(ch: Chan, id: Id, user: seq<byte>, lp: u32, rp: u32, before: int, now: int)
    requires Core(ch) && id !in ch.conns && ConnectionsInv(ch, before) && before <= now
    ensures ConnectionsInv(AddConnection(ch, id, user, lp, rp, now), now)
  {
    hide Resort, ConnectionState.Inv, Bare, BareInv;
    var c := NewConn(user, ch.remotePwd, lp, rp);
    var added := ch.(conns := ch.conns[id := c], order := ch.order + [id], unpinged := ch.unpinged + {id});
    NewConnInv(user, ch.remotePwd, lp, rp, now);
    forall x | x in ch.conns
      ensures ConnectionState.Inv(ch.conns[x], now)
    {
      InvOfBare(ch.conns[x], before, now);
    }
    ResortLeavesBare(added, now);
    BareDecides(added, now, now);
    BareDecides(Resort(added, now), now, now);
  }

  lemma ParamsKeepConnections(ch: Chan, user: seq<byte>, pwd: seq<byte>, before: int, now: int)
    requires Core(ch) && ConnectionsInv(ch, before) && before <= now
    ensures ConnectionsInv(SetRemoteParams(ch, user, pwd, now), now)
  {
    hide Resort, ConnectionState.Inv, Bare, BareInv;
    var given := ch.(remotePwd := pwd, conns := GiveRemoteParams(ch.conns, ch.order, user, pwd));
    forall x | x in ch.conns
      ensures ConnectionState.Inv(given.conns[x], now)
    {
      InvOfBare(ch.conns[x], before, now);
      StepKeepsInv(ch.conns[x], RemoteParams(user, pwd), now, now, (_, _, _) => 0);
    }
    ResortLeavesBare(given, now);
    BareDecides(given, now, now);
    BareDecides(Resort(given, now), now, now);
  }

  lemma OrphanKeepsConnections(ch: Chan, id: Id, now: int)
    requires Wf(ch) && id in ch.conns && ConnectionsInv(ch, now)
    ensures ConnectionsInv(Orphaned(ch, id), now)
  {
    hide ConnectionState.Inv, Without;
    InvOfBare(ch.conns[id], now, now);
  }

  lemma DroppedKeepsConnections(ch: Chan, id: Id, now: int)
    requires Wf(ch) && ConnectionsInv(ch, now)
    ensures Wf(Dropped(ch, id)) && ConnectionsInv(Summarise(Dropped(ch, id)), now)
  {
    hide ConnectionState.Inv, Without, Wf;
    DroppedIsWf(ch, id);
  }

  lemma FreedKeepsConnections(ch: Chan, id: Id, now: int)
    requires ConnectionsInv(ch, now)
    ensures ConnectionsInv(Freed(ch, id), now)
  {
    hide ConnectionState.Inv;
  }

  lemma FaultKeepsConnections(ch: Chan, now: int)
    requires ConnectionsInv(ch, now)
    ensures ConnectionsInv(ch.(faulted := true), now)
  {
    hide ConnectionState.Inv;
  }

  lemma ResortKeepsConnections(ch: Chan, now: int)
    requires Wf(ch) && ConnectionsInv(ch, now)
    ensures ConnectionsInv(Resort(ch, now), now)
  {
    hide Resort, BareInv, ConnectionsInv;
    ResortLeavesBare(ch, now);
    BareDecides(ch, now, now);
    BareDecides(Resort(ch, now), now, now);
  }

  lemma LaterConnections(ch: Chan, before: int, now: int)
    requires ConnectionsInv(ch, before) && before <= now
    ensures ConnectionsInv(ch, now)
  {
    hide ConnectionState.Inv;
    forall x | x in ch.conns
      ensures ConnectionState.Inv(ch.conns[x], now)
    {
      InvOfBare(ch.conns[x], before, now);
    }
  }

  lemma DestroyKeepsConnections(ch: Chan, id: Id, before: int, now: int, logsInfo: bool)
    requires Core(ch) && id in ch.conns && ConnectionsInv(ch, before) && before <= now
    ensures ConnectionsInv(DestroyConnection(ch, id, now, logsInfo), now)
  {
    hide Resort, ConnectionsInv, Core, Orphaned, Dropped, Summarise, Freed;
    LaterConnections(ch, before, now);
    OrphanKeepsConnections(ch, id, now);
    if ch.selected == Some(id) {
      OrphanedLeaves(ch, id);
      FaultKeepsConnections(Orphaned(ch, id), now);
      ResortKeepsConnections(Orphaned(ch, id), now);
      FreedKeepsConnections(Resort(Orphaned(ch, id), now), id, now);
    } else {
      DroppedKeepsConnections(ch, id, now);
      FreedKeepsConnections(Summarise(Dropped(ch, id)), id, now);
    }
  }

  // ---- Steps and runs ----

  /** The event destroys the selected connection. */
  predicate EndsSelection(ch: Chan, e: ChannelEvent) {
    e.Destroy? && e.id in ch.conns && ch.selected == Some(e.id)
  }

  /** The condition on an event: it spares the selected connection, or INFO messages are off and the
      connection hands over. */
  ghost predicate SafeEvent(ch: Chan, e: ChannelEvent, logsInfo: bool)
    requires Wf(ch)
  {
    EndsSelection(ch, e) ==> !logsInfo && HandsOver(ch, e.id)
  }

  /** The invariant survives an event exactly if the event is safe. */
  lemma StepKeepsInvIff(ch: Chan, e: ChannelEvent, before: int, now: int, setup: Setup)
    requires ChannelTheorems.Inv(ch, before) && before <= now
    ensures ChannelTheorems.Inv(ChannelStep(ch, e, now, setup), now) <==> SafeEvent(ch, e, setup.logsInfo)
    ensures !SafeEvent(ch, e, setup.logsInfo) ==> !Wf(ChannelStep(ch, e, now, setup))
  {
    hide Core, Summarised, ConnectionState.Inv, CheckAndPing, PingResponse, AddConnection, SetRemoteParams,
      DestroyConnection, HandsOver, BareInv;
    BareDecides(ch, before, now);
    match e
    case Tick(pingId) =>
      if ch.started {
        TickKeeps(ch, pingId, now);
        TickKeepsConnections(ch, pingId, before, now);
      }
    case Answer(id, rtt) =>
      if id in ch.conns {
        ResponseKeeps(ch, id, rtt, now, setup.average);
        ResponseKeepsConnections(ch, id, rtt, before, now, setup.average);
      }
    case UnknownAddress(id, user, lp, rp) =>
      if id !in ch.conns {
        AddKeeps(ch, id, user, lp, rp, now);
        AddKeepsConnections(ch, id, user, lp, rp, before, now);
      }
    case NewRemoteParams(user, pwd) =>
      RemoteParamsKeeps(ch, user, pwd, now);
      ParamsKeepConnections(ch, user, pwd, before, now);
    case Destroy(id) =>
      if id in ch.conns {
        DestroyKeepsConnections(ch, id, before, now, setup.logsInfo);
        if ch.selected == Some(id) {
          DestroySelected(ch, id, now, setup.logsInfo);
        } else {
          DestroyOther(ch, id, now, setup.logsInfo);
        }
      }
  }

  ghost function ChannelRun(ch: Chan, events: seq<Timed<ChannelEvent>>, setup: Setup): Chan
    decreases events
  {
    if events == [] then ch
    else ChannelRun(ChannelStep(ch, events[0].event, events[0].at, setup), events[1..], setup)
  }

  ghost predicate SafeRun(ch: Chan, events: seq<Timed<ChannelEvent>>, setup: Setup)
    decreases events
  {
    events == []
    || (Wf(ch) && SafeEvent(ch, events[0].event, setup.logsInfo)
        && SafeRun(ChannelStep(ch, events[0].event, events[0].at, setup), events[1..], setup))
  }

  lemma {:induction false} DanglingStays(ch: Chan, events: seq<Timed<ChannelEvent>>, setup: Setup)
    requires !Wf(ch)
    ensures ChannelRun(ch, events, setup) == ch
    decreases events
  {
    if events == [] {
    } else {
      DanglingStays(ch, events[1..], setup);
    }
  }

  /** Over every run under a clock that does not run backwards: the channel's flags say what its
      connections say, both sides hold the same selection, it alone carries the flag, the two ping sets
      partition the connections, and each connection is in a state its own history allows - exactly if
      no selected connection was destroyed without handing over. */
  lemma {:induction false} RunKeepsInvIff(ch: Chan, now: int, events: seq<Timed<ChannelEvent>>, setup: Setup)
    requires ChannelTheorems.Inv(ch, now) && ClockRuns(now, events)
    ensures ChannelTheorems.Inv(ChannelRun(ch, events, setup), EndTime(now, events)) <==> SafeRun(ch, events, setup)
    decreases events
  {
    hide ChannelTheorems.Inv, SafeEvent, ChannelStep;
    if events == [] {
    } else {
      var e, at := events[0].event, events[0].at;
      var n := ChannelStep(ch, e, at, setup);
      InvMeansWf(ch, now);
      StepKeepsInvIff(ch, e, now, at, setup);
      if SafeEvent(ch, e, setup.logsInfo) {
        RunKeepsInvIff(n, at, events[1..], setup);
      } else {
        DanglingStays(n, events[1..], setup);
        InvMeansWf(n, EndTime(now, events));
      }
    }
  }

  /** No event of the run destroys the connection that is selected at the time. */
  ghost predicate SparesSelection(ch: Chan, events: seq<Timed<ChannelEvent>>, setup: Setup)
    decreases events
  {
    events == []
    || (!EndsSelection(ch, events[0].event)
        && SparesSelection(ChannelStep(ch, events[0].event, events[0].at, setup), events[1..], setup))
  }

  /** With INFO messages formatted, as by default, the invariant survives a run exactly if no selected
      connection is destroyed; the first one that is makes the program follow a null pointer. */
  lemma {:induction false} LoggedRunKeepsInvIff(ch: Chan, now: int, events: seq<Timed<ChannelEvent>>, setup: Setup)
    requires ChannelTheorems.Inv(ch, now) && ClockRuns(now, events) && setup.logsInfo
    ensures var end := ChannelRun(ch, events, setup);
      if SparesSelection(ch, events, setup) then ChannelTheorems.Inv(end, EndTime(now, events)) else end.faulted
    decreases events
  {
    hide ChannelTheorems.Inv, ChannelStep, EndsSelection, HandsOver;
    if events == [] {
    } else {
      var e, at := events[0].event, events[0].at;
      var n := ChannelStep(ch, e, at, setup);
      InvMeansWf(ch, now);
      StepKeepsInvIff(ch, e, now, at, setup);
      if EndsSelection(ch, e) {
        LoggedEndFaults(ch, e, now, at, setup);
        DanglingStays(n, events[1..], setup);
      } else {
        LoggedRunKeepsInvIff(n, at, events[1..], setup);
      }
    }
  }

  lemma LoggedEndFaults(ch: Chan, e: ChannelEvent, before: int, now: int, setup: Setup)
    requires ChannelTheorems.Inv(ch, before) && EndsSelection(ch, e) && setup.logsInfo
    ensures var n := ChannelStep(ch, e, now, setup); n.faulted && !Wf(n)
  {
    hide Core, Summarised, ConnectionsInv;
    DestroySelected(ch, e.id, now, true);
  }

  lemma InvMeansWf(ch: Chan, now: int)
    ensures ChannelTheorems.Inv(ch, now) ==> Wf(ch)
  {
  }

  lemma NewChannelInv(now: int)
    requires now >= 0
    ensures ChannelTheorems.Inv(NewChan(), now)
  {
  }
}
