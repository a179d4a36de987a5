/** What runs do to a selection: when it exists, when it is kept, and how long it stays writable in silence. */
module ChannelSilence {
  import opened Base
  import opened ConnectionState
  import opened ConnectionRank
  import opened ChannelState
  import opened ChannelTheorems
  import opened ChannelRuns
  import opened ChannelHistory
  import opened ChannelScheduling
  import opened ChannelSelection

  // ---- When a selection is kept ----

  /** No connection that can send undercuts the round trip of `a` by the 10 ms a switch takes. */
  ghost predicate Unrivalled(table: Table, a: Id) {
    a in table && forall id :: id in table && ReadyToSend(table[id]) ==> table[id].rtt > table[a].rtt - MIN_IMPROVEMENT
  }

  lemma UnrivalledOnBare(table: Table, a: Id)
    ensures Unrivalled(Bare(table), a) <==> Unrivalled(table, a)
  {
    hide Bare;
    forall id | id in table
      ensures ReadyToSend(Bare(table)[id]) == ReadyToSend(table[id]) && Bare(table)[id].rtt == table[id].rtt
    {
      BareAt(table, id);
    }
  }

  lemma ResortKeepsSelection(ch: Chan, now: int, a: Id)
    requires Core(ch) && ch.selected == Some(a) && Unrivalled(ch.conns, a)
    ensures Resort(ch, now).selected == Some(a) && Unrivalled(Resort(ch, now).conns, a)
  {
    hide Resort, StableSort, Bare, Better;
    SelectionOutcome(ch, now);
    if ch.order != [] {
      TopIsBest(ch);
    }
    ResortLeavesBare(ch, now);
    UnrivalledOnBare(ch.conns, a);
    UnrivalledOnBare(Resort(ch, now).conns, a);
  }

  lemma TouchKeepsSelection(ch: Chan, id: Id, c: Conn, now: int, a: Id)
    requires Core(ch) && ch.selected == Some(a) && Unrivalled(ch.conns, a) && id in ch.conns
    requires c.selected == ch.conns[id].selected && Unrivalled(ch.conns[id := c], a)
    ensures Touch(ch, id, c, now).selected == Some(a) && Unrivalled(Touch(ch, id, c, now).conns, a)
  {
    hide Core, Resort;
    ReplaceKeepsCore(ch, id, c);
    ResortKeepsSelection(ch.(conns := ch.conns[id := c]), now, a);
  }

  lemma ReplaceUnrivalled(table: Table, id: Id, c: Conn, a: Id)
    requires Unrivalled(table, a) && id in table
    requires c.rtt == table[id].rtt && (ReadyToSend(c) ==> ReadyToSend(table[id]))
    ensures Unrivalled(table[id := c], a)
  {
  }

  lemma UpdateKeepsSelection(ch: Chan, id: Id, now: int, a: Id)
    requires Core(ch) && Summarised(ch) && ch.selected == Some(a) && Unrivalled(ch.conns, a) && id in ch.conns
    ensures var n := UpdateConnection(ch, id, now); n.selected == Some(a) && Unrivalled(n.conns, a)
  {
    hide Core, Summarised, Touch, Unrivalled;
    var c1 := Degrade(ch.conns[id], now);
    ReplaceUnrivalled(ch.conns, id, c1, a);
    TouchKeepsSelection(ch, id, c1, now, a);
    TouchKeeps(ch, id, c1, now);
    var n1 := Touch(ch, id, c1, now);
    var c2 := Expire(n1.conns[id], now);
    ReplaceUnrivalled(n1.conns, id, c2, a);
    TouchKeepsSelection(n1, id, c2, now, a);
    TouchKeeps(n1, id, c2, now);
    var n2 := Touch(n1, id, c2, now);
    ReplaceUnrivalled(n2.conns, id, UpdateReceiving(n2.conns[id], now), a);
    TouchKeepsSelection(n2, id, UpdateReceiving(n2.conns[id], now), now, a);
  }

  /** The periodic pass keeps such a selection, whatever it does to the write states. */
  lemma {:induction false} UpdatesKeepSelection(ch: Chan, ids: seq<Id>, now: int, a: Id)
    requires Core(ch) && Summarised(ch) && ch.selected == Some(a) && Unrivalled(ch.conns, a) && AllIn(ch.conns, ids)
    ensures var n := UpdateConnections(ch, ids, now); n.selected == Some(a) && Unrivalled(n.conns, a)
    decreases |ids|
  {
    hide Core, Summarised, UpdateConnection, Unrivalled;
    if ids == [] {
    } else {
      UpdateKeepsSelection(ch, ids[0], now, a);
      UpdateConnectionKeeps(ch, ids[0], now);
      UpdatesKeepSelection(UpdateConnection(ch, ids[0], now), ids[1..], now, a);
    }
  }

  lemma TickKeepsUnrivalled(ch: Chan, pingId: seq<byte>, now: int, a: Id)
    requires Core(ch) && Summarised(ch) && ch.selected == Some(a) && Unrivalled(ch.conns, a)
    ensures var n := CheckAndPing(ch, pingId, now); n.selected == Some(a) && Unrivalled(n.conns, a)
  {
    hide Core, Summarised, UpdateConnections, CheckAndPing, Bare, UpdateState, TickPick;
    UpdatesKeepSelection(ch, ch.order, now, a);
    TickKeepsSelection(ch, pingId, now);
    TickBare(ch, pingId, now);
    var n := CheckAndPing(ch, pingId, now);
    UnrivalledOnBare(ch.conns, a);
    forall id | id in ch.conns
      ensures Bare(n.conns)[id].rtt == Bare(ch.conns)[id].rtt
      ensures ReadyToSend(Bare(n.conns)[id]) ==> ReadyToSend(Bare(ch.conns)[id])
    {
      UpdateReadies(Bare(ch.conns)[id], now);
    }
    UnrivalledOnBare(n.conns, a);
  }

  lemma UpdateReadies(c: Conn, now: int)
    ensures UpdateState(c, now).rtt == c.rtt
    ensures ReadyToSend(UpdateState(c, now)) ==> ReadyToSend(c)
  {
  }

  /** An answer from another connection leaves it alone too, if it does not undercut by 10 ms. */
  lemma AnswerKeepsSelection(ch: Chan, id: Id, rtt: int, now: int, average: Average, a: Id)
    requires Core(ch) && Summarised(ch) && ch.selected == Some(a) && Unrivalled(ch.conns, a)
    requires id in ch.conns && id != a
    requires NoteResponse(ch.conns[id], rtt, now, average).rtt > ch.conns[a].rtt - MIN_IMPROVEMENT
    ensures var n := PingResponse(ch, id, rtt, now, average); n.selected == Some(a) && Unrivalled(n.conns, a)
  {
    hide Core, Summarised, Touch, NoteResponse, UpdateReceiving;
    var noted := NoteResponse(ch.conns[id], rtt, now, average);
    NoteChangesNoState(ch.conns[id], rtt, now, average);
    ReplaceKeepsCore(ch, id, noted);
    ReplaceKeepsSummary(ch, id, noted);
    var x := ch.(conns := ch.conns[id := noted]);
    var c1 := UpdateReceiving(x.conns[id], now);
    ReceivingChangesNoState(x.conns[id], now);
    TouchKeepsSelection(x, id, c1, now, a);
    TouchKeeps(x, id, c1, now);
    TouchLeavesOthers(x, id, c1, now, a);
    var y := Touch(x, id, c1, now);
    var c2 := y.conns[id].(writeState := StateWritable);
    TouchKeepsSelection(y, id, c2, now, a);
  }

  lemma NoteChangesNoState(c: Conn, rtt: int, now: int, average: Average)
    ensures var n := NoteResponse(c, rtt, now, average);
      n.writeState == c.writeState && n.receiving == c.receiving && n.selected == c.selected
  {
  }

  lemma ReceivingChangesNoState(c: Conn, now: int)
    ensures var n := UpdateReceiving(c, now);
      n.writeState == c.writeState && n.rtt == c.rtt && n.selected == c.selected
  {
  }

  lemma TouchLeavesOthers(ch: Chan, id: Id, c: Conn, now: int, a: Id)
    requires Wf(ch) && id in ch.conns && a in ch.conns && a != id
    ensures var n := Touch(ch, id, c, now); n.conns[a].rtt == ch.conns[a].rtt && n.conns[id].rtt == c.rtt
  {
    hide Touch, Bare;
    TouchBare(ch, id, c, now);
    BareAt(ch.conns, a);
    BareAt(Touch(ch, id, c, now).conns, a);
    BareAt(Touch(ch, id, c, now).conns, id);
  }

  lemma ParamsKeepSelection(ch: Chan, user: seq<byte>, pwd: seq<byte>, now: int, a: Id)
    requires Core(ch) && ch.selected == Some(a) && Unrivalled(ch.conns, a)
    ensures var n := SetRemoteParams(ch, user, pwd, now); n.selected == Some(a) && Unrivalled(n.conns, a)
  {
    hide Resort;
    var given := ch.(remotePwd := pwd, conns := GiveRemoteParams(ch.conns, ch.order, user, pwd));
    assert Core(given);
    ResortKeepsSelection(given, now, a);
  }

  lemma AddKeepsSelection(ch: Chan, id: Id, user: seq<byte>, lp: u32, rp: u32, now: int, a: Id)
    requires Core(ch) && ch.selected == Some(a) && Unrivalled(ch.conns, a) && id !in ch.conns
    ensures var n := AddConnection(ch, id, user, lp, rp, now); n.selected == Some(a) && Unrivalled(n.conns, a)
  {
    hide Resort;
    var added := ch.(conns := ch.conns[id := NewConn(user, ch.remotePwd, lp, rp)],
                     order := ch.order + [id], unpinged := ch.unpinged + {id});
    assert Core(added);
    ResortKeepsSelection(added, now, a);
  }

  /** As long as nobody answers and it is not destroyed, an unrivalled selection stays, dead or alive. */
  lemma StepKeepsSelection(ch: Chan, e: ChannelEvent, now: int, setup: Setup, a: Id)
    requires Core(ch) && Summarised(ch) && ch.selected == Some(a) && Unrivalled(ch.conns, a)
    requires !e.Answer? && e != Destroy(a)
    ensures var n := ChannelStep(ch, e, now, setup); n.selected == Some(a) && Unrivalled(n.conns, a)
  {
    hide Core, Summarised, CheckAndPing, AddConnection, SetRemoteParams, Without;
    match e
    case Tick(pingId) =>
      if ch.started {
        TickKeepsUnrivalled(ch, pingId, now, a);
      }
    case UnknownAddress(id, user, lp, rp) =>
      if id !in ch.conns {
        AddKeepsSelection(ch, id, user, lp, rp, now, a);
      }
    case NewRemoteParams(user, pwd) => ParamsKeepSelection(ch, user, pwd, now, a);
    case Destroy(id) =>
  }

  // ---- A selection as soon as one is possible ----

  /** Over every run that keeps the invariant, nothing is selected only while nothing can send. */
  lemma StepSettles(ch: Chan, e: ChannelEvent, now: int, setup: Setup)
    requires Core(ch) && Summarised(ch) && Settled(ch) && SafeEvent(ch, e, setup.logsInfo)
    ensures Settled(ChannelStep(ch, e, now, setup))
  {
    hide Core, Summarised, CheckAndPing, AddConnection, SetRemoteParams, PingResponse, Without, Resort, HandsOver;
    match e
    case Tick(pingId) => TickSettles(ch, pingId, now);
    case Answer(id, rtt) =>
      if id in ch.conns {
        ResponseSettles(ch, id, rtt, now, setup.average);
      }
    case UnknownAddress(id, user, lp, rp) =>
      if id !in ch.conns {
        AddSettles(ch, id, user, lp, rp, now);
      }
    case NewRemoteParams(user, pwd) => ParamsSettle(ch, user, pwd, now);
    case Destroy(id) =>
      if EndsSelection(ch, e) {
        DestroySelected(ch, id, now, setup.logsInfo);
      }
  }

  lemma {:induction false} RunSettles(ch: Chan, now: int, events: seq<Timed<ChannelEvent>>, setup: Setup)
    requires ChannelTheorems.Inv(ch, now) && ClockRuns(now, events) && SafeRun(ch, events, setup) && Settled(ch)
    ensures Settled(ChannelRun(ch, events, setup))
    decreases events
  {
    hide ChannelTheorems.Inv, ChannelStep, SafeEvent, Settled;
    if events == [] {
    } else {
      var e, at := events[0].event, events[0].at;
      InvMeansWf(ch, now);
      InvParts(ch, now);
      StepSettles(ch, e, at, setup);
      StepKeepsInvIff(ch, e, now, at, setup);
      RunSettles(ChannelStep(ch, e, at, setup), at, events[1..], setup);
    }
  }

  // ---- How long a silent selection stays writable ----

  /** What a connection still gets after its fifth unanswered ping. */
  function Patience(c: Conn): int {
    if 2 * c.rtt < MIN_RTT then CONNECTION_WRITE_CONNECT_TIMEOUT else MAX_RTT
  }

  /** No later than this, or at the first tick behind it, the selected connection `c` is pinged again. */
  function NextPing(c: Conn, channelPing: int, tick: int): int {
    Max(Max(c.lastPingSent + 2975, channelPing + 475), tick)
  }

  /** The last tick, if ticks are at most `gap` apart, that can leave the silent selection `c` writable. */
  function Limit(c: Conn, channelPing: int, tick: int, gap: nat): int {
    if |c.pings| >= 5 then c.pings[4].sentTime + Patience(c)
    else NextPing(c, channelPing, tick) + gap + (4 - |c.pings|) * (2975 + gap) + Patience(c)
  }

  /** The fields of a connection that only ticks and answers change. */
  ghost predicate SameProgress(c: Conn, d: Conn) {
    && c.writeState == d.writeState && c.pings == d.pings && c.lastPingSent == d.lastPingSent && c.rtt == d.rtt
  }

  lemma BareProgress(table: Table, id: Id)
    requires id in table
    ensures SameProgress(Bare(table)[id], table[id]) && Writable(Bare(table)[id]) == Writable(table[id])
  {
  }

  lemma SameProgressFromBare(before: Table, after: Table, a: Id)
    requires a in before && a in after
    requires SameProgress(Bare(before)[a], Bare(after)[a])
    ensures SameProgress(before[a], after[a])
  {
    BareProgress(before, a);
    BareProgress(after, a);
  }

  /** Other events than ticks and the connection's own answers leave its progress alone. */
  lemma OtherStepsLeaveProgress(ch: Chan, e: ChannelEvent, now: int, setup: Setup, a: Id)
    requires Core(ch) && a in ch.conns && !e.Tick? && !(e.Answer? && e.from == a) && e != Destroy(a)
    requires !EndsSelection(ch, e)
    ensures var n := ChannelStep(ch, e, now, setup);
      && a in n.conns && SameProgress(ch.conns[a], n.conns[a]) && n.lastPingSent == ch.lastPingSent
      && (ch.started ==> n.started)
  {
    hide Core, PingResponse, AddConnection, SetRemoteParams, Without, Bare, ReceivedResponse;
    OtherStepsLeaveClock(ch, e, now, setup);
    match e
    case Answer(id, rtt) =>
      if id in ch.conns {
        ResponseBare(ch, id, rtt, now, setup.average);
        SameProgressFromBare(ch.conns, PingResponse(ch, id, rtt, now, setup.average).conns, a);
        ResponseStaysStarted(ch, id, rtt, now, setup.average);
      }
    case UnknownAddress(id, user, lp, rp) =>
      if id !in ch.conns {
        AddLeavesProgress(ch, id, user, lp, rp, now, a);
      }
    case NewRemoteParams(user, pwd) => ParamsLeaveProgress(ch, user, pwd, now, a);
    case Destroy(id) =>
  }

  lemma AddLeavesProgress(ch: Chan, id: Id, user: seq<byte>, lp: u32, rp: u32, now: int, a: Id)
    requires Wf(ch) && a in ch.conns && id !in ch.conns
    ensures var n := AddConnection(ch, id, user, lp, rp, now);
      a in n.conns && SameProgress(ch.conns[a], n.conns[a]) && (ch.started ==> n.started)
  {
    hide Resort, Bare;
    var added := ch.(conns := ch.conns[id := NewConn(user, ch.remotePwd, lp, rp)], order := ch.order + [id],
                     unpinged := ch.unpinged + {id});
    ResortLeavesBare(added, now);
    ResortStaysStarted(added, now);
    SameProgressFromBare(added.conns, Resort(added, now).conns, a);
  }

  lemma ParamsLeaveProgress(ch: Chan, user: seq<byte>, pwd: seq<byte>, now: int, a: Id)
    requires Wf(ch) && a in ch.conns
    ensures var n := SetRemoteParams(ch, user, pwd, now);
      a in n.conns && SameProgress(ch.conns[a], n.conns[a]) && (ch.started ==> n.started)
  {
    hide Resort, Bare;
    var given := ch.(remotePwd := pwd, conns := GiveRemoteParams(ch.conns, ch.order, user, pwd));
    ResortLeavesBare(given, now);
    ResortStaysStarted(given, now);
    SameProgressFromBare(given.conns, Resort(given, now).conns, a);
  }

  lemma ResortStaysStarted(ch: Chan, now: int)
    requires Wf(ch)
    ensures ch.started ==> Resort(ch, now).started
  {
    hide Resort;
    ResortKeepsClock(ch, now);
  }

  lemma ResponseStaysStarted(ch: Chan, id: Id, rtt: int, now: int, average: Average)
    requires Wf(ch) && id in ch.conns
    ensures ch.started ==> PingResponse(ch, id, rtt, now, average).started
  {
    hide Touch, NoteResponse, UpdateReceiving;
    var a := ch.(conns := ch.conns[id := NoteResponse(ch.conns[id], rtt, now, average)]);
    TouchKeepsClock(a, id, UpdateReceiving(a.conns[id], now), now);
    var b := Touch(a, id, UpdateReceiving(a.conns[id], now), now);
    TouchKeepsClock(b, id, b.conns[id].(writeState := StateWritable), now);
  }

  /** If a tick pings another connection, the writable selection was not yet due. */
  lemma OtherPickMeansNotDue(ch: Chan, now: int, a: Id)
    requires Core(ch) && Summarised(ch)
    requires var u := UpdateConnections(ch, ch.order, now); u.selected == Some(a) && Writable(u.conns[a])
    requires TickPick(ch, now).Some? && TickPick(ch, now) != Some(a)
    ensures a in ch.conns && now < ch.conns[a].lastPingSent + 2500
  {
    hide UpdateConnections, Core, Summarised, Stable, Pick;
    var u := UpdateConnections(ch, ch.order, now);
    UpdateConnectionsKeeps(ch, ch.order, now);
    UpdatesKeepWhatPickReads(ch, now);
    SidesAgree(u);
  }

  /** What a tick does to a selection that stays: a ping if it is due, and WRITABLE only within the limit. */
  lemma TickProgress(ch: Chan, pingId: seq<byte>, now: int, a: Id)
    requires Core(ch) && Summarised(ch) && ch.started && a in ch.conns
    requires CheckAndPing(ch, pingId, now).selected == Some(a)
    ensures var n, c := CheckAndPing(ch, pingId, now), ch.conns[a];
      && a in n.conns && n.conns[a].rtt == c.rtt && n.started
      && (Writable(n.conns[a]) ==>
            && Writable(UpdateState(c, now))
            && if n.conns[a].pings == c.pings then
                 && n.conns[a].lastPingSent == c.lastPingSent
                 && (now < c.lastPingSent + 2500 || now < ch.lastPingSent + 475)
                 && (n.lastPingSent == ch.lastPingSent || (n.lastPingSent == now < c.lastPingSent + 2500))
               else
                 && n.conns[a].pings == c.pings + [SentPing(pingId, now)]
                 && n.conns[a].lastPingSent == now == n.lastPingSent)
  {
    hide Core, Summarised, UpdateConnections, CheckAndPing, Bare, UpdateState, TickPick;
    var u, n := UpdateConnections(ch, ch.order, now), CheckAndPing(ch, pingId, now);
    TickBare(ch, pingId, now);
    TickKeepsSelection(ch, pingId, now);
    UpdateOfBare(ch.conns, a, now);
    BareProgress(n.conns, a);
    UpdateChangesStatesOnly(ch.conns[a], now);
    UpdateConnectionsKeeps(ch, ch.order, now);
    UpdatedWritable(ch, now, a);
    TickStaysStarted(ch, pingId, now);
    if Writable(n.conns[a]) {
      if TickPick(ch, now).Some? && TickPick(ch, now) != Some(a) {
        OtherPickMeansNotDue(ch, now, a);
      }
      if now >= ch.lastPingSent + 475 && now >= ch.conns[a].lastPingSent + 2500 {
        SelectionIsKeptAlive(ch, now);
      }
    }
  }

  lemma UpdateOfBare(table: Table, a: Id, now: int)
    requires a in table
    ensures UpdateState(Bare(table)[a], now) == UpdateState(table[a], now).(selected := false)
  {
    hide Bare, Degrade, Expire, UpdateReceiving;
    BareAt(table, a);
    var c := table[a];
    PhasesIgnoreFlag(c, c.(selected := false), now);
    var d := Degrade(c, now);
    PhasesIgnoreFlag(d, d.(selected := false), now);
    var e := Expire(d, now);
    PhasesIgnoreFlag(e, e.(selected := false), now);
  }

  /** Whether a connection is writable after the pass is decided by its own update. */
  lemma UpdatedWritable(ch: Chan, now: int, a: Id)
    requires Core(ch) && a in ch.conns
    ensures var u := UpdateConnections(ch, ch.order, now);
      a in u.conns && Writable(u.conns[a]) == Writable(UpdateState(ch.conns[a], now))
  {
    hide UpdateConnections, UpdateState, Bare, Core;
    CoreOrder(ch);
    UpdatesBare(ch, ch.order, now);
    UpdateOfBare(ch.conns, a, now);
    BareProgress(UpdateConnections(ch, ch.order, now).conns, a);
  }

  lemma TickStaysStarted(ch: Chan, pingId: seq<byte>, now: int)
    requires Core(ch) && Summarised(ch) && ch.started
    ensures CheckAndPing(ch, pingId, now).started
  {
    hide Core, Summarised, UpdateConnections, CheckAndPing, SelectConnectionToPing;
    UpdatesKeepClock(ch, ch.order, now);
    TickShape(ch, pingId, now);
  }

  /** Still writable after an update, a connection is within its patience since the fifth unanswered ping. */
  lemma WithinPatience(c: Conn, before: int, now: int)
    requires ConnectionState.Inv(c, before) && before <= now && |c.pings| >= 5 && Writable(UpdateState(c, now))
    ensures now <= c.pings[4].sentTime + Patience(c)
  {
    UpdateOutcome(c, before, now);
    assert c.pings[0].sentTime <= c.pings[4].sentTime;
    hide UpdateState;
  }

  lemma LimitHolds(c: Conn, d: Conn, channelPing: int, later: int, tick: int, now: int, gap: nat)
    requires tick <= now <= tick + gap && c.rtt == d.rtt
    requires |c.pings| >= 5 ==> now <= c.pings[4].sentTime + Patience(c)
    requires if d.pings == c.pings then
               && d.lastPingSent == c.lastPingSent && (now < c.lastPingSent + 2500 || now < channelPing + 475)
               && (later == channelPing || later == now < c.lastPingSent + 2500)
             else (exists id :: d.pings == c.pings + [SentPing(id, now)]) && d.lastPingSent == now == later
    ensures now <= Limit(d, later, now, gap) <= Limit(c, channelPing, tick, gap)
  {
    var k, g := |c.pings|, 2975 + gap;
    if d.pings != c.pings {
      assert d.pings[k].sentTime == now && (k >= 5 ==> d.pings[4] == c.pings[4]);
      assert k < 4 ==> (4 - k) * g == (4 - (k + 1)) * g + g;
    }
    if k < 4 {
      assert (4 - (k + 1)) * g >= 0 && (4 - k) * g >= 0;
    }
  }

  /** Each tick comes at most `gap` after the one before, and so does the end of the run. */
  ghost predicate TicksWithin(tick: int, events: seq<Timed<ChannelEvent>>, gap: nat)
    decreases events
  {
    events == []
    || (events[0].at <= tick + gap
        && TicksWithin(if events[0].event.Tick? then events[0].at else tick, events[1..], gap))
  }

  /** Throughout the run `a` is the selected connection, and no answer from it arrives. */
  ghost predicate SilentSelection(ch: Chan, events: seq<Timed<ChannelEvent>>, setup: Setup, a: Id)
    decreases events
  {
    && ch.selected == Some(a)
    && (events == []
        || (&& !(events[0].event.Answer? && events[0].event.from == a) && events[0].event != Destroy(a)
            && SilentSelection(ChannelStep(ch, events[0].event, events[0].at, setup), events[1..], setup, a)))
  }

  /** Whatever step is taken, a silent selection that is writable afterwards was so before, within the limit. */
  lemma SilentStepWithinLimit(ch: Chan, e: ChannelEvent, before: int, now: int, setup: Setup, a: Id, tick: int,
                              gap: nat)
    requires ChannelTheorems.Inv(ch, before) && before <= now && ch.started && ch.selected == Some(a) && a in ch.conns
    requires tick <= now <= tick + gap && !(e.Answer? && e.from == a) && e != Destroy(a)
    requires ChannelStep(ch, e, now, setup).selected == Some(a)
    ensures var n := ChannelStep(ch, e, now, setup);
      && a in n.conns && n.started && n.conns[a].rtt == ch.conns[a].rtt
      && (Writable(n.conns[a]) ==>
            var t := if e.Tick? then now else tick;
            && Writable(ch.conns[a])
            && Limit(n.conns[a], n.lastPingSent, t, gap) <= Limit(ch.conns[a], ch.lastPingSent, tick, gap)
            && (e.Tick? ==> now <= Limit(n.conns[a], n.lastPingSent, t, gap)))
  {
    hide Core, Summarised, ConnectionState.Inv, CheckAndPing, UpdateState, Limit;
    var n := ChannelStep(ch, e, now, setup);
    if e.Tick? {
      TickProgress(ch, e.pingId, now, a);
      if Writable(n.conns[a]) {
        UpdatedWasWritable(ch.conns[a], now);
        if |ch.conns[a].pings| >= 5 {
          WithinPatience(ch.conns[a], before, now);
        }
        LimitHolds(ch.conns[a], n.conns[a], ch.lastPingSent, n.lastPingSent, tick, now, gap);
      }
    } else {
      OtherStepsLeaveProgress(ch, e, now, setup, a);
      SameLimit(ch.conns[a], n.conns[a], ch.lastPingSent, tick, gap);
    }
  }

  lemma UpdatedWasWritable(c: Conn, now: int)
    ensures Writable(UpdateState(c, now)) ==> Writable(c)
  {
  }

  lemma SameLimit(c: Conn, d: Conn, channelPing: int, tick: int, gap: nat)
    requires SameProgress(c, d)
    ensures Limit(d, channelPing, tick, gap) == Limit(c, channelPing, tick, gap)
  {
  }

  lemma {:induction false} SilenceWithinLimit(ch: Chan, now: int, events: seq<Timed<ChannelEvent>>, setup: Setup, a: Id,
                                              tick: int, gap: nat, limit: int)
    requires ChannelTheorems.Inv(ch, now) && ch.started && a in ch.conns && tick <= now <= tick + gap
    requires ClockRuns(now, events) && TicksWithin(tick, events, gap) && SilentSelection(ch, events, setup, a)
    requires Writable(ch.conns[a]) ==> tick <= limit && Limit(ch.conns[a], ch.lastPingSent, tick, gap) <= limit
    ensures var end := ChannelRun(ch, events, setup);
      end.selected == Some(a) && (end.writable ==> EndTime(now, events) <= limit + gap)
    decreases events
  {
    hide ChannelTheorems.Inv, ChannelStep, Limit, HandsOver;
    if events == [] {
      WritableMeansSelected(ch, now, a);
    } else {
      var e, at := events[0].event, events[0].at;
      var n := ChannelStep(ch, e, at, setup);
      assert n.selected == Some(a) by {
        assert SilentSelection(n, events[1..], setup, a);
      }
      InvMeansWf(ch, now);
      SilentStepWithinLimit(ch, e, now, at, setup, a, tick, gap);
      StepKeepsInvIff(ch, e, now, at, setup);
      SilenceWithinLimit(n, at, events[1..], setup, a, if e.Tick? then at else tick, gap, limit);
    }
  }

  lemma WritableMeansSelected(ch: Chan, now: int, a: Id)
    requires ChannelTheorems.Inv(ch, now) && ch.selected == Some(a)
    ensures a in ch.conns && (ch.writable <==> Writable(ch.conns[a]))
  {
  }

  lemma FirstLimit(ch: Chan, now: int, a: Id, gap: nat)
    requires ChannelTheorems.Inv(ch, now) && a in ch.conns
    ensures Limit(ch.conns[a], ch.lastPingSent, now, gap) <= now + 5 * (2975 + gap) + Patience(ch.conns[a])
  {
    hide Core, Summarised;
    var c, g := ch.conns[a], 2975 + gap;
    if |c.pings| < 5 {
      assert (4 - |c.pings|) * g <= 4 * g;
    }
  }

  /** A channel whose selection stays but no longer answers stops being writable. With ticks at most `gap`
      ms apart that takes at most five pings, each within 2975 ms and a tick of the one before, the
      patience of 5 s for a round trip below 50 ms and of 60 s otherwise, and one more tick. */
  lemma SilentSelectionGoesDown(ch: Chan, now: int, events: seq<Timed<ChannelEvent>>, setup: Setup, a: Id, gap: nat)
    requires ChannelTheorems.Inv(ch, now) && ch.started && a in ch.conns
    requires ClockRuns(now, events) && TicksWithin(now, events, gap) && SilentSelection(ch, events, setup, a)
    requires EndTime(now, events) > now + 5 * (2975 + gap) + Patience(ch.conns[a]) + gap
    ensures !ChannelRun(ch, events, setup).writable
  {
    hide ChannelTheorems.Inv, Limit, Patience, ClockRuns;
    FirstLimit(ch, now, a, gap);
    PatienceIsPositive(ch.conns[a]);
    SilenceWithinLimit(ch, now, events, setup, a, now, gap, now + 5 * (2975 + gap) + Patience(ch.conns[a]));
  }

  lemma PatienceIsPositive(c: Conn)
    ensures Patience(c) > 0
  {
  }

  ghost predicate NoAnswers(events: seq<Timed<ChannelEvent>>, a: Id) {
    forall i :: 0 <= i < |events| ==> !events[i].event.Answer? && events[i].event != Destroy(a)
  }

  /** If nobody answers any more, an unrivalled selection stays, so the bound holds for every such run. */
  lemma {:induction false} UnrivalledStays(ch: Chan, now: int, events: seq<Timed<ChannelEvent>>, setup: Setup, a: Id)
    requires ChannelTheorems.Inv(ch, now) && ClockRuns(now, events) && NoAnswers(events, a)
    requires ch.selected == Some(a) && Unrivalled(ch.conns, a)
    ensures SilentSelection(ch, events, setup, a)
    ensures var end := ChannelRun(ch, events, setup); end.selected == Some(a) && Unrivalled(end.conns, a)
    decreases events
  {
    hide ChannelTheorems.Inv, ChannelStep, HandsOver, Unrivalled;
    if events == [] {
    } else {
      var e, at := events[0].event, events[0].at;
      InvMeansWf(ch, now);
      InvParts(ch, now);
      StepKeepsSelection(ch, e, at, setup, a);
      StepKeepsInvIff(ch, e, now, at, setup);
      UnrivalledStays(ChannelStep(ch, e, at, setup), at, events[1..], setup, a);
    }
  }

  lemma UnansweredChannelGoesDown(ch: Chan, now: int, events: seq<Timed<ChannelEvent>>, setup: Setup, a: Id, gap: nat)
    requires ChannelTheorems.Inv(ch, now) && ch.started && ch.selected == Some(a) && Unrivalled(ch.conns, a)
    requires ClockRuns(now, events) && TicksWithin(now, events, gap) && NoAnswers(events, a)
    requires EndTime(now, events) > now + 5 * (2975 + gap) + Patience(ch.conns[a]) + gap
    ensures !ChannelRun(ch, events, setup).writable
  {
    UnrivalledStays(ch, now, events, setup, a);
    SilentSelectionGoesDown(ch, now, events, setup, a, gap);
  }
}
