/** Runs of a new channel that end where the promises need their conditions. */
module ChannelWitnesses {
  import opened Base
  import opened ConnectionState
  import opened ConnectionRank
  import opened ChannelState
  import opened ChannelTheorems
  import opened ChannelRuns
  import opened ChannelHistory
  import opened ChannelScheduling
  import opened ChannelSelection
  import opened ChannelSilence

  lemma StepOfRun(ch: Chan, es: seq<Timed<ChannelEvent>>, i: nat, setup: Setup)
    requires i < |es|
    ensures ChannelRun(ch, es[i..], setup)
         == ChannelRun(ChannelStep(ch, es[i].event, es[i].at, setup), es[i + 1..], setup)
  {
    assert es[i..][0] == es[i] && es[i..][1..] == es[i + 1..];
  }

  lemma {:induction false} RunInTwo(ch: Chan, first: seq<Timed<ChannelEvent>>, second: seq<Timed<ChannelEvent>>,
                                    setup: Setup)
    ensures ChannelRun(ch, first + second, setup) == ChannelRun(ChannelRun(ch, first, setup), second, setup)
    decreases first
  {
    if first == [] {
      assert first + second == second;
    } else {
      assert (first + second)[1..] == first[1..] + second;
      RunInTwo(ChannelStep(ch, first[0].event, first[0].at, setup), first[1..], second, setup);
    }
  }

  // ---- One connection, answered once ----

  /** The peer's credentials and its first packet arrive, the timer pings it, it answers after 20 ms. */
  function Opening(id: seq<byte>): seq<Timed<ChannelEvent>> {
    [Timed(NewRemoteParams([1], [2]), 1000), Timed(UnknownAddress(0, [1], 0, 0), 1000),
     Timed(Tick(id), 2000), Timed(Answer(0, 20), 2020)]
  }

  /** The channel has connection 0 alone and started the timer. */
  ghost predicate Single(ch: Chan, now: int) {
    ChannelTheorems.Inv(ch, now) && Settled(ch) && ch.started && ch.conns.Keys == {0}
  }

  lemma FirstParams(now: int, setup: Setup)
    ensures ChannelStep(NewChan(), NewRemoteParams([1], [2]), now, setup) == NewChan().(remotePwd := [2])
  {
    var given := NewChan().(remotePwd := [2]);
    assert GiveRemoteParams(map[], [], [1], [2]) == map[];
    assert SortVector(given) == given;
  }

  /** The timer starts with the first connection that can be pinged while nothing is selected. */
  lemma ResortStarts(ch: Chan, now: int, id: Id)
    requires Core(ch) && id in ch.conns && HasCredentials(ch.conns[id]) && Resort(ch, now).selected == None
    ensures Resort(ch, now).started
  {
    hide Core, StableSort, SetSelected, HasCredentials, Switch, HasPingable;
    var s := SortVector(ch);
    SortKeepsCore(ch);
    SwitchTargetExists(s);
    var t := Switch(s, SwitchTarget(s));
    SwitchMoves(s, SwitchTarget(s));
    SwitchNowhere(s);
    StartsIfPingable(s, id, now);
    SameForPinging(s, Summarise(s), now);
  }

  lemma StartsIfPingable(ch: Chan, id: Id, now: int)
    requires Core(ch) && id in ch.conns && HasCredentials(ch.conns[id]) && ch.selected == None
    ensures HasPingable(ch, now)
  {
    hide HasCredentials;
    assert id in ch.order;
    var i :| 0 <= i < |ch.order| && ch.order[i] == id;
    assert Pingable(ControllerWeak(ch), ch.conns[ch.order[i]], now);
  }

  /** The channel that `AddConnection` sorts. */
  function FirstAdded(ch: Chan): Chan {
    ch.(conns := ch.conns[0 := NewConn([1], ch.remotePwd, 0, 0)], order := ch.order + [0],
        unpinged := ch.unpinged + {0})
  }

  lemma FirstAddedIsCore(ch: Chan)
    requires ch == NewChan().(remotePwd := [2])
    ensures Core(FirstAdded(ch)) && FirstAdded(ch).conns.Keys == {0} && FirstAdded(ch).selected == None
    ensures var c := FirstAdded(ch).conns[0]; HasCredentials(c) && !ReadyToSend(c) && c.rttSamples == 0
  {
    assert FirstAdded(ch).order == [0];
  }

  lemma FirstConnection(ch: Chan, now: int, setup: Setup)
    requires ch == NewChan().(remotePwd := [2]) && now >= 0
    ensures var n := ChannelStep(ch, UnknownAddress(0, [1], 0, 0), now, setup);
      Single(n, now) && !Writable(n.conns[0]) && n.conns[0].rttSamples == 0
  {
    hide Resort, ConnectionState.Inv, Bare, HasCredentials;
    var added := FirstAdded(ch);
    FirstAddedIsCore(ch);
    assert ChannelTheorems.Inv(ch, now);
    hide Core, Summarised;
    StepKeepsInvIff(ch, UnknownAddress(0, [1], 0, 0), now, now, setup);
    AddSettles(ch, 0, [1], 0, 0, now);
    ResortLeavesBare(added, now);
    BareAt(added.conns, 0);
    BareAt(Resort(added, now).conns, 0);
    UnselectedMeansNoneReady(added, now);
    ResortStarts(added, now, 0);
  }

  lemma SingleTick(ch: Chan, id: seq<byte>, before: int, now: int, setup: Setup)
    requires Single(ch, before) && before <= now
    ensures var n := ChannelStep(ch, Tick(id), now, setup);
      && Single(n, now)
      && (Writable(n.conns[0]) ==> Writable(ch.conns[0])) && n.conns[0].rttSamples == ch.conns[0].rttSamples
  {
    hide Core, Summarised, CheckAndPing, UpdateState, Bare, ConnectionState.Inv, Settled, TickPick;
    StepKeepsInvIff(ch, Tick(id), before, now, setup);
    StepSettles(ch, Tick(id), now, setup);
    TickStaysStarted(ch, id, now);
    TickBare(ch, id, now);
    var n := CheckAndPing(ch, id, now);
    BareAt(ch.conns, 0);
    BareAt(n.conns, 0);
    UpdateChangesStatesOnly(Bare(ch.conns)[0], now);
    UpdatedWasWritable(Bare(ch.conns)[0], now);
  }

  lemma SingleAnswer(ch: Chan, before: int, now: int, setup: Setup)
    requires Single(ch, before) && before <= now && ch.conns[0].rttSamples == 0
    ensures var n := ChannelStep(ch, Answer(0, 20), now, setup);
      && Single(n, now) && n.selected == Some(0)
      && Writable(n.conns[0]) && n.conns[0].rtt == 20 && n.conns[0].rttSamples == 1 && n.conns[0].pings == []
  {
    hide Core, Summarised, PingResponse, Bare, ConnectionState.Inv;
    StepKeepsInvIff(ch, Answer(0, 20), before, now, setup);
    StepSettles(ch, Answer(0, 20), now, setup);
    ResponseStaysStarted(ch, 0, 20, now, setup.average);
    ResponseBare(ch, 0, 20, now, setup.average);
    var n := PingResponse(ch, 0, 20, now, setup.average);
    BareAt(ch.conns, 0);
    BareAt(n.conns, 0);
    SelectedExists(n);
  }

  lemma SelectedExists(ch: Chan)
    requires Core(ch)
    ensures ch.selected.Some? ==> ch.selected.value in ch.conns
  {
  }

  lemma OpeningRun(id: seq<byte>, setup: Setup)
    ensures var ch := ChannelRun(NewChan(), Opening(id), setup);
      && Single(ch, 2020) && ch.selected == Some(0)
      && Writable(ch.conns[0]) && ch.conns[0].rtt == 20 && ch.conns[0].rttSamples == 1 && ch.conns[0].pings == []
  {
    hide ChannelStep, Single;
    var es := Opening(id);
    assert es[0..] == es && es[4..] == [];
    var c1 := ChannelStep(NewChan(), es[0].event, es[0].at, setup);
    StepOfRun(NewChan(), es, 0, setup);
    FirstParams(1000, setup);
    var c2 := ChannelStep(c1, es[1].event, es[1].at, setup);
    StepOfRun(c1, es, 1, setup);
    FirstConnection(c1, 1000, setup);
    var c3 := ChannelStep(c2, es[2].event, es[2].at, setup);
    StepOfRun(c2, es, 2, setup);
    SingleTick(c2, id, 1000, 2000, setup);
    StepOfRun(c3, es, 3, setup);
    SingleAnswer(c3, 2000, 2020, setup);
  }

  // ---- The selected connection is destroyed ----

  /** From a new channel a run of five events leaves the controller with a pointer to a connection that is
      gone, or, with INFO messages formatted, follows a null pointer. */
  lemma DestructionDangles(id: seq<byte>, setup: Setup)
    ensures var ch := ChannelRun(NewChan(), Opening(id) + [Timed(Destroy(0), 3000)], setup);
      && !Wf(ch)
      && (setup.logsInfo ==> ch.faulted)
      && (!setup.logsInfo ==> !ch.faulted && ch.selected == None && ch.ctlSelected == Some(0) && ch.conns == map[])
  {
    hide HandsOver, Single, ChannelStep, Wf, Opening;
    var ch, es := ChannelRun(NewChan(), Opening(id), setup), [Timed(Destroy(0), 3000)];
    OpeningRun(id, setup);
    RunInTwo(NewChan(), Opening(id), es, setup);
    assert es[1..] == [];
    assert ChannelRun(ch, es, setup) == ChannelStep(ch, Destroy(0), 3000, setup);
    SingleDestroyed(ch, setup);
  }

  lemma SingleDestroyed(ch: Chan, setup: Setup)
    requires Single(ch, 2020) && ch.selected == Some(0)
    ensures var n := ChannelStep(ch, Destroy(0), 3000, setup);
      && !Wf(n)
      && (setup.logsInfo ==> n.faulted)
      && (!setup.logsInfo ==> !n.faulted && n.selected == None && n.ctlSelected == Some(0) && n.conns == map[])
  {
    hide HandsOver, Core, Summarised, ConnectionsInv, DestroyConnection, Settled;
    DestroySelected(ch, 0, 3000, setup.logsInfo);
    NobodyToHandOver(ch);
    DestroyedIsGone(ch, 0, 3000, setup.logsInfo);
  }

  lemma NobodyToHandOver(ch: Chan)
    requires Core(ch) && ch.conns.Keys == {0}
    ensures !HandsOver(ch, 0)
  {
    hide StableSort, Better;
    var rest := Without(ch.order, 0);
    assert rest == [] || rest[0] in rest;
    WithoutMembers(ch.order, 0);
  }

  lemma DestroyedIsGone(ch: Chan, id: Id, now: int, logsInfo: bool)
    requires Wf(ch) && id in ch.conns
    ensures !logsInfo ==> DestroyConnection(ch, id, now, logsInfo).conns.Keys == ch.conns.Keys - {id}
  {
    hide Resort, Without;
  }

  // ---- A selection that timed out is kept ----

  /** Five more pings stay unanswered. */
  function Silence(id: seq<byte>): seq<Timed<ChannelEvent>> {
    [Timed(Tick(id), 5000), Timed(Tick(id), 8000), Timed(Tick(id), 11000), Timed(Tick(id), 14000),
     Timed(Tick(id), 17000)]
  }

  /** A second connection comes, is pinged, and answers after 30 ms. */
  function SecondConnection(id: seq<byte>): seq<Timed<ChannelEvent>> {
    [Timed(UnknownAddress(1, [1], 0, 0), 18000), Timed(Tick(id), 21000), Timed(Answer(1, 30), 21030)]
  }

  /** Connection 0 is selected and writable, `k` pings since its only answer, the first of them at 5000. */
  ghost predicate Waiting(ch: Chan, now: int, k: nat) {
    && Single(ch, now) && ch.selected == Some(0)
    && var c := ch.conns[0];
    && Writable(c) && c.rtt == 20 && c.rttSamples == 1 && |c.pings| == k && (k > 0 ==> c.pings[0].sentTime == 5000)
  }

  lemma WaitingTick(ch: Chan, id: seq<byte>, before: int, now: int, k: nat, setup: Setup)
    requires Waiting(ch, before, k) && k < 5 && now >= before + 2500 && (k == 0 ==> now == 5000)
    ensures Waiting(ChannelStep(ch, Tick(id), now, setup), now, k + 1)
  {
    hide Core, Summarised, CheckAndPing, UpdateState, ConnectionState.Inv, Settled;
    SingleTick(ch, id, before, now, setup);
    assert Unrivalled(ch.conns, 0);
    TickKeepsUnrivalled(ch, id, now, 0);
    UpdatesKeepSelection0(ch, now);
    UpdateOutcome(ch.conns[0], before, now);
    UpdatedWritable(ch, now, 0);
    SelectionIsKeptAlive(ch, now);
    PingedByTick(ch, id, now);
  }

  lemma UpdatesKeepSelection0(ch: Chan, now: int)
    requires Core(ch) && Summarised(ch) && ch.selected == Some(0) && Unrivalled(ch.conns, 0)
    ensures UpdateConnections(ch, ch.order, now).selected == Some(0)
  {
    hide Core, Summarised, UpdateConnections;
    UpdatesKeepSelection(ch, ch.order, now, 0);
  }

  /** The record of a connection that a tick pings. */
  lemma PingedByTick(ch: Chan, id: seq<byte>, now: int)
    requires Core(ch) && Summarised(ch) && 0 in ch.conns && TickPick(ch, now) == Some(0)
    ensures var n, c := CheckAndPing(ch, id, now), ch.conns[0];
      && 0 in n.conns && n.conns[0].pings == c.pings + [SentPing(id, now)]
      && n.conns[0].writeState == UpdateState(c, now).writeState && n.conns[0].rtt == c.rtt
      && n.conns[0].rttSamples == c.rttSamples
  {
    hide Core, Summarised, CheckAndPing, TickPick, Bare, UpdateState;
    TickBare(ch, id, now);
    BareAt(CheckAndPing(ch, id, now).conns, 0);
    UpdateOfBare(ch.conns, 0, now);
    UpdateChangesStatesOnly(ch.conns[0], now);
  }

  lemma SilenceRun(id: seq<byte>, setup: Setup)
    ensures Waiting(ChannelRun(NewChan(), Opening(id) + Silence(id), setup), 17000, 5)
  {
    hide ChannelStep, Waiting;
    var ch, es := ChannelRun(NewChan(), Opening(id), setup), Silence(id);
    OpeningRun(id, setup);
    RunInTwo(NewChan(), Opening(id), es, setup);
    assert es[0..] == es && es[5..] == [];
    OpeningWaits(ch);
    var c1 := ChannelStep(ch, Tick(id), 5000, setup);
    StepOfRun(ch, es, 0, setup);
    WaitingTick(ch, id, 2020, 5000, 0, setup);
    var c2 := ChannelStep(c1, Tick(id), 8000, setup);
    StepOfRun(c1, es, 1, setup);
    WaitingTick(c1, id, 5000, 8000, 1, setup);
    var c3 := ChannelStep(c2, Tick(id), 11000, setup);
    StepOfRun(c2, es, 2, setup);
    WaitingTick(c2, id, 8000, 11000, 2, setup);
    var c4 := ChannelStep(c3, Tick(id), 14000, setup);
    StepOfRun(c3, es, 3, setup);
    WaitingTick(c3, id, 11000, 14000, 3, setup);
    StepOfRun(c4, es, 4, setup);
    WaitingTick(c4, id, 14000, 17000, 4, setup);
  }

  lemma OpeningWaits(ch: Chan)
    requires Single(ch, 2020) && ch.selected == Some(0)
    requires Writable(ch.conns[0]) && ch.conns[0].rtt == 20 && ch.conns[0].rttSamples == 1 && ch.conns[0].pings == []
    ensures Waiting(ch, 2020, 0)
  {
  }

  /** Connection 0 is selected, with a round trip of 20 ms, and connection 1 has never been answered. */
  ghost predicate Joined(ch: Chan, now: int) {
    && ChannelTheorems.Inv(ch, now) && ch.started && ch.conns.Keys == {0, 1} && ch.selected == Some(0)
    && Unrivalled(ch.conns, 0) && ch.conns[0].rtt == 20 && ch.conns[1].rttSamples == 0
  }

  lemma SecondJoins(ch: Chan, setup: Setup)
    requires Waiting(ch, 17000, 5)
    ensures var n := ChannelStep(ch, UnknownAddress(1, [1], 0, 0), 18000, setup);
      && Joined(n, 18000) && SameProgress(ch.conns[0], n.conns[0])
  {
    hide Core, Summarised, Resort, Bare, ConnectionState.Inv, Settled;
    var e := UnknownAddress(1, [1], 0, 0);
    assert Unrivalled(ch.conns, 0);
    StepKeepsInvIff(ch, e, 17000, 18000, setup);
    StepKeepsSelection(ch, e, 18000, setup, 0);
    OtherStepsLeaveProgress(ch, e, 18000, setup, 0);
    var added := ch.(conns := ch.conns[1 := NewConn([1], ch.remotePwd, 0, 0)], order := ch.order + [1],
                     unpinged := ch.unpinged + {1});
    ResortLeavesBare(added, 18000);
    BareAt(added.conns, 1);
    BareAt(Resort(added, 18000).conns, 1);
  }

  lemma FirstTimesOut(ch: Chan, id: seq<byte>, setup: Setup)
    requires Joined(ch, 18000)
    requires var c := ch.conns[0];
      |c.pings| == 5 && c.pings[0].sentTime == 5000 && c.pings[4].sentTime <= 17000 && Writable(c)
    ensures var n := ChannelStep(ch, Tick(id), 21000, setup);
      Joined(n, 21000) && n.conns[0].writeState == StateTimeout
  {
    hide Core, Summarised, CheckAndPing, UpdateState, Bare, ConnectionState.Inv, TickPick, Unrivalled;
    StepKeepsInvIff(ch, Tick(id), 18000, 21000, setup);
    TickStaysStarted(ch, id, 21000);
    TickKeepsUnrivalled(ch, id, 21000, 0);
    TickBare(ch, id, 21000);
    var n := CheckAndPing(ch, id, 21000);
    BareAt(n.conns, 0);
    BareAt(n.conns, 1);
    BareAt(ch.conns, 1);
    UpdateOfBare(ch.conns, 0, 21000);
    UpdateOutcome(ch.conns[0], 18000, 21000);
    UpdateChangesStatesOnly(ch.conns[0], 21000);
    UpdateChangesStatesOnly(Bare(ch.conns)[1], 21000);
  }

  lemma SecondAnswers(ch: Chan, setup: Setup)
    requires Joined(ch, 21000)
    ensures var n := ChannelStep(ch, Answer(1, 30), 21030, setup);
      && ChannelTheorems.Inv(n, 21030) && n.conns.Keys == {0, 1} && n.selected == Some(0)
      && SameProgress(ch.conns[0], n.conns[0]) && Writable(n.conns[1])
  {
    hide Core, Summarised, PingResponse, Bare, ConnectionState.Inv;
    StepKeepsInvIff(ch, Answer(1, 30), 21000, 21030, setup);
    AnswerKeepsSelection(ch, 1, 30, 21030, setup.average, 0);
    OtherStepsLeaveProgress(ch, Answer(1, 30), 21030, setup, 0);
    ResponseBare(ch, 1, 30, 21030, setup.average);
    BareProgress(PingResponse(ch, 1, 30, 21030, setup.average).conns, 1);
  }

  lemma FifthPingIsOld(ch: Chan)
    requires Waiting(ch, 17000, 5)
    ensures ch.conns[0].pings[4].sentTime <= 17000
  {
    hide Core, Summarised, Settled;
  }

  /** A run of a new channel that ends with a selection that timed out, beside a writable connection: the
      channel stays on the first and reports that it cannot write. */
  lemma TimedOutSelectionIsKept(id: seq<byte>, setup: Setup)
    ensures var ch := ChannelRun(NewChan(), Opening(id) + Silence(id) + SecondConnection(id), setup);
      && ChannelTheorems.Inv(ch, 21030) && ch.conns.Keys == {0, 1}
      && ch.selected == Some(0) && ch.conns[0].writeState == StateTimeout && Writable(ch.conns[1]) && !ch.writable
  {
    hide ChannelStep, Waiting, Joined, ChannelTheorems.Inv;
    var ch, es := ChannelRun(NewChan(), Opening(id) + Silence(id), setup), SecondConnection(id);
    SilenceRun(id, setup);
    RunInTwo(NewChan(), Opening(id) + Silence(id), es, setup);
    assert es[0..] == es && es[3..] == [];
    WaitingMeans(ch);
    FifthPingIsOld(ch);
    var c1 := ChannelStep(ch, es[0].event, 18000, setup);
    StepOfRun(ch, es, 0, setup);
    SecondJoins(ch, setup);
    JoinedKeys(c1, 18000);
    var c2 := ChannelStep(c1, es[1].event, 21000, setup);
    StepOfRun(c1, es, 1, setup);
    FirstTimesOut(c1, id, setup);
    JoinedKeys(c2, 21000);
    var c3 := ChannelStep(c2, es[2].event, 21030, setup);
    StepOfRun(c2, es, 2, setup);
    SecondAnswers(c2, setup);
    WritableMeansSelected(c3, 21030, 0);
  }

  lemma WaitingMeans(ch: Chan)
    requires Waiting(ch, 17000, 5)
    ensures ch.conns.Keys == {0} && Writable(ch.conns[0])
    ensures |ch.conns[0].pings| == 5 && ch.conns[0].pings[0].sentTime == 5000
  {
  }

  lemma JoinedKeys(ch: Chan, now: int)
    requires Joined(ch, now)
    ensures ch.conns.Keys == {0, 1}
  {
  }
}
