/** What each connection of a channel lives through: its own run, its round trip and its credentials. */
module ConnectionStories {
  import opened Base
  import opened ConnectionState
  import opened ConnectionRank
  import opened ChannelState
  import opened ChannelTheorems
  import opened ChannelRuns
  import opened ChannelHistory

  // ---- The round trip of one connection ----

  /** The round trips of the answers, in order. */
  function Samples(events: seq<Timed<Event>>): seq<int>
    decreases events
  {
    if events == [] then []
    else (if events[0].event.Response? then [events[0].event.rtt] else []) + Samples(events[1..])
  }

  /** The moving average with ratio 3 over all samples: 3000 ms before any, the first as it is, then the
      average so far with each sample. */
  function Smoothed(samples: seq<int>, average: Average): int {
    var n := |samples|;
    if n == 0 then 3000
    else if n == 1 then samples[0]
    else average(Smoothed(samples[..n - 1], average), samples[n - 1], 3)
  }

  lemma SmoothedOneMore(samples: seq<int>, x: int, average: Average)
    ensures Smoothed(samples + [x], average)
         == if samples == [] then x else average(Smoothed(samples, average), x, 3)
  {
    assert (samples + [x])[..|samples|] == samples;
  }

  /** The connection has the round trip that these samples give. */
  predicate HasRoundTrip(c: Conn, samples: seq<int>, average: Average) {
    c.rtt == Smoothed(samples, average) && c.rttSamples == |samples|
  }

  lemma StepSmooths(c: Conn, e: Event, now: int, average: Average, before: seq<int>)
    requires HasRoundTrip(c, before, average)
    ensures HasRoundTrip(Step(c, e, now, average), before + (if e.Response? then [e.rtt] else []), average)
  {
    if e.Response? {
      SmoothedOneMore(before, e.rtt, average);
    } else {
      assert before + [] == before;
    }
  }

  /** Over every run the round trip is the moving average over the answers, and the count is theirs. */
  lemma {:induction false} RunSmooths(c: Conn, events: seq<Timed<Event>>, average: Average, before: seq<int>)
    requires HasRoundTrip(c, before, average)
    ensures HasRoundTrip(Run(c, events, average), before + Samples(events), average)
    decreases events
  {
    hide Step, HasRoundTrip;
    if events == [] {
      assert before + Samples(events) == before;
    } else {
      var e := events[0].event;
      var here := if e.Response? then [e.rtt] else [];
      StepSmooths(c, e, events[0].at, average, before);
      RunSmooths(Step(c, e, events[0].at, average), events[1..], average, before + here);
      ConcatAssoc(before, here, Samples(events[1..]));
    }
  }

  lemma NewConnectionSmooths(user: seq<byte>, pwd: seq<byte>, lp: u32, rp: u32, events: seq<Timed<Event>>,
                             average: Average)
    ensures var c := Run(NewConn(user, pwd, lp, rp), events, average);
      c.rtt == Smoothed(Samples(events), average) && c.rttSamples == |Samples(events)|
  {
    RunSmooths(NewConn(user, pwd, lp, rp), events, average, []);
    assert [] + Samples(events) == Samples(events);
  }

  // ---- What a connection remembers ----

  /** The pings sent since the last answer, in order, with their times. */
  function Unanswered(events: seq<Timed<Event>>): seq<SentPing> {
    if events == [] then []
    else
      var rest, last := events[..|events| - 1], events[|events| - 1];
      match last.event
      case SendPing(id) => Unanswered(rest) + [SentPing(id, last.at)]
      case Response(_) => []
      case _ => Unanswered(rest)
  }

  /** The time of the last event of a kind, 0 before any. */
  function LastTime(events: seq<Timed<Event>>, pings: bool): int {
    if events == [] then 0
    else
      var last := events[|events| - 1];
      if (if pings then last.event.SendPing? else last.event.Response?) then last.at
      else LastTime(events[..|events| - 1], pings)
  }

  function CountPings(events: seq<Timed<Event>>): nat {
    if events == [] then 0
    else CountPings(events[..|events| - 1]) + if events[|events| - 1].event.SendPing? then 1 else 0
  }

  /** Waiting before any ping or answer; then the last of them tells. */
  function LastWord(events: seq<Timed<Event>>): PairState {
    if events == [] then Waiting
    else
      match events[|events| - 1].event
      case SendPing(_) => InProgress
      case Response(_) => Succeeded
      case _ => LastWord(events[..|events| - 1])
  }

  lemma {:induction false} RunOneMore(c: Conn, events: seq<Timed<Event>>, e: Timed<Event>, average: Average)
    ensures Run(c, events + [e], average) == Step(Run(c, events, average), e.event, e.at, average)
    decreases events
  {
    hide Step;
    if events == [] {
      assert [] + [e] == [e] && [e][1..] == [];
      assert Run(c, [e], average) == Run(Step(c, e.event, e.at, average), [], average);
    } else {
      assert (events + [e])[1..] == events[1..] + [e];
      RunOneMore(Step(c, events[0].event, events[0].at, average), events[1..], e, average);
    }
  }

  /** The connection is what its history says. */
  predicate Remembers(c: Conn, events: seq<Timed<Event>>) {
    && c.pings == Unanswered(events) && c.numPingsSent == CountPings(events) && c.state == LastWord(events)
    && c.lastPingSent == LastTime(events, true) && c.lastPingResponse == LastTime(events, false)
  }

  lemma StepRemembers(c: Conn, events: seq<Timed<Event>>, e: Timed<Event>, average: Average)
    requires Remembers(c, events)
    ensures Remembers(Step(c, e.event, e.at, average), events + [e])
  {
    hide Unanswered, CountPings, LastWord, LastTime;
    HistoryOneMore(events, e);
  }

  /** What one more event adds to a history. */
  lemma HistoryOneMore(events: seq<Timed<Event>>, e: Timed<Event>)
    ensures var all, ping, answer := events + [e], e.event.SendPing?, e.event.Response?;
      && Unanswered(all) == (if ping then Unanswered(events) + [SentPing(e.event.id, e.at)]
                             else if answer then [] else Unanswered(events))
      && CountPings(all) == CountPings(events) + (if ping then 1 else 0)
      && LastWord(all) == (if ping then InProgress else if answer then Succeeded else LastWord(events))
      && LastTime(all, true) == (if ping then e.at else LastTime(events, true))
      && LastTime(all, false) == (if answer then e.at else LastTime(events, false))
  {
    var all := events + [e];
    assert all != [] && all[..|all| - 1] == events && all[|all| - 1] == e;
  }

  lemma StepKeepsNames(c: Conn, e: Event, now: int, average: Average)
    ensures var n := Step(c, e, now, average);
      n.remoteUser == c.remoteUser && n.localPriority == c.localPriority && n.remotePriority == c.remotePriority
  {
  }

  /** Over every run: the unanswered pings, the counter, the times and the state of a connection are those its
      history says. */
  lemma {:induction false} RunRemembers(user: seq<byte>, pwd: seq<byte>, lp: u32, rp: u32, events: seq<Timed<Event>>,
                                        average: Average)
    ensures var c := Run(NewConn(user, pwd, lp, rp), events, average);
      Remembers(c, events) && c.remoteUser == user && c.localPriority == lp && c.remotePriority == rp
    decreases events
  {
    if events == [] {
    } else {
      hide Remembers, Step;
      var n := |events| - 1;
      var before := Run(NewConn(user, pwd, lp, rp), events[..n], average);
      RunRemembers(user, pwd, lp, rp, events[..n], average);
      assert events == events[..n] + [events[n]];
      RunOneMore(NewConn(user, pwd, lp, rp), events[..n], events[n], average);
      StepRemembers(before, events[..n], events[n], average);
      StepKeepsNames(before, events[n].event, events[n].at, average);
    }
  }

  // ---- A connection's part of a channel step ----

  /** What an event of the channel is for its connection `id`. */
  ghost function PartOf(ch: Chan, e: ChannelEvent, now: int, id: Id): seq<Timed<Event>>
    requires Wf(ch)
  {
    match e
    case Tick(pingId) =>
      if !ch.started then []
      else [Timed(Update, now)] + if TickPick(ch, now) == Some(id) then [Timed(SendPing(pingId), now)] else []
    case Answer(from, rtt) => if from == id then [Timed(Response(rtt), now)] else []
    case NewRemoteParams(user, pwd) => [Timed(RemoteParams(user, pwd), now)]
    case UnknownAddress(_, _, _, _) => []
    case Destroy(_) => []
  }

  /** The connection as it knows itself, without the flag that says whether it is selected. */
  function Self(c: Conn): Conn {
    c.(selected := false)
  }

  lemma RunOfTwo(c: Conn, a: Timed<Event>, b: Timed<Event>, average: Average)
    ensures Run(c, [a, b], average) == Step(Step(c, a.event, a.at, average), b.event, b.at, average)
    ensures Run(c, [a], average) == Step(c, a.event, a.at, average) && Run(c, [], average) == c
  {
    hide Step;
    assert [a, b][1..] == [b] && [b][1..] == [] && [a][1..] == [];
    assert Run(c, [a, b], average) == Run(Step(c, a.event, a.at, average), [b], average);
  }

  lemma TickStory(ch: Chan, pingId: seq<byte>, now: int, average: Average, id: Id)
    requires Core(ch) && Summarised(ch) && ch.started && id in ch.conns
    ensures var n := CheckAndPing(ch, pingId, now);
      id in n.conns && Self(n.conns[id]) == Run(Self(ch.conns[id]), PartOf(ch, Tick(pingId), now, id), average)
  {
    hide Core, Summarised, CheckAndPing, TickPick, Bare, Ping, UpdateState;
    TickBare(ch, pingId, now);
    BareAt(ch.conns, id);
    BareAt(CheckAndPing(ch, pingId, now).conns, id);
    RunOfTwo(Self(ch.conns[id]), Timed(Update, now), Timed(SendPing(pingId), now), average);
    assert [Timed(Update, now)] + [Timed(SendPing(pingId), now)] == [Timed(Update, now), Timed(SendPing(pingId), now)];
  }

  lemma AnswerStory(ch: Chan, from: Id, rtt: int, now: int, average: Average, id: Id)
    requires Wf(ch) && from in ch.conns && id in ch.conns
    ensures var n := PingResponse(ch, from, rtt, now, average);
      id in n.conns && Self(n.conns[id]) == Run(Self(ch.conns[id]), PartOf(ch, Answer(from, rtt), now, id), average)
  {
    hide PingResponse, Bare, ReceivedResponse;
    ResponseBare(ch, from, rtt, now, average);
    BareAt(ch.conns, id);
    BareAt(PingResponse(ch, from, rtt, now, average).conns, id);
    RunOfTwo(Self(ch.conns[id]), Timed(Response(rtt), now), Timed(Update, now), average);
  }

  lemma ParamsStory(ch: Chan, user: seq<byte>, pwd: seq<byte>, now: int, average: Average, id: Id)
    requires Core(ch) && id in ch.conns
    ensures var n := SetRemoteParams(ch, user, pwd, now);
      && id in n.conns
      && Self(n.conns[id]) == Run(Self(ch.conns[id]), PartOf(ch, NewRemoteParams(user, pwd), now, id), average)
  {
    hide Resort, Bare;
    var given := ch.(remotePwd := pwd, conns := GiveRemoteParams(ch.conns, ch.order, user, pwd));
    ResortLeavesBare(given, now);
    BareAt(given.conns, id);
    BareAt(Resort(given, now).conns, id);
    RunOfTwo(Self(ch.conns[id]), Timed(RemoteParams(user, pwd), now), Timed(Update, now), average);
  }

  lemma AddStory(ch: Chan, newId: Id, user: seq<byte>, lp: u32, rp: u32, now: int, id: Id)
    requires Wf(ch) && newId !in ch.conns
    ensures var n := AddConnection(ch, newId, user, lp, rp, now);
      && newId in n.conns && Self(n.conns[newId]) == NewConn(user, ch.remotePwd, lp, rp)
      && (id in ch.conns ==> id in n.conns && Self(n.conns[id]) == Self(ch.conns[id]))
      && (id in n.conns ==> id == newId || id in ch.conns)
  {
    hide Resort, Bare;
    var c := NewConn(user, ch.remotePwd, lp, rp);
    var added := ch.(conns := ch.conns[newId := c], order := ch.order + [newId], unpinged := ch.unpinged + {newId});
    var n := Resort(added, now);
    ResortLeavesBare(added, now);
    BareAt(added.conns, newId);
    BareAt(n.conns, newId);
    if id in ch.conns {
      BareAt(added.conns, id);
      BareAt(n.conns, id);
    }
  }

  lemma DestroyStory(ch: Chan, gone: Id, now: int, logsInfo: bool, id: Id)
    requires Wf(ch) && gone in ch.conns && !DestroyConnection(ch, gone, now, logsInfo).faulted
    ensures var n := DestroyConnection(ch, gone, now, logsInfo);
      && (id in n.conns <==> id in ch.conns && id != gone)
      && (id in n.conns ==> Self(n.conns[id]) == Self(ch.conns[id]))
  {
    hide Resort, Without, Bare;
    DroppedIsWf(ch, gone);
    if ch.selected == Some(gone) {
      var o := Orphaned(ch, gone);
      BareFlag(ch.conns, Some(gone), false);
      ResortLeavesBare(o, now);
      if id in o.conns {
        BareAt(ch.conns, id);
        BareAt(Resort(o, now).conns, id);
      }
    }
  }

  // ---- Runs ----

  /** How a connection came to be, and what happened to it since. */
  datatype Story = Story(start: Conn, events: seq<Timed<Event>>)

  ghost function StoryAfter(ch: Chan, e: ChannelEvent, now: int, id: Id, was: Option<Story>): Option<Story> {
    match was
    case None =>
      if e.UnknownAddress? && e.id == id
      then Some(Story(NewConn(e.user, ch.remotePwd, e.localPriority, e.remotePriority), []))
      else None
    case Some(s) =>
      if e == Destroy(id) then None
      else if Wf(ch) then Some(s.(events := s.events + PartOf(ch, e, now, id)))
      else was
  }

  ghost function StoryOf(ch: Chan, events: seq<Timed<ChannelEvent>>, setup: Setup, id: Id, was: Option<Story>)
    : Option<Story>
    decreases events
  {
    if events == [] then was
    else StoryOf(ChannelStep(ch, events[0].event, events[0].at, setup), events[1..], setup, id,
                 StoryAfter(ch, events[0].event, events[0].at, id, was))
  }

  /** The story is that of the connection `id`: there is one exactly if there is the other, and the
      connection is what its story makes of its start. */
  ghost predicate Tells(ch: Chan, id: Id, story: Option<Story>, average: Average) {
    && (id in ch.conns <==> story.Some?)
    && (id in ch.conns ==> Self(ch.conns[id]) == Run(story.value.start, story.value.events, average))
  }

  lemma {:induction false} RunInTwo(c: Conn, a: seq<Timed<Event>>, b: seq<Timed<Event>>, average: Average)
    ensures Run(c, a + b, average) == Run(Run(c, a, average), b, average)
    decreases a
  {
    hide Step;
    if a == [] {
      assert a + b == b;
    } else {
      assert (a + b)[1..] == a[1..] + b;
      RunInTwo(Step(c, a[0].event, a[0].at, average), a[1..], b, average);
    }
  }

  lemma TellsOn(ch: Chan, n: Chan, id: Id, story: Story, part: seq<Timed<Event>>, average: Average)
    requires Tells(ch, id, Some(story), average)
    requires id in n.conns && Self(n.conns[id]) == Run(Self(ch.conns[id]), part, average)
    ensures Tells(n, id, Some(story.(events := story.events + part)), average)
  {
    RunInTwo(story.start, story.events, part, average);
  }

  lemma NothingHappens(ch: Chan, n: Chan, id: Id, story: Option<Story>, average: Average)
    requires Tells(ch, id, story, average) && (id in n.conns <==> id in ch.conns)
    requires id in n.conns ==> Self(n.conns[id]) == Self(ch.conns[id])
    ensures story.Some? ==> Tells(n, id, Some(story.value.(events := story.value.events + [])), average)
    ensures story.None? ==> Tells(n, id, None, average)
  {
    if story.Some? {
      assert story.value.events + [] == story.value.events;
    }
  }

  lemma StepTells(ch: Chan, e: ChannelEvent, before: int, now: int, setup: Setup, id: Id, was: Option<Story>)
    requires ChannelTheorems.Inv(ch, before) && Tells(ch, id, was, setup.average)
    requires !ChannelStep(ch, e, now, setup).faulted
    ensures Tells(ChannelStep(ch, e, now, setup), id, StoryAfter(ch, e, now, id, was), setup.average)
  {
    hide ChannelTheorems.Inv, Core, Summarised, ConnectionsInv, CheckAndPing, PingResponse, SetRemoteParams,
      AddConnection, DestroyConnection, Tells, Run, TickPick;
    InvParts(ch, before);
    TellsMeans(ch, id, was, setup.average);
    var n := ChannelStep(ch, e, now, setup);
    match e
    case Tick(pingId) =>
      if ch.started {
        TickTells(ch, pingId, now, setup, id, was);
      } else {
        NothingHappens(ch, n, id, was, setup.average);
      }
    case Answer(from, rtt) =>
      if from in ch.conns {
        AnswerTells(ch, from, rtt, now, setup, id, was);
      } else {
        NothingHappens(ch, n, id, was, setup.average);
      }
    case NewRemoteParams(user, pwd) => ParamsTells(ch, user, pwd, now, setup, id, was);
    case UnknownAddress(newId, user, lp, rp) => AddTells(ch, newId, user, lp, rp, now, setup, id, was);
    case Destroy(gone) => DestroyTells(ch, gone, now, setup, id, was);
  }

  lemma InvParts(ch: Chan, now: int)
    requires ChannelTheorems.Inv(ch, now)
    ensures Wf(ch) && Core(ch) && Summarised(ch)
  {
  }

  lemma TellsMeans(ch: Chan, id: Id, story: Option<Story>, average: Average)
    requires Tells(ch, id, story, average)
    ensures id in ch.conns <==> story.Some?
  {
  }

  lemma TickTells(ch: Chan, pingId: seq<byte>, now: int, setup: Setup, id: Id, was: Option<Story>)
    requires Core(ch) && Summarised(ch) && ch.started && Tells(ch, id, was, setup.average)
    ensures Tells(CheckAndPing(ch, pingId, now), id, StoryAfter(ch, Tick(pingId), now, id, was), setup.average)
  {
    hide Core, Summarised, CheckAndPing, Run, PartOf, TickPick, Bare, UpdateState, Ping;
    TickBare(ch, pingId, now);
    if id in ch.conns {
      TickStory(ch, pingId, now, setup.average, id);
      TellsOn(ch, CheckAndPing(ch, pingId, now), id, was.value, PartOf(ch, Tick(pingId), now, id), setup.average);
    }
  }

  lemma AnswerTells(ch: Chan, from: Id, rtt: int, now: int, setup: Setup, id: Id, was: Option<Story>)
    requires Wf(ch) && from in ch.conns && Tells(ch, id, was, setup.average)
    ensures Tells(PingResponse(ch, from, rtt, now, setup.average), id,
                  StoryAfter(ch, Answer(from, rtt), now, id, was), setup.average)
  {
    hide PingResponse, Run, PartOf;
    if id in ch.conns {
      AnswerStory(ch, from, rtt, now, setup.average, id);
      TellsOn(ch, PingResponse(ch, from, rtt, now, setup.average), id, was.value,
              PartOf(ch, Answer(from, rtt), now, id), setup.average);
    }
  }

  lemma ParamsTells(ch: Chan, user: seq<byte>, pwd: seq<byte>, now: int, setup: Setup, id: Id, was: Option<Story>)
    requires Core(ch) && Tells(ch, id, was, setup.average)
    ensures Tells(SetRemoteParams(ch, user, pwd, now), id,
                  StoryAfter(ch, NewRemoteParams(user, pwd), now, id, was), setup.average)
  {
    hide SetRemoteParams, Run, PartOf, Core;
    ParamsKeys(ch, user, pwd, now);
    if id in ch.conns {
      ParamsStory(ch, user, pwd, now, setup.average, id);
      TellsOn(ch, SetRemoteParams(ch, user, pwd, now), id, was.value,
              PartOf(ch, NewRemoteParams(user, pwd), now, id), setup.average);
    }
  }

  lemma ParamsKeys(ch: Chan, user: seq<byte>, pwd: seq<byte>, now: int)
    requires Wf(ch)
    ensures SetRemoteParams(ch, user, pwd, now).conns.Keys == ch.conns.Keys
  {
    hide Resort, Bare;
  }

  lemma AddTells(ch: Chan, newId: Id, user: seq<byte>, lp: u32, rp: u32, now: int, setup: Setup, id: Id,
                 was: Option<Story>)
    requires Wf(ch) && Tells(ch, id, was, setup.average)
    ensures Tells(ChannelStep(ch, UnknownAddress(newId, user, lp, rp), now, setup), id,
                  StoryAfter(ch, UnknownAddress(newId, user, lp, rp), now, id, was), setup.average)
  {
    hide AddConnection;
    var n := ChannelStep(ch, UnknownAddress(newId, user, lp, rp), now, setup);
    if newId !in ch.conns {
      AddStory(ch, newId, user, lp, rp, now, id);
    }
    if id == newId && id !in ch.conns {
    } else {
      NothingHappens(ch, n, id, was, setup.average);
    }
  }

  lemma DestroyTells(ch: Chan, gone: Id, now: int, setup: Setup, id: Id, was: Option<Story>)
    requires Wf(ch) && Tells(ch, id, was, setup.average) && !ChannelStep(ch, Destroy(gone), now, setup).faulted
    ensures Tells(ChannelStep(ch, Destroy(gone), now, setup), id, StoryAfter(ch, Destroy(gone), now, id, was),
                  setup.average)
  {
    hide DestroyConnection;
    var n := ChannelStep(ch, Destroy(gone), now, setup);
    if gone in ch.conns {
      DestroyStory(ch, gone, now, setup.logsInfo, id);
    }
    if id != gone {
      NothingHappens(ch, n, id, was, setup.average);
    }
  }

  /** Over every run without a fault: each connection of the channel is what its own story makes of it, so all
      theorems about single connections hold of it. */
  lemma {:induction false} EachHasItsStory(ch: Chan, now: int, events: seq<Timed<ChannelEvent>>, setup: Setup, id: Id,
                                           was: Option<Story>)
    requires ChannelTheorems.Inv(ch, now) && ClockRuns(now, events) && Tells(ch, id, was, setup.average)
    requires SafeRun(ch, events, setup)
    ensures Tells(ChannelRun(ch, events, setup), id, StoryOf(ch, events, setup, id, was), setup.average)
    decreases events
  {
    hide ChannelTheorems.Inv, ChannelStep, SafeEvent, Tells, StoryAfter;
    if events == [] {
    } else {
      var e, at := events[0].event, events[0].at;
      var n := ChannelStep(ch, e, at, setup);
      StepKeepsInvIff(ch, e, now, at, setup);
      InvMeansWf(n, at);
      NotFaulted(n);
      StepTells(ch, e, now, at, setup, id, was);
      EachHasItsStory(n, at, events[1..], setup, id, StoryAfter(ch, e, at, id, was));
    }
  }

  lemma NotFaulted(ch: Chan)
    requires Wf(ch)
    ensures !ch.faulted
  {
  }

  // ---- The round trips of a channel ----

  /** The round trips that the answers to connection `id` brought since it was made, if there is one. */
  function Heard(events: seq<Timed<ChannelEvent>>, id: Id, was: Option<seq<int>>): Option<seq<int>>
    decreases events
  {
    if events == [] then was else Heard(events[1..], id, HeardAfter(events[0].event, id, was))
  }

  function HeardAfter(e: ChannelEvent, id: Id, was: Option<seq<int>>): Option<seq<int>> {
    match e
    case Answer(from, rtt) => if from == id && was.Some? then Some(was.value + [rtt]) else was
    case UnknownAddress(newId, _, _, _) => if newId == id && was.None? then Some([]) else was
    case Destroy(gone) => if gone == id then None else was
    case _ => was
  }

  /** What was heard is what the story holds. */
  ghost predicate SameSamples(story: Option<Story>, heard: Option<seq<int>>) {
    && (story.Some? <==> heard.Some?)
    && (story.Some? ==> heard.value == Samples(story.value.events) && story.value.start.rtt == 3000
                        && story.value.start.rttSamples == 0)
  }

  lemma {:induction false} SamplesConcat(a: seq<Timed<Event>>, b: seq<Timed<Event>>)
    ensures Samples(a + b) == Samples(a) + Samples(b)
    decreases a
  {
    if a == [] {
      assert a + b == b;
    } else {
      assert (a + b)[0] == a[0] && (a + b)[1..] == a[1..] + b;
      SamplesConcat(a[1..], b);
      ConcatAssoc(if a[0].event.Response? then [a[0].event.rtt] else [], Samples(a[1..]), Samples(b));
    }
  }

  lemma PartSamples(ch: Chan, e: ChannelEvent, now: int, id: Id)
    requires Wf(ch)
    ensures Samples(PartOf(ch, e, now, id)) == if e.Answer? && e.from == id then [e.rtt] else []
  {
    hide TickPick, Samples;
    var part := PartOf(ch, e, now, id);
    NoSamples();
    SamplesOfOne(Timed(Update, now));
    match e
    case Tick(pingId) =>
      SamplesOfOne(Timed(SendPing(pingId), now));
      SamplesConcat([Timed(Update, now)], [Timed(SendPing(pingId), now)]);
      SamplesConcat([Timed(Update, now)], []);
    case Answer(_, rtt) => SamplesOfOne(Timed(Response(rtt), now));
    case NewRemoteParams(user, pwd) => SamplesOfOne(Timed(RemoteParams(user, pwd), now));
    case _ =>
  }

  lemma SamplesOfOne(e: Timed<Event>)
    ensures Samples([e]) == if e.event.Response? then [e.event.rtt] else []
  {
    assert [e][1..] == [];
  }

  lemma {:induction false} StoryHeard(ch: Chan, now: int, events: seq<Timed<ChannelEvent>>, setup: Setup, id: Id,
                                      was: Option<Story>, heard: Option<seq<int>>)
    requires SafeRun(ch, events, setup) && SameSamples(was, heard)
    ensures SameSamples(StoryOf(ch, events, setup, id, was), Heard(events, id, heard))
    decreases events
  {
    hide ChannelStep, SafeEvent, Samples, Wf, PartOf;
    if events == [] {
    } else {
      var e, at := events[0].event, events[0].at;
      if was.Some? && e != Destroy(id) {
        PartSamples(ch, e, at, id);
        SamplesConcat(was.value.events, PartOf(ch, e, at, id));
        assert heard.value + [] == heard.value;
      }
      NoSamples();
      StoryHeard(ChannelStep(ch, e, at, setup), at, events[1..], setup, id, StoryAfter(ch, e, at, id, was),
                 HeardAfter(e, id, heard));
    }
  }

  lemma NoSamples()
    ensures Samples([]) == []
  {
  }

  /** The round trip of a channel's connection is the moving average over what was heard from it since it was
      made, whatever else happened, and the number of its samples is theirs. */
  lemma RoundTripsOfChannel(events: seq<Timed<ChannelEvent>>, setup: Setup, id: Id)
    requires ClockRuns(0, events) && SafeRun(NewChan(), events, setup)
    ensures var end, heard := ChannelRun(NewChan(), events, setup), Heard(events, id, None);
      && (id in end.conns <==> heard.Some?)
      && (id in end.conns ==> end.conns[id].rtt == Smoothed(heard.value, setup.average)
                              && end.conns[id].rttSamples == |heard.value|)
  {
    hide ChannelTheorems.Inv, ChannelRun, SafeRun, Samples, Run, StoryOf;
    NewChannelInv(0);
    EachHasItsStory(NewChan(), 0, events, setup, id, None);
    StoryHeard(NewChan(), 0, events, setup, id, None, None);
    var story := StoryOf(NewChan(), events, setup, id, None);
    if story.Some? {
      RunSmooths(story.value.start, story.value.events, setup.average, []);
      assert [] + Samples(story.value.events) == Samples(story.value.events);
    }
  }

  // ---- Credentials ----

  /** New credentials of the peer give their password to exactly the connections of that user that have none yet,
      and to those made later; no user name changes. */
  lemma CredentialsGiven(ch: Chan, user: seq<byte>, pwd: seq<byte>, now: int)
    requires Core(ch)
    ensures var n := SetRemoteParams(ch, user, pwd, now);
      && n.remotePwd == pwd && n.conns.Keys == ch.conns.Keys
      && forall id :: id in ch.conns ==>
           && n.conns[id].remoteUser == ch.conns[id].remoteUser
           && n.conns[id].remotePwd
              == if ch.conns[id].remoteUser == user && ch.conns[id].remotePwd == [] then pwd else ch.conns[id].remotePwd
  {
    hide Resort, Bare;
    var given := ch.(remotePwd := pwd, conns := GiveRemoteParams(ch.conns, ch.order, user, pwd));
    ResortLeavesBare(given, now);
    ResortKeepsClock(given, now);
    forall id | id in ch.conns
      ensures var d := Resort(given, now).conns[id];
        d.remoteUser == given.conns[id].remoteUser && d.remotePwd == given.conns[id].remotePwd
    {
      BareAt(given.conns, id);
      BareAt(Resort(given, now).conns, id);
    }
  }
}
