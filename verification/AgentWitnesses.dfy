/** A run of a new agent that ends where its promise needs its condition. */
module AgentWitnesses {
  import opened Base
  import opened StunAttributes
  import opened StunCodec
  import opened StunBinding
  import opened ConnectionState
  import opened ChannelState
  import opened IceAgents
  import opened AgentExchanges
  import ChannelSelection
  import History = ChannelHistory
  import Rank = ConnectionRank
  import Requests = StunRequests
  import Runs = ChannelRuns
  import Theorems = ChannelTheorems
  import Transactions = StunTransactions

  // ---- A channel's first connection ----

  /** The channel with its first connection, which has no answer yet: the timer runs, nothing is selected, and
      the first ping, if there was one, was sent at 2000. */
  ghost predicate FirstOnly(ch: Chan, id: Rank.Id, c: Conn) {
    && ch.conns == map[id := c] && ch.order == [id] && ch.unpinged + ch.pinged == {id}
    && ch.selected == None && ch.ctlSelected == None && ch.started && !ch.faulted && ch.lastPingSent >= 0
    && HasCredentials(c) && c.writeState == StateInit && !c.receiving
    && (c.pings == [] || c.pings[0].sentTime == 2000)
    && c.lastPingSent >= 0 == c.lastPingResponse && c.lastPingReceived == 0 && c.lastDataReceived == 0
  }

  lemma FirstAdded(ch: Chan, id: Rank.Id, user: seq<byte>, lp: u32, rp: u32, now: int)
    requires ch == NewChan().(remotePwd := ch.remotePwd) && user != [] && ch.remotePwd != []
    ensures var n := AddConnection(ch, id, user, lp, rp, now);
      FirstOnly(n, id, NewConn(user, ch.remotePwd, lp, rp)) && n.lastPingSent == 0
  {
    var c := NewConn(user, ch.remotePwd, lp, rp);
    var added := ch.(conns := ch.conns[id := c], order := ch.order + [id], unpinged := ch.unpinged + {id});
    assert added.order == [id] && added.unpinged == {id} && added.conns == map[id := c];
    assert Rank.StableSort(added.conns, [id][1..]) == [];
    assert Rank.StableSort(added.conns, [id]) == [id];
    assert SortVector(added) == added;
    assert SwitchTarget(added) == None;
    var told := Summarise(added);
    assert told == added;
    assert Pingable(ControllerWeak(told), told.conns[told.order[0]], now);
  }

  lemma FirstUnchanged(ch: Chan, id: Rank.Id, c: Conn, now: int)
    requires FirstOnly(ch, id, c) && now <= 17000
    ensures Degrade(c, now) == c && Expire(c, now) == c && UpdateReceiving(c, now) == c
    ensures Wf(ch) && ch.order == [id] && ch.conns[id] == c && ch.conns[id := c] == ch.conns
  {
  }

  /** A tick changes nothing in it but pings it. */
  lemma FirstUpdated(ch: Chan, id: Rank.Id, c: Conn, now: int)
    requires FirstOnly(ch, id, c) && now <= 17000
    ensures Wf(ch) && ch.order == [id] && UpdateConnections(ch, [id], now) == ch
  {
    FirstUnchanged(ch, id, c, now);
    hide FirstOnly, Degrade, Expire, UpdateReceiving, Resort;
    assert UpdateConnection(ch, id, now) == ch;
    assert UpdateConnections(ch, [id][1..], now) == ch;
  }

  lemma FirstPinged(ch: Chan, id: Rank.Id, c: Conn, pingId: seq<byte>, now: int)
    requires FirstOnly(ch, id, c) && ch.lastPingSent + WEAK_PING_INTERVAL <= now <= 17000
    requires c.pings == [] ==> now == 2000
    ensures Wf(ch) && ch.started && History.TickPick(ch, now) == Some(id)
    ensures var n := CheckAndPing(ch, pingId, now); FirstOnly(n, id, Ping(c, pingId, now)) && n.lastPingSent == now
  {
    hide UpdateConnections;
    FirstUpdated(ch, id, c, now);
    var m := MergeSets(ch);
    assert m.unpinged == {id};
    assert Pingable(ControllerWeak(ch), ch.conns[id], now);
    assert ch.conns[id := Ping(c, pingId, now)] == map[id := Ping(c, pingId, now)];
  }

  // ---- The run ----

  /** A peer that knows the agent's credentials, and whose own ones the agent is given. */
  datatype Peer = Peer(ufrag: seq<byte>, pwd: seq<byte>, priority: u32)

  /** The peer's fragment has no colon, and the hash function does what it is for. */
  ghost predicate Fits(peer: Peer, local: Local, helloId: seq<byte>) {
    && |helloId| == 12 && peer.ufrag != [] && peer.pwd != [] && COLON !in peer.ufrag && COLON !in local.ufrag
    && Padded(|local.ufrag| + 1 + |peer.ufrag|) + 60 < 0x1_0000
    && AddMessageIntegrity(UnsignedPing(helloId, local.ufrag, peer.ufrag, peer.priority), local.pwd, local.hmac).ok
  }

  /** The peer's first ping. */
  function Hello(peer: Peer, local: Local, helloId: seq<byte>): Msg {
    PreparePing(helloId, local.ufrag, peer.ufrag, peer.priority, local.pwd, local.hmac, local.crc)
  }

  /** The agent learns the peer's credentials, is pinged by it, and pings it at the next two ticks. */
  function Meeting(peer: Peer, local: Local, helloId: seq<byte>, from: nat, id: Rank.Id, first: seq<byte>,
                   second: seq<byte>): seq<Timed<Input>>
    requires AllWritable(Hello(peer, local, helloId).attrs)
  {
    [Timed(Input.RemoteParams(peer.ufrag, peer.pwd), 1000),
     Timed(Packet(from, Encode(Hello(peer, local, helloId)), id, 0), 1000),
     Timed(Timer(first), 2000), Timed(Timer(second), 3000)]
  }

  function ConnectionTo(peer: Peer, local: Local): Conn {
    NewConn(peer.ufrag, peer.pwd, local.priority, PrflxPriority(peer.priority))
  }

  /** The agent with its first connection, and pings that wait. */
  ghost predicate Met(a: Agent, from: nat, id: Rank.Id, c: Conn, waiting: set<seq<byte>>, now: int) {
    && AgentInv(a, now) && FirstOnly(a.ch, id, c) && Routed(a, from) && a.routes[from] == id
    && waiting <= a.managers[id].requests.Keys
  }

  lemma ParamsLearnt(peer: Peer, local: Local, now: int)
    requires now >= 0
    ensures var n := AgentStep(NewAgent(), Input.RemoteParams(peer.ufrag, peer.pwd), now, local);
      AgentInv(n, now) && n == NewAgent().(ch := NewChan().(remotePwd := peer.pwd))
  {
    hide AgentInv;
    NewAgentInv(now);
    StepKeepsInvIff(NewAgent(), Input.RemoteParams(peer.ufrag, peer.pwd), now, now, local);
    var given := NewChan().(remotePwd := peer.pwd);
    assert GiveRemoteParams(map[], [], peer.ufrag, peer.pwd) == map[];
    assert SortVector(given) == given;
  }

  lemma HelloTaken(a: Agent, peer: Peer, local: Local, helloId: seq<byte>, from: nat, id: Rank.Id, now: int)
    requires AgentInv(a, now) && a == NewAgent().(ch := NewChan().(remotePwd := peer.pwd))
    requires Fits(peer, local, helloId)
    ensures AllWritable(Hello(peer, local, helloId).attrs)
    ensures Met(AgentStep(a, Packet(from, Encode(Hello(peer, local, helloId)), id, 0), now, local), from, id,
                ConnectionTo(peer, local), {}, now)
    ensures AgentStep(a, Packet(from, Encode(Hello(peer, local, helloId)), id, 0), now, local).ch.lastPingSent == 0
  {
    hide AgentInv, Encode, GetStunMessage, AddConnection, FirstOnly, GetAttribute, Padded, UnsignedPing,
      AddMessageIntegrity, PreparePing, Read, ErrorCodeValue, ValidateIntegrity, Transactions.Reaching, NewConn;
    PingDecided(helloId, local.ufrag, peer.ufrag, peer.priority, local.pwd, local.hmac, local.crc, local.ufrag,
                local.pwd);
    var input := Packet(from, Encode(Hello(peer, local, helloId)), id, 0);
    StepKeepsInvIff(a, input, now, now, local);
    FirstAdded(a.ch, id, peer.ufrag, local.priority, PrflxPriority(peer.priority), now);
  }

  lemma TickPings(a: Agent, local: Local, from: nat, id: Rank.Id, c: Conn, waiting: set<seq<byte>>, pingId: seq<byte>,
                  before: int, now: int)
    requires Met(a, from, id, c, waiting, before) && before <= now
    requires a.ch.lastPingSent + WEAK_PING_INTERVAL <= now <= 17000 && (c.pings == [] ==> now == 2000)
    ensures var n := AgentStep(a, Timer(pingId), now, local);
      Met(n, from, id, Ping(c, pingId, now), waiting + {pingId}, now) && n.ch.lastPingSent == now
  {
    hide AgentInv, CheckAndPing, FirstOnly, History.TickPick;
    FirstPinged(a.ch, id, c, pingId, now);
    InvMeans(a, before);
    StepKeepsInvIff(a, Timer(pingId), before, now, local);
    HasConnection(AgentStep(a, Timer(pingId), now, local).ch, id, Ping(c, pingId, now));
  }

  lemma HasConnection(ch: Chan, id: Rank.Id, c: Conn)
    requires FirstOnly(ch, id, c)
    ensures id in ch.conns && ch.conns[id] == c && ch.selected == None
  {
  }

  /** Two pings wait for their answers. */
  ghost predicate Asking(a: Agent, from: nat, id: Rank.Id, c: Conn, first: seq<byte>, second: seq<byte>) {
    Met(a, from, id, c, {first, second}, 3000)
  }

  lemma MeetingEnds(peer: Peer, local: Local, helloId: seq<byte>, from: nat, id: Rank.Id, first: seq<byte>,
                    second: seq<byte>)
    requires Fits(peer, local, helloId)
    ensures AllWritable(Hello(peer, local, helloId).attrs)
    ensures Asking(AgentRun(NewAgent(), Meeting(peer, local, helloId, from, id, first, second), local), from, id,
                   Ping(Ping(ConnectionTo(peer, local), first, 2000), second, 3000), first, second)
  {
    hide AgentInv, AgentStep, FirstOnly, Fits, Hello, Encode, Met;
    ParamsLearnt(peer, local, 1000);
    var a1 := AgentStep(NewAgent(), Input.RemoteParams(peer.ufrag, peer.pwd), 1000, local);
    HelloTaken(a1, peer, local, helloId, from, id, 1000);
    var inputs, c := Meeting(peer, local, helloId, from, id, first, second), ConnectionTo(peer, local);
    var a2 := AgentStep(a1, inputs[1].event, 1000, local);
    TickPings(a2, local, from, id, c, {}, first, 1000, 2000);
    var a3 := AgentStep(a2, Timer(first), 2000, local);
    TickPings(a3, local, from, id, Ping(c, first, 2000), {} + {first}, second, 2000, 3000);
    assert {} + {first} + {second} == {first, second};
    RunOfFour(NewAgent(), inputs[0], inputs[1], inputs[2], inputs[3], local);
  }

  lemma RunOfFour(a: Agent, w: Timed<Input>, x: Timed<Input>, y: Timed<Input>, z: Timed<Input>, local: Local)
    ensures var b := AgentStep(AgentStep(a, w.event, w.at, local), x.event, x.at, local);
      AgentRun(a, [w, x, y, z], local) == AgentStep(AgentStep(b, y.event, y.at, local), z.event, z.at, local)
  {
    hide AgentStep;
    var b := AgentStep(a, w.event, w.at, local);
    var c := AgentStep(b, x.event, x.at, local);
    var d := AgentStep(c, y.event, y.at, local);
    assert [w, x, y, z][1..] == [x, y, z] && [x, y, z][1..] == [y, z] && [y, z][1..] == [z] && [z][1..] == [];
    assert AgentRun(a, [w, x, y, z], local) == AgentRun(b, [x, y, z], local);
    assert AgentRun(b, [x, y, z], local) == AgentRun(c, [y, z], local);
    assert AgentRun(c, [y, z], local) == AgentRun(d, [z], local);
  }

  /** The answer to the first ping selects the connection; the second ping still waits. */
  lemma AnswerSelects(a: Agent, local: Local, from: nat, id: Rank.Id, c: Conn, first: seq<byte>, second: seq<byte>,
                      port: u16, ip: u32)
    requires Asking(a, from, id, c, first, second) && |first| == 12 && |second| == 12 && first != second
    requires AddMessageIntegrity(Transactions.UnsignedAnswer(first, port, ip), c.remotePwd, local.hmac).ok
    ensures var answer := Transactions.Answer(first, port, ip, c.remotePwd, local.hmac, local.crc);
      && AllWritable(answer.attrs)
      && var n := AgentStep(a, Packet(from, Encode(answer), id, 20), 3020, local);
      && AgentInv(n, 3020) && Waits(n, from, second) && n.routes[from] == id
      && n.ch.selected == Some(id)
      && n.ch.conns[id].remotePwd == c.remotePwd && ConnectionState.Writable(n.ch.conns[id])
  {
    hide AgentInv, AgentStep, FirstOnly, Encode, PingResponse, AddMessageIntegrity, Transactions.Answer,
      Transactions.UnsignedAnswer, AllWritable;
    HasConnection(a.ch, id, c);
    AnswerMakesWritable(a, from, first, port, ip, c.remotePwd, id, 20, 3000, 3020, local);
    ResponseSelects(a, id, c, local.setup.average);
  }

  lemma ResponseSelects(a: Agent, id: Rank.Id, c: Conn, average: Average)
    requires AgentInv(a, 3000) && FirstOnly(a.ch, id, c)
    ensures Wf(a.ch) && id in a.ch.conns
    ensures var n := PingResponse(a.ch, id, 20, 3020, average);
      n.selected == Some(id) && n.conns[id].remotePwd == c.remotePwd && ConnectionState.Writable(n.conns[id])
  {
    hide Theorems.Core, Theorems.Summarised, Theorems.ConnectionsInv, PingResponse, History.Bare;
    HasConnection(a.ch, id, c);
    ChannelSelection.ResponseSettles(a.ch, id, 20, 3020, average);
    Theorems.ResponseKeeps(a.ch, id, 20, 3020, average);
    History.ResponseBare(a.ch, id, 20, 3020, average);
    var n := PingResponse(a.ch, id, 20, 3020, average);
    History.BareAt(a.ch.conns, id);
    History.BareAt(n.conns, id);
    SelectedExists(n);
  }

  lemma SelectedExists(ch: Chan)
    requires Theorems.Core(ch)
    ensures ch.selected.Some? ==> ch.selected.value in ch.conns
  {
  }

  /** An agent and a peer that agree in everything meet. The peer answers a ping with a signed error of any code
      but 400 and 401, also with 420 or 500, after which the agent means to keep the connection: that ends the
      agent's defined behaviour. If another ping was answered well before, the connection is the selected one. */
  lemma ErrorEndsMeeting(peer: Peer, local: Local, helloId: seq<byte>, from: nat, id: Rank.Id, first: seq<byte>,
                         second: seq<byte>, port: u16, ip: u32, code: int, reason: seq<byte>)
    requires Fits(peer, local, helloId) && |first| == 12 && |second| == 12 && first != second
    requires 0 <= code < 25600 && |reason| < 65000 && code != BAD_REQUEST && code != UNAUTHORIZED
    requires AddMessageIntegrity(Transactions.UnsignedError(second, code, reason), peer.pwd, local.hmac).ok
    requires AddMessageIntegrity(Transactions.UnsignedAnswer(first, port, ip), peer.pwd, local.hmac).ok
    ensures var error := Transactions.ErrorAnswer(second, code, reason, peer.pwd, local.hmac, local.crc);
      var answer := Transactions.Answer(first, port, ip, peer.pwd, local.hmac, local.crc);
      && AllWritable(Hello(peer, local, helloId).attrs) && AllWritable(error.attrs) && AllWritable(answer.attrs)
      && var met := AgentRun(NewAgent(), Meeting(peer, local, helloId, from, id, first, second), local);
      var answered := AgentStep(met, Packet(from, Encode(answer), id, 20), 3020, local);
      && AgentInv(met, 3000) && AgentInv(answered, 3020)
      && AgentStep(met, Packet(from, Encode(error), id, 40), 3040, local).harm == DeletedTwice
      && AgentStep(answered, Packet(from, Encode(error), id, 40), 3040, local).harm
         == if local.setup.logsInfo then NullFollowed else DeletedTwice
  {
    hide AgentInv, AgentStep, Fits, Hello, Encode, Meeting, AgentRun, AddMessageIntegrity, AllWritable, FirstOnly;
    MeetingEnds(peer, local, helloId, from, id, first, second);
    var met := AgentRun(NewAgent(), Meeting(peer, local, helloId, from, id, first, second), local);
    var c := Ping(Ping(ConnectionTo(peer, local), first, 2000), second, 3000);
    HasConnection(met.ch, id, c);
    SignedErrorHarms(met, from, second, code, reason, peer.pwd, id, 40, 3000, 3040, local);
    AnswerSelects(met, local, from, id, c, first, second, port, ip);
    var answer := Transactions.Answer(first, port, ip, peer.pwd, local.hmac, local.crc);
    var answered := AgentStep(met, Packet(from, Encode(answer), id, 20), 3020, local);
    SignedErrorHarms(answered, from, second, code, reason, peer.pwd, id, 40, 3020, 3040, local);
  }
}
