/** What packets can bring about at a whole end: no connection and no writable state without the right hash. */
module AgentIntake {
  import opened Base
  import opened StunAttributes
  import opened StunCodec
  import opened StunBinding
  import opened StunIntake
  import opened ConnectionRank
  import opened ChannelState
  import opened ChannelRuns
  import opened IceAgents
  import opened AgentExchanges
  import ConnectionState
  import History = ChannelHistory
  import Requests = StunRequests
  import Silence = ChannelSilence
  import Theorems = ChannelTheorems

  // ---- Connections ----

  /** The packet is an authentic request of `peer` with a PRIORITY, for the agent's own credentials. */
  ghost predicate Asks(d: seq<byte>, peer: seq<byte>, local: Local) {
    && Authentic(d, local.ufrag, local.pwd, peer, local.hmac, local.crc)
    && var p := GetAttribute(Parse(d, HEADER_SIZE).attrs, PRIORITY); p.Some? && p.value.UInt32Attr?
  }

  lemma OnePeer(d: seq<byte>, peer: seq<byte>, other: seq<byte>, local: Local)
    requires Asks(d, peer, local) && Asks(d, other, local)
    ensures peer == other
  {
    hide Authentic;
    OneName(d, local.ufrag, local.pwd, peer, other, local.hmac, local.crc);
  }

  lemma FirstContactDecided(a: Agent, d: seq<byte>, newId: Id, local: Local)
    requires newId !in a.ch.conns
    ensures var e := FirstContact(a, d, newId, local);
      && (e.Some? <==> exists peer :: Asks(d, peer, local))
      && (e.Some? ==> e.value.UnknownAddress? && e.value.id == newId && Asks(d, e.value.user, local)
                      && e.value.localPriority == local.priority
                      && GetAttribute(Parse(d, HEADER_SIZE).attrs, PRIORITY).value.value32 == e.value.remotePriority)
  {
    hide GetStunMessage, Authentic, Parse, GetAttribute, Fingerprinted, Wellformed, StoredValue, GetBe16;
    IntakeDecided(d, local.ufrag, local.pwd, local.hmac, local.crc);
    forall peer | Asks(d, peer, local)
      ensures FirstContact(a, d, newId, local).Some?
    {
      AuthenticMeans(d, peer, local);
      var taken := GetStunMessage(d, local.ufrag, local.pwd, local.hmac, local.crc);
      assert taken.Accepted? && taken.msg.mtype == BINDING_REQUEST;
      assert GetAttribute(taken.msg.attrs, PRIORITY) == GetAttribute(Parse(d, HEADER_SIZE).attrs, PRIORITY);
    }
    var taken := GetStunMessage(d, local.ufrag, local.pwd, local.hmac, local.crc);
    if taken.Accepted? && FirstContact(a, d, newId, local).Some? {
      assert Asks(d, taken.remoteUfrag, local);
    }
  }

  lemma AuthenticMeans(d: seq<byte>, peer: seq<byte>, local: Local)
    requires Asks(d, peer, local)
    ensures Fingerprinted(d, local.crc) && Wellformed(d) && GetBe16(d, 0) == 0x0001 && |d| >= HEADER_SIZE
  {
    hide Fingerprinted, StoredValue, SignedWith, Parse, GetAttribute, GetBe16;
  }

  /** A packet from a new address makes a connection exactly if it is such a request, and then to that peer. */
  lemma ContactDecided(a: Agent, input: Input, before: int, now: int, local: Local)
    requires AgentInv(a, before) && before <= now
    requires input.Packet? && input.from !in a.routes && input.newId !in a.ch.conns
    ensures var n := AgentStep(a, input, now, local);
      && (forall peer :: Asks(input.bytes, peer, local) ==>
            && n.routes == a.routes[input.from := input.newId] && KnownUser(n, input.from) == Some(peer)
            && n.managers == a.managers[input.newId := Requests.Manager(map[], [], 0)])
      && ((forall peer :: !Asks(input.bytes, peer, local)) ==> n == a)
      && AgentInv(n, now)
  {
    hide Theorems.Inv, FirstContact, AddConnection, Asks, ErrorArrives;
    InvMeans(a, before);
    NoRoute(a, input, local);
    StepKeepsInvIff(a, input, before, now, local);
    FirstContactDecided(a, input.bytes, input.newId, local);
    var e := FirstContact(a, input.bytes, input.newId, local);
    if e.Some? {
      AddedUser(a.ch, input.newId, e.value.user, e.value.localPriority, e.value.remotePriority, now);
      forall peer | Asks(input.bytes, peer, local)
        ensures peer == e.value.user
      {
        OnePeer(input.bytes, peer, e.value.user, local);
      }
    }
  }

  /** Some packet of the run came from that address and asked for a connection. */
  ghost predicate WasAsked(inputs: seq<Timed<Input>>, from: nat, local: Local) {
    exists i, peer :: 0 <= i < |inputs| && AsksFrom(inputs[i].event, from, peer, local)
  }

  ghost predicate AsksFrom(input: Input, from: nat, peer: seq<byte>, local: Local) {
    input.Packet? && input.from == from && Asks(input.bytes, peer, local)
  }

  /** Whatever a step is, it routes no new address but that of a packet that asks for it. */
  lemma StepRoutes(a: Agent, input: Input, now: int, local: Local, from: nat)
    requires from in AgentStep(a, input, now, local).routes && from !in a.routes
    ensures exists peer :: AsksFrom(input, from, peer, local)
  {
    hide Asks, FirstContact, ChannelStep, ResponseEvent, HarmAfter;
    if input.Packet? && input.newId !in a.ch.conns {
      FirstContactDecided(a, input.bytes, input.newId, local);
      var peer :| Asks(input.bytes, peer, local);
      assert AsksFrom(input, from, peer, local);
    } else {
      NoContact(a, input, local);
    }
  }

  lemma NoContact(a: Agent, input: Input, local: Local)
    requires input.Packet? ==> input.newId in a.ch.conns
    ensures EventOf(a, input, local).Some? ==> !EventOf(a, input, local).value.UnknownAddress?
  {
    hide GetStunMessage, Arriving;
  }

  /** Over every run, whatever the packets contain: no connection comes into being but by an authentic request
      from its address. */
  lemma {:induction false} EveryConnectionWasAsked(a: Agent, inputs: seq<Timed<Input>>, local: Local, from: nat)
    requires from in AgentRun(a, inputs, local).routes && from !in a.routes
    ensures WasAsked(inputs, from, local)
    decreases inputs
  {
    hide AgentStep, AsksFrom;
    if inputs == [] {
    } else {
      var n := AgentStep(a, inputs[0].event, inputs[0].at, local);
      if from in n.routes {
        StepRoutes(a, inputs[0].event, inputs[0].at, local, from);
      } else {
        EveryConnectionWasAsked(n, inputs[1..], local, from);
        var i, peer :| 0 <= i < |inputs[1..]| && AsksFrom(inputs[1..][i].event, from, peer, local);
        assert inputs[i + 1] == inputs[1..][i];
      }
    }
  }

  // ---- The writable state ----

  /** The packet is a success response to the ping `tid`, signed with that password. */
  ghost predicate Answers(d: seq<byte>, tid: seq<byte>, pwd: seq<byte>, local: Local) {
    && Fingerprinted(d, local.crc) && Wellformed(d) && GetBe16(d, 0) == 0x0101 && d[8..20] == tid
    && StoredValue(d, MESSAGE_INTEGRITY).Some? && SignedWith(d, pwd, local.hmac)
  }

  lemma BareWritable(table: Table, id: Id)
    requires id in table
    ensures ConnectionState.Writable(History.Bare(table)[id]) == ConnectionState.Writable(table[id])
  {
  }

  lemma TickWritable(ch: Chan, pingId: seq<byte>, now: int, id: Id)
    requires Theorems.Core(ch) && Theorems.Summarised(ch) && id in CheckAndPing(ch, pingId, now).conns
    ensures id in ch.conns
    ensures ConnectionState.Writable(CheckAndPing(ch, pingId, now).conns[id]) ==> ConnectionState.Writable(ch.conns[id])
  {
    hide Theorems.Core, Theorems.Summarised, CheckAndPing, History.TickPick, History.Bare, ConnectionState.UpdateState;
    History.TickBare(ch, pingId, now);
    BareWritable(ch.conns, id);
    BareWritable(CheckAndPing(ch, pingId, now).conns, id);
    Silence.UpdatedWasWritable(History.Bare(ch.conns)[id], now);
  }

  lemma ResortWritable(ch: Chan, now: int, id: Id)
    requires Wf(ch) && id in ch.conns
    ensures ConnectionState.Writable(Resort(ch, now).conns[id]) == ConnectionState.Writable(ch.conns[id])
  {
    hide Resort, History.Bare;
    History.ResortLeavesBare(ch, now);
    BareWritable(ch.conns, id);
    BareWritable(Resort(ch, now).conns, id);
  }

  lemma AddWritable(ch: Chan, newId: Id, user: seq<byte>, lp: u32, rp: u32, now: int, id: Id)
    requires Wf(ch) && newId !in ch.conns && id in AddConnection(ch, newId, user, lp, rp, now).conns
    ensures ConnectionState.Writable(AddConnection(ch, newId, user, lp, rp, now).conns[id]) ==>
      id in ch.conns && ConnectionState.Writable(ch.conns[id])
  {
    hide Resort;
    var c := ConnectionState.NewConn(user, ch.remotePwd, lp, rp);
    ResortWritable(ch.(conns := ch.conns[newId := c], order := ch.order + [newId], unpinged := ch.unpinged + {newId}),
                   now, id);
  }

  lemma ParamsWritable(ch: Chan, user: seq<byte>, pwd: seq<byte>, now: int, id: Id)
    requires Wf(ch) && id in SetRemoteParams(ch, user, pwd, now).conns
    ensures id in ch.conns
    ensures ConnectionState.Writable(SetRemoteParams(ch, user, pwd, now).conns[id]) ==>
      ConnectionState.Writable(ch.conns[id])
  {
    hide Resort;
    ResortWritable(ch.(remotePwd := pwd, conns := GiveRemoteParams(ch.conns, ch.order, user, pwd)), now, id);
  }

  lemma ResponseWritable(ch: Chan, from: Id, rtt: int, now: int, average: ConnectionState.Average, id: Id)
    requires Wf(ch) && from in ch.conns && id in ch.conns && id != from
    ensures ConnectionState.Writable(PingResponse(ch, from, rtt, now, average).conns[id])
         == ConnectionState.Writable(ch.conns[id])
  {
    hide PingResponse, History.Bare, ConnectionState.ReceivedResponse;
    History.ResponseBare(ch, from, rtt, now, average);
    BareWritable(ch.conns, id);
    BareWritable(PingResponse(ch, from, rtt, now, average).conns, id);
  }

  /** Only an answer makes a connection of a channel writable. */
  lemma OnlyAnswersMakeWritable(ch: Chan, e: ChannelEvent, before: int, now: int, setup: Setup, id: Id)
    requires Theorems.Inv(ch, before) && before <= now && !e.Destroy?
    requires id in ChannelStep(ch, e, now, setup).conns
    requires ConnectionState.Writable(ChannelStep(ch, e, now, setup).conns[id])
    ensures (id in ch.conns && ConnectionState.Writable(ch.conns[id])) || (e.Answer? && e.from == id)
  {
    hide Theorems.Core, Theorems.Summarised, Theorems.ConnectionsInv, CheckAndPing, PingResponse, AddConnection,
      SetRemoteParams;
    History.InvMeansWf(ch, before);
    match e
    case Tick(pingId) =>
      if ch.started {
        TickWritable(ch, pingId, now, id);
      }
    case Answer(from, rtt) =>
      if from in ch.conns && id != from {
        ResponseWritable(ch, from, rtt, now, setup.average, id);
      }
    case UnknownAddress(newId, user, lp, rp) =>
      if newId !in ch.conns {
        AddWritable(ch, newId, user, lp, rp, now, id);
      }
    case NewRemoteParams(user, pwd) => ParamsWritable(ch, user, pwd, now, id);
  }

  lemma EventSpares(a: Agent, input: Input, now: int, local: Local)
    requires AgentInv(a, now) && !ErrorArrives(a, input, local)
    ensures var e := EventOf(a, input, local);
      && (e.Some? ==> !e.value.Destroy?)
      && (e.Some? && e.value.Answer? ==>
            input.Packet? && Routed(a, input.from) && e.value.from == a.routes[input.from]
            && var r := Arriving(a, input.from, input.bytes, local);
            r.Some? && r.value.kind == 0x0101 && r.value.id in a.managers[a.routes[input.from]].requests)
  {
    hide Theorems.Inv, Arriving, GetStunMessage, Retried, ErrorCodeValue, Read;
    if input.Packet? && input.from in a.routes {
      PacketEvent(a, input.from, input.bytes, input.rtt, local, now);
      AnswerIsSuccess(a, input, now, local);
    }
  }

  lemma AnswerIsSuccess(a: Agent, input: Input, now: int, local: Local)
    requires AgentInv(a, now) && input.Packet? && Routed(a, input.from)
    ensures var e := ResponseEvent(a, input.from, input.bytes, input.rtt, local);
      e.Some? && e.value.Answer? ==>
        var r := Arriving(a, input.from, input.bytes, local);
        r.Some? && r.value.kind == 0x0101 && r.value.id in a.managers[a.routes[input.from]].requests
  {
    hide Theorems.Inv, Arriving, Retried, ErrorCodeValue, Read;
  }

  /** Whatever a step is that keeps the invariant: a connection that is writable after it was so before, or a
      waiting ping of it was answered, with the hash of the peer's password. */
  lemma WritableNeedsHash(a: Agent, input: Input, before: int, now: int, local: Local, id: Id)
    requires AgentInv(a, before) && before <= now && !ErrorArrives(a, input, local)
    requires var n := AgentStep(a, input, now, local); id in n.ch.conns && ConnectionState.Writable(n.ch.conns[id])
    ensures (id in a.ch.conns && ConnectionState.Writable(a.ch.conns[id]))
      || (&& input.Packet? && Routed(a, input.from) && a.routes[input.from] == id
          && exists tid :: tid in a.managers[id].requests
               && Answers(input.bytes, tid, a.ch.conns[id].remotePwd, local))
  {
    hide Theorems.Inv, ChannelStep, Fingerprinted, Wellformed, StoredValue, SignedWith, GetBe16, FirstContact,
      Requests.RequestStep, GetStunMessage, ErrorCodeValue, Read, Retried;
    InvMeans(a, before);
    var e := EventOf(a, input, local);
    if e.Some? {
      EventSpares(a, input, before, local);
      OnlyAnswersMakeWritable(a.ch, e.value, before, now, local.setup, id);
      if e.value.Answer? {
        ResponseDecided(input.bytes, a.ch.conns[a.routes[input.from]].remotePwd, local.ufrag, local.pwd, local.hmac,
                        local.crc);
      }
    }
  }
}
