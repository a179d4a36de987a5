/** One end as a whole: the channel, the request managers of its connections and the packets on its ports. */
module IceAgents {
  import opened Base
  import opened StunAttributes
  import opened StunCodec
  import opened StunBinding
  import ConnectionState
  import opened ConnectionRank
  import opened ChannelState
  import opened ChannelRuns
  import Requests = StunRequests
  import Transactions = StunTransactions
  import History = ChannelHistory
  import Theorems = ChannelTheorems

  const UNKNOWN_ATTRIBUTE := 420
  const SERVER_ERROR := 500

  /** How the program leaves its defined behaviour: it follows a null pointer or the pointer to a
      connection that was freed, or it deletes an object twice. */
  datatype Harm = Unharmed | NullFollowed | FreedFollowed | DeletedTwice

  /** `routes` is the ports' map from remote addresses, one number for each pair of a local and a remote
      address, to connections. Nothing is ever removed from it. */
  datatype Agent = Agent(ch: Chan, managers: map<Id, Requests.Manager>, routes: map<nat, Id>, harm: Harm)

  function NewAgent(): Agent {
    Agent(NewChan(), map[], map[], Unharmed)
  }

  /** What is fixed during a run: the agent's credentials and candidate priority, and the library. */
  datatype Local = Local(ufrag: seq<byte>, pwd: seq<byte>, priority: u32, hmac: Hmac, crc: Crc, setup: Setup)

  /** `newId` is the connection to be made if the packet is a first contact, `rtt` the round trip if it is an
      answer. */
  datatype Input =
    | Timer(pingId: seq<byte>)
    | Packet(from: nat, bytes: seq<byte>, newId: Id, rtt: int)
    | RemoteParams(user: seq<byte>, pwd: seq<byte>)

  // ---- One step ----

  /** The pointer found for the address leads to a connection. */
  predicate Routed(a: Agent, from: nat) {
    from in a.routes && a.routes[from] in a.ch.conns && a.routes[from] in a.managers
  }

  /** What reaches the request manager of the connection the packet is for. */
  function Arriving(a: Agent, from: nat, bytes: seq<byte>, local: Local): Option<Requests.RequestEvent>
    requires Routed(a, from)
  {
    Transactions.Reaching(bytes, a.ch.conns[a.routes[from]].remotePwd, local.ufrag, local.pwd, local.hmac, local.crc)
  }

  /** After these errors the connection is kept. */
  predicate Retried(code: int) {
    code == UNAUTHORIZED || code == UNKNOWN_ATTRIBUTE || code == SERVER_ERROR
  }

  /** What a packet for a connection means to the channel. */
  function ResponseEvent(a: Agent, from: nat, bytes: seq<byte>, rtt: int, local: Local): Option<ChannelEvent>
    requires Routed(a, from)
  {
    var id := a.routes[from];
    match Arriving(a, from, bytes, local)
    case None => None
    case Some(e) =>
      match Requests.VerdictOn(a.managers[id].requests, e.id, e.kind)
      case Answered => Some(ChannelEvent.Answer(id, rtt))
      case Rejected => if Retried(ErrorCodeValue(Read(NewMsg(), bytes).msg)) then None else Some(Destroy(id))
      case _ => None
  }

  /** A request from a new address makes a connection if it carries a PRIORITY. */
  function FirstContact(a: Agent, bytes: seq<byte>, newId: Id, local: Local): Option<ChannelEvent> {
    match GetStunMessage(bytes, local.ufrag, local.pwd, local.hmac, local.crc)
    case Accepted(m, user) =>
      if m.mtype != BINDING_REQUEST || newId in a.ch.conns then None
      else (match GetAttribute(m.attrs, PRIORITY)
            case Some(UInt32Attr(_, v)) => Some(UnknownAddress(newId, user, local.priority, v))
            case _ => None)
    case _ => None
  }

  function EventOf(a: Agent, input: Input, local: Local): Option<ChannelEvent> {
    match input
    case Timer(pingId) => Some(Tick(pingId))
    case RemoteParams(user, pwd) => Some(NewRemoteParams(user, pwd))
    case Packet(from, bytes, newId, rtt) =>
      if from !in a.routes then FirstContact(a, bytes, newId, local)
      else if Routed(a, from) then ResponseEvent(a, from, bytes, rtt, local)
      else None
  }

  ghost function Told(ch: Chan, e: Option<ChannelEvent>, now: int, setup: Setup): Chan {
    if e.None? then ch else ChannelStep(ch, e.value, now, setup)
  }

  /** A ping is a new request; a response goes to the manager it is for; a connection has its own manager. */
  ghost function ManagersAfter(a: Agent, input: Input, now: int, local: Local): map<Id, Requests.Manager>
    requires Wf(a.ch)
  {
    match input
    case RemoteParams(_, _) => a.managers
    case Timer(pingId) =>
      var pick := if a.ch.started then History.TickPick(a.ch, now) else None;
      if pick.Some? && pick.value in a.managers
      then a.managers[pick.value :=
                        Requests.RequestStep(a.managers[pick.value], Requests.Send(pingId, BINDING_REQUEST))]
      else a.managers
    case Packet(from, bytes, newId, _) =>
      match EventOf(a, input, local)
      case Some(UnknownAddress(id, _, _, _)) => a.managers[id := Requests.Manager(map[], [], 0)]
      case Some(Destroy(id)) => a.managers - {id}
      case _ =>
        if Routed(a, from) && Arriving(a, from, bytes, local).Some?
        then var id := a.routes[from];
          a.managers[id := Requests.RequestStep(a.managers[id], Arriving(a, from, bytes, local).value)]
        else a.managers
  }

  /** How often a response has the request object under `id` deleted: once by the manager that called it
      back, and before that once with every other one if the callback ended the connection and its manager. */
  function Deletions(m: Requests.Requests, e: Requests.RequestEvent, ended: bool, id: Requests.TransactionId): nat {
    (if ended && id in m then 1 else 0) + (if id == e.id && id in m then 1 else 0)
  }

  ghost predicate DeletesTwice(m: Requests.Requests, e: Requests.RequestEvent, ended: bool) {
    exists id :: Deletions(m, e, ended, id) > 1
  }

  /** The pointers a connection's end goes through come before its memory is freed. */
  ghost function HarmAfter(a: Agent, input: Input, now: int, local: Local): Harm {
    if !input.Packet? || input.from !in a.routes then Unharmed
    else if !Routed(a, input.from) then FreedFollowed
    else
      var e, arriving := EventOf(a, input, local), Arriving(a, input.from, input.bytes, local);
      if Told(a.ch, e, now, local.setup).faulted then NullFollowed
      else if arriving.Some?
              && DeletesTwice(a.managers[a.routes[input.from]].requests, arriving.value, e.Some? && e.value.Destroy?)
      then DeletedTwice
      else Unharmed
  }

  ghost function AgentStep(a: Agent, input: Input, now: int, local: Local): Agent {
    if a.harm != Unharmed || !Wf(a.ch) then a
    else
      var e := EventOf(a, input, local);
      Agent(Told(a.ch, e, now, local.setup), ManagersAfter(a, input, now, local),
            if e.Some? && e.value.UnknownAddress? && input.Packet?
            then a.routes[input.from := e.value.id] else a.routes,
            HarmAfter(a, input, now, local))
  }

  ghost function AgentRun(a: Agent, inputs: seq<Timed<Input>>, local: Local): Agent
    decreases inputs
  {
    if inputs == [] then a else AgentRun(AgentStep(a, inputs[0].event, inputs[0].at, local), inputs[1..], local)
  }

  // ---- What an agent keeps ----

  ghost predicate OnlyPings(m: Requests.Manager) {
    forall id :: id in m.requests ==> m.requests[id].kind == BINDING_REQUEST
  }

  /** The channel keeps its invariant, every connection has a manager of pings, and the ports' pointers
      lead to connections. */
  ghost predicate AgentInv(a: Agent, now: int) {
    && a.harm == Unharmed && Theorems.Inv(a.ch, now)
    && a.managers.Keys == a.ch.conns.Keys
    && (forall id :: id in a.managers ==> OnlyPings(a.managers[id]))
    && (forall from :: from in a.routes ==> a.routes[from] in a.ch.conns)
  }

  /** A signed error response reaches a ping that waits for its answer. */
  predicate ErrorArrives(a: Agent, input: Input, local: Local) {
    && input.Packet? && Routed(a, input.from)
    && var e := Arriving(a, input.from, input.bytes, local);
    && e.Some? && e.value.kind == BINDING_ERROR_RESPONSE
    && e.value.id in a.managers[a.routes[input.from]].requests
  }

  lemma NewAgentInv(now: int)
    requires now >= 0
    ensures AgentInv(NewAgent(), now)
  {
    hide Theorems.Inv;
    History.NewChannelInv(now);
  }

  // ---- Steps ----

  // ---- The channel's connections ----

  lemma TickKeys(ch: Chan, pingId: seq<byte>, before: int, now: int)
    requires Theorems.Inv(ch, before)
    ensures CheckAndPing(ch, pingId, now).conns.Keys == ch.conns.Keys
    ensures var pick := History.TickPick(ch, now); pick.Some? ==> pick.value in ch.conns
  {
    hide Theorems.Core, Theorems.Summarised, Theorems.ConnectionsInv, CheckAndPing, History.TickPick, History.Bare,
      ConnectionState.Ping, ConnectionState.UpdateState;
    History.TickBare(ch, pingId, now);
  }

  lemma SameBareSameKeys(table: Table, other: Table)
    requires History.Bare(table) == History.Bare(other)
    ensures table.Keys == other.Keys
  {
    assert History.Bare(table).Keys == History.Bare(other).Keys;
  }

  lemma AddKeys(ch: Chan, id: Id, user: seq<byte>, lp: u32, rp: u32, now: int)
    requires Wf(ch) && id !in ch.conns
    ensures AddConnection(ch, id, user, lp, rp, now).conns.Keys == ch.conns.Keys + {id}
  {
    hide Resort, History.Bare;
    var c := ConnectionState.NewConn(user, ch.remotePwd, lp, rp);
    var added := ch.(conns := ch.conns[id := c], order := ch.order + [id], unpinged := ch.unpinged + {id});
    History.ResortLeavesBare(added, now);
    SameBareSameKeys(added.conns, Resort(added, now).conns);
  }

  lemma ParamsKeys(ch: Chan, user: seq<byte>, pwd: seq<byte>, now: int)
    requires Wf(ch)
    ensures SetRemoteParams(ch, user, pwd, now).conns.Keys == ch.conns.Keys
  {
    hide Resort, History.Bare;
    var given := ch.(remotePwd := pwd, conns := GiveRemoteParams(ch.conns, ch.order, user, pwd));
    History.ResortLeavesBare(given, now);
    SameBareSameKeys(given.conns, Resort(given, now).conns);
  }

  lemma StepKeys(ch: Chan, e: ChannelEvent, before: int, now: int, setup: Setup)
    requires Theorems.Inv(ch, before) && !e.Destroy?
    ensures ChannelStep(ch, e, now, setup).conns.Keys == ch.conns.Keys + if e.UnknownAddress? then {e.id} else {}
  {
    hide Theorems.Inv, CheckAndPing, PingResponse, AddConnection, SetRemoteParams;
    History.InvMeansWf(ch, before);
    match e
    case Tick(pingId) => TickKeys(ch, pingId, before, now);
    case Answer(_, _) =>
    case UnknownAddress(id, user, lp, rp) =>
      if id !in ch.conns {
        AddKeys(ch, id, user, lp, rp, now);
      }
    case NewRemoteParams(user, pwd) => ParamsKeys(ch, user, pwd, now);
  }

  // ---- Steps ----

  /** The code of an error response is never one after which the connection is kept. */
  lemma NeverRetried(bytes: seq<byte>, remotePwd: seq<byte>, local: Local)
    requires Transactions.Reaching(bytes, remotePwd, local.ufrag, local.pwd, local.hmac, local.crc).Some?
    ensures !Retried(ErrorCodeValue(Read(NewMsg(), bytes).msg))
  {
    hide ErrorCodeValue, Read, ValidateFingerprint, ValidateIntegrity;
    ErrorCodeNeverRead(NewMsg(), bytes);
  }

  /** What a response comes to, for a manager of pings. */
  lemma VerdictsOnPings(m: Requests.Manager, e: Requests.RequestEvent)
    requires OnlyPings(m) && e.Receive? && (e.kind == BINDING_RESPONSE || e.kind == BINDING_ERROR_RESPONSE)
    ensures Requests.VerdictOn(m.requests, e.id, e.kind)
         == if e.id !in m.requests then Requests.Unknown
            else if e.kind == BINDING_RESPONSE then Requests.Answered
            else Requests.Rejected
    ensures OnlyPings(Requests.RequestStep(m, e))
  {
  }

  lemma PacketEvent(a: Agent, from: nat, bytes: seq<byte>, rtt: int, local: Local, now: int)
    requires AgentInv(a, now) && from in a.routes
    ensures Routed(a, from)
    ensures var id := a.routes[from];
      var e, arriving := ResponseEvent(a, from, bytes, rtt, local), Arriving(a, from, bytes, local);
      && (ErrorArrives(a, Packet(from, bytes, 0, 0), local) <==> e == Some(Destroy(id)))
      && (!ErrorArrives(a, Packet(from, bytes, 0, 0), local) ==> e.None? || e == Some(ChannelEvent.Answer(id, rtt)))
      && (arriving.Some? ==> OnlyPings(Requests.RequestStep(a.managers[id], arriving.value)))
      && (arriving.Some? ==>
            (DeletesTwice(a.managers[id].requests, arriving.value, e == Some(Destroy(id)))
             <==> ErrorArrives(a, Packet(from, bytes, 0, 0), local)))
  {
    hide Theorems.Inv, Retried, ErrorCodeValue, GetStunMessage, Read, Requests.VerdictOn, OnlyPings,
      Requests.RequestStep;
    var id, arriving := a.routes[from], Arriving(a, from, bytes, local);
    if arriving.Some? {
      NeverRetried(bytes, a.ch.conns[id].remotePwd, local);
      VerdictsOnPings(a.managers[id], arriving.value);
      if ErrorArrives(a, Packet(from, bytes, 0, 0), local) {
        assert Deletions(a.managers[id].requests, arriving.value, true, arriving.value.id) == 2;
      }
    }
  }

  lemma ToldKeeps(ch: Chan, e: Option<ChannelEvent>, before: int, now: int, setup: Setup)
    requires Theorems.Inv(ch, before) && before <= now && (e.Some? ==> !e.value.Destroy?)
    ensures var n := Told(ch, e, now, setup);
      && Theorems.Inv(n, now) && Wf(n)
      && n.conns.Keys == ch.conns.Keys + if e.Some? && e.value.UnknownAddress? then {e.value.id} else {}
  {
    hide ChannelStep, Theorems.Core, Theorems.Summarised, Theorems.ConnectionsInv, HandsOver;
    History.InvMeansWf(ch, before);
    History.LaterConnections(ch, before, now);
    if e.Some? {
      History.StepKeepsInvIff(ch, e.value, before, now, setup);
      StepKeys(ch, e.value, before, now, setup);
      History.InvMeansWf(ChannelStep(ch, e.value, now, setup), now);
    }
  }

  lemma PingIsPing(m: Requests.Manager, pingId: seq<byte>)
    requires OnlyPings(m)
    ensures OnlyPings(Requests.RequestStep(m, Requests.Send(pingId, BINDING_REQUEST)))
  {
  }

  lemma TimerKeeps(a: Agent, pingId: seq<byte>, before: int, now: int, local: Local)
    requires AgentInv(a, before) && before <= now
    ensures AgentInv(AgentStep(a, Timer(pingId), now, local), now)
  {
    hide Theorems.Inv, ChannelStep, History.TickPick, OnlyPings, Requests.RequestStep;
    History.InvMeansWf(a.ch, before);
    ToldKeeps(a.ch, Some(Tick(pingId)), before, now, local.setup);
    var pick := History.TickPick(a.ch, now);
    if pick.Some? && pick.value in a.managers {
      PingIsPing(a.managers[pick.value], pingId);
    }
  }

  lemma ParamsKeep(a: Agent, user: seq<byte>, pwd: seq<byte>, before: int, now: int, local: Local)
    requires AgentInv(a, before) && before <= now
    ensures AgentInv(AgentStep(a, RemoteParams(user, pwd), now, local), now)
    ensures AgentStep(a, RemoteParams(user, pwd), now, local) == a.(ch := SetRemoteParams(a.ch, user, pwd, now))
  {
    hide Theorems.Inv, SetRemoteParams;
    History.InvMeansWf(a.ch, before);
    ToldKeeps(a.ch, Some(NewRemoteParams(user, pwd)), before, now, local.setup);
  }

  lemma ContactKeeps(a: Agent, input: Input, before: int, now: int, local: Local)
    requires AgentInv(a, before) && before <= now && input.Packet? && input.from !in a.routes
    ensures AgentInv(AgentStep(a, input, now, local), now)
  {
    hide Theorems.Inv, ChannelStep, GetStunMessage, GetAttribute;
    History.InvMeansWf(a.ch, before);
    ToldKeeps(a.ch, EventOf(a, input, local), before, now, local.setup);
  }

  lemma ResponseKeeps(a: Agent, input: Input, before: int, now: int, local: Local)
    requires AgentInv(a, before) && before <= now && input.Packet? && input.from in a.routes
    requires !ErrorArrives(a, input, local)
    ensures AgentInv(AgentStep(a, input, now, local), now)
  {
    hide Theorems.Inv, ChannelStep, ResponseEvent, Arriving, OnlyPings, DeletesTwice, Requests.RequestStep;
    History.InvMeansWf(a.ch, before);
    PacketEvent(a, input.from, input.bytes, input.rtt, local, before);
    ToldKeeps(a.ch, EventOf(a, input, local), before, now, local.setup);
  }

  lemma ErrorHarms(a: Agent, input: Input, before: int, now: int, local: Local)
    requires AgentInv(a, before) && before <= now && ErrorArrives(a, input, local)
    ensures AgentStep(a, input, now, local).harm
         == if local.setup.logsInfo && a.ch.selected == Some(a.routes[input.from]) then NullFollowed else DeletedTwice
  {
    hide Theorems.Core, Theorems.Summarised, Theorems.ConnectionsInv, DestroyConnection, ResponseEvent, Arriving,
      OnlyPings, DeletesTwice, Requests.RequestStep, ManagersAfter;
    History.InvMeansWf(a.ch, before);
    PacketEvent(a, input.from, input.bytes, input.rtt, local, before);
    DestroyFaults(a.ch, a.routes[input.from], now, local.setup.logsInfo);
  }

  lemma DestroyFaults(ch: Chan, id: Id, now: int, logsInfo: bool)
    requires Theorems.Core(ch) && id in ch.conns
    ensures DestroyConnection(ch, id, now, logsInfo).faulted <==> logsInfo && ch.selected == Some(id)
  {
    hide Theorems.Core, Theorems.Summarised, DestroyConnection, HandsOver;
    if ch.selected == Some(id) {
      DestroySelected(ch, id, now, logsInfo);
    } else {
      DestroyOther(ch, id, now, logsInfo);
    }
  }

  /** A step keeps the agent's invariant exactly if it brings no signed error response to a ping that
      waits. Otherwise a null pointer is followed, if the connection was the selected one and INFO messages are
      formatted, or else the request is deleted twice. */
  lemma StepKeepsInvIff(a: Agent, input: Input, before: int, now: int, local: Local)
    requires AgentInv(a, before) && before <= now
    ensures var n := AgentStep(a, input, now, local);
      if !ErrorArrives(a, input, local) then AgentInv(n, now)
      else n.harm == if local.setup.logsInfo && a.ch.selected == Some(a.routes[input.from])
                     then NullFollowed else DeletedTwice
  {
    hide AgentInv, AgentStep, ErrorArrives;
    if ErrorArrives(a, input, local) {
      ErrorHarms(a, input, before, now, local);
    } else {
      match input
      case Timer(pingId) => TimerKeeps(a, pingId, before, now, local);
      case RemoteParams(user, pwd) => ParamsKeep(a, user, pwd, before, now, local);
      case Packet(from, _, _, _) =>
        if from in a.routes {
          ResponseKeeps(a, input, before, now, local);
        } else {
          ContactKeeps(a, input, before, now, local);
        }
    }
  }

  // ---- Runs ----

  ghost predicate ErrorFree(a: Agent, inputs: seq<Timed<Input>>, local: Local)
    decreases inputs
  {
    inputs == []
    || (!ErrorArrives(a, inputs[0].event, local)
        && ErrorFree(AgentStep(a, inputs[0].event, inputs[0].at, local), inputs[1..], local))
  }

  lemma {:induction false} HarmStays(a: Agent, inputs: seq<Timed<Input>>, local: Local)
    requires a.harm != Unharmed || !Wf(a.ch)
    ensures AgentRun(a, inputs, local) == a
    decreases inputs
  {
    if inputs == [] {
    } else {
      HarmStays(a, inputs[1..], local);
    }
  }

  /** Over every run of timers, packets and credentials, whatever the packets contain and the log level is: the
      invariant holds at the end exactly if no ping was answered by a signed error response. The first one
      that is ends the program's defined behaviour. */
  lemma {:induction false} RunKeepsInvIff(a: Agent, now: int, inputs: seq<Timed<Input>>, local: Local)
    requires AgentInv(a, now) && ClockRuns(now, inputs)
    ensures var end := AgentRun(a, inputs, local);
      if ErrorFree(a, inputs, local) then AgentInv(end, EndTime(now, inputs))
      else end.harm == NullFollowed || end.harm == DeletedTwice
    ensures !local.setup.logsInfo ==> AgentRun(a, inputs, local).harm != NullFollowed
    decreases inputs
  {
    hide ErrorArrives, AgentStep, Theorems.Inv;
    if inputs == [] {
    } else {
      var input, at := inputs[0].event, inputs[0].at;
      var n := AgentStep(a, input, at, local);
      StepKeepsInvIff(a, input, now, at, local);
      if ErrorArrives(a, input, local) {
        HarmStays(n, inputs[1..], local);
      } else {
        RunKeepsInvIff(n, at, inputs[1..], local);
      }
    }
  }

  /** The events of a run for its channel. */
  ghost function EventsOf(a: Agent, inputs: seq<Timed<Input>>, local: Local): seq<Timed<ChannelEvent>>
    decreases inputs
  {
    if inputs == [] || a.harm != Unharmed || !Wf(a.ch) then []
    else
      var e := EventOf(a, inputs[0].event, local);
      (if e.Some? then [Timed(e.value, inputs[0].at)] else [])
      + EventsOf(AgentStep(a, inputs[0].event, inputs[0].at, local), inputs[1..], local)
  }

  lemma StepTells(a: Agent, input: Input, now: int, local: Local)
    requires a.harm == Unharmed && Wf(a.ch)
    ensures AgentStep(a, input, now, local).ch == Told(a.ch, EventOf(a, input, local), now, local.setup)
  {
  }

  /** The channel of a run is what a run of the channel makes of these events, so all theorems about
      channels hold of it. */
  lemma {:induction false} ChannelOfRun(a: Agent, now: int, inputs: seq<Timed<Input>>, local: Local)
    requires ClockRuns(now, inputs)
    ensures var events := EventsOf(a, inputs, local);
      ClockRuns(now, events) && AgentRun(a, inputs, local).ch == History.ChannelRun(a.ch, events, local.setup)
    decreases inputs
  {
    hide AgentStep, EventOf, ChannelStep, History.ChannelRun, Wf;
    if inputs == [] {
      ChannelRunOfNone(a.ch, local.setup);
    } else if a.harm != Unharmed || !Wf(a.ch) {
      HarmStays(a, inputs, local);
      ChannelRunOfNone(a.ch, local.setup);
    } else {
      var input, at := inputs[0].event, inputs[0].at;
      var n, e := AgentStep(a, input, at, local), EventOf(a, input, local);
      StepTells(a, input, at, local);
      ChannelOfRun(n, at, inputs[1..], local);
      var later := EventsOf(n, inputs[1..], local);
      if e.Some? {
        OneEventMore(a.ch, Timed(e.value, at), now, later, local.setup);
      } else {
        assert [] + later == later;
      }
    }
  }

  lemma ChannelRunOfNone(ch: Chan, setup: Setup)
    ensures History.ChannelRun(ch, [], setup) == ch
  {
  }

  lemma OneEventMore(ch: Chan, e: Timed<ChannelEvent>, now: int, later: seq<Timed<ChannelEvent>>, setup: Setup)
    requires now <= e.at && ClockRuns(e.at, later)
    ensures ClockRuns(now, [e] + later)
    ensures History.ChannelRun(ch, [e] + later, setup)
         == History.ChannelRun(ChannelStep(ch, e.event, e.at, setup), later, setup)
  {
    hide ChannelStep;
    assert ([e] + later)[1..] == later;
  }
}
