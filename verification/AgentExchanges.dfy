/** From the peer's messages to an agent's channel: what each of them makes of a ping that waits. */
module AgentExchanges {
  import opened Base
  import opened StunAttributes
  import opened StunCodec
  import opened StunBinding
  import opened ConnectionRank
  import opened ChannelState
  import opened ChannelRuns
  import opened IceAgents
  import ConnectionState
  import History = ChannelHistory
  import PingExchange
  import Requests = StunRequests
  import StunTheorems
  import Theorems = ChannelTheorems
  import Transactions = StunTransactions

  /** A ping under `tid` waits on the connection that packets from this address are for. */
  predicate Waits(a: Agent, from: nat, tid: seq<byte>) {
    Routed(a, from) && |tid| == 12 && tid in a.managers[a.routes[from]].requests
  }

  /** The timer's ping waits on the connection it goes to, on every address routed there; no other connection's
      requests change. */
  lemma TickAsks(a: Agent, pingId: seq<byte>, before: int, now: int, local: Local)
    requires AgentInv(a, before) && before <= now && a.ch.started
    ensures var n, pick := AgentStep(a, Timer(pingId), now, local), History.TickPick(a.ch, now);
      && AgentInv(n, now) && n.routes == a.routes && n.ch == CheckAndPing(a.ch, pingId, now)
      && (forall id :: id in a.managers && pick != Some(id) ==> n.managers[id] == a.managers[id])
      && (pick.Some? ==>
            && pick.value in a.managers
            && n.managers[pick.value].requests.Keys == a.managers[pick.value].requests.Keys + {pingId}
            && n.managers[pick.value].callbacks == a.managers[pick.value].callbacks
            && forall from :: from in a.routes && a.routes[from] == pick.value && |pingId| == 12 ==>
                 Waits(n, from, pingId))
  {
    hide Theorems.Inv, CheckAndPing, History.TickPick, OnlyPings;
    InvMeans(a, before);
    TickKeys(a.ch, pingId, before, now);
    TimerKeeps(a, pingId, before, now, local);
  }

  /** A packet that does not reach the request manager leaves everything as it was. */
  lemma UnheardChangesNothing(a: Agent, input: Input, before: int, now: int, local: Local)
    requires AgentInv(a, before) && input.Packet? && Routed(a, input.from)
    requires Arriving(a, input.from, input.bytes, local) == None
    ensures AgentStep(a, input, now, local) == a
  {
    hide Theorems.Inv, Arriving, OnlyPings, ChannelStep;
    History.InvMeansWf(a.ch, before);
  }

  lemma HeardAnswer(a: Agent, input: Input, tid: seq<byte>, before: int, now: int, local: Local)
    requires AgentInv(a, before) && before <= now && input.Packet? && Waits(a, input.from, tid)
    requires Arriving(a, input.from, input.bytes, local) == Some(Requests.Receive(tid, BINDING_RESPONSE))
    ensures var id, n := a.routes[input.from], AgentStep(a, input, now, local);
      && n.ch == PingResponse(a.ch, id, input.rtt, now, local.setup.average)
      && n.managers == a.managers[id := Transactions.CalledBack(a.managers[id], tid, true)]
      && n.routes == a.routes && AgentInv(n, now)
  {
    hide Theorems.Inv, Arriving, PingResponse, AgentInv, HarmAfter;
    var id := a.routes[input.from];
    InvMeans(a, before);
    Transactions.ResponseCallsBack(a.managers[id], tid);
    StepKeepsInvIff(a, input, before, now, local);
  }

  lemma InvMeans(a: Agent, now: int)
    requires AgentInv(a, now)
    ensures a.harm == Unharmed && Wf(a.ch)
    ensures forall id :: id in a.managers ==> OnlyPings(a.managers[id])
  {
    hide Theorems.Inv;
    History.InvMeansWf(a.ch, now);
  }

  /** The peer's answer to a waiting ping calls it back, takes it from the map and makes its connection
      writable, exactly if both ends' passwords for the peer hash it alike; otherwise nothing changes. */
  lemma AnswerMakesWritable(a: Agent, from: nat, tid: seq<byte>, port: u16, ip: u32, key: seq<byte>, newId: Id,
                            rtt: int, before: int, now: int, local: Local)
    requires AgentInv(a, before) && before <= now && Waits(a, from, tid)
    requires AddMessageIntegrity(Transactions.UnsignedAnswer(tid, port, ip), key, local.hmac).ok
    ensures var id := a.routes[from];
      var m, sent := Transactions.UnsignedAnswer(tid, port, ip),
                     Transactions.Answer(tid, port, ip, key, local.hmac, local.crc);
      && AllWritable(m.attrs) && AllWritable(sent.attrs)
      && var n := AgentStep(a, Packet(from, Encode(sent), newId, rtt), now, local);
      var prefix := StunTheorems.SignedPrefix(m);
      if local.hmac(a.ch.conns[id].remotePwd, prefix) == local.hmac(key, prefix)
      then && n.ch == PingResponse(a.ch, id, rtt, now, local.setup.average)
           && n.managers == a.managers[id := Transactions.CalledBack(a.managers[id], tid, true)]
           && n.routes == a.routes && AgentInv(n, now)
      else n == a
  {
    hide Theorems.Inv, Transactions.Reaching, StunTheorems.SignedPrefix, AddMessageIntegrity, Encode, AgentStep,
      Transactions.Answer, Transactions.UnsignedAnswer, AllWritable, Transactions.TakeResponse, PingResponse;
    var id := a.routes[from];
    Transactions.AnswerArrives(tid, port, ip, key, a.managers[id], a.ch.conns[id].remotePwd, local.ufrag, local.pwd,
                               local.hmac, local.crc);
    var input := Packet(from, Encode(Transactions.Answer(tid, port, ip, key, local.hmac, local.crc)), newId, rtt);
    if Arriving(a, from, input.bytes, local).Some? {
      HeardAnswer(a, input, tid, before, now, local);
    } else {
      UnheardChangesNothing(a, input, before, now, local);
    }
  }

  /** A signed error, whatever its code is, ends the defined behaviour under the same condition. */
  lemma SignedErrorHarms(a: Agent, from: nat, tid: seq<byte>, code: int, reason: seq<byte>, key: seq<byte>,
                         newId: Id, rtt: int, before: int, now: int, local: Local)
    requires AgentInv(a, before) && before <= now && Waits(a, from, tid)
    requires 0 <= code < 25600 && |reason| < 65000 && code != BAD_REQUEST && code != UNAUTHORIZED
    requires AddMessageIntegrity(Transactions.UnsignedError(tid, code, reason), key, local.hmac).ok
    ensures var id := a.routes[from];
      var m, sent := Transactions.UnsignedError(tid, code, reason),
                     Transactions.ErrorAnswer(tid, code, reason, key, local.hmac, local.crc);
      && AllWritable(m.attrs) && AllWritable(sent.attrs)
      && var n := AgentStep(a, Packet(from, Encode(sent), newId, rtt), now, local);
      var prefix := StunTheorems.SignedPrefix(m);
      if local.hmac(a.ch.conns[id].remotePwd, prefix) == local.hmac(key, prefix)
      then n.harm == if local.setup.logsInfo && a.ch.selected == Some(id) then NullFollowed else DeletedTwice
      else n == a
  {
    hide Theorems.Inv, Transactions.Reaching, StunTheorems.SignedPrefix, AddMessageIntegrity, Encode, AgentStep,
      Transactions.ErrorAnswer, Transactions.UnsignedError, AllWritable, Transactions.TakeResponse, Read;
    var id := a.routes[from];
    Transactions.SignedErrorArrives(tid, code, reason, key, a.managers[id], a.ch.conns[id].remotePwd, local.ufrag,
                                    local.pwd, local.hmac, local.crc);
    var sent := Transactions.ErrorAnswer(tid, code, reason, key, local.hmac, local.crc);
    var input := Packet(from, Encode(sent), newId, rtt);
    if Arriving(a, from, input.bytes, local).Some? {
      StepKeepsInvIff(a, input, before, now, local);
    } else {
      UnheardChangesNothing(a, input, before, now, local);
    }
  }

  /** Errors 400 and 401 are unsigned and change nothing. */
  lemma RefusalChangesNothing(a: Agent, from: nat, tid: seq<byte>, code: int, reason: seq<byte>, key: seq<byte>,
                              newId: Id, rtt: int, before: int, now: int, local: Local)
    requires AgentInv(a, before) && before <= now && Waits(a, from, tid)
    requires (code == BAD_REQUEST || code == UNAUTHORIZED) && |reason| < 65000
    ensures var sent := Transactions.ErrorAnswer(tid, code, reason, key, local.hmac, local.crc);
      && AllWritable(sent.attrs)
      && AgentStep(a, Packet(from, Encode(sent), newId, rtt), now, local) == a
  {
    hide Theorems.Inv, Transactions.Reaching, Encode, AgentStep, Transactions.ErrorAnswer, AllWritable,
      Transactions.TakeResponse, OnlyPings;
    var id := a.routes[from];
    Transactions.RefusalNeverArrives(tid, code, reason, key, a.managers[id], a.ch.conns[id].remotePwd, local.ufrag,
                                     local.pwd, local.hmac, local.crc);
    var sent := Transactions.ErrorAnswer(tid, code, reason, key, local.hmac, local.crc);
    var input := Packet(from, Encode(sent), newId, rtt);
    UnheardChangesNothing(a, input, before, now, local);
  }

  /** The remote user of the connection an agent has to an address. */
  function KnownUser(a: Agent, from: nat): Option<seq<byte>> {
    if Routed(a, from) then Some(a.ch.conns[a.routes[from]].remoteUser) else None
  }

  lemma AddedUser(ch: Chan, id: Id, user: seq<byte>, lp: u32, rp: u32, now: int)
    requires Wf(ch) && id !in ch.conns
    ensures var n := AddConnection(ch, id, user, lp, rp, now); id in n.conns && n.conns[id].remoteUser == user
  {
    hide Resort, History.Bare;
    var c := ConnectionState.NewConn(user, ch.remotePwd, lp, rp);
    var added := ch.(conns := ch.conns[id := c], order := ch.order + [id], unpinged := ch.unpinged + {id});
    History.ResortLeavesBare(added, now);
    History.BareAt(added.conns, id);
    History.BareAt(Resort(added, now).conns, id);
  }

  /** The first ping from an address makes a connection to its sender's user, exactly if the ports take it;
      otherwise it changes nothing. */
  lemma PingConnects(a: Agent, local: Local, from: nat, newId: Id, pingId: seq<byte>, remoteUfrag: seq<byte>,
                     user: seq<byte>, priority: u32, key: seq<byte>, before: int, now: int)
    requires AgentInv(a, before) && before <= now && from !in a.routes && newId !in a.ch.conns
    requires |pingId| == 12 && Padded(|remoteUfrag| + 1 + |user|) + 60 < 0x1_0000
    requires AddMessageIntegrity(UnsignedPing(pingId, remoteUfrag, user, priority), key, local.hmac).ok
    ensures var ping := PreparePing(pingId, remoteUfrag, user, priority, key, local.hmac, local.crc);
      var request := UnsignedPing(pingId, remoteUfrag, user, priority);
      && AllWritable(ping.attrs) && AllWritable(request.attrs)
      && var n := AgentStep(a, Packet(from, Encode(ping), newId, 0), now, local);
      if COLON !in remoteUfrag && COLON !in user && local.ufrag == remoteUfrag
         && SameHash(local.hmac, local.pwd, key, request)
      then KnownUser(n, from) == Some(user) && n.routes == a.routes[from := newId] && AgentInv(n, now)
      else n == a
  {
    hide Theorems.Inv, Encode, AddMessageIntegrity, GetStunMessage, PreparePing, UnsignedPing, AddConnection, Read,
      GetAttribute, Padded, StunTheorems.SignedPrefix, AllWritable, Retried, ErrorCodeValue, Wf, ErrorArrives;
    PingDecided(pingId, remoteUfrag, user, priority, key, local.hmac, local.crc, local.ufrag, local.pwd);
    InvMeans(a, before);
    var input := Packet(from, Encode(PreparePing(pingId, remoteUfrag, user, priority, key, local.hmac, local.crc)),
                        newId, 0);
    assert !ErrorArrives(a, input, local) by { NoRoute(a, input, local); }
    StepKeepsInvIff(a, input, before, now, local);
    AddedUser(a.ch, newId, user, local.priority, PrflxPriority(priority), now);
  }

  lemma NoRoute(a: Agent, input: Input, local: Local)
    requires input.Packet? && input.from !in a.routes
    ensures !ErrorArrives(a, input, local)
  {
  }

  /** A ping from one agent to another and back: its connection becomes writable exactly if the other
      recognises its own fragment, both ends' passwords hash ping and answer alike, and the other has no
      connection to the sender's address yet or has one to its user. Otherwise the sender stays as it was. */
  lemma PingMakesWritable(a: Agent, local: Local, from: nat, pingId: seq<byte>, other: Agent, theirs: Local,
                          seenAs: nat, port: u16, ip: u32, reason: seq<byte>, newId: Id, rtt: int,
                          before: int, now: int)
    requires AgentInv(a, before) && before <= now && Waits(a, from, pingId)
    requires local.hmac == theirs.hmac && local.crc == theirs.crc && |reason| < 65000
    requires var c := a.ch.conns[a.routes[from]];
      && Padded(|c.remoteUser| + 1 + |local.ufrag|) + 60 < 0x1_0000
      && AddMessageIntegrity(UnsignedPing(pingId, c.remoteUser, local.ufrag, local.priority), c.remotePwd,
                             local.hmac).ok
    requires AddMessageIntegrity(Transactions.UnsignedAnswer(pingId, port, ip), theirs.pwd, local.hmac).ok
    ensures var id := a.routes[from];
      var c := a.ch.conns[id];
      var ping := PreparePing(pingId, c.remoteUser, local.ufrag, local.priority, c.remotePwd, local.hmac, local.crc);
      var request := UnsignedPing(pingId, c.remoteUser, local.ufrag, local.priority);
      var answer := Transactions.UnsignedAnswer(pingId, port, ip);
      && AllWritable(ping.attrs) && AllWritable(request.attrs) && AllWritable(answer.attrs)
      && var reply := PingExchange.Reply(Encode(ping), theirs.ufrag, theirs.pwd, KnownUser(other, seenAs), port, ip,
                                         reason, theirs.hmac, theirs.crc);
      && reply.Some? && AllWritable(reply.value.attrs)
      && var n := AgentStep(a, Packet(from, Encode(reply.value), newId, rtt), now, local);
      var agreed := && COLON !in c.remoteUser && COLON !in local.ufrag && theirs.ufrag == c.remoteUser
                    && (KnownUser(other, seenAs) == None || KnownUser(other, seenAs) == Some(local.ufrag))
                    && SameHash(local.hmac, theirs.pwd, c.remotePwd, request)
                    && SameHash(local.hmac, c.remotePwd, theirs.pwd, answer);
      if agreed
      then && n.ch == PingResponse(a.ch, id, rtt, now, local.setup.average) && AgentInv(n, now)
           && n.managers == a.managers[id := Transactions.CalledBack(a.managers[id], pingId, true)]
      else n == a
  {
    hide AgentInv, AgentStep, Encode, AddMessageIntegrity, GetStunMessage, PreparePing, UnsignedPing, PingResponse,
      Transactions.UnsignedAnswer, Transactions.Answer, Transactions.ErrorAnswer, Read, GetAttribute, Padded,
      StunTheorems.SignedPrefix, AllWritable, KnownUser, Transactions.CalledBack;
    var c := a.ch.conns[a.routes[from]];
    PingDecided(pingId, c.remoteUser, local.ufrag, local.priority, c.remotePwd, local.hmac, local.crc, theirs.ufrag,
                theirs.pwd);
    AnswerMakesWritable(a, from, pingId, port, ip, theirs.pwd, newId, rtt, before, now, local);
    RefusalChangesNothing(a, from, pingId, UNAUTHORIZED, reason, theirs.pwd, newId, rtt, before, now, local);
  }

  /** Both passwords hash the part of the message that is signed alike. */
  predicate SameHash(hmac: Hmac, pwd: seq<byte>, other: seq<byte>, m: Msg)
    requires AllWritable(m.attrs)
  {
    hmac(pwd, StunTheorems.SignedPrefix(m)) == hmac(other, StunTheorems.SignedPrefix(m))
  }
}
