/** A ping and its answer, from the sender's connection to the peer and back. */
module PingExchange {
  import opened Base
  import C = ConnectionState
  import opened StunAttributes
  import opened StunCodec
  import opened StunTheorems
  import opened StunBinding
  import opened StunRequests
  import opened StunTransactions
  import opened StunIntake

  /** A connection with its request manager. */
  datatype Side = Side(conn: C.Conn, manager: Manager)

  function SendPing(side: Side, tid: seq<byte>, now: int): Side {
    Side(C.Ping(side.conn, tid, now), RequestStep(side.manager, Send(tid, BINDING_REQUEST)))
  }

  /** Why the peer refuses a request its port took, if it does. `known` is the remote user name of the
      connection it already has to the sender's address: the request has to come from that user. From a new
      address the request has to carry a PRIORITY; the peer then makes a connection to the user in it. */
  function Refusal(m: Msg, user: seq<byte>, known: Option<seq<byte>>): Option<int> {
    match known
    case Some(name) => if user != name then Some(UNAUTHORIZED) else None
    case None => if GetAttribute(m.attrs, PRIORITY).None? then Some(BAD_REQUEST) else None
  }

  /** What the peer answers to a packet, if anything: to a ping it takes, the answer; to one it refuses, the
      error. Either has the packet's transaction id. */
  function Reply(d: seq<byte>, ufrag: seq<byte>, pwd: seq<byte>, known: Option<seq<byte>>, port: u16, ip: u32,
                 reason: seq<byte>, hmac: Hmac, crc: Crc): Option<Msg>
    requires |reason| < 65000
  {
    match GetStunMessage(d, ufrag, pwd, hmac, crc)
    case NotStun => None
    case Refused(code) => Some(ErrorAnswer(Read(NewMsg(), d).msg.tid, code, reason, pwd, hmac, crc))
    case Accepted(m, user) =>
      if m.mtype != BINDING_REQUEST then None
      else
        match Refusal(m, user, known)
        case Some(code) => Some(ErrorAnswer(m.tid, code, reason, pwd, hmac, crc))
        case None => Some(Answer(m.tid, port, ip, pwd, hmac, crc))
  }

  /** The sender takes a packet: a success callback is the connection's ping response. An error callback ends
      the connection, because the code it reads is 600. */
  function TakeReply(side: Side, d: seq<byte>, remotePwd: seq<byte>, ufrag: seq<byte>, pwd: seq<byte>,
                     rtt: int, now: int, average: C.Average, hmac: Hmac, crc: Crc): Side
  {
    var after := TakeResponse(side.manager, d, remotePwd, ufrag, pwd, hmac, crc);
    var calls := after.callbacks;
    if |calls| <= |side.manager.callbacks| then side.(manager := after)
    else if calls[|calls| - 1].success then Side(C.ReceivedResponse(side.conn, rtt, now, average), after)
    else Side(side.conn.(state := C.Failed), after)
  }

  /** A ping leads its connection to WRITABLE, with its request called back once and gone, exactly if the
      peer recognises its own fragment, both ends' passwords hash the ping and the answer alike, and the peer
      has no connection to the sender's address yet or has one to the sender's user name. Otherwise the
      exchange changes nothing: the request stays outstanding. */
  lemma ExchangeDecided(side: Side, tid: seq<byte>, remoteUfrag: seq<byte>, localUfrag: seq<byte>, localPriority: u32,
                        remotePwd: seq<byte>, localPwd: seq<byte>, peerUfrag: seq<byte>, peerPwd: seq<byte>,
                        known: Option<seq<byte>>, port: u16, ip: u32, reason: seq<byte>, sentAt: int, rtt: int,
                        now: int, average: C.Average, hmac: Hmac, crc: Crc)
    requires |tid| == 12 && |reason| < 65000 && Padded(|remoteUfrag| + 1 + |localUfrag|) + 60 < 0x1_0000
    requires AddMessageIntegrity(UnsignedPing(tid, remoteUfrag, localUfrag, localPriority), remotePwd, hmac).ok
    requires AddMessageIntegrity(UnsignedAnswer(tid, port, ip), peerPwd, hmac).ok
    ensures var sent := SendPing(side, tid, sentAt);
      var ping := PreparePing(tid, remoteUfrag, localUfrag, localPriority, remotePwd, hmac, crc);
      var unsigned, answer := UnsignedPing(tid, remoteUfrag, localUfrag, localPriority), UnsignedAnswer(tid, port, ip);
      && AllWritable(ping.attrs) && AllWritable(unsigned.attrs) && AllWritable(answer.attrs)
      && var reply := Reply(Encode(ping), peerUfrag, peerPwd, known, port, ip, reason, hmac, crc);
      && reply.Some? && AllWritable(reply.value.attrs)
      && var end := TakeReply(sent, Encode(reply.value), remotePwd, localUfrag, localPwd, rtt, now, average, hmac, crc);
      var agreed := && COLON !in remoteUfrag && COLON !in localUfrag && peerUfrag == remoteUfrag
                    && (known.None? || known.value == localUfrag)
                    && hmac(peerPwd, SignedPrefix(unsigned)) == hmac(remotePwd, SignedPrefix(unsigned))
                    && hmac(remotePwd, SignedPrefix(answer)) == hmac(peerPwd, SignedPrefix(answer));
      && (agreed ==> end == Side(C.ReceivedResponse(sent.conn, rtt, now, average), CalledBack(sent.manager, tid, true)))
      && (!agreed ==> end == sent)
      && (C.Writable(end.conn) <==> C.Writable(side.conn) || agreed)
  {
    hide SignedPrefix, AddMessageIntegrity, TakeResponse, Encode, GetStunMessage, Read, PreparePing, Answer,
      ErrorAnswer, UnsignedPing, UnsignedAnswer, Padded, GetAttribute, C.UpdateReceiving;
    var sent := SendPing(side, tid, sentAt);
    PingDecided(tid, remoteUfrag, localUfrag, localPriority, remotePwd, hmac, crc, peerUfrag, peerPwd);
    AnswerArrives(tid, port, ip, peerPwd, sent.manager, remotePwd, localUfrag, localPwd, hmac, crc);
    RefusalNeverArrives(tid, UNAUTHORIZED, reason, peerPwd, sent.manager, remotePwd, localUfrag, localPwd, hmac, crc);
  }

  /** What the peer answers to any packet, by its bytes: nothing unless it is a request with its fingerprint; error
      400 if user name or signature is missing, or the PRIORITY of a first contact; error 401 if it is not authentic
      or comes from another user than the connection is to; else the answer. Each carries the packet's id. */
  lemma ReplyDecided(d: seq<byte>, ufrag: seq<byte>, pwd: seq<byte>, known: Option<seq<byte>>, port: u16, ip: u32,
                     reason: seq<byte>, hmac: Hmac, crc: Crc, peer: seq<byte>)
    requires |reason| < 65000
    ensures var reply := Reply(d, ufrag, pwd, known, port, ip, reason, hmac, crc);
      && (reply.Some? <==> Fingerprinted(d, crc) && Wellformed(d) && GetBe16(d, 0) == 0x0001)
      && (reply.Some? ==>
            var id, prio := d[8..20], GetAttribute(Parse(d, HEADER_SIZE).attrs, PRIORITY);
            && (StoredValue(d, USERNAME).None? || StoredValue(d, MESSAGE_INTEGRITY).None? ==>
                  reply.value == ErrorAnswer(id, 400, reason, pwd, hmac, crc))
            && (StoredValue(d, USERNAME).Some? && StoredValue(d, MESSAGE_INTEGRITY).Some?
                && (forall p :: !Authentic(d, ufrag, pwd, p, hmac, crc)) ==>
                  reply.value == ErrorAnswer(id, 401, reason, pwd, hmac, crc))
            && (Authentic(d, ufrag, pwd, peer, hmac, crc) ==>
                  reply.value == match known
                  case None => if prio.None? then ErrorAnswer(id, 400, reason, pwd, hmac, crc)
                               else Answer(id, port, ip, pwd, hmac, crc)
                  case Some(name) => if name != peer then ErrorAnswer(id, 401, reason, pwd, hmac, crc)
                                     else Answer(id, port, ip, pwd, hmac, crc)))
  {
    hide GetStunMessage, Fingerprinted, Wellformed, StoredValue, Authentic, Parse, GetAttribute, ErrorAnswer, Answer,
      Read, GetBe16, ReceivedId;
    IntakeDecided(d, ufrag, pwd, hmac, crc);
    ReadDecided(NewMsg(), d);
    if Fingerprinted(d, crc) && Wellformed(d) {
      IdBytes(d, crc);
      var taken := GetStunMessage(d, ufrag, pwd, hmac, crc);
      if GetBe16(d, 0) == 0x0001 && taken.Accepted? && Authentic(d, ufrag, pwd, peer, hmac, crc) {
        OneName(d, ufrag, pwd, peer, taken.remoteUfrag, hmac, crc);
      }
    }
  }

  /** A signed error that reaches its ping fails the connection; nothing else in it changes but that. */
  lemma SignedErrorFails(side: Side, tid: seq<byte>, code: int, reason: seq<byte>, key: seq<byte>, remotePwd: seq<byte>,
                         ufrag: seq<byte>, pwd: seq<byte>, rtt: int, now: int, average: C.Average, hmac: Hmac, crc: Crc)
    requires |tid| == 12 && 0 <= code < 25600 && |reason| < 65000 && code != BAD_REQUEST && code != UNAUTHORIZED
    requires AddMessageIntegrity(UnsignedError(tid, code, reason), key, hmac).ok
    requires tid in side.manager.requests && side.manager.requests[tid].kind == BINDING_REQUEST
    ensures var m, sent := UnsignedError(tid, code, reason), ErrorAnswer(tid, code, reason, key, hmac, crc);
      && AllWritable(m.attrs) && AllWritable(sent.attrs)
      && TakeReply(side, Encode(sent), remotePwd, ufrag, pwd, rtt, now, average, hmac, crc)
         == if hmac(remotePwd, SignedPrefix(m)) == hmac(key, SignedPrefix(m))
            then Side(side.conn.(state := C.Failed), CalledBack(side.manager, tid, false))
            else side
  {
    hide SignedPrefix, AddMessageIntegrity, TakeResponse, Encode, ErrorAnswer, UnsignedError, Reaching, Read,
      ErrorCodeValue, AllWritable;
    SignedErrorArrives(tid, code, reason, key, side.manager, remotePwd, ufrag, pwd, hmac, crc);
  }
}
