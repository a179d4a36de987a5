/** Answers end to end: what a connection or its port answers to a ping, and what the sender's request
    manager makes of the answer. */
module StunTransactions {
  import opened Base
  import opened StunAttributes
  import opened StunCodec
  import opened StunTheorems
  import opened StunBinding
  import opened StunRequests

  // ---- Answering ----

  /** The answer to a ping, before it is signed. The mapped address is an IPv4 address. */
  function UnsignedAnswer(tid: seq<byte>, port: u16, ip: u32): Msg {
    AddAll(NewMsg().(tid := tid, mtype := BINDING_RESPONSE), [XorAddressAttr(XOR_MAPPED_ADDRESS, IPv4, port, ip)])
  }

  function Answer(tid: seq<byte>, port: u16, ip: u32, pwd: seq<byte>, hmac: Hmac, crc: Crc): Msg {
    AddFingerprint(AddMessageIntegrity(UnsignedAnswer(tid, port, ip), pwd, hmac).msg, crc).msg
  }

  /** The reason is one of the program's short phrases. */
  function UnsignedError(tid: seq<byte>, code: int, reason: seq<byte>): Msg
    requires 0 <= code < 25600 && |reason| < 0x1_0000 - 4
  {
    AddAll(NewMsg().(tid := tid, mtype := BINDING_ERROR_RESPONSE),
           [ErrorCodeAttr(ERROR_CODE, code / 100, code % 100, reason)])
  }

  /** Errors 400 and 401 are sent without a signature. */
  function ErrorAnswer(tid: seq<byte>, code: int, reason: seq<byte>, pwd: seq<byte>, hmac: Hmac, crc: Crc): Msg
    requires 0 <= code < 25600 && |reason| < 0x1_0000 - 4
  {
    var m := UnsignedError(tid, code, reason);
    var signed := code != BAD_REQUEST && code != UNAUTHORIZED;
    AddFingerprint(if signed then AddMessageIntegrity(m, pwd, hmac).msg else m, crc).msg
  }

  // ---- Taking an answer ----

  /** `on_read_packet` with a response: only one whose integrity is ok reaches the request manager. */
  function Reaching(d: seq<byte>, remotePwd: seq<byte>, ufrag: seq<byte>, pwd: seq<byte>,
                    hmac: Hmac, crc: Crc): Option<RequestEvent>
  {
    match GetStunMessage(d, ufrag, pwd, hmac, crc)
    case Accepted(m, _) =>
      if (m.mtype == BINDING_RESPONSE || m.mtype == BINDING_ERROR_RESPONSE)
         && ValidateIntegrity(m, remotePwd, hmac).integrity == IntegrityOk
      then Some(Receive(m.tid, m.mtype))
      else None
    case _ => None
  }

  /** The manager after a packet, with its map and the callbacks it has made. */
  function TakeResponse(s: Manager, d: seq<byte>, remotePwd: seq<byte>, ufrag: seq<byte>, pwd: seq<byte>,
                        hmac: Hmac, crc: Crc): Manager
  {
    match Reaching(d, remotePwd, ufrag, pwd, hmac, crc)
    case Some(e) => RequestStep(s, e)
    case None => s
  }

  /** The request under `tid` is called back and leaves the map. */
  function CalledBack(s: Manager, tid: seq<byte>, success: bool): Manager
    requires tid in s.requests
  {
    s.(requests := s.requests - {tid}, callbacks := s.callbacks + [Callback(s.requests[tid], success)])
  }

  // ---- Properties ----

  /** A message of a response type as the peer builds it, up to its signature. */
  ghost predicate Signable(m: Msg) {
    && |m.tid| == 12 && (m.mtype == BINDING_RESPONSE || m.mtype == BINDING_ERROR_RESPONSE) && Built(m)
    && AllWritable(m.attrs) && AllWellTyped(m.attrs) && Lacks(m.attrs, MESSAGE_INTEGRITY)
    && AttrsSize(m.attrs) + 32 < 0x1_0000
  }

  lemma SignedResponseDecided(m: Msg, key: seq<byte>, s: Manager, remotePwd: seq<byte>, ufrag: seq<byte>,
                              pwd: seq<byte>, hmac: Hmac, crc: Crc)
    requires Signable(m) && AddMessageIntegrity(m, key, hmac).ok
    ensures var sent := AddFingerprint(AddMessageIntegrity(m, key, hmac).msg, crc).msg;
      && AllWritable(sent.attrs) && Read(NewMsg(), Encode(sent)).ok
      && Reaching(Encode(sent), remotePwd, ufrag, pwd, hmac, crc)
         == (if hmac(remotePwd, SignedPrefix(m)) == hmac(key, SignedPrefix(m)) then Some(Receive(m.tid, m.mtype))
             else None)
      && TakeResponse(s, Encode(sent), remotePwd, ufrag, pwd, hmac, crc)
         == if hmac(remotePwd, SignedPrefix(m)) == hmac(key, SignedPrefix(m))
            then RequestStep(s, Receive(m.tid, m.mtype))
            else s
  {
    hide Encode, Signable, AllWritable, SignedPrefix, Read, AddMessageIntegrity, AddFingerprint, RequestStep,
      ValidateIntegrity, GetStunMessage;
    SignedResponseRead(m, key, remotePwd, ufrag, pwd, hmac, crc);
    SignableMeans(m);
  }

  lemma SignableMeans(m: Msg)
    requires Signable(m)
    ensures AllWritable(m.attrs) && (m.mtype == BINDING_RESPONSE || m.mtype == BINDING_ERROR_RESPONSE)
  {
  }

  lemma SignedResponseRead(m: Msg, key: seq<byte>, remotePwd: seq<byte>, ufrag: seq<byte>, pwd: seq<byte>,
                           hmac: Hmac, crc: Crc)
    requires Signable(m) && AddMessageIntegrity(m, key, hmac).ok
    ensures var sent := AddFingerprint(AddMessageIntegrity(m, key, hmac).msg, crc).msg;
      && AllWritable(sent.attrs) && Read(NewMsg(), Encode(sent)).ok
      && var got := Read(NewMsg(), Encode(sent)).msg;
      && GetStunMessage(Encode(sent), ufrag, pwd, hmac, crc) == Accepted(got, [])
      && got.tid == m.tid && got.mtype == m.mtype
      && (ValidateIntegrity(got, remotePwd, hmac).integrity == IntegrityOk
          <==> hmac(remotePwd, SignedPrefix(m)) == hmac(key, SignedPrefix(m)))
  {
    hide Encode, SignedPrefix, Read, ValidateFingerprint, AddMessageIntegrity, AddFingerprint, AddAll,
      Known, ValidateIntegrity;
    var signed := AddMessageIntegrity(m, key, hmac).msg;
    SigningSignsPrefix(m, key, hmac);
    FingerprintAccepted(signed, crc);
    AddFingerprintAdds(signed, crc);
    var v: u32 :| AddFingerprint(signed, crc).msg == AddAll(signed, [UInt32Attr(FINGERPRINT, v)]);
    var extra := [UInt32Attr(FINGERPRINT, v)];
    EncodeSingle(extra[0]);
    IntegrityAccepted(m, key, hmac, extra, NewMsg(), remotePwd);
    SignedIsAddAll(m, key, hmac, extra);
    ReadAfterWrite(AddAll(signed, extra), NewMsg());
  }

  /** The answer to a ping calls the success callback of the request it belongs to and takes the request
      from the map, exactly if the password the sender knows for the peer hashes it to the value the peer
      put there; otherwise nothing changes. */
  lemma AnswerArrives(tid: seq<byte>, port: u16, ip: u32, key: seq<byte>, s: Manager, remotePwd: seq<byte>,
                      ufrag: seq<byte>, pwd: seq<byte>, hmac: Hmac, crc: Crc)
    requires |tid| == 12 && AddMessageIntegrity(UnsignedAnswer(tid, port, ip), key, hmac).ok
    requires tid in s.requests && s.requests[tid].kind == BINDING_REQUEST
    ensures var m, sent := UnsignedAnswer(tid, port, ip), Answer(tid, port, ip, key, hmac, crc);
      && AllWritable(m.attrs) && AllWritable(sent.attrs)
      && Reaching(Encode(sent), remotePwd, ufrag, pwd, hmac, crc)
         == (if hmac(remotePwd, SignedPrefix(m)) == hmac(key, SignedPrefix(m))
             then Some(Receive(tid, BINDING_RESPONSE)) else None)
      && TakeResponse(s, Encode(sent), remotePwd, ufrag, pwd, hmac, crc)
         == if hmac(remotePwd, SignedPrefix(m)) == hmac(key, SignedPrefix(m)) then CalledBack(s, tid, true) else s
  {
    hide SignedPrefix, AddMessageIntegrity, AddFingerprint, Reaching, TakeResponse, Encode, RequestStep, CalledBack,
      UnsignedAnswer;
    AnswerIsSignable(tid, port, ip);
    ResponseCallsBack(s, tid);
    SignedResponseDecided(UnsignedAnswer(tid, port, ip), key, s, remotePwd, ufrag, pwd, hmac, crc);
  }

  lemma ResponseCallsBack(s: Manager, tid: seq<byte>)
    requires tid in s.requests && s.requests[tid].kind == BINDING_REQUEST
    ensures RequestStep(s, Receive(tid, BINDING_RESPONSE)) == CalledBack(s, tid, true)
    ensures RequestStep(s, Receive(tid, BINDING_ERROR_RESPONSE)) == CalledBack(s, tid, false)
  {
  }

  lemma OneAttribute(m: Msg, a: Attr)
    requires m.attrs == [] && m.length == 0
    ensures var n := AddAll(m, [a]);
      && n.attrs == [a] && Built(n) && n.tid == m.tid && n.mtype == m.mtype
      && AttrsSize(n.attrs) == 4 + Padded(ValueLength(a))
  {
    hide AddAll, ValueLength, Padded;
    AddAllAppends(m, [a]);
    assert m.attrs + [a] == [a];
    SizeOfOne(a);
  }

  lemma SizeOfOne(a: Attr)
    ensures AttrsSize([a]) == 4 + Padded(ValueLength(a))
  {
    assert [a][1..] == [];
  }

  lemma AnswerIsSignable(tid: seq<byte>, port: u16, ip: u32)
    requires |tid| == 12
    ensures var m := UnsignedAnswer(tid, port, ip); Signable(m) && m.mtype == BINDING_RESPONSE && m.tid == tid
  {
    hide AddAll, AttrsSize;
    OneAttribute(NewMsg().(tid := tid, mtype := BINDING_RESPONSE), XorAddressAttr(XOR_MAPPED_ADDRESS, IPv4, port, ip));
  }

  lemma ErrorIsSignable(tid: seq<byte>, code: int, reason: seq<byte>)
    requires |tid| == 12 && 0 <= code < 25600 && |reason| < 65000
    ensures var m := UnsignedError(tid, code, reason);
      Signable(m) && m.mtype == BINDING_ERROR_RESPONSE && m.tid == tid
  {
    hide AddAll, AttrsSize;
    OneAttribute(NewMsg().(tid := tid, mtype := BINDING_ERROR_RESPONSE),
                 ErrorCodeAttr(ERROR_CODE, code / 100, code % 100, reason));
  }

  /** The answer to a ping on the wire: one XOR-MAPPED-ADDRESS, from which whoever applies the cookie again gets
      the address the ping came from (section 15.2 of RFC 5389). */
  lemma AnswerBytes(tid: seq<byte>, port: u16, ip: u32)
    requires |tid| == 12
    ensures AllWritable(UnsignedAnswer(tid, port, ip).attrs)
    ensures var d := Encode(UnsignedAnswer(tid, port, ip));
      && |d| == 32 && d[..8] == [0x01, 0x01, 0x00, 0x0C, 0x21, 0x12, 0xA4, 0x42] && d[8..20] == tid
      && d[20..26] == [0x00, 0x20, 0x00, 0x08, 0x00, 0x01]
      && Xor(GetBe16(d, 26), 0x2112) == port && Xor(GetBe32(d, 28), 0x2112_A442) == ip
  {
    hide AddAll, Xor, EncodeAttr, EncodeAttrs;
    var a: Attr := XorAddressAttr(XOR_MAPPED_ADDRESS, IPv4, port, ip);
    OneAttribute(NewMsg().(tid := tid, mtype := BINDING_RESPONSE), a);
    EncodeSingle(a);
    var m := UnsignedAnswer(tid, port, ip);
    assert Encode(m) == [0x01, 0x01, 0x00, 0x0C, 0x21, 0x12, 0xA4, 0x42] + tid + EncodeAttr(a);
    AddressBytes(port, ip);
    XorUndo(port, 0x2112);
    XorUndo(ip, 0x2112_A442);
    var d, x16, x32 := Encode(m), Xor16(port, 0x2112), Xor32(ip, 0x2112_A442);
    assert d[20..] == EncodeAttr(a);
    assert d[26..28] == d[20..][6..8] && d[28..32] == d[20..][8..12];
    GetPut16(d, 26, x16);
    GetPut32(d, 28, x32);
  }

  lemma AddressBytes(port: u16, ip: u32)
    ensures EncodeAttr(XorAddressAttr(XOR_MAPPED_ADDRESS, IPv4, port, ip))
         == [0x00, 0x20, 0x00, 0x08, 0x00, 0x01] + Be16(Xor16(port, 0x2112)) + Be32(Xor32(ip, 0x2112_A442))
  {
    hide Xor;
  }

  /** An error as it is written: whoever reads it as section 15.6 of RFC 5389 says gets its code, the hundreds
      times 100 plus the number, and its reason. */
  lemma ErrorBytes(tid: seq<byte>, code: int, reason: seq<byte>)
    requires |tid| == 12 && 0 <= code < 25600 && |reason| < 65000
    ensures AllWritable(UnsignedError(tid, code, reason).attrs)
    ensures ErrorCodeValue(UnsignedError(tid, code, reason)) == code
    ensures var d, n := Encode(UnsignedError(tid, code, reason)), |reason|;
      && |d| == HEADER_SIZE + 8 + Padded(n) && GetBe16(d, 0) == 0x0111 && d[8..20] == tid
      && d[20..22] == [0x00, 0x09] && GetBe16(d, 22) == 4 + n && d[24..26] == [0, 0]
      && 100 * (d[26] as int) + (d[27] as int) == code && d[27] < 100 && d[28..28 + n] == reason
  {
    hide GetBe16, Be16, Header, EncodeAttr, Body, UnsignedError, Encode, Padded, GetBe32;
    ErrorIsWritten(tid, code, reason);
    var m, a := UnsignedError(tid, code, reason), ErrorCodeAttr(ERROR_CODE, code / 100, code % 100, reason);
    var d := Encode(m);
    HeaderFields(m.mtype, m.length, m.tid, EncodeAttr(a));
    var n := ATTRIBUTE_HEADER + Padded(ValueLength(a));
    assert |d| == 20 + n && d[20..] == EncodeAttr(a) == d[20..20 + n];
    AttrAt(d, HEADER_SIZE, a);
    EncodedFields(a);
    SliceOfWindow(d, 20, EncodeAttr(a), 0, 2);
    ErrorBody(code, reason);
    PaddedReason(|reason|);
    ErrorValue(d, code, reason);
  }

  lemma PaddedReason(n: nat)
    ensures Padded(4 + n) == 4 + Padded(n)
  {
  }

  lemma ErrorValue(d: seq<byte>, code: int, reason: seq<byte>)
    requires 0 <= code < 25600 && |d| >= 28 + |reason|
    requires d[24..28 + |reason|] == [0, 0, code / 100, code % 100] + reason
    ensures d[24..26] == [0, 0] && 100 * (d[26] as int) + (d[27] as int) == code && d[27] < 100
    ensures d[28..28 + |reason|] == reason
  {
    var b := d[24..28 + |reason|];
    assert d[24] == b[0] && d[25] == b[1] && d[26] == b[2] && d[27] == b[3] && d[28..28 + |reason|] == b[4..];
  }

  lemma ErrorIsWritten(tid: seq<byte>, code: int, reason: seq<byte>)
    requires |tid| == 12 && 0 <= code < 25600 && |reason| < 65000
    ensures var m, a := UnsignedError(tid, code, reason), ErrorCodeAttr(ERROR_CODE, code / 100, code % 100, reason);
      && AllWritable(m.attrs) && m.mtype == 0x0111 && m.tid == tid && ErrorCodeValue(m) == code
      && Encode(m) == Header(m.mtype, m.length, m.tid) + EncodeAttr(a)
  {
    hide AddAll, EncodeAttr, EncodeAttrs, Header;
    OneAttribute(NewMsg().(tid := tid, mtype := BINDING_ERROR_RESPONSE),
                 ErrorCodeAttr(ERROR_CODE, code / 100, code % 100, reason));
    EncodeSingle(ErrorCodeAttr(ERROR_CODE, code / 100, code % 100, reason));
  }

  lemma ErrorBody(code: int, reason: seq<byte>)
    requires 0 <= code < 25600 && |reason| < 65000
    ensures Be16(ERROR_CODE) == [0x00, 0x09]
    ensures var b := Body(ErrorCodeAttr(ERROR_CODE, code / 100, code % 100, reason));
      b == [0, 0, code / 100, code % 100] + reason
  {
  }

  /** A signed error calls the error callback under the same condition; whatever its code was, the
      connection then reads 600. */
  lemma SignedErrorArrives(tid: seq<byte>, code: int, reason: seq<byte>, key: seq<byte>, s: Manager,
                           remotePwd: seq<byte>, ufrag: seq<byte>, pwd: seq<byte>, hmac: Hmac, crc: Crc)
    requires |tid| == 12 && 0 <= code < 25600 && |reason| < 65000 && code != BAD_REQUEST && code != UNAUTHORIZED
    requires AddMessageIntegrity(UnsignedError(tid, code, reason), key, hmac).ok
    requires tid in s.requests && s.requests[tid].kind == BINDING_REQUEST
    ensures var m, sent := UnsignedError(tid, code, reason), ErrorAnswer(tid, code, reason, key, hmac, crc);
      && AllWritable(m.attrs) && AllWritable(sent.attrs)
      && Reaching(Encode(sent), remotePwd, ufrag, pwd, hmac, crc)
         == (if hmac(remotePwd, SignedPrefix(m)) == hmac(key, SignedPrefix(m))
             then Some(Receive(tid, BINDING_ERROR_RESPONSE)) else None)
      && TakeResponse(s, Encode(sent), remotePwd, ufrag, pwd, hmac, crc)
         == (if hmac(remotePwd, SignedPrefix(m)) == hmac(key, SignedPrefix(m)) then CalledBack(s, tid, false) else s)
      && ErrorCodeValue(Read(NewMsg(), Encode(sent)).msg) == 600
  {
    hide SignedPrefix, AddMessageIntegrity, AddFingerprint, Reaching, TakeResponse, Encode, Read, ErrorCodeValue,
      UnsignedError, RequestStep, CalledBack;
    ErrorIsSignable(tid, code, reason);
    ResponseCallsBack(s, tid);
    SignedResponseDecided(UnsignedError(tid, code, reason), key, s, remotePwd, ufrag, pwd, hmac, crc);
    ErrorCodeNeverRead(NewMsg(), Encode(ErrorAnswer(tid, code, reason, key, hmac, crc)));
  }

  /** The errors a port sends for the requests it refuses are unsigned, so they never reach the request:
      it stays outstanding and neither callback is made. */
  lemma RefusalNeverArrives(tid: seq<byte>, code: int, reason: seq<byte>, key: seq<byte>, s: Manager,
                            remotePwd: seq<byte>, ufrag: seq<byte>, pwd: seq<byte>, hmac: Hmac, crc: Crc)
    requires |tid| == 12 && (code == BAD_REQUEST || code == UNAUTHORIZED) && |reason| < 65000
    ensures var sent := ErrorAnswer(tid, code, reason, key, hmac, crc);
      && AllWritable(sent.attrs)
      && Reaching(Encode(sent), remotePwd, ufrag, pwd, hmac, crc) == None
      && TakeResponse(s, Encode(sent), remotePwd, ufrag, pwd, hmac, crc) == s
  {
    hide Encode, Read, ValidateFingerprint, AddFingerprint, AddAll, Known, RequestStep, UnsignedError, AttrsSize;
    var m := UnsignedError(tid, code, reason);
    ErrorIsSignable(tid, code, reason);
    FingerprintAccepted(m, crc);
    AddFingerprintAdds(m, crc);
    var v: u32 :| AddFingerprint(m, crc).msg == AddAll(m, [UInt32Attr(FINGERPRINT, v)]);
    var extra: seq<Attr> := [UInt32Attr(FINGERPRINT, v)];
    AddAllAppends(m, extra);
    var sent := AddAll(m, extra);
    NoSignature(m.attrs, extra[0]);
    KnownKeeps(sent.attrs, MESSAGE_INTEGRITY);
    AllGood(m.attrs, extra[0]);
    ReadAfterWrite(sent, NewMsg());
  }

  lemma {:induction false} NoSignature(attrs: seq<Attr>, a: Attr)
    requires Lacks(attrs, MESSAGE_INTEGRITY) && a.atype != MESSAGE_INTEGRITY
    ensures GetAttribute(attrs + [a], MESSAGE_INTEGRITY).None?
  {
    if attrs == [] {
      assert attrs + [a] == [a] && [a][1..] == [];
    } else {
      assert (attrs + [a])[0] == attrs[0] && (attrs + [a])[1..] == attrs[1..] + [a];
      NoSignature(attrs[1..], a);
    }
  }

  lemma AllGood(attrs: seq<Attr>, a: Attr)
    requires AllWellTyped(attrs) && WellTyped(a)
    ensures AllWellTyped(attrs + [a])
  {
  }
}
