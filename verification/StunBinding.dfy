/** Binding requests end to end: what a connection sends as a ping and what the peer's port makes of it. */
module StunBinding {
  import opened Base
  import opened StunAttributes
  import opened StunCodec
  import opened StunTheorems
  import ConnectionRank

  const BINDING_REQUEST: u16 := 0x0001
  const BINDING_RESPONSE: u16 := 0x0101
  const BINDING_ERROR_RESPONSE: u16 := 0x0111
  const BAD_REQUEST := 400
  const UNAUTHORIZED := 401
  const GLOBAL_FAIL := 600
  const COLON: byte := 0x3A
  const TYPE_PREFERENCE_PRFLX: u32 := 110

  // ---- Request and response types ----

  /** `type & 0x0110 == 0` */
  predicate IsRequestType(t: int) {
    (t / 0x10) % 2 == 0 && (t / 0x100) % 2 == 0
  }

  /** `type | 0x100` and `type | 0x110`; -1 for what is not a request. */
  function SuccessResponse(t: int): int {
    if IsRequestType(t) then t + 0x100 else -1
  }

  function ErrorResponse(t: int): int {
    if IsRequestType(t) then t + 0x110 else -1
  }

  // ---- Sending a ping ----

  /** The priority a peer-reflexive candidate would have: 110 in the top byte, the rest kept. */
  function PrflxPriority(local: u32): u32 {
    TYPE_PREFERENCE_PRFLX * 0x100_0000 + local % 0x100_0000
  }

  function PingAttributes(remoteUfrag: seq<byte>, localUfrag: seq<byte>, localPriority: u32): seq<Attr> {
    [ByteString(USERNAME, remoteUfrag + [COLON] + localUfrag),
     UInt64Attr(ICE_CONTROLLING, 0),
     ByteStringAttr(USE_CANDIDATE, []),
     UInt32Attr(PRIORITY, PrflxPriority(localPriority))]
  }

  /** The request as `prepare` fills it in, before it is signed. */
  function UnsignedPing(tid: seq<byte>, remoteUfrag: seq<byte>, localUfrag: seq<byte>, localPriority: u32): Msg {
    AddAll(NewMsg().(tid := tid, mtype := BINDING_REQUEST), PingAttributes(remoteUfrag, localUfrag, localPriority))
  }

  function PreparePing(tid: seq<byte>, remoteUfrag: seq<byte>, localUfrag: seq<byte>, localPriority: u32,
                       remotePwd: seq<byte>, hmac: Hmac, crc: Crc): Msg
  {
    var unsigned := UnsignedPing(tid, remoteUfrag, localUfrag, localPriority);
    AddFingerprint(AddMessageIntegrity(unsigned, remotePwd, hmac).msg, crc).msg
  }

  // ---- Receiving ----

  /** `rtc::split`: one field more than there are separators. */
  function Split(s: seq<byte>, c: byte): (fields: seq<seq<byte>>)
    ensures |fields| > 0
  {
    if s == [] then [[]]
    else
      var rest := Split(s[1..], c);
      if s[0] == c then [[]] + rest else [[s[0]] + rest[0]] + rest[1..]
  }

  datatype Intake =
    | NotStun
    | Refused(code: int)
    | Accepted(msg: Msg, remoteUfrag: seq<byte>)

  /** `get_stun_message` for a port with the given credentials. A refused request is answered with
      `code` and reported as consumed. */
  function GetStunMessage(d: seq<byte>, ufrag: seq<byte>, pwd: seq<byte>, hmac: Hmac, crc: Crc): Intake {
    if !ValidateFingerprint(d, crc) || !Read(NewMsg(), d).ok then NotStun
    else
      var m := Read(NewMsg(), d).msg;
      if m.mtype != BINDING_REQUEST then Accepted(m, [])
      else
        var user := GetAttribute(m.attrs, USERNAME);
        if user.None? || GetAttribute(m.attrs, MESSAGE_INTEGRITY).None? then Refused(BAD_REQUEST)
        else
          var fields := if user.value.ByteStringAttr? then Split(user.value.bytes, COLON) else [];
          if |fields| != 2 || fields[0] != ufrag then Refused(UNAUTHORIZED)
          else
            var checked := ValidateIntegrity(m, pwd, hmac);
            if checked.integrity != IntegrityOk then Refused(UNAUTHORIZED)
            else Accepted(checked, fields[1])
  }

  // ---- Properties ----

  /** A request has both class bits clear (section 6 of RFC 5389); its success response sets the upper one and
      its error response both, and leave the method alone. No other type has a response. */
  lemma ResponseTypes(t: u16)
    ensures var low, mid, high := t % 0x10, t / 0x20 % 0x8, t / 0x200;
      var request := high * 0x200 + mid * 0x20 + low;
      if t == request
      then SuccessResponse(t) == high * 0x200 + 0x100 + mid * 0x20 + low
           && ErrorResponse(t) == high * 0x200 + 0x100 + mid * 0x20 + 0x10 + low
      else SuccessResponse(t) == -1 && ErrorResponse(t) == -1
  {
    var a, b := t / 0x10 % 2, t / 0x100 % 2;
    assert t / 0x10 == 2 * (t / 0x20) + a && t / 0x100 == 2 * (t / 0x200) + b;
    assert t / 0x20 == 8 * (t / 0x100) + t / 0x20 % 0x8;
    assert t == 0x10 * (t / 0x10) + t % 0x10;
  }

  /** The priority in a ping of a host candidate is the one a peer-reflexive candidate of the same local
      preference and component has (section 7.1.2.1 of RFC 5245). */
  lemma PingPriorityIsPrflx(localPreference: u16, component: int)
    requires 1 <= component <= 256
    ensures var host := ConnectionRank.CandidatePriority(126, localPreference, component);
      && 0 <= host < 0x1_0000_0000
      && PrflxPriority(host) == ConnectionRank.CandidatePriority(110, localPreference, component)
  {
  }

  lemma {:induction false} SplitCounts(s: seq<byte>, c: byte)
    ensures |Split(s, c)| == 1 + multiset(s)[c]
  {
    if s == [] {
    } else {
      assert s == [s[0]] + s[1..];
      SplitCounts(s[1..], c);
    }
  }

  lemma {:induction false} SplitWhole(s: seq<byte>, c: byte)
    requires c !in s
    ensures Split(s, c) == [s]
  {
    if s == [] {
    } else {
      SplitWhole(s[1..], c);
      assert [s[0]] + s[1..] == s;
    }
  }

  lemma {:induction false} SplitPair(a: seq<byte>, b: seq<byte>, c: byte)
    requires c !in a && c !in b
    ensures Split(a + [c] + b, c) == [a, b]
  {
    var s := a + [c] + b;
    if a == [] {
      assert s[1..] == b;
      SplitWhole(b, c);
    } else {
      assert s[1..] == a[1..] + [c] + b;
      SplitPair(a[1..], b, c);
      assert [s[0]] + a[1..] == a;
    }
  }

  /** A user name splits into two fields exactly if neither fragment holds a separator itself. */
  lemma SplitUserName(a: seq<byte>, b: seq<byte>, c: byte)
    ensures |Split(a + [c] + b, c)| == 2 <==> c !in a && c !in b
    ensures c !in a && c !in b ==> Split(a + [c] + b, c) == [a, b]
  {
    SplitCounts(a + [c] + b, c);
    assert c in a <==> c in multiset(a);
    assert c in b <==> c in multiset(b);
    if c !in a && c !in b {
      SplitPair(a, b, c);
    }
  }

  /** The parser's table has no ERROR-CODE, so an error response that was read never shows its code:
      the connection always sees 600, which is none of the codes it would retry after. */
  function ErrorCodeValue(m: Msg): int {
    match GetAttribute(m.attrs, ERROR_CODE)
    case Some(ErrorCodeAttr(_, hundreds, number, _)) => hundreds * 100 + number
    case _ => GLOBAL_FAIL
  }

  lemma {:induction false} ParsedLacksUnknown(d: seq<byte>, pos: nat, t: int)
    requires pos <= |d| && KindOf(t).UnknownValue?
    ensures GetAttribute(Parse(d, pos).attrs, t).None?
    decreases |d| - pos
  {
    if pos == |d| || NextPos(d, pos).None? {
    } else {
      var rest := Parse(d, NextPos(d, pos).value).attrs;
      ParsedLacksUnknown(d, NextPos(d, pos).value, t);
      var here := StoredAt(d, pos);
      assert here == [] || (|here| == 1 && here[0].atype == TypeAt(d, pos));
      assert here == [] ==> here + rest == rest;
      assert here != [] ==> (here + rest)[1..] == rest;
    }
  }

  lemma ErrorCodeNeverRead(into: Msg, d: seq<byte>)
    requires Read(into, d).ok
    ensures ErrorCodeValue(Read(into, d).msg) == GLOBAL_FAIL
  {
    ParsedLacksUnknown(d, HEADER_SIZE, ERROR_CODE);
  }

  lemma AddFingerprintAdds(m: Msg, crc: Crc)
    requires AddFingerprint(m, crc).ok
    ensures exists v: u32 :: AddFingerprint(m, crc).msg == AddAll(m, [UInt32Attr(FINGERPRINT, v)])
  {
    var r := AddFingerprint(m, crc).msg;
    var v := r.attrs[|m.attrs|].value32;
    assert r == AddAttribute(m, UInt32Attr(FINGERPRINT, v));
    assert AddAll(m, [UInt32Attr(FINGERPRINT, v)]) == AddAll(AddAttribute(m, UInt32Attr(FINGERPRINT, v)), []);
  }

  lemma SizeOfFour(a: Attr, b: Attr, c: Attr, d: Attr)
    ensures AttrsSize([a, b, c, d]) == Padded(ValueLength(a)) + Padded(ValueLength(b))
                                       + Padded(ValueLength(c)) + Padded(ValueLength(d)) + 16
  {
    hide Padded, ValueLength;
    SizeAppend([], a);
    SizeAppend([a], b);
    SizeAppend([a, b], c);
    SizeAppend([a, b, c], d);
    assert [] + [a] == [a] && [a] + [b] == [a, b] && [a, b] + [c] == [a, b, c] && [a, b, c] + [d] == [a, b, c, d];
  }

  lemma PingAttributesFit(remoteUfrag: seq<byte>, localUfrag: seq<byte>, localPriority: u32)
    requires |remoteUfrag| + 1 + |localUfrag| < 0x1_0000
    ensures var attrs := PingAttributes(remoteUfrag, localUfrag, localPriority);
      && AllWritable(attrs) && AllWellTyped(attrs) && Lacks(attrs, MESSAGE_INTEGRITY)
      && attrs[0] == ByteStringAttr(USERNAME, remoteUfrag + [COLON] + localUfrag)
      && AttrsSize(attrs) == Padded(|remoteUfrag| + 1 + |localUfrag|) + 28
  {
    hide AttrsSize;
    var attrs := PingAttributes(remoteUfrag, localUfrag, localPriority);
    SizeOfFour(attrs[0], attrs[1], attrs[2], attrs[3]);
  }

  lemma UnsignedPingIsFit(tid: seq<byte>, remoteUfrag: seq<byte>, localUfrag: seq<byte>, localPriority: u32)
    ensures var m := UnsignedPing(tid, remoteUfrag, localUfrag, localPriority);
      && Built(m) && m.mtype == BINDING_REQUEST && m.tid == tid
      && m.attrs == PingAttributes(remoteUfrag, localUfrag, localPriority)
  {
    hide PingAttributes, AddAll;
    var m0 := NewMsg().(tid := tid, mtype := BINDING_REQUEST);
    var attrs := PingAttributes(remoteUfrag, localUfrag, localPriority);
    AddAllAppends(m0, attrs);
    assert m0.attrs + attrs == attrs;
  }

  /** A ping on the wire, before it is signed: the user name "peer:own" with its padding, ICE-CONTROLLING with a
      tie breaker of 0, an empty USE-CANDIDATE, and PRIORITY with type preference 110. */
  lemma PingOnTheWire(tid: seq<byte>, remoteUfrag: seq<byte>, localUfrag: seq<byte>, localPriority: u32)
    requires |tid| == 12 && Padded(|remoteUfrag| + 1 + |localUfrag|) + 28 < 0x1_0000
    ensures AllWritable(UnsignedPing(tid, remoteUfrag, localUfrag, localPriority).attrs)
    ensures var name := remoteUfrag + [0x3A] + localUfrag;
      Encode(UnsignedPing(tid, remoteUfrag, localUfrag, localPriority))
      == [0x00, 0x01] + Be16(Padded(|name|) + 28) + [0x21, 0x12, 0xA4, 0x42] + tid
         + ([0x00, 0x06] + Be16(|name|) + name + Zeros(Pad(|name|)))
         + ([0x80, 0x2A, 0x00, 0x08] + Zeros(8)) + [0x00, 0x25, 0x00, 0x00]
         + ([0x00, 0x24, 0x00, 0x04, 110] + Be32(localPriority)[1..])
  {
    hide EncodeAttr, EncodeAttrs, AddAll, UnsignedPing, Padded, AttrsSize, Be16, Be32, Pad, Zeros, PrflxPriority,
      ByteString, Encode;
    var m, attrs := UnsignedPing(tid, remoteUfrag, localUfrag, localPriority),
                    PingAttributes(remoteUfrag, localUfrag, localPriority);
    UnsignedPingIsFit(tid, remoteUfrag, localUfrag, localPriority);
    PingAttributesFit(remoteUfrag, localUfrag, localPriority);
    FourEncoded(attrs[0], attrs[1], attrs[2], attrs[3]);
    PingPieces(remoteUfrag + [0x3A] + localUfrag, localPriority);
    FrontOnTheWire(m);
    var head := [0x00, 0x01] + Be16(m.length) + [0x21, 0x12, 0xA4, 0x42] + tid;
    FourJoined(head, EncodeAttr(attrs[0]), EncodeAttr(attrs[1]), EncodeAttr(attrs[2]), EncodeAttr(attrs[3]));
  }

  lemma FourJoined(head: seq<byte>, a: seq<byte>, b: seq<byte>, c: seq<byte>, d: seq<byte>)
    ensures head + (a + b + c + d) == head + a + b + c + d
  {
  }

  lemma FrontOnTheWire(m: Msg)
    requires AllWritable(m.attrs) && m.mtype == BINDING_REQUEST
    ensures Encode(m) == [0x00, 0x01] + Be16(m.length) + [0x21, 0x12, 0xA4, 0x42] + m.tid + EncodeAttrs(m.attrs)
  {
  }

  lemma FourEncoded(a: Attr, b: Attr, c: Attr, d: Attr)
    requires Writable(a) && Writable(b) && Writable(c) && Writable(d)
    ensures EncodeAttrs([a, b, c, d]) == EncodeAttr(a) + EncodeAttr(b) + EncodeAttr(c) + EncodeAttr(d)
  {
    hide EncodeAttr, EncodeAttrs;
    EncodeSingle(a);
    EncodeOneMore([], [a], b);
    EncodeOneMore([], [a, b], c);
    EncodeOneMore([], [a, b, c], d);
    assert [a] + [b] == [a, b] && [a, b] + [c] == [a, b, c] && [a, b, c] + [d] == [a, b, c, d];
    NothingInFront(EncodeAttrs([a]));
    NothingInFront(EncodeAttrs([a, b]));
    NothingInFront(EncodeAttrs([a, b, c]));
    NothingInFront(EncodeAttrs([a, b, c, d]));
  }

  lemma NothingInFront(x: seq<byte>)
    ensures [] + x == x
  {
  }

  lemma PingPieces(name: seq<byte>, localPriority: u32)
    requires |name| < 0x1_0000
    ensures EncodeAttr(ByteString(USERNAME, name)) == [0x00, 0x06] + Be16(|name|) + name + Zeros(Pad(|name|))
    ensures EncodeAttr(UInt64Attr(ICE_CONTROLLING, 0)) == [0x80, 0x2A, 0x00, 0x08] + Zeros(8)
    ensures EncodeAttr(ByteStringAttr(USE_CANDIDATE, [])) == [0x00, 0x25, 0x00, 0x00]
    ensures EncodeAttr(UInt32Attr(PRIORITY, PrflxPriority(localPriority)))
         == [0x00, 0x24, 0x00, 0x04, 110] + Be32(localPriority)[1..]
  {
    NamePiece(name);
    ControllingPiece();
    PriorityPiece(localPriority);
  }

  lemma NamePiece(name: seq<byte>)
    requires |name| < 0x1_0000
    ensures EncodeAttr(ByteString(USERNAME, name)) == [0x00, 0x06] + Be16(|name|) + name + Zeros(Pad(|name|))
    ensures EncodeAttr(ByteStringAttr(USE_CANDIDATE, [])) == [0x00, 0x25, 0x00, 0x00]
  {
    assert Be16(USERNAME) == [0x00, 0x06] && Be16(USE_CANDIDATE) == [0x00, 0x25] && Be16(0) == [0x00, 0x00];
  }

  lemma ControllingPiece()
    ensures EncodeAttr(UInt64Attr(ICE_CONTROLLING, 0)) == [0x80, 0x2A, 0x00, 0x08] + Zeros(8)
  {
    assert Be64(0) == Zeros(8);
  }

  lemma PriorityPiece(p: u32)
    ensures EncodeAttr(UInt32Attr(PRIORITY, PrflxPriority(p))) == [0x00, 0x24, 0x00, 0x04, 110] + Be32(p)[1..]
  {
    hide Be32, PrflxPriority;
    PriorityBytes(p);
    assert Be16(PRIORITY) == [0x00, 0x24] && Be16(4) == [0x00, 0x04];
    assert Zeros(Pad(4)) == [];
  }

  lemma PriorityBytes(p: u32)
    ensures Be32(PrflxPriority(p)) == [110] + Be32(p)[1..]
  {
    var low, third := p % 0x1_0000, p / 0x1_0000 % 0x100;
    assert p % 0x100_0000 == third * 0x1_0000 + low;
    var q := PrflxPriority(p);
    assert q == (110 * 0x100 + third) * 0x1_0000 + low;
    Halves(110 * 0x100 + third, low);
    assert Be32(q) == Be16(110 * 0x100 + third) + Be16(low);
    assert Be16(110 * 0x100 + third) == [110, third];
    Halves(p / 0x1_0000, low);
    assert Be16(p / 0x1_0000)[1] == third;
  }

  lemma Halves(high: u16, low: u16)
    ensures (high * 0x1_0000 + low) / 0x1_0000 == high && (high * 0x1_0000 + low) % 0x1_0000 == low
  {
  }

  lemma PriorityFound(remoteUfrag: seq<byte>, localUfrag: seq<byte>, localPriority: u32, attrs: seq<Attr>)
    requires PingAttributes(remoteUfrag, localUfrag, localPriority) <= attrs
    ensures GetAttribute(Known(attrs), PRIORITY) == Some(UInt32Attr(PRIORITY, PrflxPriority(localPriority)))
  {
    hide GetAttribute, PrflxPriority, Known;
    var ping := PingAttributes(remoteUfrag, localUfrag, localPriority);
    assert attrs == ping[..3] + [ping[3]] + attrs[4..];
    GetBehind(ping[..3], ping[3], attrs[4..]);
    KnownKeeps(attrs, PRIORITY);
  }

  /** What the peer reads from a ping. */
  lemma PingRead(tid: seq<byte>, remoteUfrag: seq<byte>, localUfrag: seq<byte>, localPriority: u32,
                 remotePwd: seq<byte>, hmac: Hmac, crc: Crc, pwd: seq<byte>)
    requires |tid| == 12
    requires Padded(|remoteUfrag| + 1 + |localUfrag|) + 60 < 0x1_0000
    requires AddMessageIntegrity(UnsignedPing(tid, remoteUfrag, localUfrag, localPriority), remotePwd, hmac).ok
    ensures var unsigned := UnsignedPing(tid, remoteUfrag, localUfrag, localPriority);
      var ping := PreparePing(tid, remoteUfrag, localUfrag, localPriority, remotePwd, hmac, crc);
      && AllWritable(unsigned.attrs) && AllWritable(ping.attrs)
      && ValidateFingerprint(Encode(ping), crc) && Read(NewMsg(), Encode(ping)).ok
      && var got := Read(NewMsg(), Encode(ping)).msg;
      && got.tid == tid && got.mtype == BINDING_REQUEST
      && GetAttribute(got.attrs, USERNAME) == Some(ByteStringAttr(USERNAME, remoteUfrag + [COLON] + localUfrag))
      && GetAttribute(got.attrs, MESSAGE_INTEGRITY).Some?
      && GetAttribute(got.attrs, PRIORITY) == Some(UInt32Attr(PRIORITY, PrflxPriority(localPriority)))
      && (ValidateIntegrity(got, pwd, hmac).integrity == IntegrityOk
          <==> hmac(pwd, SignedPrefix(unsigned)) == hmac(remotePwd, SignedPrefix(unsigned)))
  {
    hide Encode, SignedPrefix, Read, ValidateFingerprint, AddMessageIntegrity, AddFingerprint, AddAll,
      UnsignedPing, PingAttributes, Padded, GetAttribute, Known;
    var unsigned := UnsignedPing(tid, remoteUfrag, localUfrag, localPriority);
    UnsignedPingIsFit(tid, remoteUfrag, localUfrag, localPriority);
    PingAttributesFit(remoteUfrag, localUfrag, localPriority);
    var signed := AddMessageIntegrity(unsigned, remotePwd, hmac).msg;
    SigningSignsPrefix(unsigned, remotePwd, hmac);
    FingerprintAccepted(signed, crc);
    AddFingerprintAdds(signed, crc);
    var v: u32 :| AddFingerprint(signed, crc).msg == AddAll(signed, [UInt32Attr(FINGERPRINT, v)]);
    var extra := [UInt32Attr(FINGERPRINT, v)];
    EncodeSingle(extra[0]);
    IntegrityAccepted(unsigned, remotePwd, hmac, extra, NewMsg(), pwd);
    SignedIsAddAll(unsigned, remotePwd, hmac, extra);
    var ping := AddAll(signed, extra);
    ReadAfterWrite(ping, NewMsg());
    KnownKeeps(ping.attrs, USERNAME);
    KnownKeeps(ping.attrs, MESSAGE_INTEGRITY);
    PriorityFound(remoteUfrag, localUfrag, localPriority, ping.attrs);
    GetBehind([], unsigned.attrs[0], ping.attrs[1..]);
    GetBehind(unsigned.attrs, signed.attrs[|unsigned.attrs|], extra);
    assert [] + [unsigned.attrs[0]] + ping.attrs[1..] == ping.attrs;
  }

  /** What the peer does with a ping is decided by its own credentials: it takes the request, and reads
      the sender's fragment out of it, exactly when the user name starts with its fragment and its
      password hashes the request to the value the sender put there; otherwise it refuses it as
      unauthorized. A fragment with a colon in it is always refused. */
  lemma PingDecided(tid: seq<byte>, remoteUfrag: seq<byte>, localUfrag: seq<byte>, localPriority: u32,
                    remotePwd: seq<byte>, hmac: Hmac, crc: Crc, ufrag: seq<byte>, pwd: seq<byte>)
    requires |tid| == 12
    requires Padded(|remoteUfrag| + 1 + |localUfrag|) + 60 < 0x1_0000
    requires AddMessageIntegrity(UnsignedPing(tid, remoteUfrag, localUfrag, localPriority), remotePwd, hmac).ok
    ensures var unsigned := UnsignedPing(tid, remoteUfrag, localUfrag, localPriority);
      var ping := PreparePing(tid, remoteUfrag, localUfrag, localPriority, remotePwd, hmac, crc);
      && AllWritable(unsigned.attrs) && AllWritable(ping.attrs)
      && Read(NewMsg(), Encode(ping)).ok && Read(NewMsg(), Encode(ping)).msg.tid == tid
      && var taken := GetStunMessage(Encode(ping), ufrag, pwd, hmac, crc);
      && (taken.Accepted? <==>
            && COLON !in remoteUfrag && COLON !in localUfrag && ufrag == remoteUfrag
            && hmac(pwd, SignedPrefix(unsigned)) == hmac(remotePwd, SignedPrefix(unsigned)))
      && (taken.Accepted? ==> taken.remoteUfrag == localUfrag && taken.msg.tid == tid
                              && taken.msg.mtype == BINDING_REQUEST && taken.msg.integrity == IntegrityOk
                              && GetAttribute(taken.msg.attrs, PRIORITY)
                                 == Some(UInt32Attr(PRIORITY, PrflxPriority(localPriority))))
      && (!taken.Accepted? ==> taken == Refused(UNAUTHORIZED))
  {
    hide Encode, SignedPrefix, Read, ValidateFingerprint, AddMessageIntegrity, PreparePing, UnsignedPing, Padded,
      GetAttribute, ValidateIntegrity, AllWritable, Split;
    PingRead(tid, remoteUfrag, localUfrag, localPriority, remotePwd, hmac, crc, pwd);
    SplitUserName(remoteUfrag, localUfrag, COLON);
    var ping := PreparePing(tid, remoteUfrag, localUfrag, localPriority, remotePwd, hmac, crc);
    IntegrityKeepsRest(Read(NewMsg(), Encode(ping)).msg, pwd, hmac);
  }

  lemma IntegrityKeepsRest(m: Msg, pwd: seq<byte>, hmac: Hmac)
    ensures var n := ValidateIntegrity(m, pwd, hmac); n.attrs == m.attrs && n.tid == m.tid && n.mtype == m.mtype
  {
  }
}
