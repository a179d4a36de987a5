/** What an end takes from the network: every packet is judged by its bytes, whoever sent it. */
module StunIntake {
  import opened Base
  import opened StunAttributes
  import opened StunCodec
  import opened StunTheorems
  import opened StunBinding
  import opened StunTransactions
  import Requests = StunRequests

  // ---- The bytes of a packet ----

  /** The packet has at least a header and an attribute of 8 bytes, whole words and the cookie, and it ends
      with the FINGERPRINT of all that stands before (section 15.5 of RFC 5389). */
  ghost predicate Fingerprinted(d: seq<byte>, crc: Crc) {
    && |d| % 4 == 0 && |d| >= 28 && d[4..8] == [0x21, 0x12, 0xA4, 0x42]
    && var front := d[..|d| - 8];
       d == front + EncodeAttr(UInt32Attr(FINGERPRINT, Xor32(crc(front), FINGERPRINT_XOR)))
  }

  lemma PutGet16(d: seq<byte>, pos: nat)
    requires pos + 2 <= |d|
    ensures Be16(GetBe16(d, pos)) == d[pos..pos + 2]
  {
  }

  lemma PutGet32(d: seq<byte>, pos: nat)
    requires pos + 4 <= |d|
    ensures Be32(GetBe32(d, pos)) == d[pos..pos + 4]
  {
    PutGet16(d, pos);
    PutGet16(d, pos + 2);
    assert d[pos..pos + 4] == d[pos..pos + 2] + d[pos + 2..pos + 4];
  }

  lemma CookieBytes(d: seq<byte>)
    requires |d| >= 8
    ensures GetBe32(d, 4) == MAGIC_COOKIE <==> d[4..8] == [0x21, 0x12, 0xA4, 0x42]
  {
    PutGet32(d, 4);
    GetPut32([0, 0, 0, 0] + Be32(MAGIC_COOKIE), 4, MAGIC_COOKIE);
    assert Be32(MAGIC_COOKIE) == [0x21, 0x12, 0xA4, 0x42];
    if d[4..8] == Be32(MAGIC_COOKIE) {
      GetPut32(d, 4, MAGIC_COOKIE);
    }
  }

  /** The last 8 bytes are a FINGERPRINT of value `v` exactly if their fields say so. */
  lemma LastAttribute(d: seq<byte>, v: u32)
    requires |d| >= 8
    ensures var n := |d| - 8;
      d == d[..n] + EncodeAttr(UInt32Attr(FINGERPRINT, v))
      <==> GetBe16(d, n) == FINGERPRINT && GetBe16(d, n + 2) == 4 && GetBe32(d, n + 4) == v
  {
    hide GetBe16, GetBe32, Be16, Be32;
    var n, fp := |d| - 8, UInt32Attr(FINGERPRINT, v);
    var whole := d[..n] + EncodeAttr(fp);
    assert EncodeAttr(fp) == Be16(FINGERPRINT) + Be16(4) + Be32(v);
    if d == whole {
      AttrAt(d, n, fp);
      GetPut32(d, n + 4, v);
    }
    if GetBe16(d, n) == FINGERPRINT && GetBe16(d, n + 2) == 4 && GetBe32(d, n + 4) == v {
      PutGet16(d, n);
      PutGet16(d, n + 2);
      PutGet32(d, n + 4);
      assert d == d[..n] + (d[n..n + 2] + d[n + 2..n + 4] + d[n + 4..n + 8]);
    }
  }

  lemma FingerprintDecided(d: seq<byte>, crc: Crc)
    ensures ValidateFingerprint(d, crc) <==> Fingerprinted(d, crc)
  {
    hide Xor, GetBe16, GetBe32, EncodeAttr;
    if |d| % 4 == 0 && |d| >= 28 {
      var n := |d| - 8;
      CookieBytes(d);
      LastAttribute(d, Xor32(crc(d[..n]), FINGERPRINT_XOR));
      XorUndo(crc(d[..n]), FINGERPRINT_XOR);
      XorUndo(GetBe32(d, n + 4), FINGERPRINT_XOR);
    }
  }

  /** The packet has a header without the bit 0x0800, its length field is right, and `read` can make out every
      attribute. */
  ghost predicate Wellformed(d: seq<byte>) {
    && |d| >= HEADER_SIZE && (GetBe16(d, 0) / 0x800) % 2 == 0 && GetBe16(d, 2) == |d| - HEADER_SIZE
    && Parse(d, HEADER_SIZE).ok
  }

  lemma ReadDecided(m: Msg, d: seq<byte>)
    ensures Read(m, d).ok <==> Wellformed(d)
    ensures Wellformed(d) ==> Read(m, d).msg == m.(mtype := GetBe16(d, 0), length := GetBe16(d, 2),
                                                  tid := ReceivedId(d), attrs := Parse(d, HEADER_SIZE).attrs,
                                                  buffer := d)
  {
    hide GetBe16, GetBe32, ReceivedId, Parse;
  }

  /** What `read` leaves in a message, whatever it was given: it stores the fields one after the other and stops
      at the first that is missing or wrong. An id without the cookie in front has 16 bytes, as in RFC 3489. */
  lemma ReadLeaves(m: Msg, d: seq<byte>)
    ensures var n := Read(m, d).msg;
      var hasType := |d| >= 2;
      var hasLength := |d| >= 4 && (GetBe16(d, 0) / 0x800) % 2 == 0;
      var hasId := hasLength && |d| >= 20;
      && n.buffer == d && n.password == m.password && n.integrity == m.integrity
      && n.mtype == (if hasType then GetBe16(d, 0) else m.mtype)
      && n.length == (if hasLength then GetBe16(d, 2) else m.length)
      && n.tid == (if !hasId then m.tid else if d[4..8] == [0x21, 0x12, 0xA4, 0x42] then d[8..20] else d[4..20])
      && n.attrs == (if hasId && GetBe16(d, 2) == |d| - 20 then Parse(d, 20).attrs else m.attrs)
  {
    hide GetBe16, GetBe32, Parse, ReceivedId;
    if |d| >= 20 {
      IdOf(d);
    }
  }

  lemma IdOf(d: seq<byte>)
    requires |d| >= 20
    ensures ReceivedId(d) == if d[4..8] == [0x21, 0x12, 0xA4, 0x42] then d[8..20] else d[4..20]
  {
    hide GetBe32;
    CookieBytes(d);
    assert d[4..20] == d[4..8] + d[8..20];
  }

  /** The value of the first attribute of that type which `read` stored. */
  ghost function StoredValue(d: seq<byte>, t: u16): Option<seq<byte>>
    requires |d| >= HEADER_SIZE && Parse(d, HEADER_SIZE).ok && KindOf(t).ByteStringValue?
  {
    FirstStoredIsFirst(d, HEADER_SIZE, t);
    match FirstStored(d, HEADER_SIZE, t)
    case None => None
    case Some(p) => Some(d[p + 4..p + 4 + LengthAt(d, p)])
  }

  /** The 20 bytes behind the first header of a MESSAGE-INTEGRITY, as the integrity check walks, are the
      hash of what stands before, with the length field set to end behind them (section 15.4 of RFC 5389). */
  ghost predicate SignedWith(d: seq<byte>, pwd: seq<byte>, hmac: Hmac) {
    match Scan(d, HEADER_SIZE, MESSAGE_INTEGRITY)
    case None => false
    case Some(q) =>
      && q + 24 <= |d|
      && d[q + 4..q + 24] == hmac(pwd, d[..2] + Be16((q + 4) % 0x1_0000) + d[4..q])
  }

  lemma SignatureDecided(d: seq<byte>, pwd: seq<byte>, hmac: Hmac)
    ensures CheckIntegrity(d, pwd, hmac)
      <==> |d| % 4 == 0 && |d| >= 20 && GetBe16(d, 2) == |d| - 20 && SignedWith(d, pwd, hmac)
  {
    hide GetBe16, Scan, Parse, SetBe16;
    match Scan(d, HEADER_SIZE, MESSAGE_INTEGRITY)
    case None =>
    case Some(q) =>
      if q + 24 <= |d| && GetBe16(d, 2) == |d| - 20 {
        PatchedBytes(d, q);
      }
  }

  /** What the check makes of a message: the password is kept; the status is "none" exactly if no signature is
      stored, and else "ok" exactly if the bytes it was read from carry the right hash. */
  lemma ValidationDecided(m: Msg, pwd: seq<byte>, hmac: Hmac)
    ensures var n, d := ValidateIntegrity(m, pwd, hmac), m.buffer;
      && n.password == pwd && n.buffer == d && n.mtype == m.mtype && n.tid == m.tid && n.attrs == m.attrs
      && (n.integrity == NoIntegrity <==> GetAttribute(m.attrs, MESSAGE_INTEGRITY).None?)
      && (n.integrity == IntegrityOk <==>
            && GetAttribute(m.attrs, MESSAGE_INTEGRITY).Some?
            && |d| % 4 == 0 && |d| >= 20 && GetBe16(d, 2) == |d| - 20 && SignedWith(d, pwd, hmac))
      && n.integrity != NotSet
  {
    hide CheckIntegrity, SignedWith, GetBe16, GetAttribute;
    SignatureDecided(m.buffer, pwd, hmac);
  }

  lemma PatchedBytes(d: seq<byte>, q: nat)
    requires HEADER_SIZE <= q && q + 24 <= |d| && GetBe16(d, 2) == |d| - 20
    ensures HashedPrefix(d, q) == d[..2] + Be16((q + 4) % 0x1_0000) + d[4..q]
  {
    var x: u16 := (q + 4) % 0x1_0000;
    if |d| == q + 24 {
      PutGet16(d, 2);
      assert d[..q] == d[..2] + d[2..4] + d[4..q];
    } else {
      assert SetBe16(d[..q], 2, x) == d[..2] + Be16(x) + d[4..q];
    }
  }

  lemma StoredDecided(d: seq<byte>, t: u16)
    requires |d| >= HEADER_SIZE && Parse(d, HEADER_SIZE).ok && KindOf(t).ByteStringValue?
    ensures GetAttribute(Parse(d, HEADER_SIZE).attrs, t)
         == match StoredValue(d, t) case None => None case Some(x) => Some(ByteStringAttr(t, x))
  {
    hide Parse, FirstStored, GetAttribute, NextPos, TypeAt, LengthAt;
    FirstStoredIsFirst(d, HEADER_SIZE, t);
  }

  // ---- User names ----

  lemma SplitOnce(s: seq<byte>, c: byte)
    requires |Split(s, c)| == 1
    ensures c !in s && Split(s, c) == [s] && [c] + s == [] + [c] + s
  {
    SplitCounts(s, c);
    assert c !in multiset(s);
    SplitWhole(s, c);
  }

  /** Two fields are what stands before and behind the only separator. */
  lemma {:induction false} SplitBack(s: seq<byte>, c: byte)
    requires |Split(s, c)| == 2
    ensures var f := Split(s, c); s == f[0] + [c] + f[1] && c !in f[0] && c !in f[1]
  {
    if s == [] {
    } else {
      var rest := Split(s[1..], c);
      if s[0] == c {
        SplitOnce(s[1..], c);
      } else {
        SplitBack(s[1..], c);
        assert s == [s[0]] + s[1..];
        assert [s[0]] + (rest[0] + [c] + rest[1]) == ([s[0]] + rest[0]) + [c] + rest[1];
      }
    }
  }

  /** The user name is the own fragment, a colon and the fragment of the sender, with no other colon. */
  ghost predicate Names(name: seq<byte>, ufrag: seq<byte>, peer: seq<byte>) {
    name == ufrag + [COLON] + peer && COLON !in ufrag && COLON !in peer
  }

  lemma NamesDecided(name: seq<byte>, ufrag: seq<byte>)
    ensures var f := Split(name, COLON);
      && (|f| == 2 && f[0] == ufrag <==> exists peer :: Names(name, ufrag, peer))
      && (|f| == 2 && f[0] == ufrag ==> Names(name, ufrag, f[1]))
  {
    hide Split;
    if |Split(name, COLON)| == 2 {
      SplitBack(name, COLON);
      if Split(name, COLON)[0] == ufrag {
        assert Names(name, ufrag, Split(name, COLON)[1]);
      }
    }
    forall peer | Names(name, ufrag, peer)
      ensures |Split(name, COLON)| == 2 && Split(name, COLON)[0] == ufrag
    {
      SplitUserName(ufrag, peer, COLON);
    }
  }

  // ---- Requests ----

  /** A binding request as it should be: complete, with the user name it names, and signed with the password. */
  ghost predicate Authentic(d: seq<byte>, ufrag: seq<byte>, pwd: seq<byte>, peer: seq<byte>, hmac: Hmac, crc: Crc) {
    && Fingerprinted(d, crc) && Wellformed(d) && GetBe16(d, 0) == 0x0001
    && StoredValue(d, USERNAME).Some? && Names(StoredValue(d, USERNAME).value, ufrag, peer)
    && StoredValue(d, MESSAGE_INTEGRITY).Some? && SignedWith(d, pwd, hmac)
  }

  /** A packet names one sender. */
  lemma OneName(d: seq<byte>, ufrag: seq<byte>, pwd: seq<byte>, peer: seq<byte>, other: seq<byte>, hmac: Hmac, crc: Crc)
    requires Authentic(d, ufrag, pwd, peer, hmac, crc) && Authentic(d, ufrag, pwd, other, hmac, crc)
    ensures peer == other
  {
    hide Fingerprinted, StoredValue, SignedWith, Parse, GetBe16;
    var n := |ufrag| + 1;
    assert (ufrag + [COLON] + peer)[n..] == peer;
    assert (ufrag + [COLON] + other)[n..] == other;
  }

  /** What becomes of any packet, by its bytes. A packet without its fingerprint, or that `read` cannot make
      out, is none of STUN. A request is refused with 400 exactly if its user name or its signature is
      missing, taken exactly if it is authentic, and refused with 401 in all other cases. */
  lemma IntakeDecided(d: seq<byte>, ufrag: seq<byte>, pwd: seq<byte>, hmac: Hmac, crc: Crc)
    ensures var taken := GetStunMessage(d, ufrag, pwd, hmac, crc);
      if !Fingerprinted(d, crc) || !Wellformed(d) then taken == NotStun
      else if GetBe16(d, 0) != 0x0001 then taken == Accepted(Read(NewMsg(), d).msg, [])
      else
        && (taken == Refused(400) <==>
              StoredValue(d, USERNAME).None? || StoredValue(d, MESSAGE_INTEGRITY).None?)
        && (taken.Accepted? <==> exists peer :: Authentic(d, ufrag, pwd, peer, hmac, crc))
        && (taken.Accepted? ==> Authentic(d, ufrag, pwd, taken.remoteUfrag, hmac, crc)
                                && taken.msg.attrs == Parse(d, HEADER_SIZE).attrs && taken.msg.tid == d[8..20]
                                && taken.msg.mtype == 0x0001)
        && (taken != Refused(400) && !taken.Accepted? ==> taken == Refused(401))
  {
    hide Split, GetBe16, GetBe32, Fingerprinted, Parse, StoredValue, SignedWith, CheckIntegrity, Names, Read,
      ValidateFingerprint, GetAttribute, ReceivedId;
    FingerprintDecided(d, crc);
    ReadDecided(NewMsg(), d);
    if Fingerprinted(d, crc) && Wellformed(d) {
      IdBytes(d, crc);
      SignatureDecided(d, pwd, hmac);
      StoredDecided(d, USERNAME);
      StoredDecided(d, MESSAGE_INTEGRITY);
      if StoredValue(d, USERNAME).Some? {
        var name := StoredValue(d, USERNAME).value;
        NamesDecided(name, ufrag);
        forall peer
          ensures Authentic(d, ufrag, pwd, peer, hmac, crc)
             <==> && GetBe16(d, 0) == 0x0001 && Names(name, ufrag, peer)
                  && StoredValue(d, MESSAGE_INTEGRITY).Some? && SignedWith(d, pwd, hmac)
        {
        }
      }
    }
  }

  lemma IdBytes(d: seq<byte>, crc: Crc)
    requires Fingerprinted(d, crc)
    ensures |d| >= HEADER_SIZE && |d| % 4 == 0 && ReceivedId(d) == d[8..20]
  {
    hide EncodeAttr, GetBe32;
    CookieBytes(d);
  }

  // ---- Responses ----

  /** Any packet reaches the request manager exactly if it is a response with its fingerprint that was signed with
      the peer's password; it then stands for the transaction its bytes name. */
  lemma ResponseDecided(d: seq<byte>, remotePwd: seq<byte>, ufrag: seq<byte>, pwd: seq<byte>, hmac: Hmac, crc: Crc)
    ensures var e := Reaching(d, remotePwd, ufrag, pwd, hmac, crc);
      && (e.Some? <==> && Fingerprinted(d, crc) && Wellformed(d)
                       && (GetBe16(d, 0) == 0x0101 || GetBe16(d, 0) == 0x0111)
                       && StoredValue(d, MESSAGE_INTEGRITY).Some? && SignedWith(d, remotePwd, hmac))
      && (e.Some? ==> e.value == Requests.Receive(d[8..20], GetBe16(d, 0)))
  {
    hide Split, GetBe16, GetBe32, Fingerprinted, Parse, StoredValue, SignedWith, CheckIntegrity, Names, Read,
      ValidateFingerprint, GetAttribute, ReceivedId;
    FingerprintDecided(d, crc);
    ReadDecided(NewMsg(), d);
    if Fingerprinted(d, crc) && Wellformed(d) {
      IdBytes(d, crc);
      SignatureDecided(d, remotePwd, hmac);
      StoredDecided(d, MESSAGE_INTEGRITY);
    }
  }
}
