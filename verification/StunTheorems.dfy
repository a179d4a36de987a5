/** What writing, reading, signing and fingerprinting promise together. */
module StunTheorems {
  import opened Base
  import opened StunAttributes
  import opened StunCodec

  /** The length field of a message that was put together attribute by attribute. */
  predicate Built(m: Msg) {
    m.length == AttrsSize(m.attrs) % 0x1_0000
  }

  predicate AllWellTyped(attrs: seq<Attr>) {
    forall i :: 0 <= i < |attrs| ==> WellTyped(attrs[i])
  }

  predicate Lacks(attrs: seq<Attr>, t: int) {
    forall i :: 0 <= i < |attrs| ==> attrs[i].atype != t
  }

  /** The attributes the parser's table knows, in order. */
  function Known(attrs: seq<Attr>): seq<Attr> {
    if attrs == [] then []
    else (if KindOf(attrs[0].atype).UnknownValue? then [] else [attrs[0]]) + Known(attrs[1..])
  }

  // ---- The length field ----

  lemma AddInSixteenBits(x: nat, y: nat)
    ensures (x % 0x1_0000 + y) % 0x1_0000 == (x + y) % 0x1_0000
  {
  }

  lemma AddAttributeKeepsLength(m: Msg, a: Attr)
    requires Built(m)
    ensures Built(AddAttribute(m, a))
  {
    hide AttrsSize, ValueLength, Padded;
    SizeAppend(m.attrs, a);
    AddInSixteenBits(AttrsSize(m.attrs), ATTRIBUTE_HEADER + Padded(ValueLength(a)));
  }

  lemma IntegrityKeepsLength(m: Msg, key: seq<byte>, hmac: Hmac)
    requires Built(m)
    ensures Built(AddMessageIntegrity(m, key, hmac).msg)
  {
    hide Encode, AttrsSize;
    AddAttributeKeepsLength(m, AddMessageIntegrity(m, key, hmac).msg.attrs[|m.attrs|]);
  }

  lemma FingerprintKeepsLength(m: Msg, crc: Crc)
    requires Built(m)
    ensures Built(AddFingerprint(m, crc).msg)
  {
    hide Encode, Xor32, AttrsSize;
    AddAttributeKeepsLength(m, AddFingerprint(m, crc).msg.attrs[|m.attrs|]);
  }

  lemma LengthTracksAttributes(m: Msg, a: Attr, key: seq<byte>, hmac: Hmac, crc: Crc)
    requires Built(m)
    ensures Built(NewMsg()) && Built(AddAttribute(m, a))
    ensures Built(AddMessageIntegrity(m, key, hmac).msg)
    ensures Built(AddFingerprint(m, crc).msg)
  {
    hide AddMessageIntegrity, AddFingerprint;
    AddAttributeKeepsLength(m, a);
    IntegrityKeepsLength(m, key, hmac);
    FingerprintKeepsLength(m, crc);
  }

  lemma {:induction false} AddAllAppends(m: Msg, extra: seq<Attr>)
    requires Built(m)
    ensures Built(AddAll(m, extra))
    ensures AddAll(m, extra) == m.(attrs := m.attrs + extra, length := AddAll(m, extra).length)
    decreases extra
  {
    if extra == [] {
      assert m.attrs + extra == m.attrs;
    } else {
      hide Built;
      var m1 := AddAttribute(m, extra[0]);
      AddAttributeKeepsLength(m, extra[0]);
      AddAllAppends(m1, extra[1..]);
      assert m1.attrs + extra[1..] == m.attrs + extra;
    }
  }

  // ---- Header fields of a written message ----

  lemma HeaderFields(t: u16, length: u16, tid: seq<byte>, x: seq<byte>)
    ensures var d := Header(t, length, tid) + x;
      && d[..8 + |tid|] == Header(t, length, tid) && d[8 + |tid|..] == x
      && GetBe16(d, 0) == t && GetBe16(d, 2) == length && GetBe32(d, 4) == MAGIC_COOKIE
      && d[8..8 + |tid|] == tid
  {
    var d := Header(t, length, tid) + x;
    assert d[0..2] == Be16(t);
    assert d[2..4] == Be16(length);
    assert d[4..8] == Be32(MAGIC_COOKIE);
    GetPut16(d, 0, t);
    GetPut16(d, 2, length);
    GetPut32(d, 4, MAGIC_COOKIE);
  }

  // ---- FINGERPRINT, section 15.5 of RFC 5389 ----

  lemma FingerprintBytes(m: Msg, crc: Crc)
    requires AllWritable(m.attrs)
    ensures var r := AddFingerprint(m, crc);
      var front := Header(m.mtype, r.msg.length, m.tid) + EncodeAttrs(m.attrs);
      var fp := UInt32Attr(FINGERPRINT, Xor32(crc(front), FINGERPRINT_XOR));
      && r.ok && AllWritable(r.msg.attrs) && Encode(r.msg) == front + EncodeAttr(fp)
      && r.msg == m.(length := (m.length + 8) % 0x1_0000, attrs := m.attrs + [fp])
  {
    hide Header, EncodeAttrs, Xor32;
    var r, placeholder := AddFingerprint(m, crc), UInt32Attr(FINGERPRINT, 0);
    var head := Header(m.mtype, r.msg.length, m.tid);
    var front := head + EncodeAttrs(m.attrs);
    EncodeOneMore(head, m.attrs, placeholder);
    Pieces(front, EncodeAttr(placeholder), []);
    var fp := UInt32Attr(FINGERPRINT, Xor32(crc(front), FINGERPRINT_XOR));
    EncodeOneMore(head, m.attrs, fp);
  }

  lemma ValidatesItsFingerprint(front: seq<byte>, crc: Crc)
    requires |front| >= 8 && GetBe32(front, 4) == MAGIC_COOKIE
    ensures var d := front + EncodeAttr(UInt32Attr(FINGERPRINT, Xor32(crc(front), FINGERPRINT_XOR)));
      ValidateFingerprint(d, crc) <==> |d| % 4 == 0 && |d| >= HEADER_SIZE + 8
  {
    var fp := UInt32Attr(FINGERPRINT, Xor32(crc(front), FINGERPRINT_XOR));
    var d, n := front + EncodeAttr(fp), |front|;
    assert d[..n] == front && d[n..n + 8] == EncodeAttr(fp);
    AttrAt(d, n, fp);
    GetPut32(d, n + 4, fp.value32);
    XorUndo(crc(front), FINGERPRINT_XOR);
    assert GetBe32(d, 4) == GetBe32(front, 4);
  }

  lemma FingerprintFails(m: Msg, crc: Crc)
    requires !AllWritable(m.attrs)
    ensures !AddFingerprint(m, crc).ok
  {
    var i :| 0 <= i < |m.attrs| && !Writable(m.attrs[i]);
    assert (m.attrs + [UInt32Attr(FINGERPRINT, 0)])[i] == m.attrs[i];
  }

  lemma LengthInFront(m: Msg)
    requires AllWritable(m.attrs)
    ensures GetBe16(Encode(m), 2) == m.length
  {
    HeaderFields(m.mtype, m.length, m.tid, EncodeAttrs(m.attrs));
  }

  lemma CookieInFront(t: u16, length: u16, tid: seq<byte>, x: seq<byte>)
    ensures GetBe32(Header(t, length, tid) + x, 4) == MAGIC_COOKIE
  {
    HeaderFields(t, length, tid, x);
  }

  lemma FingerprintDecidedBySize(m: Msg, crc: Crc)
    requires AllWritable(m.attrs)
    ensures AllWritable(AddFingerprint(m, crc).msg.attrs)
    ensures var d := Encode(AddFingerprint(m, crc).msg);
      ValidateFingerprint(d, crc) <==> |m.tid| % 4 == 0 && |d| >= HEADER_SIZE + 8
  {
    hide Header, Encode, EncodeAttr, EncodeAttrs, ValidateFingerprint, Xor32, AddFingerprint;
    var r := AddFingerprint(m, crc);
    var front := Header(m.mtype, r.msg.length, m.tid) + EncodeAttrs(m.attrs);
    FingerprintBytes(m, crc);
    CookieInFront(m.mtype, r.msg.length, m.tid, EncodeAttrs(m.attrs));
    ValidatesItsFingerprint(front, crc);
    SizeAligned(m.attrs);
    AddMultipleOfFour(|m.tid|, AttrsSize(m.attrs) + 16);
    assert |front| + 8 == |m.tid| + (AttrsSize(m.attrs) + 16);
  }

  /** A message whose last step is `add_fingerprint` passes `validate_fingerprint`, for every checksum
      function, exactly when its size allows it: an id of a multiple of four bytes, and 28 bytes. */
  lemma FingerprintAccepted(m: Msg, crc: Crc)
    ensures var r := AddFingerprint(m, crc);
      && (r.ok <==> AllWritable(m.attrs))
      && (r.ok ==> AllWritable(r.msg.attrs)
                   && (ValidateFingerprint(Encode(r.msg), crc)
                       <==> |m.tid| % 4 == 0 && |Encode(r.msg)| >= HEADER_SIZE + 8))
  {
    hide Encode, ValidateFingerprint;
    if AllWritable(m.attrs) {
      FingerprintDecidedBySize(m, crc);
      FingerprintBytes(m, crc);
    } else {
      FingerprintFails(m, crc);
    }
  }

  // ---- Writing, then reading ----

  lemma {:induction false} ParseWritten(d: seq<byte>, pos: nat, attrs: seq<Attr>)
    requires AllWritable(attrs) && AllWellTyped(attrs)
    requires AttrsSize(attrs) < 0x1_0000
    requires pos <= |d| && d[pos..] == EncodeAttrs(attrs)
    ensures Parse(d, pos) == Parsed(true, Known(attrs))
    decreases |attrs|
  {
    if attrs == [] {
    } else {
      var a := attrs[0];
      var q := pos + ATTRIBUTE_HEADER + Padded(ValueLength(a));
      assert d[pos..q] == d[pos..][..q - pos] == EncodeAttr(a);
      ParseStep(d, pos, a);
      assert d[q..] == d[pos..][q - pos..] == EncodeAttrs(attrs[1..]);
      ParseWritten(d, q, attrs[1..]);
    }
  }

  /** The length check of `read` passes on a written message exactly for a 12-byte id and no wrap. */
  lemma LengthFieldMatches(tid: int, size: int, length: int)
    requires tid >= 0 && size >= 0 && length == size % 0x1_0000
    ensures 8 + tid + size - HEADER_SIZE == length <==> tid == 12 && size < 0x1_0000
  {
    if size >= 0x1_0000 {
      assert size / 0x1_0000 >= 1 && size == 0x1_0000 * (size / 0x1_0000) + length;
    }
  }

  /** `read` accepts what `write` produced, consumes all of it and yields the same message, less the
      attributes of types the table does not know, exactly under the three conditions named here. */
  lemma ReadAfterWrite(m: Msg, into: Msg)
    requires Built(m) && AllWritable(m.attrs) && AllWellTyped(m.attrs)
    ensures Read(into, Encode(m)).ok
      <==> |m.tid| == 12 && !TypeRejected(m.mtype) && AttrsSize(m.attrs) < 0x1_0000
    ensures Read(into, Encode(m)).ok ==>
      Read(into, Encode(m)).msg == into.(mtype := m.mtype, length := m.length, tid := m.tid,
                                         attrs := Known(m.attrs), buffer := Encode(m))
  {
    var d, body := Encode(m), EncodeAttrs(m.attrs);
    HeaderFields(m.mtype, m.length, m.tid, body);
    LengthFieldMatches(|m.tid|, AttrsSize(m.attrs), m.length);
    if |m.tid| == 12 && AttrsSize(m.attrs) < 0x1_0000 {
      ParseWritten(d, HEADER_SIZE, m.attrs);
      assert ReceivedId(d) == m.tid;
    }
  }

  // ---- Two walks over received bytes ----

  /** Offset of the first attribute of type `t` that the parser stores. */
  function FirstStored(d: seq<byte>, pos: nat, t: u16): Option<nat>
    requires pos <= |d|
    decreases |d| - pos
  {
    if pos == |d| || NextPos(d, pos).None? then None
    else if TypeAt(d, pos) == t && StoredAt(d, pos) != [] then Some(pos)
    else FirstStored(d, NextPos(d, pos).value, t)
  }

  lemma {:induction false} FirstStoredIsFirst(d: seq<byte>, pos: nat, t: u16)
    requires pos <= |d| && Parse(d, pos).ok
    ensures var at := FirstStored(d, pos, t);
      && (at.Some? ==> pos <= at.value < |d| && NextPos(d, at.value).Some? && StoredAt(d, at.value) != []
                       && TypeAt(d, at.value) == t)
      && GetAttribute(Parse(d, pos).attrs, t)
         == if at.None? then None else Some(StoredAt(d, at.value)[0])
    decreases |d| - pos
  {
    if pos == |d| {
    } else {
      var q := NextPos(d, pos).value;
      FirstStoredIsFirst(d, q, t);
      var here, rest := StoredAt(d, pos), Parse(d, q).attrs;
      if here == [] {
        assert here + rest == rest;
      } else {
        assert (here + rest)[0] == here[0] && (here + rest)[1..] == rest;
      }
    }
  }

  /** Where the integrity check goes on behind the attribute at `pos`. */
  function ScannerNext(d: seq<byte>, pos: nat): nat
    requires pos + ATTRIBUTE_HEADER <= |d|
  {
    pos + ATTRIBUTE_HEADER + Padded(LengthAt(d, pos))
  }

  /** The two walks part behind an unknown attribute whose padded length does not fit the uint16 it is
      computed in, and behind a uint32 attribute whose length field does not stand for four bytes. */
  predicate Parts(d: seq<byte>, pos: nat)
    requires pos + ATTRIBUTE_HEADER <= |d|
  {
    match KindOf(TypeAt(d, pos))
    case UnknownValue => LengthAt(d, pos) > 65532
    case UInt32Value => Padded(LengthAt(d, pos)) != 4
    case ByteStringValue => false
  }

  /** The first such attribute the parser meets, before any of type `t`. */
  function FirstParting(d: seq<byte>, pos: nat, t: u16): (p: Option<nat>)
    requires pos <= |d|
    ensures p.Some? ==>
      pos <= p.value && p.value + ATTRIBUTE_HEADER <= |d| && NextPos(d, p.value).Some? && Parts(d, p.value)
    decreases |d| - pos
  {
    if pos == |d| || NextPos(d, pos).None? || TypeAt(d, pos) == t then None
    else if Parts(d, pos) then Some(pos)
    else FirstParting(d, NextPos(d, pos).value, t)
  }

  /** On whole words both walks make the same step, unless they part. Behind a wrapped length the scanner
      leaves the packet, which is too short for such an attribute. */
  lemma SameStep(d: seq<byte>, pos: nat)
    requires pos < |d| && pos % 4 == 0 && |d| % 4 == 0 && HEADER_SIZE <= pos && |d| < HEADER_SIZE + 0x1_0000
    requires NextPos(d, pos).Some?
    ensures NextPos(d, pos).value == ScannerNext(d, pos) <==> !Parts(d, pos)
    ensures Parts(d, pos) && KindOf(TypeAt(d, pos)).UnknownValue? ==> ScannerNext(d, pos) > |d|
  {
    var len := LengthAt(d, pos);
    var start := pos + ATTRIBUTE_HEADER;
    if KindOf(TypeAt(d, pos)).ByteStringValue? {
      assert start % 4 == 0 && (start + len + Pad(len)) % 4 == 0;
      assert start + len <= |d|;
    }
  }

  /** Both find the same attribute unless they part before it. If they do, each goes on for itself from
      where they part; behind a wrapped length the scanner finds nothing more. */
  lemma {:induction false} ScanMeetsParser(d: seq<byte>, pos: nat, t: u16)
    requires pos <= |d| && pos % 4 == 0 && |d| % 4 == 0 && HEADER_SIZE <= pos && |d| < HEADER_SIZE + 0x1_0000
    requires !KindOf(t).UnknownValue?
    requires Parse(d, pos).ok
    ensures match FirstParting(d, pos, t)
      case None => Scan(d, pos, t) == FirstStored(d, pos, t)
      case Some(p) =>
        && Scan(d, pos, t) == Scan(d, ScannerNext(d, p), t)
        && FirstStored(d, pos, t) == FirstStored(d, NextPos(d, p).value, t)
        && Parse(d, NextPos(d, p).value).ok
        && (KindOf(TypeAt(d, p)).UnknownValue? ==> Scan(d, pos, t) == None)
    decreases |d| - pos
  {
    hide KindOf, GetBe16, NextPos, Padded, TypeAt, LengthAt, Parts;
    if pos == |d| {
    } else {
      SameStep(d, pos);
      if TypeAt(d, pos) != t && !Parts(d, pos) {
        PaddedAligned(LengthAt(d, pos));
        AddMultipleOfFour(pos, ATTRIBUTE_HEADER + Padded(LengthAt(d, pos)));
        ScanMeetsParser(d, ScannerNext(d, pos), t);
      }
    }
  }

  /** With the parser at `p` and the scanner at `q`: the one that is behind moves on, and both do where they
      stand together. True if neither of them meets an attribute of type `t` that the other does not. */
  predicate NoneMeetsAlone(d: seq<byte>, p: nat, q: nat, t: u16)
    requires p <= |d| && Parse(d, p).ok
    decreases |d| - p + if q < |d| then |d| - q else 0
  {
    if q + ATTRIBUTE_HEADER > |d| && p == |d| then true
    else if q + ATTRIBUTE_HEADER > |d| || p < q then
      TypeAt(d, p) != t && NoneMeetsAlone(d, NextPos(d, p).value, q, t)
    else if q < p then
      TypeAt(d, q) != t && NoneMeetsAlone(d, p, ScannerNext(d, q), t)
    else
      TypeAt(d, p) == t || NoneMeetsAlone(d, NextPos(d, p).value, ScannerNext(d, q), t)
  }

  lemma {:induction false} WalksCompared(d: seq<byte>, p: nat, q: nat, t: u16)
    requires p <= |d| && Parse(d, p).ok && !KindOf(t).UnknownValue?
    ensures Scan(d, q, t) == FirstStored(d, p, t) <==> NoneMeetsAlone(d, p, q, t)
    decreases |d| - p + if q < |d| then |d| - q else 0
  {
    hide KindOf, GetBe16, NextPos, Padded, TypeAt, LengthAt;
    FirstStoredIsFirst(d, p, t);
    if q + ATTRIBUTE_HEADER > |d| && p == |d| {
    } else if q + ATTRIBUTE_HEADER > |d| || p < q {
      if TypeAt(d, p) != t {
        WalksCompared(d, NextPos(d, p).value, q, t);
      }
    } else if q < p {
      if TypeAt(d, q) != t {
        WalksCompared(d, p, ScannerNext(d, q), t);
      }
    } else if TypeAt(d, p) != t {
      WalksCompared(d, NextPos(d, p).value, ScannerNext(d, q), t);
    }
  }

  lemma ScanDecided(d: seq<byte>, pos: nat, t: u16)
    requires pos <= |d| && pos % 4 == 0 && |d| % 4 == 0 && HEADER_SIZE <= pos && |d| < HEADER_SIZE + 0x1_0000
    requires !KindOf(t).UnknownValue?
    requires Parse(d, pos).ok
    ensures Scan(d, pos, t) == FirstStored(d, pos, t) <==>
      match FirstParting(d, pos, t)
      case None => true
      case Some(p) =>
        if KindOf(TypeAt(d, p)).UnknownValue? then FirstStored(d, pos, t) == None
        else p + 8 <= |d| && Parse(d, p + 8).ok && NoneMeetsAlone(d, p + 8, ScannerNext(d, p), t)
  {
    hide KindOf, GetBe16, Scan, FirstStored, NoneMeetsAlone, Padded, ScannerNext, FirstParting, TypeAt;
    ScanMeetsParser(d, pos, t);
    match FirstParting(d, pos, t)
    case None =>
    case Some(p) =>
      WalksCompared(d, NextPos(d, p).value, ScannerNext(d, p), t);
  }

  /** On a packet of whole words that `read` accepts, the integrity check looks at the first
      MESSAGE-INTEGRITY that `read` stored if the walks do not part before it. If they part at a wrapped
      length, it does so only if none is stored; if at a PRIORITY, exactly if behind it, up to the first
      that both meet, neither walk meets one alone. */
  lemma IntegrityScanAgrees(m: Msg, d: seq<byte>)
    requires Read(m, d).ok && |d| % 4 == 0
    ensures Parse(d, HEADER_SIZE).ok
    ensures var stored := FirstStored(d, HEADER_SIZE, MESSAGE_INTEGRITY);
      && (Scan(d, HEADER_SIZE, MESSAGE_INTEGRITY) == stored <==>
            match FirstParting(d, HEADER_SIZE, MESSAGE_INTEGRITY)
            case None => true
            case Some(p) =>
              if KindOf(TypeAt(d, p)).UnknownValue? then stored.None?
              else p + 8 <= |d| && Parse(d, p + 8).ok
                   && NoneMeetsAlone(d, p + 8, ScannerNext(d, p), MESSAGE_INTEGRITY))
      && (stored.None? <==> GetAttribute(Read(m, d).msg.attrs, MESSAGE_INTEGRITY).None?)
  {
    hide GetBe16, GetBe32, Scan, FirstStored, FirstParting, NoneMeetsAlone, NextPos, ScannerNext, TypeAt;
    ScanDecided(d, HEADER_SIZE, MESSAGE_INTEGRITY);
    FirstStoredIsFirst(d, HEADER_SIZE, MESSAGE_INTEGRITY);
  }

  // ---- MESSAGE-INTEGRITY, section 15.4 of RFC 5389 ----

  lemma ScanStep(d: seq<byte>, pos: nat, a: Attr, t: int)
    requires Writable(a) && a.atype != t
    requires pos + |EncodeAttr(a)| <= |d| && d[pos..pos + |EncodeAttr(a)|] == EncodeAttr(a)
    ensures Scan(d, pos, t) == Scan(d, pos + |EncodeAttr(a)|, t)
  {
    hide EncodeAttr, GetBe16, TypeAt, LengthAt, Padded;
    AttrAt(d, pos, a);
  }

  lemma EncodeSplit(attrs: seq<Attr>)
    requires AllWritable(attrs)
    ensures EncodeAttrs(attrs) == if attrs == [] then [] else EncodeAttr(attrs[0]) + EncodeAttrs(attrs[1..])
  {
  }

  lemma {:induction false} ScanSkips(d: seq<byte>, pos: nat, attrs: seq<Attr>, t: int)
    requires AllWritable(attrs) && Lacks(attrs, t)
    requires var e := EncodeAttrs(attrs); pos + |e| <= |d| && d[pos..pos + |e|] == e
    ensures Scan(d, pos, t) == Scan(d, pos + |EncodeAttrs(attrs)|, t)
    decreases |attrs|
  {
    hide Scan, EncodeAttr, AttrsSize, EncodeAttrs;
    EncodeSplit(attrs);
    if attrs == [] {
    } else {
      var first, rest := EncodeAttr(attrs[0]), EncodeAttrs(attrs[1..]);
      Pieces(first, rest, []);
      SliceOfWindow(d, pos, first + rest, 0, |first|);
      SliceOfWindow(d, pos, first + rest, |first|, |first| + |rest|);
      ScanStep(d, pos, attrs[0], t);
      ScanSkips(d, pos + |first|, attrs[1..], t);
    }
  }

  /** The bytes in front of the MESSAGE-INTEGRITY of a message that ends with it. */
  function SignedPrefix(m: Msg): seq<byte>
    requires AllWritable(m.attrs)
  {
    Header(m.mtype, (m.length + ATTRIBUTE_HEADER + INTEGRITY_SIZE) % 0x1_0000, m.tid) + EncodeAttrs(m.attrs)
  }

  lemma SigningSignsPrefix(m: Msg, key: seq<byte>, hmac: Hmac)
    requires AllWritable(m.attrs)
    ensures var r := AddMessageIntegrity(m, key, hmac);
      var h := hmac(key, SignedPrefix(m));
      && (r.ok <==> |h| == INTEGRITY_SIZE)
      && (r.ok ==> r.msg.attrs == m.attrs + [ByteStringAttr(MESSAGE_INTEGRITY, h)]
                   && r.msg.password == key && r.msg.integrity == IntegrityOk)
      && (!r.ok ==> r.msg.attrs == m.attrs + [ByteStringAttr(MESSAGE_INTEGRITY, seq(20, _ => 0x30))]
                    && r.msg.password == m.password && r.msg.integrity == m.integrity)
      && r.msg.mtype == m.mtype && r.msg.tid == m.tid && r.msg.buffer == m.buffer
      && r.msg.length == (m.length + 24) % 0x1_0000
  {
    hide Header, EncodeAttr, EncodeAttrs;
    var placeholder := ByteStringAttr(MESSAGE_INTEGRITY, seq(INTEGRITY_SIZE, _ => 0x30));
    var head := Header(m.mtype, (m.length + ATTRIBUTE_HEADER + INTEGRITY_SIZE) % 0x1_0000, m.tid);
    EncodeOneMore(head, m.attrs, placeholder);
    Pieces(SignedPrefix(m), EncodeAttr(placeholder), []);
  }

  lemma PatchLength(t: u16, before: u16, after: u16, tid: seq<byte>, x: seq<byte>)
    ensures SetBe16(Header(t, before, tid) + x, 2, after) == Header(t, after, tid) + x
  {
  }

  /** A message that carries the signature `h`, with whatever was added behind it. */
  function Signed(m0: Msg, h: seq<byte>, extra: seq<Attr>): Msg
    requires |h| == INTEGRITY_SIZE
  {
    var all := m0.attrs + [ByteStringAttr(MESSAGE_INTEGRITY, h)] + extra;
    m0.(attrs := all, length := AttrsSize(all) % 0x1_0000)
  }

  lemma SignedBytes(m0: Msg, h: seq<byte>, extra: seq<Attr>)
    requires AllWritable(m0.attrs) && AllWritable(extra) && |h| == INTEGRITY_SIZE
    ensures var m := Signed(m0, h, extra);
      var front := Header(m0.mtype, m.length, m0.tid) + EncodeAttrs(m0.attrs);
      && AllWritable(m.attrs)
      && m.length == (AttrsSize(m0.attrs) + 24 + AttrsSize(extra)) % 0x1_0000
      && Encode(m) == front + EncodeAttr(ByteStringAttr(MESSAGE_INTEGRITY, h)) + EncodeAttrs(extra)
  {
    hide Header, EncodeAttr, EncodeAttrs, AttrsSize;
    var mi, m := ByteStringAttr(MESSAGE_INTEGRITY, h), Signed(m0, h, extra);
    var head := Header(m0.mtype, m.length, m0.tid);
    EncodeOneMore(head, m0.attrs, mi);
    SizeAppend(m0.attrs, mi);
    EncodeAppend(m0.attrs + [mi], extra);
    ConcatAssoc(head, EncodeAttrs(m0.attrs + [mi]), EncodeAttrs(extra));
  }

  /** The scan finds the signature behind `front`, whatever follows it. */
  lemma ScanFindsSignature(head: seq<byte>, attrs: seq<Attr>, h: seq<byte>, tail: seq<byte>)
    requires |head| == HEADER_SIZE && AllWritable(attrs) && Lacks(attrs, MESSAGE_INTEGRITY)
    requires |h| == INTEGRITY_SIZE
    ensures var p := HEADER_SIZE + AttrsSize(attrs);
      var d := head + EncodeAttrs(attrs) + EncodeAttr(ByteStringAttr(MESSAGE_INTEGRITY, h)) + tail;
      && Scan(d, HEADER_SIZE, MESSAGE_INTEGRITY) == Some(p)
      && d[p + 4..p + 24] == h && d[..p] == head + EncodeAttrs(attrs)
  {
    hide EncodeAttr, EncodeAttrs, Scan, AttrsSize, GetBe16;
    var front, mi := EncodeAttrs(attrs), ByteStringAttr(MESSAGE_INTEGRITY, h);
    var d, p := head + front + EncodeAttr(mi) + tail, HEADER_SIZE + |front|;
    Pieces(head + front, EncodeAttr(mi), tail);
    Pieces(head, front, EncodeAttr(mi));
    SliceOfWindow(d, 0, head + front, HEADER_SIZE, p);
    ScanSkips(d, HEADER_SIZE, attrs, MESSAGE_INTEGRITY);
    AttrAt(d, p, mi);
    ScanStops(d, p, MESSAGE_INTEGRITY);
  }

  lemma ScanStops(d: seq<byte>, pos: nat, t: int)
    requires pos + ATTRIBUTE_HEADER <= |d| && TypeAt(d, pos) == t
    ensures Scan(d, pos, t) == Some(pos)
  {
  }

  lemma PatchedPrefix(m: Msg, length: u16, d: seq<byte>)
    requires AllWritable(m.attrs) && |m.tid| == 12
    requires AttrsSize(m.attrs) + 24 < 0x1_0000 && Built(m)
    requires var front := Header(m.mtype, length, m.tid) + EncodeAttrs(m.attrs);
      |front| + 24 <= |d| && d[..|front|] == front
    requires |d| == HEADER_SIZE + length
    ensures HashedPrefix(d, HEADER_SIZE + AttrsSize(m.attrs)) == SignedPrefix(m)
  {
    hide SetBe16, Header, EncodeAttrs;
    PatchLength(m.mtype, length, AttrsSize(m.attrs) + 24, m.tid, EncodeAttrs(m.attrs));
  }

  /** The check finds `h` behind the first MESSAGE-INTEGRITY header, at `p`, and hashes `prefix`. */
  ghost predicate SignatureAt(d: seq<byte>, p: nat, prefix: seq<byte>, h: seq<byte>) {
    && HEADER_SIZE <= p && p + 24 <= |d|
    && GetBe16(d, 2) + HEADER_SIZE == |d|
    && Scan(d, HEADER_SIZE, MESSAGE_INTEGRITY) == Some(p)
    && d[p + 4..p + 24] == h
    && HashedPrefix(d, p) == prefix
  }

  lemma SignatureDecides(d: seq<byte>, p: nat, prefix: seq<byte>, h: seq<byte>, password: seq<byte>, hmac: Hmac)
    requires SignatureAt(d, p, prefix, h) && |d| % 4 == 0 && |h| == INTEGRITY_SIZE
    ensures CheckIntegrity(d, password, hmac) <==> hmac(password, prefix) == h
  {
  }

  lemma SignatureInBytes(m0: Msg, h: seq<byte>, tail: seq<byte>, length: u16, d: seq<byte>)
    requires |m0.tid| == 12 && Built(m0) && AllWritable(m0.attrs) && Lacks(m0.attrs, MESSAGE_INTEGRITY)
    requires |h| == INTEGRITY_SIZE && AttrsSize(m0.attrs) + 24 < 0x1_0000
    requires d == Header(m0.mtype, length, m0.tid) + EncodeAttrs(m0.attrs)
                  + EncodeAttr(ByteStringAttr(MESSAGE_INTEGRITY, h)) + tail
    requires |d| == HEADER_SIZE + length && GetBe16(d, 2) == length
    ensures SignatureAt(d, HEADER_SIZE + AttrsSize(m0.attrs), SignedPrefix(m0), h)
  {
    hide Header, EncodeAttr, EncodeAttrs, Scan, HashedPrefix, SignedPrefix, GetBe16, GetBe32;
    ScanFindsSignature(Header(m0.mtype, length, m0.tid), m0.attrs, h, tail);
    PatchedPrefix(m0, length, d);
  }

  lemma SignatureVisible(m0: Msg, h: seq<byte>, extra: seq<Attr>)
    requires |m0.tid| == 12 && Built(m0) && AllWritable(m0.attrs) && Lacks(m0.attrs, MESSAGE_INTEGRITY)
    requires |h| == INTEGRITY_SIZE && AllWritable(extra)
    requires AttrsSize(m0.attrs) + 24 + AttrsSize(extra) < 0x1_0000
    ensures AllWritable(Signed(m0, h, extra).attrs)
    ensures SignatureAt(Encode(Signed(m0, h, extra)), HEADER_SIZE + AttrsSize(m0.attrs), SignedPrefix(m0), h)
  {
    hide Header, Encode, EncodeAttr, EncodeAttrs, SignatureAt, SignedPrefix, GetBe16, GetBe32, Signed, Lacks,
      AllWritable, AttrsSize;
    var m := Signed(m0, h, extra);
    SignedBytes(m0, h, extra);
    LengthInFront(m);
    SignatureInBytes(m0, h, EncodeAttrs(extra), m.length, Encode(m));
  }

  lemma {:induction false} GetBehind(xs: seq<Attr>, a: Attr, ys: seq<Attr>)
    requires Lacks(xs, a.atype)
    ensures GetAttribute(xs + [a] + ys, a.atype) == Some(a)
  {
    var all := xs + [a] + ys;
    if xs == [] {
    } else {
      assert all[0] == xs[0] && all[1..] == xs[1..] + [a] + ys;
      GetBehind(xs[1..], a, ys);
    }
  }

  lemma {:induction false} KnownKeeps(attrs: seq<Attr>, t: int)
    requires !KindOf(t).UnknownValue?
    ensures GetAttribute(Known(attrs), t) == GetAttribute(attrs, t)
  {
    if attrs == [] {
    } else {
      KnownKeeps(attrs[1..], t);
      if KindOf(attrs[0].atype).UnknownValue? {
        assert Known(attrs) == Known(attrs[1..]);
      } else {
        assert Known(attrs)[1..] == Known(attrs[1..]);
      }
    }
  }

  /** Whatever is added behind the signature, the receiver's verdict depends on its password alone:
      ok exactly when that password hashes the signed prefix to the value that was put there. */
  lemma IntegrityAccepted(m0: Msg, key: seq<byte>, hmac: Hmac, extra: seq<Attr>, into: Msg, password: seq<byte>)
    requires |m0.tid| == 12 && !TypeRejected(m0.mtype) && Built(m0)
    requires AllWritable(m0.attrs) && AllWellTyped(m0.attrs) && Lacks(m0.attrs, MESSAGE_INTEGRITY)
    requires AllWritable(extra) && AllWellTyped(extra)
    requires AttrsSize(m0.attrs) + 24 + AttrsSize(extra) < 0x1_0000
    requires AddMessageIntegrity(m0, key, hmac).ok
    ensures var sent := AddAll(AddMessageIntegrity(m0, key, hmac).msg, extra);
      AllWritable(sent.attrs)
      && var got := Read(into, Encode(sent));
      && got.ok
      && ValidateIntegrity(got.msg, password, hmac).integrity
         == if hmac(password, SignedPrefix(m0)) == hmac(key, SignedPrefix(m0)) then IntegrityOk else IntegrityBad
  {
    hide Encode, EncodeAttrs, Header, Read, CheckIntegrity, SignatureAt, SignedPrefix, AddMessageIntegrity, AddAll,
      Lacks, Known, GetAttribute, Signed, AttrsSize;
    var r := AddMessageIntegrity(m0, key, hmac);
    SigningSignsPrefix(m0, key, hmac);
    SignedIsAddAll(m0, key, hmac, extra);
    var h, sent := hmac(key, SignedPrefix(m0)), AddAll(r.msg, extra);
    SignatureVisible(m0, h, extra);
    var d := Encode(sent);
    SizeAligned(sent.attrs);
    AddMultipleOfFour(HEADER_SIZE, AttrsSize(sent.attrs));
    SignatureDecides(d, HEADER_SIZE + AttrsSize(m0.attrs), SignedPrefix(m0), h, password, hmac);
    ReadAfterWrite(sent, into);
    KnownKeeps(sent.attrs, MESSAGE_INTEGRITY);
    GetBehind(m0.attrs, ByteStringAttr(MESSAGE_INTEGRITY, h), extra);
  }

  /** The sender's steps lead to the message that `Signed` describes. */
  lemma SignedIsAddAll(m0: Msg, key: seq<byte>, hmac: Hmac, extra: seq<Attr>)
    requires AllWritable(m0.attrs) && AllWellTyped(m0.attrs) && Built(m0)
    requires AllWritable(extra) && AllWellTyped(extra)
    requires AddMessageIntegrity(m0, key, hmac).ok
    ensures |hmac(key, SignedPrefix(m0))| == INTEGRITY_SIZE
    ensures var sent := AddAll(AddMessageIntegrity(m0, key, hmac).msg, extra);
      var signed := Signed(m0, hmac(key, SignedPrefix(m0)), extra);
      && sent.attrs == signed.attrs
      && sent.attrs == m0.attrs + [ByteStringAttr(MESSAGE_INTEGRITY, hmac(key, SignedPrefix(m0)))] + extra
      && AllWritable(sent.attrs) && AllWellTyped(sent.attrs) && Built(sent)
      && sent.mtype == m0.mtype && sent.tid == m0.tid
      && AttrsSize(sent.attrs) == AttrsSize(m0.attrs) + 24 + AttrsSize(extra)
      && Encode(sent) == Encode(signed)
  {
    hide EncodeAttrs, Header, SignedPrefix, AddMessageIntegrity, AddAll, AttrsSize;
    var r, h := AddMessageIntegrity(m0, key, hmac), hmac(key, SignedPrefix(m0));
    SigningSignsPrefix(m0, key, hmac);
    LengthTracksAttributes(m0, UInt32Attr(0, 0), key, hmac, _ => 0);
    AddAllAppends(r.msg, extra);
    SizeAppend(m0.attrs, ByteStringAttr(MESSAGE_INTEGRITY, h));
    SizeConcat(r.msg.attrs, extra);
  }

  // ---- Other values ----

  /** Integers are written in network byte order, the upper half of eight bytes first. */
  lemma IntegersAreWritten(t: u16, v: u32, w: u64)
    ensures GetBe32(Body(UInt32Attr(t, v)), 0) == v
    ensures var b := Body(UInt64Attr(t, w)); |b| == 8 && GetBe32(b, 0) * 0x1_0000_0000 + GetBe32(b, 4) == w as int
  {
    var b := Body(UInt64Attr(t, w));
    GetPut32(Body(UInt32Attr(t, v)), 0, v);
    assert b[0..4] == Be32(w / 0x1_0000_0000) && b[4..8] == Be32(w % 0x1_0000_0000);
    GetPut32(b, 0, w / 0x1_0000_0000);
    GetPut32(b, 4, w % 0x1_0000_0000);
  }

  /** A byte string that ends the packet is read with its padding or without any, and with no part of it. */
  lemma StringAtTheEnd(d: seq<byte>, pos: nat)
    requires pos + ATTRIBUTE_HEADER <= |d| && KindOf(TypeAt(d, pos)).ByteStringValue?
    requires var end := pos + ATTRIBUTE_HEADER + LengthAt(d, pos); end <= |d| <= end + Pad(LengthAt(d, pos))
    ensures var end := pos + ATTRIBUTE_HEADER + LengthAt(d, pos);
      && (Parse(d, pos).ok <==> |d| == end || |d| == end + Pad(LengthAt(d, pos)))
      && Parse(d, pos).attrs == [ByteStringAttr(TypeAt(d, pos), d[pos + 4..end])]
  {
    hide GetBe16, TypeAt, LengthAt;
    var q := NextPos(d, pos).value;
    assert Parse(d, q).attrs == [];
    assert StoredAt(d, pos) + [] == StoredAt(d, pos);
  }

  // ---- XOR-MAPPED-ADDRESS, section 15.2 of RFC 5389 ----

  /** A receiver that applies the cookie again gets the address and port back. */
  lemma XorAddressRecovered(t: u16, port: u16, ip: u32)
    ensures var a := XorAddressAttr(t, IPv4, port, ip);
      && Writable(a) && |Body(a)| == 8 && Body(a)[1] == 1
      && Xor(GetBe16(Body(a), 2), MAGIC_COOKIE / 0x1_0000) == port
      && Xor(GetBe32(Body(a), 4), MAGIC_COOKIE) == ip
  {
    hide Xor;
    var b := Body(XorAddressAttr(t, IPv4, port, ip));
    var x16, x32 := Xor16(port, MAGIC_COOKIE / 0x1_0000), Xor32(ip, MAGIC_COOKIE);
    assert b[2..4] == Be16(x16) && b[4..8] == Be32(x32);
    GetPut16(b, 2, x16);
    GetPut32(b, 4, x32);
    XorUndo(port, MAGIC_COOKIE / 0x1_0000);
    XorUndo(ip, MAGIC_COOKIE);
  }
}
