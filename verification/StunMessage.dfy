/** The message object itself: its methods update the fields and are proved against `StunCodec`. */
module StunMessage {
  import opened Base
  import opened StunAttributes
  import Codec = StunCodec

  class StunMessage {
    var mtype: u16
    var length: u16
    var tid: seq<byte>
    var attrs: seq<Attr>
    var integrity: Codec.Integrity
    var password: seq<byte>
    var buffer: seq<byte>

    ghost function View(): Codec.Msg
      reads this
    {
      Codec.Msg(mtype, length, tid, attrs, integrity, password, buffer)
    }

    constructor ()
      ensures View() == Codec.NewMsg()
    {
      mtype, length := 0, 0;
      tid := seq(12, _ => 0x30);
      attrs := [];
      integrity := Codec.NotSet;
      password, buffer := [], [];
    }

    method AddAttribute(a: Attr)
      modifies this
      ensures View() == Codec.AddAttribute(old(View()), a)
    {
      var attrLen := ValueLength(a);
      if attrLen % 4 != 0 {
        attrLen := attrLen + (4 - attrLen % 4);
      }
      length := (length + attrLen + ATTRIBUTE_HEADER) % 0x1_0000;
      attrs := attrs + [a];
    }

    method Write() returns (ok: bool, out: seq<byte>)
      ensures ok <==> AllWritable(attrs)
      ensures ok ==> out == Codec.Encode(View())
    {
      hide EncodeAttr, Padded;
      out := Codec.Header(mtype, length, tid);
      ghost var head := out;
      var i := 0;
      while i < |attrs|
        invariant 0 <= i <= |attrs|
        invariant AllWritable(attrs[..i])
        invariant out == head + EncodeAttrs(attrs[..i])
      {
        var a := attrs[i];
        if !Writable(a) {
          return false, out;
        }
        EncodeOneMore(head, attrs[..i], a);
        assert attrs[..i + 1] == attrs[..i] + [a];
        out := out + EncodeAttr(a);
        i := i + 1;
      }
      assert attrs[..|attrs|] == attrs;
      ok := true;
    }

    method AddMessageIntegrity(key: seq<byte>, hmac: Codec.Hmac) returns (ok: bool)
      modifies this
      ensures ok == Codec.AddMessageIntegrity(old(View()), key, hmac).ok
      ensures View() == Codec.AddMessageIntegrity(old(View()), key, hmac).msg
    {
      hide EncodeAttrs, Padded, Codec.Header, Codec.Encode;
      var placeholder := ByteStringAttr(MESSAGE_INTEGRITY, seq(Codec.INTEGRITY_SIZE, _ => 0x30));
      SizeAppend(attrs, placeholder);
      AddAttribute(placeholder);
      var written, buf := Write();
      if !written {
        return false;
      }
      var h := hmac(key, buf[..|buf| - ATTRIBUTE_HEADER - Codec.INTEGRITY_SIZE]);
      if |h| != Codec.INTEGRITY_SIZE {
        return false;
      }
      attrs := attrs[|attrs| - 1 := ByteStringAttr(MESSAGE_INTEGRITY, h)];
      password := key;
      integrity := Codec.IntegrityOk;
      ok := true;
    }

    method AddFingerprint(crc: Codec.Crc) returns (ok: bool)
      modifies this
      ensures ok == Codec.AddFingerprint(old(View()), crc).ok
      ensures View() == Codec.AddFingerprint(old(View()), crc).msg
    {
      hide EncodeAttrs, Padded, Codec.Header, Codec.Encode, Xor32;
      var placeholder := UInt32Attr(FINGERPRINT, 0);
      SizeAppend(attrs, placeholder);
      AddAttribute(placeholder);
      var written, buf := Write();
      if !written {
        return false;
      }
      var sum := crc(buf[..|buf| - ATTRIBUTE_HEADER - 4]);
      attrs := attrs[|attrs| - 1 := UInt32Attr(FINGERPRINT, Xor32(sum, Codec.FINGERPRINT_XOR))];
      ok := true;
    }

    method Read(d: seq<byte>) returns (ok: bool)
      modifies this
      ensures ok == Codec.Read(old(View()), d).ok
      ensures View() == Codec.Read(old(View()), d).msg
    {
      hide GetBe16, GetBe32;
      buffer := d;
      if |d| < 2 {
        return false;
      }
      mtype := GetBe16(d, 0);
      if Codec.TypeRejected(mtype) || |d| < 4 {
        return false;
      }
      length := GetBe16(d, 2);
      if |d| < Codec.HEADER_SIZE {
        return false;
      }
      tid := if GetBe32(d, 4) != MAGIC_COOKIE then d[4..8] + d[8..20] else d[8..20];
      if |d| - Codec.HEADER_SIZE != length {
        return false;
      }
      ok := ReadAttributes(d);
    }

    /** The loop of `read` over the attributes behind the header. */
    method ReadAttributes(d: seq<byte>) returns (ok: bool)
      requires |d| >= Codec.HEADER_SIZE
      modifies this`attrs
      ensures ok == Codec.Parse(d, Codec.HEADER_SIZE).ok
      ensures attrs == Codec.Parse(d, Codec.HEADER_SIZE).attrs
    {
      hide NextPos, StoredAt;
      attrs := [];
      var pos := Codec.HEADER_SIZE;
      ghost var whole := Codec.Parse(d, Codec.HEADER_SIZE);
      while pos < |d|
        invariant Codec.HEADER_SIZE <= pos <= |d|
        invariant whole.ok == Codec.Parse(d, pos).ok
        invariant whole.attrs == attrs + Codec.Parse(d, pos).attrs
        decreases |d| - pos
      {
        var stored, next, kept := ReadAttribute(d, pos);
        if !stored {
          return false;
        }
        ConcatAssoc(attrs, kept, Codec.Parse(d, next).attrs);
        attrs := attrs + kept;
        pos := next;
      }
      ok := true;
    }

    method ValidateMessageIntegrity(pwd: seq<byte>, hmac: Codec.Hmac) returns (status: Codec.Integrity)
      modifies this
      ensures View() == Codec.ValidateIntegrity(old(View()), pwd, hmac)
      ensures status == integrity
    {
      password := pwd;
      if Codec.GetAttribute(attrs, MESSAGE_INTEGRITY).Some? {
        var good := CheckIntegrity(buffer, pwd, hmac);
        integrity := if good then Codec.IntegrityOk else Codec.IntegrityBad;
      } else {
        integrity := Codec.NoIntegrity;
      }
      status := integrity;
    }
  }

  /** One attribute: the header, then what the attribute class found in the table reads. */
  method ReadAttribute(d: seq<byte>, start: nat) returns (ok: bool, pos: nat, kept: seq<Attr>)
    requires start <= |d|
    ensures ok <==> NextPos(d, start).Some?
    ensures ok ==> NextPos(d, start) == Some(pos) && kept == StoredAt(d, start)
  {
    hide GetBe16, GetBe32;
    ok, pos, kept := false, start, [];
    if pos + ATTRIBUTE_HEADER > |d| {
      return;
    }
    var attrType, attrLength := TypeAt(d, pos), LengthAt(d, pos);
    pos := pos + ATTRIBUTE_HEADER;
    match KindOf(attrType) {
      case UnknownValue =>
        if attrLength % 4 != 0 {
          attrLength := (attrLength as int + (4 - attrLength % 4)) % 0x1_0000;
        }
        if pos + attrLength > |d| {
          return;
        }
        pos := pos + attrLength;
      case ByteStringValue =>
        if pos + attrLength > |d| {
          return;
        }
        kept := [ByteStringAttr(attrType, d[pos..pos + attrLength])];
        pos := pos + attrLength;
        // The reader drops the padding only when all of it is there.
        if pos + Pad(attrLength) <= |d| {
          pos := pos + Pad(attrLength);
        }
      case UInt32Value =>
        // The attribute object has length 4 from its constructor; the length in the packet is not used.
        if pos + 4 > |d| {
          return;
        }
        kept := [UInt32Attr(attrType, GetBe32(d, pos))];
        pos := pos + 4;
    }
    ok := true;
  }

  /** The scan and the comparison of the integrity check. */
  method CheckIntegrity(d: seq<byte>, pwd: seq<byte>, hmac: Codec.Hmac) returns (good: bool)
    ensures good == Codec.CheckIntegrity(d, pwd, hmac)
  {
    hide GetBe16, Padded;
    if |d| % 4 != 0 || |d| < Codec.HEADER_SIZE || GetBe16(d, 2) + Codec.HEADER_SIZE != |d| {
      return false;
    }
    var pos, found := Codec.HEADER_SIZE, false;
    while pos + ATTRIBUTE_HEADER <= |d|
      invariant Codec.HEADER_SIZE <= pos
      invariant Codec.Scan(d, Codec.HEADER_SIZE, MESSAGE_INTEGRITY) == Codec.Scan(d, pos, MESSAGE_INTEGRITY)
      decreases |d| - pos
    {
      if TypeAt(d, pos) == MESSAGE_INTEGRITY {
        found := true;
        break;
      }
      pos := pos + ATTRIBUTE_HEADER + Padded(LengthAt(d, pos));
    }
    if !found {
      return false;
    }
    assert Codec.Scan(d, Codec.HEADER_SIZE, MESSAGE_INTEGRITY) == Some(pos);
    var value := pos + ATTRIBUTE_HEADER;
    var h := hmac(pwd, Codec.HashedPrefix(d, pos));
    good := |h| == Codec.INTEGRITY_SIZE
            && value + Codec.INTEGRITY_SIZE <= |d| && d[value..value + Codec.INTEGRITY_SIZE] == h;
  }
}
