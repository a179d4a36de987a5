/** STUN messages as values: building, writing, reading, and the two checks on received bytes. */
module StunCodec {
  import opened Base
  import opened StunAttributes

  const HEADER_SIZE := 20
  const INTEGRITY_SIZE := 20
  const FINGERPRINT_XOR: u32 := 0x5354_554e

  /** The keyed hash (key, data) and the checksum come from a library: any functions. */
  type Hmac = (seq<byte>, seq<byte>) -> seq<byte>
  type Crc = seq<byte> -> u32

  datatype Integrity = NotSet | NoIntegrity | IntegrityOk | IntegrityBad

  datatype Msg = Msg(mtype: u16, length: u16, tid: seq<byte>, attrs: seq<Attr>,
                     integrity: Integrity, password: seq<byte>, buffer: seq<byte>)

  /** A new message: type 0 and twelve '0' characters as its transaction id. */
  function NewMsg(): Msg {
    Msg(0, 0, seq(12, _ => 0x30), [], NotSet, [], [])
  }

  // ---- Building ----

  function AddAttribute(m: Msg, a: Attr): Msg {
    m.(length := (m.length + ATTRIBUTE_HEADER + Padded(ValueLength(a))) % 0x1_0000, attrs := m.attrs + [a])
  }

  function AddAll(m: Msg, attrs: seq<Attr>): Msg
    decreases attrs
  {
    if attrs == [] then m else AddAll(AddAttribute(m, attrs[0]), attrs[1..])
  }

  function Header(t: u16, length: u16, tid: seq<byte>): (h: seq<byte>)
    ensures |h| == 8 + |tid|
  {
    Be16(t) + Be16(length) + Be32(MAGIC_COOKIE) + tid
  }

  /** The bytes `write` produces; it fails exactly when some attribute is not writable. */
  function Encode(m: Msg): (b: seq<byte>)
    requires AllWritable(m.attrs)
    ensures |b| == 8 + |m.tid| + AttrsSize(m.attrs)
  {
    Header(m.mtype, m.length, m.tid) + EncodeAttrs(m.attrs)
  }

  datatype Outcome = Outcome(ok: bool, msg: Msg)

  /** A placeholder of twenty '0' characters is added, the message is written, and everything in
      front of the placeholder attribute is signed. */
  function AddMessageIntegrity(m: Msg, key: seq<byte>, hmac: Hmac): Outcome {
    var placeholder := ByteStringAttr(MESSAGE_INTEGRITY, seq(INTEGRITY_SIZE, _ => 0x30));
    var m1 := AddAttribute(m, placeholder);
    if !AllWritable(m1.attrs) then Outcome(false, m1)
    else
      var buf := Encode(m1);
      SizeAppend(m.attrs, placeholder);
      var h := hmac(key, buf[..|buf| - ATTRIBUTE_HEADER - INTEGRITY_SIZE]);
      if |h| != INTEGRITY_SIZE then Outcome(false, m1)
      else Outcome(true, m1.(attrs := m.attrs + [ByteStringAttr(MESSAGE_INTEGRITY, h)],
                             password := key, integrity := IntegrityOk))
  }

  function AddFingerprint(m: Msg, crc: Crc): Outcome {
    var placeholder := UInt32Attr(FINGERPRINT, 0);
    var m1 := AddAttribute(m, placeholder);
    if !AllWritable(m1.attrs) then Outcome(false, m1)
    else
      var buf := Encode(m1);
      SizeAppend(m.attrs, placeholder);
      var sum := crc(buf[..|buf| - ATTRIBUTE_HEADER - 4]);
      Outcome(true, m1.(attrs := m.attrs + [UInt32Attr(FINGERPRINT, Xor32(sum, FINGERPRINT_XOR))]))
  }

  // ---- Reading ----

  /** `ok` is what `read` returns; `attrs` is what it has stored by then. */
  datatype Parsed = Parsed(ok: bool, attrs: seq<Attr>)

  function Parse(d: seq<byte>, pos: nat): Parsed
    requires pos <= |d|
    decreases |d| - pos
  {
    if pos == |d| then Parsed(true, [])
    else if NextPos(d, pos).None? then Parsed(false, [])
    else
      var rest := Parse(d, NextPos(d, pos).value);
      Parsed(rest.ok, StoredAt(d, pos) + rest.attrs)
  }

  /** Bit 0x0800 of the type marks packets that are not STUN. */
  predicate TypeRejected(t: u16) {
    (t / 0x800) % 2 == 1
  }

  function ReceivedId(d: seq<byte>): seq<byte>
    requires |d| >= HEADER_SIZE
  {
    if GetBe32(d, 4) != MAGIC_COOKIE then d[4..8] + d[8..20] else d[8..20]
  }

  function Read(m: Msg, d: seq<byte>): Outcome {
    var m0 := m.(buffer := d);
    if |d| < 2 then Outcome(false, m0)
    else
      var m1 := m0.(mtype := GetBe16(d, 0));
      if TypeRejected(m1.mtype) || |d| < 4 then Outcome(false, m1)
      else
        var m2 := m1.(length := GetBe16(d, 2));
        if |d| < HEADER_SIZE then Outcome(false, m2)
        else
          var m3 := m2.(tid := ReceivedId(d));
          if |d| - HEADER_SIZE != m3.length then Outcome(false, m3)
          else
            var r := Parse(d, HEADER_SIZE);
            Outcome(r.ok, m3.(attrs := r.attrs))
  }

  function GetAttribute(attrs: seq<Attr>, t: int): Option<Attr> {
    if attrs == [] then None
    else if attrs[0].atype == t then Some(attrs[0])
    else GetAttribute(attrs[1..], t)
  }

  // ---- Checking received bytes ----

  function ValidateFingerprint(d: seq<byte>, crc: Crc): bool {
    && |d| % 4 == 0 && |d| >= HEADER_SIZE + 8
    && GetBe32(d, 4) == MAGIC_COOKIE
    && GetBe16(d, |d| - 8) == FINGERPRINT
    && GetBe16(d, |d| - 6) == 4
    && Xor32(GetBe32(d, |d| - 4), FINGERPRINT_XOR) == crc(d[..|d| - 8])
  }

  /** The integrity check scans the bytes itself, padding every length in a size_t. */
  function Scan(d: seq<byte>, pos: nat, t: int): (p: Option<nat>)
    ensures p.Some? ==> pos <= p.value && p.value + ATTRIBUTE_HEADER <= |d|
    decreases |d| - pos
  {
    if pos + ATTRIBUTE_HEADER > |d| then None
    else if TypeAt(d, pos) == t then Some(pos)
    else Scan(d, pos + ATTRIBUTE_HEADER + Padded(LengthAt(d, pos)), t)
  }

  function SetBe16(d: seq<byte>, pos: nat, x: u16): (r: seq<byte>)
    requires pos + 2 <= |d|
    ensures |r| == |d|
  {
    d[pos := x / 0x100][pos + 1 := x % 0x100]
  }

  /** The bytes that are hashed: all in front of the attribute at `p`, with the length field set to
      end behind that attribute when something follows it. */
  function HashedPrefix(d: seq<byte>, p: nat): seq<byte>
    requires 4 <= p <= |d|
  {
    if |d| > p + ATTRIBUTE_HEADER + INTEGRITY_SIZE
    then SetBe16(d[..p], 2, (p + ATTRIBUTE_HEADER + INTEGRITY_SIZE - HEADER_SIZE) % 0x1_0000)
    else d[..p]
  }

  function CheckIntegrity(d: seq<byte>, password: seq<byte>, hmac: Hmac): bool {
    && |d| % 4 == 0 && |d| >= HEADER_SIZE
    && GetBe16(d, 2) + HEADER_SIZE == |d|
    && var at := Scan(d, HEADER_SIZE, MESSAGE_INTEGRITY);
    && at.Some?
    && var h := hmac(password, HashedPrefix(d, at.value));
    && |h| == INTEGRITY_SIZE
    && var value := at.value + ATTRIBUTE_HEADER;
    && value + INTEGRITY_SIZE <= |d|
    && d[value..value + INTEGRITY_SIZE] == h
  }

  function ValidateIntegrity(m: Msg, password: seq<byte>, hmac: Hmac): Msg {
    m.(password := password,
       integrity := if GetAttribute(m.attrs, MESSAGE_INTEGRITY).None? then NoIntegrity
                    else if CheckIntegrity(m.buffer, password, hmac) then IntegrityOk
                    else IntegrityBad)
  }
}
