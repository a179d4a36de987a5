/** Received messages whose stored signature the integrity check does not find, or takes for another one. */
module StunWitnesses {
  import opened Base
  import opened StunAttributes
  import opened StunCodec
  import opened StunTheorems

  // ---- Behind a wrapped length ----

  /** An unknown attribute with length field 0xFFFD, then a signature at offset 24. */
  function HiddenSignature(): seq<byte> {
    Header(0x0001, 28, Zeros(12)) + ([0x70, 0x00, 0xFF, 0xFD] + [0x00, 0x08, 0x00, 0x14] + Zeros(20))
  }

  lemma HiddenHeader()
    ensures var d := HiddenSignature();
      |d| == 48 && GetBe16(d, 0) == 0x0001 && GetBe16(d, 2) == 28 && GetBe32(d, 4) == MAGIC_COOKIE
  {
    HeaderFields(0x0001, 28, Zeros(12), [0x70, 0x00, 0xFF, 0xFD] + [0x00, 0x08, 0x00, 0x14] + Zeros(20));
  }

  lemma HiddenAttributes()
    ensures var d := HiddenSignature();
      && |d| == 48 && TypeAt(d, 20) == 0x7000 && LengthAt(d, 20) == 0xFFFD
      && TypeAt(d, 24) == MESSAGE_INTEGRITY && LengthAt(d, 24) == 20
      && NextPos(d, 20) == Some(24) && NextPos(d, 24) == Some(48)
  {
    var d := HiddenSignature();
    assert d[20] == 0x70 && d[21] == 0x00 && d[22] == 0xFF && d[23] == 0xFD;
    assert d[24] == 0x00 && d[25] == 0x08 && d[26] == 0x00 && d[27] == 0x14;
  }

  /** `read` stores the signature at offset 24, the integrity check never finds it, and so the message is
      bad for every password and every hash function. */
  lemma SignatureCanHide(into: Msg, password: seq<byte>, hmac: Hmac)
    ensures var d := HiddenSignature();
      && |d| % 4 == 0 && |d| >= HEADER_SIZE && Read(into, d).ok
      && FirstParting(d, HEADER_SIZE, MESSAGE_INTEGRITY) == Some(20)
      && FirstStored(d, HEADER_SIZE, MESSAGE_INTEGRITY) == Some(24)
      && Scan(d, HEADER_SIZE, MESSAGE_INTEGRITY) == None
      && ValidateIntegrity(Read(into, d).msg, password, hmac).integrity == IntegrityBad
  {
    hide HiddenSignature, NextPos, TypeAt, LengthAt;
    var d := HiddenSignature();
    HiddenHeader();
    HiddenAttributes();
    assert Parse(d, 48) == Parsed(true, []);
    assert Parse(d, 24).ok && Parse(d, 20).ok;
    assert FirstStored(d, 24, MESSAGE_INTEGRITY) == Some(24);
    IntegrityScanAgrees(into, d);
    ScanMeetsParser(d, 20, MESSAGE_INTEGRITY);
  }

  // ---- Behind a PRIORITY of any length ----

  /** A PRIORITY with length field `len` and the value `high`, `low`, then a signature at offset 28. */
  function PriorityFirst(len: u16, high: u16, low: u16): seq<byte> {
    Header(0x0001, 32, Zeros(12)) + (Be16(PRIORITY) + Be16(len) + Be16(high) + Be16(low) + [0, 8, 0, 20] + Zeros(20))
  }

  lemma PriorityHeader(len: u16, high: u16, low: u16)
    ensures var d := PriorityFirst(len, high, low);
      |d| == 52 && GetBe16(d, 0) == 0x0001 && GetBe16(d, 2) == 32 && GetBe32(d, 4) == MAGIC_COOKIE
  {
    HeaderFields(0x0001, 32, Zeros(12),
                 Be16(PRIORITY) + Be16(len) + Be16(high) + Be16(low) + [0, 8, 0, 20] + Zeros(20));
  }

  lemma PriorityFields(len: u16, high: u16, low: u16)
    ensures var d := PriorityFirst(len, high, low);
      && |d| == 52 && TypeAt(d, 20) == PRIORITY && LengthAt(d, 20) == len
      && TypeAt(d, 24) == high && LengthAt(d, 24) == low
      && TypeAt(d, 28) == MESSAGE_INTEGRITY && LengthAt(d, 28) == 20
      && forall i :: 32 <= i < 52 ==> d[i] == 0
  {
    var d := PriorityFirst(len, high, low);
    assert d[20..22] == Be16(PRIORITY) && d[22..24] == Be16(len);
    assert d[24..26] == Be16(high) && d[26..28] == Be16(low);
    assert d[28..30] == [0, 8] && d[30..32] == [0, 20];
    GetPut16(d, 20, PRIORITY);
    GetPut16(d, 22, len);
    GetPut16(d, 24, high);
    GetPut16(d, 26, low);
  }

  lemma PrioritySteps(len: u16, high: u16, low: u16)
    ensures var d := PriorityFirst(len, high, low);
      |d| == 52 && NextPos(d, 20) == Some(28) && NextPos(d, 28) == Some(52)
  {
    hide PriorityFirst;
    PriorityFields(len, high, low);
  }

  /** Nothing is found among zeros. */
  lemma {:induction false} ScanZeros(d: seq<byte>, pos: nat)
    requires forall i :: pos <= i < |d| ==> d[i] == 0
    ensures Scan(d, pos, MESSAGE_INTEGRITY) == None
    decreases |d| - pos
  {
    if pos + ATTRIBUTE_HEADER > |d| {
    } else {
      ScanZeros(d, pos + ATTRIBUTE_HEADER);
    }
  }

  lemma PriorityStored(d: seq<byte>)
    requires |d| == 52 && NextPos(d, 20) == Some(28) && NextPos(d, 28) == Some(52)
    requires TypeAt(d, 20) == PRIORITY && TypeAt(d, 28) == MESSAGE_INTEGRITY
    ensures Parse(d, 20).ok && FirstStored(d, 20, MESSAGE_INTEGRITY) == Some(28)
  {
    hide NextPos, TypeAt, LengthAt, GetBe16, GetBe32;
    assert Parse(d, 52) == Parsed(true, []);
    assert Parse(d, 28).ok;
    assert FirstStored(d, 28, MESSAGE_INTEGRITY) == Some(28);
  }

  /** `read` stores the signature at offset 28 whatever the PRIORITY looks like. The integrity check finds
      that one, another one inside the PRIORITY's value, or none; which of them is said by the length field and
      the value: with length 0 the check takes the value for an attribute header. */
  lemma PriorityScanned(len: u16, high: u16, low: u16, into: Msg)
    ensures var d := PriorityFirst(len, high, low);
      && |d| % 4 == 0 && |d| >= HEADER_SIZE && Read(into, d).ok
      && FirstStored(d, HEADER_SIZE, MESSAGE_INTEGRITY) == Some(28)
      && Scan(d, HEADER_SIZE, MESSAGE_INTEGRITY)
         == if 1 <= len <= 4 || (len == 0 && high != MESSAGE_INTEGRITY && low == 0) then Some(28)
            else if len == 0 && high == MESSAGE_INTEGRITY then Some(24)
            else None
  {
    hide PriorityFirst, Parse, FirstStored, Scan, NextPos, TypeAt, LengthAt;
    var d := PriorityFirst(len, high, low);
    PriorityHeader(len, high, low);
    PriorityFields(len, high, low);
    PrioritySteps(len, high, low);
    PriorityStored(d);
    PriorityScan(d);
  }

  lemma PriorityScan(d: seq<byte>)
    requires |d| == 52 && TypeAt(d, 20) == PRIORITY && TypeAt(d, 28) == MESSAGE_INTEGRITY
    requires forall i :: 32 <= i < 52 ==> d[i] == 0
    ensures var len, high, low := LengthAt(d, 20), TypeAt(d, 24), LengthAt(d, 24);
      Scan(d, 20, MESSAGE_INTEGRITY)
      == if 1 <= len <= 4 || (len == 0 && high != MESSAGE_INTEGRITY && low == 0) then Some(28)
         else if len == 0 && high == MESSAGE_INTEGRITY then Some(24)
         else None
  {
    hide TypeAt, LengthAt;
    var len, high, low := LengthAt(d, 20), TypeAt(d, 24), LengthAt(d, 24);
    ScanStops(d, 28, MESSAGE_INTEGRITY);
    var q := 24 + Padded(len);
    if q >= 32 {
      ScanZeros(d, q);
    } else if q == 24 && high != MESSAGE_INTEGRITY && low > 0 {
      ScanZeros(d, 28 + Padded(low));
    }
  }

  /** So the message is bad whatever the password, or judged by other bytes than the stored signature's. */
  lemma PriorityJudged(len: u16, high: u16, low: u16, into: Msg, password: seq<byte>, hmac: Hmac)
    requires len > 4 || (len == 0 && (high == MESSAGE_INTEGRITY || low != 0))
    ensures var d := PriorityFirst(len, high, low);
      && |d| == 52
      && var status := ValidateIntegrity(Read(into, d).msg, password, hmac).integrity;
      if len == 0 && high == MESSAGE_INTEGRITY
      then status == if hmac(password, SetBe16(d[..24], 2, 28)) == d[28..48] then IntegrityOk else IntegrityBad
      else status == IntegrityBad
  {
    hide PriorityFirst, Scan, FirstStored, FirstParting, NoneMeetsAlone, NextPos, Parse, SetBe16, GetBe16, GetBe32;
    var d := PriorityFirst(len, high, low);
    PriorityHeader(len, high, low);
    PriorityScanned(len, high, low, into);
    IntegrityScanAgrees(into, d);
    PriorityChecked(d, password, hmac);
  }

  lemma PriorityChecked(d: seq<byte>, password: seq<byte>, hmac: Hmac)
    requires |d| == 52 && GetBe16(d, 2) == 32
    ensures Scan(d, HEADER_SIZE, MESSAGE_INTEGRITY) == None ==> !CheckIntegrity(d, password, hmac)
    ensures Scan(d, HEADER_SIZE, MESSAGE_INTEGRITY) == Some(24) ==>
      (CheckIntegrity(d, password, hmac) <==> hmac(password, SetBe16(d[..24], 2, 28)) == d[28..48])
  {
    hide Scan, SetBe16, GetBe16;
  }
}
