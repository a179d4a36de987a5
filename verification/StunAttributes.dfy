/** STUN attributes: their values, their wire form and the parser's view of one attribute. */
module StunAttributes {
  import opened Base

  const USERNAME: u16 := 0x0006
  const MESSAGE_INTEGRITY: u16 := 0x0008
  const ERROR_CODE: u16 := 0x0009
  const XOR_MAPPED_ADDRESS: u16 := 0x0020
  const PRIORITY: u16 := 0x0024
  const USE_CANDIDATE: u16 := 0x0025
  const FINGERPRINT: u16 := 0x8028
  const ICE_CONTROLLING: u16 := 0x802A

  const MAGIC_COOKIE: u32 := 0x2112_A442
  const ATTRIBUTE_HEADER := 4

  datatype AddressFamily = UndefinedFamily | IPv4 | IPv6

  /** One constructor per attribute class that the program writes or reads. */
  datatype RawAttr =
    | ByteStringAttr(atype: u16, bytes: seq<byte>)
    | UInt32Attr(atype: u16, value32: u32)
    | UInt64Attr(atype: u16, value64: u64)
    | ErrorCodeAttr(atype: u16, hundreds: byte, number: byte, reason: seq<byte>)
    | XorAddressAttr(atype: u16, family: AddressFamily, port: u16, ip: u32)

  /** The attribute's length field: the value without its padding. */
  function ValueLength(a: RawAttr): nat {
    match a
    case ByteStringAttr(_, bytes) => |bytes|
    case UInt32Attr(_, _) => 4
    case UInt64Attr(_, _) => 8
    case ErrorCodeAttr(_, _, _, reason) => 4 + |reason|
    case XorAddressAttr(_, IPv4, _, _) => 8
    case XorAddressAttr(_, IPv6, _, _) => 20
    case XorAddressAttr(_, UndefinedFamily, _, _) => 0
  }

  /** The length field has 16 bits. */
  type Attr = a: RawAttr | ValueLength(a) < 0x1_0000 witness UInt32Attr(0, 0)

  /** `copy_bytes` keeps the length in a uint16, so only that many bytes are ever written. */
  function ByteString(t: u16, s: seq<byte>): (a: Attr)
    ensures a.atype == t && a.ByteStringAttr? && a.bytes <= s && ValueLength(a) == |s| % 0x1_0000
  {
    ByteStringAttr(t, s[..|s| % 0x1_0000])
  }

  function Pad(n: nat): (p: nat)
    ensures p < 4
  {
    if n % 4 != 0 then 4 - n % 4 else 0
  }

  function Padded(n: nat): (p: nat)
    ensures n <= p < n + 4
  {
    n + Pad(n)
  }

  lemma PaddedAligned(n: nat)
    ensures Padded(n) % 4 == 0
  {
  }

  /** The address attribute is written for IPv4 only; every other attribute is always written. */
  predicate Writable(a: Attr) {
    a.XorAddressAttr? ==> a.family == IPv4
  }

  predicate AllWritable(attrs: seq<Attr>) {
    forall i :: 0 <= i < |attrs| ==> Writable(attrs[i])
  }

  function Body(a: Attr): (b: seq<byte>)
    requires Writable(a)
    ensures |b| == ValueLength(a)
  {
    match a
    case ByteStringAttr(_, bytes) => bytes
    case UInt32Attr(_, v) => Be32(v)
    case UInt64Attr(_, v) => Be64(v)
    case ErrorCodeAttr(_, hundreds, number, reason) => Be32(hundreds * 0x100 + number) + reason
    case XorAddressAttr(_, _, port, ip) =>
      [0, 1] + Be16(Xor16(port, MAGIC_COOKIE / 0x1_0000)) + Be32(Xor32(ip, MAGIC_COOKIE))
  }

  /** Type, length, value and zero padding up to a multiple of four. */
  function EncodeAttr(a: Attr): (b: seq<byte>)
    requires Writable(a)
    ensures |b| == ATTRIBUTE_HEADER + Padded(ValueLength(a))
  {
    Be16(a.atype) + Be16(ValueLength(a)) + Body(a) + Zeros(Pad(ValueLength(a)))
  }

  function EncodeAttrs(attrs: seq<Attr>): (b: seq<byte>)
    requires AllWritable(attrs)
    ensures |b| == AttrsSize(attrs)
  {
    if attrs == [] then [] else EncodeAttr(attrs[0]) + EncodeAttrs(attrs[1..])
  }

  /** What the length field of the message has to say: four bytes and the padded value, per attribute. */
  function AttrsSize(attrs: seq<Attr>): nat {
    if attrs == [] then 0 else ATTRIBUTE_HEADER + Padded(ValueLength(attrs[0])) + AttrsSize(attrs[1..])
  }

  lemma {:induction false} SizeAligned(attrs: seq<Attr>)
    ensures AttrsSize(attrs) % 4 == 0
  {
    if attrs == [] {
    } else {
      SizeAligned(attrs[1..]);
      PaddedAligned(ValueLength(attrs[0]));
      AddMultipleOfFour(AttrsSize(attrs[1..]), ATTRIBUTE_HEADER + Padded(ValueLength(attrs[0])));
    }
  }

  lemma {:induction false} EncodeAppend(xs: seq<Attr>, ys: seq<Attr>)
    requires AllWritable(xs) && AllWritable(ys)
    ensures AllWritable(xs + ys)
    ensures EncodeAttrs(xs + ys) == EncodeAttrs(xs) + EncodeAttrs(ys)
    ensures AttrsSize(xs + ys) == AttrsSize(xs) + AttrsSize(ys)
  {
    hide EncodeAttr, Padded, ValueLength;
    if xs == [] {
      assert xs + ys == ys;
    } else {
      assert (xs + ys)[1..] == xs[1..] + ys;
      EncodeAppend(xs[1..], ys);
      ConcatAssoc(EncodeAttr(xs[0]), EncodeAttrs(xs[1..]), EncodeAttrs(ys));
    }
  }

  lemma SizeAppend(xs: seq<Attr>, a: Attr)
    ensures AttrsSize(xs + [a]) == AttrsSize(xs) + ATTRIBUTE_HEADER + Padded(ValueLength(a))
  {
    SizeConcat(xs, [a]);
    assert AttrsSize([a]) == ATTRIBUTE_HEADER + Padded(ValueLength(a)) + AttrsSize([]);
  }

  lemma {:induction false} SizeConcat(xs: seq<Attr>, ys: seq<Attr>)
    ensures AttrsSize(xs + ys) == AttrsSize(xs) + AttrsSize(ys)
  {
    if xs == [] {
      assert xs + ys == ys;
    } else {
      assert (xs + ys)[1..] == xs[1..] + ys;
      SizeConcat(xs[1..], ys);
    }
  }

  /** Writing one attribute more appends its bytes to whatever `head` and `xs` gave. */
  lemma EncodeOneMore(head: seq<byte>, xs: seq<Attr>, a: Attr)
    requires AllWritable(xs) && Writable(a)
    ensures AllWritable(xs + [a])
    ensures head + EncodeAttrs(xs + [a]) == (head + EncodeAttrs(xs)) + EncodeAttr(a)
  {
    EncodeAppend(xs, [a]);
    EncodeSingle(a);
    ConcatAssoc(head, EncodeAttrs(xs), EncodeAttr(a));
  }

  lemma EncodeSingle(a: Attr)
    requires Writable(a)
    ensures EncodeAttrs([a]) == EncodeAttr(a) && AttrsSize([a]) == ATTRIBUTE_HEADER + Padded(ValueLength(a))
  {
    assert EncodeAttrs([a]) == EncodeAttr(a) + EncodeAttrs([a][1..]);
  }

  // ---- The parser's table and its step over one attribute ----

  datatype ValueKind = UnknownValue | UInt32Value | ByteStringValue

  function KindOf(t: int): ValueKind {
    if t == USERNAME then ByteStringValue
    else if t == MESSAGE_INTEGRITY then ByteStringValue
    else if t == PRIORITY then UInt32Value
    else UnknownValue
  }

  /** An attribute whose constructor is the one the parser would pick for its type. */
  predicate WellTyped(a: Attr) {
    && (KindOf(a.atype).ByteStringValue? ==> a.ByteStringAttr?)
    && (KindOf(a.atype).UInt32Value? ==> a.UInt32Attr?)
  }

  function TypeAt(d: seq<byte>, pos: nat): u16
    requires pos + 4 <= |d|
  {
    GetBe16(d, pos)
  }

  function LengthAt(d: seq<byte>, pos: nat): u16
    requires pos + 4 <= |d|
  {
    GetBe16(d, pos + 2)
  }

  /** The parser pads the length of an unknown attribute in the uint16 that holds it. */
  function SkipLength(len: u16): u16 {
    if len % 4 != 0 then (len + (4 - len % 4)) % 0x1_0000 else len
  }

  /** Where the parser stands after the attribute at `pos`; None where `read` gives up.
      The padding of a byte string is dropped only if it is there. A uint32 attribute is built with length 4
      whatever the packet says, so its length field is not looked at. */
  function NextPos(d: seq<byte>, pos: nat): (q: Option<nat>)
    requires pos <= |d|
    ensures q.Some? ==> pos + ATTRIBUTE_HEADER <= q.value <= |d|
  {
    if pos + ATTRIBUTE_HEADER > |d| then None
    else
      var len := LengthAt(d, pos);
      var start := pos + ATTRIBUTE_HEADER;
      match KindOf(TypeAt(d, pos))
      case UnknownValue =>
        if start + SkipLength(len) > |d| then None else Some(start + SkipLength(len))
      case ByteStringValue =>
        if start + len > |d| then None
        else if start + len + Pad(len) <= |d| then Some(start + len + Pad(len))
        else Some(start + len)
      case UInt32Value =>
        if start + 4 > |d| then None else Some(start + 4)
  }

  /** The attribute the parser keeps from `pos`: none, if the type is not in its table. */
  function StoredAt(d: seq<byte>, pos: nat): seq<Attr>
    requires pos <= |d| && NextPos(d, pos).Some?
  {
    var start := pos + ATTRIBUTE_HEADER;
    match KindOf(TypeAt(d, pos))
    case UnknownValue => []
    case ByteStringValue => [ByteStringAttr(TypeAt(d, pos), d[start..start + LengthAt(d, pos)])]
    case UInt32Value => [UInt32Attr(TypeAt(d, pos), GetBe32(d, start))]
  }

  lemma EncodedFields(a: Attr)
    requires Writable(a)
    ensures var e := EncodeAttr(a);
      e[0..2] == Be16(a.atype) && e[2..4] == Be16(ValueLength(a)) && e[4..4 + ValueLength(a)] == Body(a)
  {
    var head := Be16(a.atype) + Be16(ValueLength(a));
    var tail := Zeros(Pad(ValueLength(a)));
    assert EncodeAttr(a) == head + (Body(a) + tail);
    assert head[0..2] == Be16(a.atype) && head[2..4] == Be16(ValueLength(a));
    assert (Body(a) + tail)[0..ValueLength(a)] == Body(a);
  }

  /** The header and value fields of an attribute written at `pos` of a longer buffer. */
  lemma AttrAt(d: seq<byte>, pos: nat, a: Attr)
    requires Writable(a)
    requires pos + ATTRIBUTE_HEADER + Padded(ValueLength(a)) <= |d|
    requires d[pos..pos + ATTRIBUTE_HEADER + Padded(ValueLength(a))] == EncodeAttr(a)
    ensures TypeAt(d, pos) == a.atype && LengthAt(d, pos) == ValueLength(a)
    ensures d[pos + 4..pos + 4 + ValueLength(a)] == Body(a)
  {
    EncodedFields(a);
    SliceOfWindow(d, pos, EncodeAttr(a), 0, 2);
    SliceOfWindow(d, pos, EncodeAttr(a), 2, 4);
    SliceOfWindow(d, pos, EncodeAttr(a), 4, 4 + ValueLength(a));
    GetPut16(d, pos, a.atype);
    GetPut16(d, pos + 2, ValueLength(a));
  }

  /** One parser step over a written attribute lands behind its padding and stores the attribute,
      unless the length is one of the three whose padding wraps. */
  lemma ParseStep(d: seq<byte>, pos: nat, a: Attr)
    requires Writable(a) && WellTyped(a) && ValueLength(a) <= 65532
    requires pos + ATTRIBUTE_HEADER + Padded(ValueLength(a)) <= |d|
    requires d[pos..pos + ATTRIBUTE_HEADER + Padded(ValueLength(a))] == EncodeAttr(a)
    ensures NextPos(d, pos) == Some(pos + ATTRIBUTE_HEADER + Padded(ValueLength(a)))
    ensures StoredAt(d, pos) == if KindOf(a.atype).UnknownValue? then [] else [a]
  {
    AttrAt(d, pos, a);
    if KindOf(a.atype).UInt32Value? {
      GetPut32(d, pos + 4, a.value32);
    }
  }
}
