/** How a signalling connection cuts its byte stream into a header and a body. */
module Framing {
  import opened Base

  const HEAD_SIZE := 36
  const HEAD_MAGIC: u32 := 0xfb202202
  /** Stands for "this request was handled" in the number of processed bytes. */
  const HANDLED := 65535

  /** The header is read in place, in the little-endian order of the machine. */
  function Le32(d: seq<byte>, pos: nat): u32
    requires pos + 4 <= |d|
  {
    (d[pos] as int) + 0x100 * (d[pos + 1] as int) + 0x1_0000 * (d[pos + 2] as int) + 0x100_0000 * (d[pos + 3] as int)
  }

  function Magic(d: seq<byte>): u32
    requires |d| >= HEAD_SIZE
  {
    Le32(d, 24)
  }

  function BodyLength(d: seq<byte>): u32
    requires |d| >= HEAD_SIZE
  {
    Le32(d, 32)
  }

  datatype Query = Query(header: seq<byte>, body: seq<byte>)

  /** Whether the request handler accepts; after one it does not accept the connection is closed. */
  type Handler = Query -> bool

  /** A connection's input side; `queries` are the calls of the handler so far. */
  datatype Frame = Frame(buf: seq<byte>, expected: nat, processed: nat, inBody: bool, queries: seq<Query>)

  function NewFrame(): Frame {
    Frame([], HEAD_SIZE, 0, false, [])
  }

  predicate Sound(f: Frame) {
    if !f.inBody then f.expected == HEAD_SIZE && f.processed == 0
    else
      && |f.buf| >= HEAD_SIZE && Magic(f.buf) == HEAD_MAGIC && f.expected == BodyLength(f.buf)
      && (f.processed == HEAD_SIZE || (f.processed == HANDLED && |f.buf| >= HEAD_SIZE + f.expected))
  }

  predicate More(f: Frame) {
    |f.buf| >= f.processed + f.expected
  }

  function Request(buf: seq<byte>): Query
    requires |buf| >= HEAD_SIZE && |buf| >= HEAD_SIZE + BodyLength(buf)
  {
    Query(buf[..HEAD_SIZE], buf[HEAD_SIZE..HEAD_SIZE + BodyLength(buf)])
  }

  // ---- The loop ----

  /** One round: the state after it, and whether the connection stays open. */
  function Round(f: Frame, handler: Handler): (Frame, bool)
    requires Sound(f) && More(f)
  {
    if !f.inBody then
      if Magic(f.buf) != HEAD_MAGIC then (f, false)
      else (f.(inBody := true, expected := BodyLength(f.buf), processed := HEAD_SIZE), true)
    else
      var g := f.(queries := f.queries + [Request(f.buf)]);
      if handler(Request(f.buf)) then (g.(processed := HANDLED), true) else (g, false)
  }

  function Stage(f: Frame): nat {
    if !f.inBody then 2 else if f.processed != HANDLED then 1 else 0
  }

  datatype Outcome = Ready(frame: Frame) | Closed(queries: seq<Query>) | Endless

  /** The whole loop. `Endless` is what `LoopsForEver` says: a round that begins with the sentinel in place
      and is accepted changes nothing that the loop looks at. */
  function Loop(f: Frame, handler: Handler): Outcome
    requires Sound(f)
    decreases Stage(f)
  {
    if !More(f) then Ready(f)
    else
      var (g, open) := Round(f, handler);
      if !open then Closed(g.queries)
      else if f.processed == HANDLED then Endless
      else Loop(g, handler)
  }

  /** The state after `n` rounds, if there are so many. */
  function Rounds(f: Frame, handler: Handler, n: nat): Option<Frame>
    requires Sound(f)
    decreases n
  {
    if n == 0 then Some(f)
    else if !More(f) || !Round(f, handler).1 then None
    else Rounds(Round(f, handler).0, handler, n - 1)
  }

  /** The loop is endless exactly if it has any number of rounds. */
  lemma LoopsForEver(f: Frame, handler: Handler)
    requires Sound(f)
    ensures Loop(f, handler) == Endless <==> forall n :: Rounds(f, handler, n).Some?
  {
    if Loop(f, handler) == Endless {
      forall n
        ensures Rounds(f, handler, n).Some?
      {
        EndlessRounds(f, handler, n);
      }
    } else {
      AtMostThree(f, handler, Stage(f) + 1);
      assert !Rounds(f, handler, Stage(f) + 1).Some?;
    }
  }

  /** Every round of an endless loop but the first calls the handler, with the same request again. */
  lemma {:induction false} EndlessRounds(f: Frame, handler: Handler, n: nat)
    requires Sound(f) && Loop(f, handler) == Endless
    ensures var g := Rounds(f, handler, n);
      g.Some? && |g.value.queries| == |f.queries| + if f.inBody || n == 0 then n else n - 1
    decreases n
  {
    if n == 0 {
    } else {
      var g := Round(f, handler).0;
      assert f.processed == HANDLED ==> Round(g, handler).0.processed == HANDLED;
      EndlessRounds(g, handler, n - 1);
    }
  }

  /** A loop that ends does so within three rounds. */
  lemma {:induction false} AtMostThree(f: Frame, handler: Handler, n: nat)
    requires Sound(f) && Loop(f, handler) != Endless && n > Stage(f)
    ensures Rounds(f, handler, n) == None
    decreases Stage(f)
  {
    if !More(f) || !Round(f, handler).1 {
    } else {
      AtMostThree(Round(f, handler).0, handler, n - 1);
    }
  }

  /** One more round at the end of `n`. */
  lemma {:induction false} OneMoreRound(f: Frame, handler: Handler, n: nat)
    requires Sound(f) && Rounds(f, handler, n).Some?
    ensures var g := Rounds(f, handler, n).value;
      && Sound(g) && Loop(g, handler) == Loop(f, handler)
      && Rounds(f, handler, n + 1) == if More(g) && Round(g, handler).1 then Some(Round(g, handler).0) else None
    decreases n
  {
    if n == 0 {
      assert More(f) && Round(f, handler).1 ==> Rounds(Round(f, handler).0, handler, 0) == Some(Round(f, handler).0);
    } else {
      OneMoreRound(Round(f, handler).0, handler, n - 1);
    }
  }

  // ---- Streams ----

  function Received(f: Frame, chunk: seq<byte>): Frame {
    f.(buf := f.buf + chunk)
  }

  lemma ReceivedIsSound(f: Frame, chunk: seq<byte>)
    requires Sound(f)
    ensures Sound(Received(f, chunk))
  {
  }

  lemma {:induction false} LoopStops(f: Frame, handler: Handler)
    requires Sound(f) && Loop(f, handler).Ready?
    ensures Sound(Loop(f, handler).frame) && !More(Loop(f, handler).frame)
    decreases Stage(f)
  {
    if !More(f) {
    } else {
      LoopStops(Round(f, handler).0, handler);
    }
  }

  /** What a read takes of the bytes the socket holds. */
  function Offered(f: Frame, available: seq<byte>): (chunk: seq<byte>)
    ensures |chunk| <= f.expected && chunk <= available
  {
    available[..Min(|available|, f.expected)]
  }

  /** One READ event that yields `chunk`. The worker asks for no more than the expected bytes; if it asks
      for none, the socket answers as at the end of the stream. */
  function Deliver(f: Frame, chunk: seq<byte>, handler: Handler): Outcome
    requires Sound(f) && |chunk| <= f.expected
  {
    ReceivedIsSound(f, chunk);
    if f.expected == 0 then Closed(f.queries) else Loop(Received(f, chunk), handler)
  }

  lemma DeliverStops(f: Frame, chunk: seq<byte>, handler: Handler)
    requires Sound(f) && |chunk| <= f.expected
    ensures Deliver(f, chunk, handler).Ready? ==>
      Sound(Deliver(f, chunk, handler).frame) && !More(Deliver(f, chunk, handler).frame)
  {
    ReceivedIsSound(f, chunk);
    if f.expected > 0 && Loop(Received(f, chunk), handler).Ready? {
      LoopStops(Received(f, chunk), handler);
    }
  }

  /** What the reads of a connection can be: none yields more than is asked for, and none follows the end. */
  predicate Reads(f: Frame, chunks: seq<seq<byte>>, handler: Handler)
    requires Sound(f) && !More(f)
    decreases |chunks|
  {
    chunks == []
    || (|chunks[0]| <= f.expected
        && match Deliver(f, chunks[0], handler)
           case Ready(g) =>
             DeliverStops(f, chunks[0], handler);
             Reads(g, chunks[1..], handler)
           case _ => chunks[1..] == [])
  }

  /** The reads of a connection, each followed by the loop. */
  function Stream(f: Frame, chunks: seq<seq<byte>>, handler: Handler): Outcome
    requires Sound(f) && !More(f) && Reads(f, chunks, handler)
    decreases |chunks|
  {
    if chunks == [] then Ready(f)
    else
      match Deliver(f, chunks[0], handler)
      case Ready(g) =>
        DeliverStops(f, chunks[0], handler);
        Stream(g, chunks[1..], handler)
      case other => other
  }

  function Flat(chunks: seq<seq<byte>>): seq<byte>
    decreases |chunks|
  {
    if chunks == [] then [] else chunks[0] + Flat(chunks[1..])
  }

  // ---- What a stream comes to, from its bytes alone ----

  datatype Verdict = Incomplete | BadMagic | Handled(query: Query, accepted: bool) | Stuck

  function Judge(bytes: seq<byte>, handler: Handler): Verdict {
    if |bytes| < HEAD_SIZE then Incomplete
    else if Magic(bytes) != HEAD_MAGIC then BadMagic
    else if |bytes| < HEAD_SIZE + BodyLength(bytes) then Incomplete
    else if !handler(Request(bytes)) then Handled(Request(bytes), false)
    else if |bytes| < HANDLED + BodyLength(bytes) then Handled(Request(bytes), true)
    else Stuck
  }

  /** The outcome a verdict stands for. After an accepted request without a body the next READ event, which
      asks for nothing, closes the connection. */
  ghost predicate Agrees(o: Outcome, v: Verdict, bytes: seq<byte>) {
    match v
    case Incomplete => o.Ready? && o.frame.buf == bytes && o.frame.queries == []
    case Handled(q, true) =>
      (o.Ready? && o.frame.buf == bytes && o.frame.queries == [q]) || (q.body == [] && o == Closed([q]))
    case BadMagic => o == Closed([])
    case Handled(q, false) => o == Closed([q])
    case Stuck => o == Endless
  }

  /** A resting state whose bytes were judged as they stand. */
  ghost predicate Resting(f: Frame, handler: Handler) {
    && Sound(f) && !More(f)
    && (f.processed != HANDLED ==> f.queries == [])
    && (f.processed == HANDLED ==> f.queries == [Request(f.buf)] && handler(Request(f.buf)))
  }

  lemma HeaderStays(a: seq<byte>, b: seq<byte>)
    requires |a| >= HEAD_SIZE
    ensures Magic(a + b) == Magic(a) && BodyLength(a + b) == BodyLength(a)
    ensures |a| >= HEAD_SIZE + BodyLength(a) ==> Request(a + b) == Request(a)
  {
    if |a| >= HEAD_SIZE + BodyLength(a) {
      assert (a + b)[..HEAD_SIZE] == a[..HEAD_SIZE];
      var n := HEAD_SIZE + BodyLength(a);
      assert (a + b)[HEAD_SIZE..n] == a[HEAD_SIZE..n];
    }
  }

  lemma LoopOnHandled(f: Frame, handler: Handler)
    requires Sound(f) && f.processed == HANDLED && f.queries == [Request(f.buf)] && handler(Request(f.buf))
    ensures Loop(f, handler) == if |f.buf| < HANDLED + BodyLength(f.buf) then Ready(f) else Endless
  {
  }

  lemma LoopOnBody(f: Frame, handler: Handler)
    requires Sound(f) && f.inBody && f.processed == HEAD_SIZE && f.queries == []
    ensures Agrees(Loop(f, handler), Judge(f.buf, handler), f.buf)
    ensures Loop(f, handler).Ready? ==> Resting(Loop(f, handler).frame, handler)
  {
    if More(f) && handler(Request(f.buf)) {
      LoopOnHandled(Round(f, handler).0, handler);
    }
  }

  lemma LoopOnHead(f: Frame, handler: Handler)
    requires Sound(f) && !f.inBody && f.queries == []
    ensures Agrees(Loop(f, handler), Judge(f.buf, handler), f.buf)
    ensures Loop(f, handler).Ready? ==> Resting(Loop(f, handler).frame, handler)
  {
    if More(f) && Magic(f.buf) == HEAD_MAGIC {
      LoopOnBody(Round(f, handler).0, handler);
    }
  }

  lemma OneRead(f: Frame, chunk: seq<byte>, handler: Handler)
    requires Resting(f, handler)
    ensures Sound(Received(f, chunk))
    ensures Agrees(Loop(Received(f, chunk), handler), Judge(f.buf + chunk, handler), f.buf + chunk)
    ensures Loop(Received(f, chunk), handler).Ready? ==> Resting(Loop(Received(f, chunk), handler).frame, handler)
  {
    hide Le32;
    ReceivedIsSound(f, chunk);
    if !f.inBody {
      LoopOnHead(Received(f, chunk), handler);
    } else {
      HeaderStays(f.buf, chunk);
      if f.processed == HANDLED {
        LoopOnHandled(Received(f, chunk), handler);
      } else {
        LoopOnBody(Received(f, chunk), handler);
      }
    }
  }

  lemma RestingAgrees(f: Frame, handler: Handler)
    requires Resting(f, handler)
    ensures Agrees(Ready(f), Judge(f.buf, handler), f.buf)
  {
  }

  /** A connection that expects nothing more has handled a request without a body. */
  lemma ExpectsNothing(f: Frame, handler: Handler)
    requires Resting(f, handler) && f.expected == 0
    ensures Judge(f.buf, handler) == Handled(Request(f.buf), true) && Request(f.buf).body == []
    ensures f.queries == [Request(f.buf)]
  {
    RestingAgrees(f, handler);
  }

  lemma {:induction false} StreamFromRest(f: Frame, chunks: seq<seq<byte>>, handler: Handler)
    requires Resting(f, handler) && Reads(f, chunks, handler)
    ensures Agrees(Stream(f, chunks, handler), Judge(f.buf + Flat(chunks), handler), f.buf + Flat(chunks))
    decreases |chunks|
  {
    if chunks == [] {
      assert f.buf + Flat(chunks) == f.buf;
      RestingAgrees(f, handler);
    } else if f.expected == 0 {
      assert Flat(chunks[1..]) == [] && chunks[0] + Flat(chunks[1..]) == [];
      assert f.buf + Flat(chunks) == f.buf;
      ExpectsNothing(f, handler);
    } else {
      OneRead(f, chunks[0], handler);
      ConcatAssoc(f.buf, chunks[0], Flat(chunks[1..]));
      hide Judge, Loop;
      match Deliver(f, chunks[0], handler)
      case Ready(g) => StreamFromRest(g, chunks[1..], handler);
      case other => assert f.buf + chunks[0] + Flat(chunks[1..]) == f.buf + chunks[0];
    }
  }

  /** However the bytes are split into reads, the outcome is that of the bytes as a whole. */
  lemma SplittingDoesNotMatter(chunks: seq<seq<byte>>, handler: Handler)
    requires Reads(NewFrame(), chunks, handler)
    ensures Agrees(Stream(NewFrame(), chunks, handler), Judge(Flat(chunks), handler), Flat(chunks))
  {
    assert NewFrame().buf + Flat(chunks) == Flat(chunks);
    StreamFromRest(NewFrame(), chunks, handler);
  }

  // ---- Requests as a client writes them ----

  /** The four bytes of a number, lowest first. */
  function LittleEndian(x: u32): seq<byte> {
    [x % 0x100, x / 0x100 % 0x100, x / 0x1_0000 % 0x100, x / 0x100_0000]
  }

  /** A header: 24 bytes of id, version, log id and provider, the magic number, a reserved word, and the
      length of the body. */
  function WrittenHeader(front: seq<byte>, reserved: seq<byte>, length: u32): (h: seq<byte>)
    requires |front| == 24 && |reserved| == 4
    ensures |h| == HEAD_SIZE
  {
    front + [0x02, 0x22, 0x20, 0xfb] + reserved + LittleEndian(length)
  }

  lemma ReadLittleEndian(d: seq<byte>, pos: nat, x: u32)
    requires pos + 4 <= |d|
    ensures Le32(d, pos) == x <==> d[pos..pos + 4] == LittleEndian(x)
  {
    var w := d[pos..pos + 4];
    assert w == [d[pos], d[pos + 1], d[pos + 2], d[pos + 3]];
    Digits(d[pos], d[pos + 1], d[pos + 2], d[pos + 3]);
    Recombined(x);
    hide LittleEndian;
    if w == LittleEndian(x) {
      SameDigits(d, pos, x);
    }
  }

  lemma SameDigits(d: seq<byte>, pos: nat, x: u32)
    requires pos + 4 <= |d| && [d[pos], d[pos + 1], d[pos + 2], d[pos + 3]] == LittleEndian(x)
    ensures Le32(d, pos) == x
  {
    var l := LittleEndian(x);
    assert d[pos] == l[0] && d[pos + 1] == l[1] && d[pos + 2] == l[2] && d[pos + 3] == l[3];
    Recombined(x);
  }

  lemma Recombined(x: u32)
    ensures x % 0x100 + 0x100 * (x / 0x100 % 0x100) + 0x1_0000 * (x / 0x1_0000 % 0x100) + 0x100_0000 * (x / 0x100_0000)
         == x
  {
    assert x / 0x1_0000 == x / 0x100 / 0x100 && x / 0x100_0000 == x / 0x1_0000 / 0x100;
  }

  lemma Digits(a: byte, b: byte, c: byte, e: byte)
    ensures LittleEndian((a as int) + 0x100 * (b as int) + 0x1_0000 * (c as int) + 0x100_0000 * (e as int))
         == [a, b, c, e]
  {
    var x := (a as int) + 0x100 * (b as int) + 0x1_0000 * (c as int) + 0x100_0000 * (e as int);
    var y := (b as int) + 0x100 * (c as int) + 0x1_0000 * (e as int);
    assert x == a + 0x100 * y;
    assert x % 0x100 == a && x / 0x100 == y;
    assert y % 0x100 == b && y / 0x100 == c + 0x100 * e;
    assert x / 0x1_0000 == y / 0x100 && x / 0x100_0000 == x / 0x1_0000 / 0x100;
  }

  /** A stream begins with a written header of that length exactly if the worker reads it so. */
  lemma HeaderRead(bytes: seq<byte>, length: u32)
    requires |bytes| >= HEAD_SIZE
    ensures Magic(bytes) == HEAD_MAGIC && BodyLength(bytes) == length
      <==> bytes[..HEAD_SIZE] == WrittenHeader(bytes[..24], bytes[28..32], length)
  {
    hide Le32, LittleEndian;
    assert LittleEndian(HEAD_MAGIC) == [0x02, 0x22, 0x20, 0xfb] by { MagicBytes(); }
    ReadLittleEndian(bytes, 24, HEAD_MAGIC);
    ReadLittleEndian(bytes, 32, length);
    var h := bytes[..HEAD_SIZE];
    assert h[..24] == bytes[..24] && h[24..28] == bytes[24..28] && h[28..32] == bytes[28..32];
    assert h[32..36] == bytes[32..36];
    assert h == h[..24] + h[24..28] + h[28..32] + h[32..36];
    var w := WrittenHeader(bytes[..24], bytes[28..32], length);
    assert w[24..28] == [0x02, 0x22, 0x20, 0xfb] && w[32..36] == LittleEndian(length);
  }

  lemma MagicBytes()
    ensures LittleEndian(HEAD_MAGIC) == [0x02, 0x22, 0x20, 0xfb]
  {
  }

  /** The calls of the handler in an outcome that is not endless. */
  function Called(o: Outcome): seq<Query> {
    match o
    case Ready(f) => f.queries
    case Closed(queries) => queries
    case Endless => []
  }

  /** The stream begins with a written header that announces this body, and the body. */
  ghost predicate IsRequest(bytes: seq<byte>, body: seq<byte>) {
    && |bytes| >= HEAD_SIZE && |body| < 0x1_0000_0000
    && WrittenHeader(bytes[..24], bytes[28..32], |body|) + body <= bytes
  }

  lemma RequestRead(bytes: seq<byte>, body: seq<byte>)
    requires |bytes| >= HEAD_SIZE && |body| < 0x1_0000_0000
    ensures IsRequest(bytes, body)
      <==> && Magic(bytes) == HEAD_MAGIC && BodyLength(bytes) == |body| && |bytes| >= HEAD_SIZE + |body|
           && bytes[HEAD_SIZE..HEAD_SIZE + |body|] == body
  {
    hide Le32, WrittenHeader;
    HeaderRead(bytes, |body|);
    var h := WrittenHeader(bytes[..24], bytes[28..32], |body|);
    var n := HEAD_SIZE + |body|;
    if h + body <= bytes {
      assert bytes[..HEAD_SIZE] == (h + body)[..HEAD_SIZE] == h;
      assert bytes[HEAD_SIZE..n] == (h + body)[HEAD_SIZE..n] == body;
    }
    if |bytes| >= n && bytes[..HEAD_SIZE] == h && bytes[HEAD_SIZE..n] == body {
      assert bytes[..n] == bytes[..HEAD_SIZE] + bytes[HEAD_SIZE..n];
    }
  }

  /** The handler runs exactly once, and on the first 36 bytes and the announced body, if and only if the
      magic number is right, the request is complete, and either the handler does not accept it or fewer
      than 65535 bytes more than the body arrive in all. */
  lemma HandlerRunsOnce(chunks: seq<seq<byte>>, handler: Handler)
    requires Reads(NewFrame(), chunks, handler)
    ensures var bytes, o := Flat(chunks), Stream(NewFrame(), chunks, handler);
      var called := Called(o);
      && (|called| == 1 <==> && |bytes| >= 36 && Magic(bytes) == HEAD_MAGIC && |bytes| >= 36 + BodyLength(bytes)
                             && (!handler(Request(bytes)) || |bytes| < 65535 + BodyLength(bytes)))
      && (|called| == 1 <==> exists body :: IsRequest(bytes, body) && (!handler(Query(bytes[..36], body))
                                                                      || |bytes| < 65535 + |body|))
      && (called != [] ==> |bytes| >= 36 && |bytes| >= 36 + BodyLength(bytes) && called == [Request(bytes)])
  {
    hide Stream, Reads, Le32, WrittenHeader;
    var bytes := Flat(chunks);
    SplittingDoesNotMatter(chunks, handler);
    forall body | IsRequest(bytes, body)
      ensures |bytes| >= 36 + |body| && BodyLength(bytes) == |body| && Magic(bytes) == HEAD_MAGIC
      ensures Request(bytes) == Query(bytes[..36], body)
    {
      RequestRead(bytes, body);
    }
    if |bytes| >= 36 && Magic(bytes) == HEAD_MAGIC && |bytes| >= 36 + BodyLength(bytes) {
      RequestRead(bytes, bytes[36..36 + BodyLength(bytes)]);
    }
  }

  /** A request as a client writes it reaches the handler whole: with every body, however the bytes are split
      into reads, and with whatever follows, unless it is accepted and so many bytes follow that the loop
      is endless. */
  lemma WrittenRequestIsHandled(front: seq<byte>, reserved: seq<byte>, body: seq<byte>, extra: seq<byte>,
                                chunks: seq<seq<byte>>, handler: Handler)
    requires |front| == 24 && |reserved| == 4 && |body| < 0x1_0000_0000
    requires Reads(NewFrame(), chunks, handler)
    requires Flat(chunks) == WrittenHeader(front, reserved, |body|) + body + extra
    ensures var q, o := Query(WrittenHeader(front, reserved, |body|), body), Stream(NewFrame(), chunks, handler);
      if handler(q) && |extra| >= 65499 then o == Endless
      else Called(o) == [q] && (!handler(q) ==> o == Closed([q]))
  {
    hide Stream, Reads, Le32, WrittenHeader;
    var bytes, header := Flat(chunks), WrittenHeader(front, reserved, |body|);
    SplittingDoesNotMatter(chunks, handler);
    WrittenParts(front, reserved, body, extra);
    HeaderRead(bytes, |body|);
    assert bytes[HEAD_SIZE..HEAD_SIZE + |body|] == body;
  }

  lemma WrittenParts(front: seq<byte>, reserved: seq<byte>, body: seq<byte>, extra: seq<byte>)
    requires |front| == 24 && |reserved| == 4 && |body| < 0x1_0000_0000
    ensures var header := WrittenHeader(front, reserved, |body|);
      var bytes := header + body + extra;
      bytes[..HEAD_SIZE] == header && bytes[..24] == front && bytes[28..32] == reserved
  {
  }

  /** As long as the request is not complete the connection waits for the rest. */
  lemma IncompleteRequestWaits(front: seq<byte>, reserved: seq<byte>, body: seq<byte>, chunks: seq<seq<byte>>,
                               handler: Handler)
    requires |front| == 24 && |reserved| == 4 && |body| < 0x1_0000_0000
    requires Reads(NewFrame(), chunks, handler)
    requires Flat(chunks) < WrittenHeader(front, reserved, |body|) + body
    ensures var o := Stream(NewFrame(), chunks, handler); o.Ready? && o.frame.queries == []
  {
    hide Stream, Reads, Le32, WrittenHeader;
    var bytes, header := Flat(chunks), WrittenHeader(front, reserved, |body|);
    SplittingDoesNotMatter(chunks, handler);
    if |bytes| >= HEAD_SIZE {
      WrittenParts(front, reserved, body, []);
      var whole := header + body + [];
      assert whole == header + body;
      assert bytes[..HEAD_SIZE] == whole[..HEAD_SIZE] && bytes[..24] == whole[..24] && bytes[28..32] == whole[28..32];
      HeaderRead(bytes, |body|);
    }
  }

  /** Conversely the handler is called only with a header and a body that stand at the beginning of what came,
      the header announcing that body. */
  lemma OnlyWrittenRequestsAreHandled(chunks: seq<seq<byte>>, handler: Handler)
    requires Reads(NewFrame(), chunks, handler) && Called(Stream(NewFrame(), chunks, handler)) != []
    ensures var bytes, calls := Flat(chunks), Called(Stream(NewFrame(), chunks, handler));
      && |calls| == 1 && |bytes| >= HEAD_SIZE && |calls[0].body| < 0x1_0000_0000
      && calls[0].header == WrittenHeader(bytes[..24], bytes[28..32], |calls[0].body|)
      && calls[0].header + calls[0].body <= bytes
  {
    hide Stream, Reads, Le32, WrittenHeader;
    var bytes := Flat(chunks);
    SplittingDoesNotMatter(chunks, handler);
    HeaderRead(bytes, BodyLength(bytes));
    var n := HEAD_SIZE + BodyLength(bytes);
    assert bytes[..HEAD_SIZE] + bytes[HEAD_SIZE..n] == bytes[..n];
  }

  // ---- Reaching the endless loop ----

  /** Any connection whose request was handled can be flooded, reading no more than it asks for. */
  lemma {:induction false} FloodsFromRest(f: Frame, handler: Handler) returns (chunks: seq<seq<byte>>)
    requires Resting(f, handler) && f.processed == HANDLED && f.expected > 0
    ensures Reads(f, chunks, handler) && Stream(f, chunks, handler) == Endless
    decreases HANDLED + f.expected - |f.buf|
  {
    var chunk := Zeros(f.expected);
    OneRead(f, chunk, handler);
    HeaderStays(f.buf, chunk);
    LoopOnHandled(Received(f, chunk), handler);
    var o := Deliver(f, chunk, handler);
    if !o.Ready? {
      chunks := [chunk];
    } else {
      var rest := FloodsFromRest(o.frame, handler);
      chunks := [chunk] + rest;
      assert chunks[1..] == rest;
    }
  }

  /** Every request with a body that the handler accepts can be followed by bytes that make the loop endless. */
  lemma AcceptedRequestFloods(header: seq<byte>, body: seq<byte>, handler: Handler) returns (chunks: seq<seq<byte>>)
    requires |header| == HEAD_SIZE && Magic(header) == HEAD_MAGIC && BodyLength(header) == |body| > 0
    requires handler(Query(header, body))
    ensures Reads(NewFrame(), chunks, handler) && Stream(NewFrame(), chunks, handler) == Endless
  {
    var f := Frame(header, |body|, HEAD_SIZE, true, []);
    var g := Frame(header + body, |body|, HANDLED, true, [Query(header, body)]);
    HeaderStays(header, body);
    assert Request(header + body) == Query(header, body);
    assert Received(NewFrame(), header) == NewFrame().(buf := header);
    OneRead(NewFrame(), header, handler);
    assert Deliver(NewFrame(), header, handler) == Ready(f);
    OneRead(f, body, handler);
    LoopOnHandled(g, handler);
    assert Deliver(f, body, handler) == Ready(g);
    var rest := FloodsFromRest(g, handler);
    chunks := [header, body] + rest;
    assert chunks[1..] == [body] + rest && ([body] + rest)[1..] == rest;
    assert Reads(f, [body] + rest, handler);
  }

  /** A header that announces one byte. */
  function SmallHeader(): seq<byte> {
    Zeros(24) + [0x02, 0x22, 0x20, 0xfb] + Zeros(4) + [1, 0, 0, 0]
  }

  /** So the endless loop is reached: with this header, one byte, and a handler that accepts them. */
  lemma EndlessIsReached(x: byte, handler: Handler) returns (chunks: seq<seq<byte>>)
    requires handler(Query(SmallHeader(), [x]))
    ensures Reads(NewFrame(), chunks, handler) && Stream(NewFrame(), chunks, handler) == Endless
  {
    chunks := AcceptedRequestFloods(SmallHeader(), [x], handler);
  }
}
