/** A signalling connection as an object, and the worker's methods on it. */
module TcpConnections {
  import opened Base
  import F = Framing
  import R = Replies

  class TcpConnection {
    var querybuf: seq<byte>
    var bytesExpected: nat
    var bytesProcessed: nat
    var inBody: bool
    var replyList: seq<seq<byte>>
    var curRespPos: nat
    var writeWatched: bool
    var closed: bool
    /** The calls of the request handler, and what the socket has taken. */
    ghost var queries: seq<F.Query>
    ghost var sent: seq<byte>

    ghost function Input(): F.Frame
      reads this
    {
      F.Frame(querybuf, bytesExpected, bytesProcessed, inBody, queries)
    }

    ghost function Output(): R.Output
      reads this
    {
      R.Output(replyList, curRespPos, writeWatched, sent, closed)
    }

    constructor ()
      ensures Input() == F.NewFrame() && Output() == R.NewOutput()
    {
      querybuf, bytesExpected, bytesProcessed, inBody := [], F.HEAD_SIZE, 0, false;
      replyList, curRespPos, writeWatched, closed := [], 0, false, false;
      queries, sent := [], [];
    }

    /** The body of the loop of `_process_query_buffer`. */
    method ProcessOnce(handler: F.Handler) returns (open: bool)
      requires F.Sound(Input()) && F.More(Input())
      modifies `bytesExpected, `bytesProcessed, `inBody, `queries
      ensures (Input(), open) == F.Round(old(Input()), handler)
    {
      if !inBody {
        if F.Magic(querybuf) != F.HEAD_MAGIC {
          return false;
        }
        inBody := true;
        bytesExpected := F.BodyLength(querybuf);
        bytesProcessed := F.HEAD_SIZE;
      } else {
        var header := querybuf[..F.HEAD_SIZE];
        var body := querybuf[F.HEAD_SIZE..F.HEAD_SIZE + F.BodyLength(querybuf)];
        queries := queries + [F.Query(header, body)];
        var accepted := handler(F.Query(header, body));
        if !accepted {
          return false;
        }
        bytesProcessed := F.HANDLED;
      }
      return true;
    }

    /** The loop itself, watched for at most `limit` rounds: -1 asks the caller to close the connection, 1 says
        that the loop goes on. It never ends exactly if three rounds do not end it. */
    method ProcessQueryBuffer(handler: F.Handler, limit: nat) returns (ret: int)
      requires F.Sound(Input())
      modifies `bytesExpected, `bytesProcessed, `inBody, `queries
      ensures ret == 0 ==> F.Loop(old(Input()), handler) == F.Ready(Input())
      ensures ret == -1 ==> F.Loop(old(Input()), handler) == F.Closed(queries)
      ensures ret == 1 ==> F.Rounds(old(Input()), handler, limit) == Some(Input()) && F.More(Input())
      ensures ret == 0 || ret == -1 || (ret == 1 && (limit >= 3 ==> F.Loop(old(Input()), handler) == F.Endless))
    {
      hide F.Sound, F.Round;
      var k := 0;
      while |querybuf| >= bytesProcessed + bytesExpected && k < limit
        invariant 0 <= k <= limit && F.Rounds(old(Input()), handler, k) == Some(Input())
        invariant F.Sound(Input()) && F.Loop(Input(), handler) == F.Loop(old(Input()), handler)
        decreases limit - k
      {
        F.OneMoreRound(old(Input()), handler, k);
        var open := ProcessOnce(handler);
        if !open {
          return -1;
        }
        k := k + 1;
        F.OneMoreRound(old(Input()), handler, k);
      }
      if |querybuf| >= bytesProcessed + bytesExpected {
        if F.Loop(old(Input()), handler) != F.Endless && limit >= 3 {
          F.AtMostThree(old(Input()), handler, limit);
        }
        return 1;
      }
      return 0;
    }

    /** One READ event. `available` is what the socket holds: None at the end of the stream or on an error.
        The worker reads no more than it expects; a read of nothing looks like the end of the stream. */
    method ReadQuery(available: Option<seq<byte>>, handler: F.Handler, limit: nat) returns (settled: bool)
      requires !closed && F.Sound(Input())
      modifies this
      ensures replyList == old(replyList) && curRespPos == old(curRespPos) && sent == old(sent)
      ensures available.None? ==> closed && settled && queries == old(queries)
      ensures available.Some? && settled ==>
        F.Deliver(old(Input()), F.Offered(old(Input()), available.value), handler)
        == if closed then F.Closed(queries) else F.Ready(Input())
      ensures available.Some? && !settled && limit >= 3 ==>
        F.Deliver(old(Input()), F.Offered(old(Input()), available.value), handler) == F.Endless
    {
      if available.None? || bytesExpected == 0 {
        closed := true;
        return true;
      }
      var chunk := available.value[..Min(|available.value|, bytesExpected)];
      F.ReceivedIsSound(Input(), chunk);
      querybuf := querybuf + chunk;
      var ret := ProcessQueryBuffer(handler, limit);
      closed := ret == -1;
      settled := ret != 1;
    }

    method AddReply(reply: seq<byte>)
      modifies this
      ensures Output() == R.AddReply(old(Output()), reply) && Input() == old(Input())
    {
      replyList := replyList + [reply];
      writeWatched := true;
    }

    /** One round of the writing loop, with the kernel's answer. */
    method OfferFront(answer: int)
      requires R.Sound(Output()) && replyList != [] && !closed
      modifies `replyList, `curRespPos, `sent, `closed
      ensures Output() == R.Offer(old(Output()), R.Clipped(old(Output()), answer))
    {
      var written := if answer < 0 then -1 else Min(answer, |replyList[0]| - curRespPos);
      if written == -1 {
        closed := true;
      } else if written == 0 {
      } else if written + curRespPos >= |replyList[0]| {
        sent := sent + replyList[0][curRespPos..curRespPos + written];
        replyList := replyList[1..];
        curRespPos := 0;
      } else {
        sent := sent + replyList[0][curRespPos..curRespPos + written];
        curRespPos := curRespPos + written;
      }
    }

    /** One WRITE event; `answers` are the kernel's results in order. */
    method WriteReply(answers: seq<int>)
      requires R.Sound(Output()) && !closed
      modifies `replyList, `curRespPos, `sent, `closed, `writeWatched
      ensures Output() == R.WriteReply(old(Output()), answers)
    {
      hide R.Offer, R.Clipped, R.Sound;
      var k := 0;
      while replyList != [] && k < |answers|
        invariant 0 <= k <= |answers| && !closed && R.Sound(Output())
        invariant R.WriteReply(Output(), answers[k..]) == R.WriteReply(old(Output()), answers)
        decreases |answers| - k
      {
        assert answers[k..][0] == answers[k] && answers[k..][1..] == answers[k + 1..];
        R.OfferConserves(Output(), R.Clipped(Output(), answers[k]));
        OfferFront(answers[k]);
        k := k + 1;
        if closed {
          return;
        }
      }
      if replyList == [] {
        writeWatched := false;
      }
    }
  }
}
