/** The reply list of a signalling connection, written out under whatever the kernel takes. */
module Replies {
  import opened Base

  /** `sent` is what the socket has taken so far; `armed` says whether the WRITE event is watched. */
  datatype Output = Output(replies: seq<seq<byte>>, pos: nat, armed: bool, sent: seq<byte>, closed: bool)

  function NewOutput(): Output {
    Output([], 0, false, [], false)
  }

  function AddReply(o: Output, reply: seq<byte>): Output {
    o.(replies := o.replies + [reply], armed := true)
  }

  function Joined(replies: seq<seq<byte>>): seq<byte> {
    if replies == [] then [] else replies[0] + Joined(replies[1..])
  }

  /** What the socket has yet to take. */
  function Unsent(o: Output): seq<byte>
    requires o.replies != [] ==> o.pos <= |o.replies[0]|
  {
    if o.replies == [] then [] else o.replies[0][o.pos..] + Joined(o.replies[1..])
  }

  /** All bytes the connection was given. */
  function Total(o: Output): seq<byte>
    requires o.replies != [] ==> o.pos <= |o.replies[0]|
  {
    o.sent + Unsent(o)
  }

  /** No reply is empty: each begins with a header. The position lies inside the front reply. */
  ghost predicate Sound(o: Output) {
    && (forall i :: 0 <= i < |o.replies| ==> o.replies[i] != [])
    && (if o.replies == [] then o.pos == 0 else o.pos < |o.replies[0]|)
  }

  /** What the kernel can answer: -1 for an error, 0 for "try again", or at most what it is offered. */
  function Clipped(o: Output, n: int): (r: int)
    requires Sound(o) && o.replies != []
    ensures -1 <= r <= |o.replies[0]| - o.pos
  {
    if n < 0 then -1 else Min(n, |o.replies[0]| - o.pos)
  }

  function FinishFront(o: Output, n: nat): Output
    requires o.replies != [] && o.pos + n == |o.replies[0]|
  {
    o.(sent := o.sent + o.replies[0][o.pos..o.pos + n], replies := o.replies[1..], pos := 0)
  }

  function AdvanceFront(o: Output, n: nat): Output
    requires o.replies != [] && o.pos + n < |o.replies[0]|
  {
    o.(sent := o.sent + o.replies[0][o.pos..o.pos + n], pos := o.pos + n)
  }

  /** One round of the loop, with `n` as the kernel's answer. */
  function Offer(o: Output, n: int): Output
    requires Sound(o) && o.replies != []
    requires -1 <= n <= |o.replies[0]| - o.pos
  {
    if n == -1 then o.(closed := true)
    else if n == 0 then o
    else if n + o.pos >= |o.replies[0]| then FinishFront(o, n)
    else AdvanceFront(o, n)
  }

  lemma MoveBytes(sent: seq<byte>, front: seq<byte>, pos: nat, n: nat, rest: seq<byte>)
    requires pos + n <= |front|
    ensures sent + front[pos..pos + n] + (front[pos + n..] + rest) == sent + (front[pos..] + rest)
  {
    var a, b := front[pos..pos + n], front[pos + n..];
    assert front[pos..] == a + b;
    ConcatAssoc(a, b, rest);
    ConcatAssoc(sent, a, b + rest);
  }

  lemma JoinedIsUnsent(o: Output)
    requires o.pos == 0
    ensures Unsent(o) == Joined(o.replies)
  {
    if o.replies != [] {
      assert o.replies[0][0..] == o.replies[0];
    }
  }

  lemma FrontFinished(o: Output, n: nat)
    requires o.replies != [] && o.pos + n == |o.replies[0]|
    ensures Total(FinishFront(o, n)) == Total(o)
  {
    JoinedIsUnsent(FinishFront(o, n));
    ConcatAssoc(o.sent, o.replies[0][o.pos..], Joined(o.replies[1..]));
  }

  lemma ClosingLeavesUnsent(o: Output)
    requires o.replies != [] && o.pos <= |o.replies[0]|
    ensures Total(o.(closed := true)) == Total(o)
  {
  }

  lemma FrontAdvances(o: Output, n: nat)
    requires o.replies != [] && o.pos + n < |o.replies[0]|
    ensures Total(AdvanceFront(o, n)) == Total(o)
  {
    MoveBytes(o.sent, o.replies[0], o.pos, n, Joined(o.replies[1..]));
  }

  /** Nothing is lost, doubled or reordered by any answer. */
  lemma OfferConserves(o: Output, n: int)
    requires Sound(o) && o.replies != [] && -1 <= n <= |o.replies[0]| - o.pos
    ensures var p := Offer(o, n);
      Sound(p) && Total(p) == Total(o)
  {
    OfferIsSound(o, n);
    hide Unsent, Sound, Joined, Total, FinishFront, AdvanceFront;
    if n <= 0 {
      ClosingLeavesUnsent(o);
    } else if n + o.pos < |o.replies[0]| {
      FrontAdvances(o, n);
    } else {
      FrontFinished(o, n);
    }
  }

  lemma OfferCounts(o: Output, n: int)
    requires Sound(o) && o.replies != [] && -1 <= n <= |o.replies[0]| - o.pos
    ensures |Offer(o, n).sent| == |o.sent| + Max(n, 0)
  {
  }

  lemma OfferIsSound(o: Output, n: int)
    requires Sound(o) && o.replies != [] && -1 <= n <= |o.replies[0]| - o.pos
    ensures Sound(Offer(o, n))
  {
    assert forall i :: 0 <= i < |o.replies[1..]| ==> o.replies[1..][i] == o.replies[i + 1];
  }

  /** The loop, fed with the kernel's answers in order. It ends with an empty list, which takes the WRITE
      event off, or with a closed connection; if the answers run out it waits for more. */
  function WriteReply(o: Output, answers: seq<int>): Output
    requires Sound(o) && !o.closed
    decreases |answers|
  {
    if o.replies == [] then o.(armed := false)
    else if answers == [] then o
    else
      OfferConserves(o, Clipped(o, answers[0]));
      var p := Offer(o, Clipped(o, answers[0]));
      if p.closed then p else WriteReply(p, answers[1..])
  }

  lemma {:induction false} WriteReplyConserves(o: Output, answers: seq<int>)
    requires Sound(o) && !o.closed
    ensures var p := WriteReply(o, answers);
      && Sound(p) && Total(p) == Total(o)
      && (p.replies == [] ==> !p.closed && p.pos == 0 && !p.armed && p.sent == Total(o))
      && (p.replies != [] ==> p.armed == o.armed)
    decreases |answers|
  {
    hide Offer, Clipped;
    if o.replies == [] {
      assert o.sent + [] == o.sent;
    } else if answers == [] {
    } else {
      var n := Clipped(o, answers[0]);
      OfferConserves(o, n);
      OfferTouches(o, n);
      if !Offer(o, n).closed {
        WriteReplyConserves(Offer(o, n), answers[1..]);
      }
    }
  }

  lemma OfferTouches(o: Output, n: int)
    requires Sound(o) && o.replies != [] && -1 <= n <= |o.replies[0]| - o.pos
    ensures Offer(o, n).armed == o.armed && (Offer(o, n).closed <==> n == -1 || o.closed)
    ensures n == -1 ==> Offer(o, n).replies == o.replies
  {
  }

  /** It ends normally as soon as the kernel took as many bytes as were waiting, one at a time at worst;
      whatever "try again" came in between. */
  lemma {:induction false} WriteReplyFinishes(o: Output, answers: seq<int>)
    requires Sound(o) && !o.closed && (forall i :: 0 <= i < |answers| ==> answers[i] >= 0)
    requires Positive(answers) >= |Unsent(o)|
    ensures var p := WriteReply(o, answers);
      p.replies == [] && p.pos == 0 && !p.armed && !p.closed && p.sent == Total(o)
    decreases |answers|
  {
    if o.replies == [] {
      assert o.sent + [] == o.sent;
    } else if answers == [] {
    } else {
      var n := Clipped(o, answers[0]);
      OfferConserves(o, n);
      OfferCounts(o, n);
      WriteReplyFinishes(Offer(o, n), answers[1..]);
    }
  }

  /** One round: the kernel is offered the rest of the front reply, and what it says it took of that, no more and no
      less, goes from what waits to what is sent. */
  lemma OfferTakes(o: Output, answer: int)
    requires Sound(o) && o.replies != []
    ensures var p, offered := Offer(o, Clipped(o, answer)), o.replies[0][o.pos..];
      var taken := if answer < 0 then 0 else Min(answer, |offered|);
      && offered <= Unsent(o) && p.sent == o.sent + offered[..taken]
      && Sound(p) && Unsent(p) == Unsent(o)[taken..]
  {
    var p, offered := Offer(o, Clipped(o, answer)), o.replies[0][o.pos..];
    var taken := if answer < 0 then 0 else Min(answer, |offered|);
    hide Sound, Unsent, Offer, Clipped;
    OfferConserves(o, Clipped(o, answer));
    OfferSends(o, answer);
    assert offered <= Unsent(o) by { OfferedIsUnsent(o); }
    assert Total(p)[|p.sent|..] == Unsent(p) && Total(o)[|o.sent|..] == Unsent(o);
    assert Total(o)[|o.sent| + taken..] == Unsent(o)[taken..];
  }

  lemma OfferSends(o: Output, answer: int)
    requires Sound(o) && o.replies != []
    ensures var offered := o.replies[0][o.pos..];
      Offer(o, Clipped(o, answer)).sent == o.sent + offered[..if answer < 0 then 0 else Min(answer, |offered|)]
  {
    var offered := o.replies[0][o.pos..];
    assert o.sent + offered[..0] == o.sent;
    if answer > 0 {
      var n := Min(answer, |offered|);
      assert offered[..n] == o.replies[0][o.pos..o.pos + n];
    }
  }

  lemma OfferedIsUnsent(o: Output)
    requires Sound(o) && o.replies != []
    ensures o.replies[0][o.pos..] <= Unsent(o)
  {
  }

  /** The loop closes the connection exactly if some answer is an error and the ones before it, all of them none,
      did not finish the list. */
  lemma {:induction false} WriteReplyClosesIff(o: Output, answers: seq<int>)
    requires Sound(o) && !o.closed
    ensures WriteReply(o, answers).closed <==> exists k: nat :: ClosesAt(o, answers, k)
    decreases |answers|
  {
    hide Offer, Clipped, Sound;
    if o.replies == [] || answers == [] {
      forall k: nat | k < |answers|
        ensures WriteReply(o, answers[..k]) == if o.replies == [] then o.(armed := false) else o
      {
      }
    } else {
      var p := Offer(o, Clipped(o, answers[0]));
      OfferConserves(o, Clipped(o, answers[0]));
      OfferCloses(o, answers[0]);
      if p.closed {
        assert answers[..0] == [];
        assert ClosesAt(o, answers, 0);
      } else {
        WriteReplyClosesIff(p, answers[1..]);
        forall k: nat
          ensures ClosesAt(o, answers, k + 1) == ClosesAt(p, answers[1..], k)
        {
          CloseShifts(o, answers, k);
        }
        assert !ClosesAt(o, answers, 0);
        forall k: nat | ClosesAt(o, answers, k)
          ensures ClosesAt(p, answers[1..], k - 1)
        {
          assert k > 0;
        }
      }
    }
  }

  /** Answer number `k` is the first error, and the ones before it left some of the list. */
  ghost predicate ClosesAt(o: Output, answers: seq<int>, k: nat)
    requires Sound(o) && !o.closed
  {
    k < |answers| && answers[k] < 0 && (forall i :: 0 <= i < k ==> answers[i] >= 0)
    && WriteReply(o, answers[..k]).replies != []
  }

  lemma OfferCloses(o: Output, answer: int)
    requires Sound(o) && o.replies != [] && !o.closed
    ensures Offer(o, Clipped(o, answer)).closed <==> answer < 0
  {
  }

  lemma CloseShifts(o: Output, answers: seq<int>, k: nat)
    requires Sound(o) && !o.closed && o.replies != [] && answers != []
    requires var p := Offer(o, Clipped(o, answers[0])); Sound(p) && !p.closed && answers[0] >= 0
    ensures ClosesAt(o, answers, k + 1) == ClosesAt(Offer(o, Clipped(o, answers[0])), answers[1..], k)
  {
    hide Offer, Clipped, Sound;
    if k + 1 < |answers| {
      assert answers[..k + 1][0] == answers[0] && answers[..k + 1][1..] == answers[1..][..k];
      assert forall i :: 0 <= i < k ==> answers[1..][i] == answers[i + 1];
    }
  }

  function Positive(answers: seq<int>): nat {
    if answers == [] then 0 else (if answers[0] > 0 then 1 else 0) + Positive(answers[1..])
  }

  // ---- Runs ----

  datatype OutputEvent = Add(reply: seq<byte>) | Wake(answers: seq<int>)

  /** Nothing happens on a closed connection; the event wakes the writer only while it is watched. */
  function OutputStep(o: Output, e: OutputEvent): Output
    requires Sound(o)
  {
    if o.closed then o
    else
      match e
      case Add(reply) => AddReply(o, reply)
      case Wake(answers) => if o.armed then WriteReply(o, answers) else o
  }

  ghost predicate Rests(o: Output) {
    Sound(o) && (o.replies != [] && !o.closed ==> o.armed)
  }

  ghost predicate NoneEmpty(events: seq<OutputEvent>) {
    forall i :: 0 <= i < |events| ==> events[i].Add? ==> events[i].reply != []
  }

  lemma StepRests(o: Output, e: OutputEvent)
    requires Rests(o) && (e.Add? ==> e.reply != [])
    ensures Rests(OutputStep(o, e))
  {
    if !o.closed && e.Wake? && o.armed {
      WriteReplyConserves(o, e.answers);
    }
  }

  ghost function OutputRun(o: Output, events: seq<OutputEvent>): Output
    requires Rests(o) && NoneEmpty(events)
    decreases |events|
  {
    if events == [] then o
    else
      StepRests(o, events[0]);
      OutputRun(OutputStep(o, events[0]), events[1..])
  }

  /** All replies of a run, end to end. */
  function Added(events: seq<OutputEvent>): seq<byte> {
    if events == [] then []
    else (if events[0].Add? then events[0].reply else []) + Added(events[1..])
  }

  lemma {:induction false} JoinedAppend(replies: seq<seq<byte>>, reply: seq<byte>)
    ensures Joined(replies + [reply]) == Joined(replies) + reply
  {
    if replies == [] {
      assert replies + [reply] == [reply] && [reply][1..] == [];
      assert Joined([reply]) == reply + [] == reply && [] + reply == reply;
    } else {
      assert (replies + [reply])[1..] == replies[1..] + [reply];
      JoinedAppend(replies[1..], reply);
      ConcatAssoc(replies[0], Joined(replies[1..]), reply);
    }
  }

  lemma AddAppends(o: Output, reply: seq<byte>)
    requires Sound(o) && reply != []
    ensures Unsent(AddReply(o, reply)) == Unsent(o) + reply
  {
    if o.replies == [] {
      assert (o.replies + [reply])[1..] == [] && reply[0..] == reply;
      assert reply + [] == reply && [] + reply == reply;
    } else {
      assert (o.replies + [reply])[1..] == o.replies[1..] + [reply];
      JoinedAppend(o.replies[1..], reply);
      ConcatAssoc(o.replies[0][o.pos..], Joined(o.replies[1..]), reply);
    }
  }

  lemma StepConserves(o: Output, e: OutputEvent)
    requires Rests(o) && (e.Add? ==> e.reply != []) && !o.closed
    ensures var n := OutputStep(o, e);
      Rests(n) && Total(n) == Total(o) + if e.Add? then e.reply else []
  {
    StepRests(o, e);
    match e
    case Add(reply) =>
      AddAppends(o, reply);
      ConcatAssoc(o.sent, Unsent(o), reply);
    case Wake(answers) =>
      if o.armed {
        WriteReplyConserves(o, answers);
      }
      assert Total(o) + [] == Total(o);
  }

  /** Over every run the bytes taken, followed by those still waiting, are the replies in the order they
      were added; a connection that was closed has sent a beginning of them. */
  lemma {:induction false} RunConserves(o: Output, events: seq<OutputEvent>)
    requires Rests(o) && NoneEmpty(events)
    ensures var n, all := OutputRun(o, events), Total(o) + Added(events);
      && Rests(n) && n.sent <= all
      && (!n.closed ==> Total(n) == all)
      && (n.closed && !o.closed ==> Total(n) <= all)
      && (o.closed ==> n == o)
    decreases |events|
  {
    if events == [] {
      assert Total(o) + [] == Total(o);
    } else {
      StepRests(o, events[0]);
      var n := OutputStep(o, events[0]);
      RunConserves(n, events[1..]);
      if !o.closed {
        StepConserves(o, events[0]);
        var piece := if events[0].Add? then events[0].reply else [];
        ConcatAssoc(Total(o), piece, Added(events[1..]));
      }
    }
  }
}
