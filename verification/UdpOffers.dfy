/** What the kernel is offered and what it takes: the queue against a record that only the kernel writes. */
module UdpOffers {
  import opened Base
  import opened UdpQueue

  // ---- One event, by the kernel's answers alone ----

  /** How many of the next `n` answers are positive before one is not. */
  function Willing(kernel: Kernel, from: nat, n: nat): (k: nat)
    ensures k <= n
    decreases n
  {
    if n == 0 || kernel(from) <= 0 then 0 else 1 + Willing(kernel, from + 1, n - 1)
  }

  lemma {:induction false} WillingMeans(kernel: Kernel, from: nat, n: nat, k: nat)
    requires k <= n && (forall i: nat :: i < k ==> Answer(kernel, from, i) > 0)
    requires k < n ==> Answer(kernel, from, k) <= 0
    ensures Willing(kernel, from, n) == k
    decreases n
  {
    if k == 0 {
      assert n > 0 ==> Answer(kernel, from, 0) <= 0;
    } else {
      var next := from + 1;
      assert Answer(kernel, from, 0) > 0;
      forall i: nat | i < k - 1
        ensures Answer(kernel, next, i) > 0
      {
        assert Answer(kernel, from, i + 1) > 0;
      }
      assert k < n ==> Answer(kernel, from, k) == Answer(kernel, next, k - 1);
      WillingMeans(kernel, next, n - 1, k - 1);
    }
  }

  function Answer(kernel: Kernel, from: nat, i: nat): int {
    kernel(from + i)
  }

  /** How often the kernel is asked while `n` datagrams wait: once for each it takes, and once more if some are
      left. */
  function Asked(kernel: Kernel, from: nat, n: nat): nat {
    var k := Willing(kernel, from, n);
    if k < n then k + 1 else k
  }

  /** What the WRITE event leaves: the kernel took `k`, in order; a refused one is given up; the rest waits. */
  ghost predicate AfterWrite(u: Udp, n: Udp, kernel: Kernel) {
    var k := Willing(kernel, u.attempts, |u.queue|);
    && n.sent == u.sent + u.queue[..k]
    && n.attempts == u.attempts + Asked(kernel, u.attempts, |u.queue|)
    && n.submitted == u.submitted
    && if k == |u.queue| then n.queue == [] && n.dropped == u.dropped && !n.armed
       else if kernel(u.attempts + k) == 0 then n.queue == u.queue[k..] && n.dropped == u.dropped && n.armed == u.armed
       else n.queue == u.queue[k + 1..] && n.dropped == u.dropped + {u.queue[k]} && n.armed == u.armed
  }

  /** What a submission leaves, the new datagram standing behind the queue: what the kernel took is sent, and
      nothing else. If it took all, the result is its last answer; if it was to try again, the rest waits and
      is watched; if it refused one, that one and the new one are given up and the result is -1. */
  ghost predicate AfterSubmit(u: Udp, n: Udp, result: int, kernel: Kernel) {
    TookOf(u, n, result, kernel, Willing(kernel, u.attempts, |u.queue| + 1))
  }

  ghost predicate TookOf(u: Udp, n: Udp, result: int, kernel: Kernel, k: nat)
    requires k <= |u.queue| + 1
  {
    var all := u.queue + [u.submitted];
    && n.sent == u.sent + all[..k]
    && n.attempts == u.attempts + (if k < |all| then k + 1 else k)
    && n.submitted == u.submitted + 1
    && if k == |all| then
         n.queue == [] && n.dropped == u.dropped && n.armed == u.armed && result == kernel(u.attempts + k - 1)
       else if kernel(u.attempts + k) == 0 then
         n.queue == all[k..] && n.dropped == u.dropped && n.armed && result == ADDRESS_LENGTH
       else
         && n.dropped == u.dropped + {all[k], u.submitted} && n.armed == u.armed && result == -1
         && n.queue == if k < |u.queue| then u.queue[k + 1..] else []
  }

  lemma WriteDecided(u: Udp, kernel: Kernel)
    ensures AfterWrite(u, SendData(u, kernel), kernel)
  {
    var j := FlushOutcome(u, kernel);
    FlushLeaves(u, kernel);
    hide Flush;
    FlushWilling(u, kernel, j);
  }

  lemma FlushWilling(u: Udp, kernel: Kernel, j: nat)
    requires TakesJust(u, kernel, j)
    ensures Willing(kernel, u.attempts, |u.queue|) == j
  {
    forall i: nat | i < j
      ensures Answer(kernel, u.attempts, i) > 0
    {
      assert Reply(u, kernel, i) > 0;
    }
    WillingMeans(kernel, u.attempts, |u.queue|, j);
  }

  /** A submission continues where the flush before it ended. */
  lemma SubmitAfterFlush(u: Udp, kernel: Kernel)
    ensures var (f, outcome) := Flush(u, kernel);
      var g := f.(submitted := u.submitted + 1);
      var answer := kernel(f.attempts);
      Submit(u, kernel) ==
      match outcome
      case Failed => (g.(dropped := f.dropped + {u.submitted}), -1)
      case Blocked => (g.(queue := f.queue + [u.submitted], armed := true), ADDRESS_LENGTH)
      case Emptied =>
        var tried := g.(attempts := f.attempts + 1);
        if answer < 0 then (tried.(dropped := f.dropped + {u.submitted}), -1)
        else if answer == 0 then (tried.(queue := f.queue + [u.submitted], armed := true), ADDRESS_LENGTH)
        else (tried.(sent := f.sent + [u.submitted]), answer)
  {
    hide Flush;
    FlushIgnoresSubmitted(u, kernel, u.submitted + 1);
  }

  /** The new datagram behind a queue of which `j` were taken. */
  lemma BehindQueue(u: Udp, j: nat)
    requires j <= |u.queue|
    ensures var all := u.queue + [u.submitted];
      && all[..j] == u.queue[..j] && (j < |u.queue| ==> all[j..] == u.queue[j..] + [u.submitted])
      && all[..|u.queue| + 1] == all && all[|u.queue|..] == [] + [u.submitted] && all[|u.queue|] == u.submitted
      && (j == |u.queue| ==> u.queue[..j] == u.queue)
      && u.sent + all == u.sent + u.queue + [u.submitted]
      && (j < |u.queue| ==> all[j] == u.queue[j])
  {
  }

  lemma SubmitDecided(u: Udp, kernel: Kernel)
    ensures var (n, result) := Submit(u, kernel); AfterSubmit(u, n, result, kernel)
  {
    hide Flush, Submit, Willing, AfterSubmit;
    var j := FlushOutcome(u, kernel);
    FlushLeaves(u, kernel);
    FlushWilling(u, kernel, j);
    WillingOneMore(kernel, u.attempts, |u.queue|);
    BehindQueue(u, j);
    if j < |u.queue| {
      assert Reply(u, kernel, j) <= 0;
      SubmitBehindRest(u, kernel, j);
    } else {
      SubmitBehindNone(u, kernel);
    }
  }

  lemma SubmitBehindRest(u: Udp, kernel: Kernel, j: nat)
    requires j < |u.queue| && Willing(kernel, u.attempts, |u.queue| + 1) == j
    requires var (f, outcome) := Flush(u, kernel);
      && FlushedTo(u, f, outcome, j) && f.attempts == u.attempts + j + 1 && f.armed == u.armed
      && outcome == (if kernel(u.attempts + j) < 0 then Failed else Blocked) && kernel(u.attempts + j) <= 0
    ensures AfterSubmit(u, Submit(u, kernel).0, Submit(u, kernel).1, kernel)
  {
    hide Flush, Submit, Willing;
    SubmitAfterFlush(u, kernel);
    BehindQueue(u, j);
    assert u.dropped + {u.queue[j]} + {u.submitted} == u.dropped + {u.queue[j], u.submitted};
  }

  lemma SubmitBehindNone(u: Udp, kernel: Kernel)
    requires var k, n := Willing(kernel, u.attempts, |u.queue| + 1), |u.queue|;
      k == if kernel(u.attempts + n) > 0 then n + 1 else n
    requires var (f, outcome) := Flush(u, kernel);
      && f.sent == u.sent + u.queue && f.queue == [] && f.dropped == u.dropped
      && f.attempts == u.attempts + |u.queue| && f.armed == u.armed && outcome == Emptied
    ensures AfterSubmit(u, Submit(u, kernel).0, Submit(u, kernel).1, kernel)
  {
    hide Flush, Submit, Willing, TookOf;
    SubmitAfterFlush(u, kernel);
    var f, answer := Flush(u, kernel).0, kernel(u.attempts + |u.queue|);
    var tried := f.(submitted := u.submitted + 1, attempts := f.attempts + 1);
    if answer > 0 {
      TookAll(u, tried.(sent := f.sent + [u.submitted]), kernel);
    } else if answer == 0 {
      TookNotLast(u, tried.(queue := f.queue + [u.submitted], armed := true), ADDRESS_LENGTH, kernel);
    } else {
      TookNotLast(u, tried.(dropped := f.dropped + {u.submitted}), -1, kernel);
    }
  }

  lemma TookAll(u: Udp, n: Udp, kernel: Kernel)
    requires n.sent == u.sent + u.queue + [u.submitted] && n.queue == [] && n.dropped == u.dropped
    requires n.armed == u.armed && n.submitted == u.submitted + 1 && n.attempts == u.attempts + |u.queue| + 1
    ensures TookOf(u, n, kernel(u.attempts + |u.queue|), kernel, |u.queue| + 1)
  {
    BehindQueue(u, |u.queue|);
  }

  lemma TookNotLast(u: Udp, n: Udp, result: int, kernel: Kernel)
    requires n.sent == u.sent + u.queue && n.submitted == u.submitted + 1
    requires n.attempts == u.attempts + |u.queue| + 1
    requires if kernel(u.attempts + |u.queue|) == 0
             then n.queue == [] + [u.submitted] && n.dropped == u.dropped && n.armed && result == ADDRESS_LENGTH
             else n.queue == [] && n.dropped == u.dropped + {u.submitted} && n.armed == u.armed && result == -1
    ensures TookOf(u, n, result, kernel, |u.queue|)
  {
    BehindQueue(u, |u.queue|);
    assert {u.submitted, u.submitted} == {u.submitted};
  }

  lemma {:induction false} WillingOneMore(kernel: Kernel, from: nat, n: nat)
    ensures var k := Willing(kernel, from, n);
      Willing(kernel, from, n + 1) == if k == n && kernel(from + n) > 0 then n + 1 else k
    decreases n
  {
    if n == 0 {
      assert kernel(from) > 0 ==> Willing(kernel, from + 1, 0) == 0;
    } else {
      WillingOneMore(kernel, from + 1, n - 1);
    }
  }

  // ---- The record ----

  /** The datagram that stands at attempt number `attempt`. */
  datatype Offer = Offer(attempt: nat, datagram: nat)

  /** What an event can offer: what waits, and then the new datagram. */
  function Candidates(u: Udp, e: UdpEvent): seq<nat> {
    match e
    case SendTo => u.queue + [u.submitted]
    case WriteReady => if u.armed then u.queue else []
  }

  /** Each in turn, until the kernel does not take one. */
  function OfferEach(all: seq<nat>, from: nat, kernel: Kernel): seq<Offer>
    decreases |all|
  {
    if all == [] then []
    else [Offer(from, all[0])] + if kernel(from) > 0 then OfferEach(all[1..], from + 1, kernel) else []
  }

  function Record(u: Udp, events: seq<UdpEvent>, kernel: Kernel): seq<Offer>
    decreases events
  {
    if events == [] then []
    else
      OfferEach(Candidates(u, events[0]), u.attempts, kernel)
      + Record(UdpStep(u, events[0], kernel), events[1..], kernel)
  }

  /** The datagrams the kernel took, in order. */
  function Taken(record: seq<Offer>, kernel: Kernel): seq<nat> {
    if record == [] then []
    else (if kernel(record[0].attempt) > 0 then [record[0].datagram] else []) + Taken(record[1..], kernel)
  }

  lemma {:induction false} TakenConcat(a: seq<Offer>, b: seq<Offer>, kernel: Kernel)
    ensures Taken(a + b, kernel) == Taken(a, kernel) + Taken(b, kernel)
  {
    if a == [] {
      assert a + b == b;
    } else {
      assert (a + b)[0] == a[0] && (a + b)[1..] == a[1..] + b;
      TakenConcat(a[1..], b, kernel);
      ConcatAssoc(if kernel(a[0].attempt) > 0 then [a[0].datagram] else [], Taken(a[1..], kernel), Taken(b, kernel));
    }
  }

  lemma {:induction false} OffersTaken(all: seq<nat>, from: nat, kernel: Kernel)
    ensures var offers := OfferEach(all, from, kernel);
      && |offers| == Asked(kernel, from, |all|)
      && Taken(offers, kernel) == all[..Willing(kernel, from, |all|)]
      && Numbered(offers, from)
    decreases |all|
  {
    if all == [] {
    } else {
      var rest := OfferEach(all[1..], from + 1, kernel);
      OffersTaken(all[1..], from + 1, kernel);
      assert kernel(from) <= 0 ==> [Offer(from, all[0])] + [] == [Offer(from, all[0])];
      assert ([Offer(from, all[0])] + rest)[1..] == rest;
      var k := Willing(kernel, from + 1, |all| - 1);
      assert [all[0]] + all[1..][..k] == all[..k + 1];
      if kernel(from) > 0 {
        NumberedOneMore(Offer(from, all[0]), rest);
      }
    }
  }

  /** The attempts are numbered on from `from`. */
  ghost predicate Numbered(record: seq<Offer>, from: nat) {
    forall i :: 0 <= i < |record| ==> record[i].attempt == from + i
  }

  lemma NumberedOneMore(o: Offer, rest: seq<Offer>)
    requires Numbered(rest, o.attempt + 1)
    ensures Numbered([o] + rest, o.attempt)
  {
  }

  lemma NumberedConcat(a: seq<Offer>, b: seq<Offer>, from: nat)
    requires Numbered(a, from) && Numbered(b, from + |a|)
    ensures Numbered(a + b, from)
  {
  }

  /** An event asks the kernel about its offers, and sends those it took. */
  lemma StepSendsTaken(u: Udp, e: UdpEvent, kernel: Kernel)
    ensures var offers, n := OfferEach(Candidates(u, e), u.attempts, kernel), UdpStep(u, e, kernel);
      && Numbered(offers, u.attempts) && n.attempts == u.attempts + |offers|
      && n.sent == u.sent + Taken(offers, kernel)
  {
    hide Submit, SendData;
    OffersTaken(Candidates(u, e), u.attempts, kernel);
    match e
    case SendTo => SubmitDecided(u, kernel);
    case WriteReady =>
      WriteDecided(u, kernel);
      assert u.sent + [] == u.sent;
  }

  lemma {:induction false} RunSendsTaken(u: Udp, events: seq<UdpEvent>, kernel: Kernel)
    ensures var record, n := Record(u, events, kernel), UdpRun(u, events, kernel);
      && Numbered(record, u.attempts) && n.attempts == u.attempts + |record|
      && n.sent == u.sent + Taken(record, kernel)
    decreases events
  {
    hide UdpStep, OfferEach, Taken;
    if events == [] {
      TakenConcat([], [], kernel);
      NothingTaken(u, kernel);
    } else {
      var offers := OfferEach(Candidates(u, events[0]), u.attempts, kernel);
      var next := UdpStep(u, events[0], kernel);
      var rest := Record(next, events[1..], kernel);
      StepSendsTaken(u, events[0], kernel);
      RunSendsTaken(next, events[1..], kernel);
      NumberedConcat(offers, rest, u.attempts);
      TakenConcat(offers, rest, kernel);
      ConcatAssoc(u.sent, Taken(offers, kernel), Taken(rest, kernel));
    }
  }

  lemma NothingTaken(u: Udp, kernel: Kernel)
    ensures u.sent + Taken([], kernel) == u.sent
  {
  }

  /** Over every run: the attempts are those of the record, one after the other; what is called sent is exactly
      what the kernel took, in that order; and the kernel takes no datagram twice. */
  lemma KernelDecides(events: seq<UdpEvent>, kernel: Kernel)
    ensures var record, u := Record(NewUdp(), events, kernel), UdpRun(NewUdp(), events, kernel);
      && |record| == u.attempts && (forall i :: 0 <= i < |record| ==> record[i].attempt == i)
      && u.sent == Taken(record, kernel) && Increasing(u.sent)
      && forall i, j :: 0 <= i < j < |record| && kernel(i) > 0 && kernel(j) > 0 ==>
           record[i].datagram < record[j].datagram
  {
    hide Record, UdpRun;
    RunSendsTaken(NewUdp(), events, kernel);
    EachInOnePlace(events, kernel, 0);
    var record := Record(NewUdp(), events, kernel);
    assert NewUdp().sent + Taken(record, kernel) == Taken(record, kernel);
    forall i, j | 0 <= i < j < |record| && kernel(i) > 0 && kernel(j) > 0
      ensures record[i].datagram < record[j].datagram
    {
      TakenInOrder(record, kernel, i, j);
    }
  }

  lemma TakenInOrder(record: seq<Offer>, kernel: Kernel, i: nat, j: nat)
    requires i < j < |record| && kernel(record[i].attempt) > 0 && kernel(record[j].attempt) > 0
    requires Increasing(Taken(record, kernel))
    ensures record[i].datagram < record[j].datagram
  {
    var a, b, c := record[..i], record[i..j], record[j..];
    assert record == a + (b + c);
    TakenConcat(a, b + c, kernel);
    TakenConcat(b, c, kernel);
    FirstTaken(b, kernel);
    FirstTaken(c, kernel);
    var x, y, z := Taken(a, kernel), Taken(b, kernel), Taken(c, kernel);
    var all := x + (y + z);
    assert all[|x|] == y[0] && all[|x| + |y|] == z[0];
  }

  lemma FirstTaken(record: seq<Offer>, kernel: Kernel)
    requires record != [] && kernel(record[0].attempt) > 0
    ensures Taken(record, kernel) != [] && Taken(record, kernel)[0] == record[0].datagram
  {
  }
}
