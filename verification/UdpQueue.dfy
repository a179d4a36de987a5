/** The send queue of a UDP socket under arbitrary results of the kernel. */
module UdpQueue {
  import opened Base

  /** Datagrams are numbered in the order they are submitted. `sent` and `dropped` are the ones handed to
      the kernel and the ones given up; `armed` says whether the WRITE event is watched. */
  datatype Udp = Udp(queue: seq<nat>, armed: bool, sent: seq<nat>, dropped: set<nat>, submitted: nat, attempts: nat)

  /** The kernel's answer to each attempt: negative for an error, 0 for "try again", positive if it took it. */
  type Kernel = nat -> int

  function NewUdp(): Udp {
    Udp([], false, [], {}, 0, 0)
  }

  datatype Flushed = Emptied | Failed | Blocked

  /** The kernel took the first of the queue. */
  function FirstSent(u: Udp): Udp
    requires u.queue != []
  {
    u.(attempts := u.attempts + 1, queue := u.queue[1..], sent := u.sent + [u.queue[0]])
  }

  /** The loop both senders begin with. */
  function Flush(u: Udp, kernel: Kernel): (Udp, Flushed)
    decreases |u.queue|
  {
    if u.queue == [] then (u, Emptied)
    else
      var tried := u.(attempts := u.attempts + 1);
      if kernel(u.attempts) < 0 then
        (tried.(queue := u.queue[1..], dropped := u.dropped + {u.queue[0]}), Failed)
      else if kernel(u.attempts) == 0 then (tried, Blocked)
      else Flush(FirstSent(u), kernel)
  }

  /** The WRITE event. */
  function SendData(u: Udp, kernel: Kernel): Udp {
    var (f, outcome) := Flush(u, kernel);
    if outcome == Emptied then f.(armed := false) else f
  }

  /** The result for a datagram that is queued is the length of its address; any value but -1 would do. */
  const ADDRESS_LENGTH := 16

  function Enqueue(u: Udp, d: nat): Udp {
    u.(queue := u.queue + [d], armed := true)
  }

  /** A new datagram: after the flush it is sent, queued or given up. */
  function Submit(u: Udp, kernel: Kernel): (Udp, int) {
    var d := u.submitted;
    var (f, outcome) := Flush(u.(submitted := u.submitted + 1), kernel);
    match outcome
    case Failed => (f.(dropped := f.dropped + {d}), -1)
    case Blocked => (Enqueue(f, d), ADDRESS_LENGTH)
    case Emptied =>
      var tried := f.(attempts := f.attempts + 1);
      if kernel(f.attempts) < 0 then (tried.(dropped := f.dropped + {d}), -1)
      else if kernel(f.attempts) == 0 then (Enqueue(tried, d), ADDRESS_LENGTH)
      else (tried.(sent := f.sent + [d]), kernel(f.attempts))
  }

  // ---- The invariant ----

  ghost predicate Increasing(s: seq<nat>) {
    forall i, j :: 0 <= i < j < |s| ==> s[i] < s[j]
  }

  /** What was sent, then what waits, is in the order of submission without duplicates; with what was given
      up, it is everything submitted, each datagram in one place. Whoever waits is waited for. */
  ghost predicate Inv(u: Udp) {
    && Increasing(u.sent + u.queue)
    && (forall d: nat :: d in u.dropped ==> d !in u.sent + u.queue)
    && (forall d: nat :: d < u.submitted <==> d in u.sent + u.queue || d in u.dropped)
    && (u.queue != [] ==> u.armed)
  }

  lemma AttemptsDoNotMatter(u: Udp)
    ensures Inv(u.(attempts := u.attempts + 1)) == Inv(u)
  {
  }

  lemma TakeSent(u: Udp)
    requires u.queue != [] && Inv(u)
    ensures Inv(u.(queue := u.queue[1..], sent := u.sent + [u.queue[0]]))
  {
    assert u.sent + [u.queue[0]] + u.queue[1..] == u.sent + u.queue;
  }

  lemma TakeDropped(u: Udp)
    requires u.queue != [] && Inv(u)
    ensures Inv(u.(queue := u.queue[1..], dropped := u.dropped + {u.queue[0]}))
  {
    var all, n := u.sent + u.queue, |u.sent|;
    assert all[n] == u.queue[0];
    assert u.sent + u.queue[1..] == all[..n] + all[n + 1..];
    WithoutOne(all, n);
  }

  lemma WithoutOne(s: seq<nat>, n: nat)
    requires n < |s| && Increasing(s)
    ensures var r := s[..n] + s[n + 1..];
      Increasing(r) && s[n] !in r && forall d :: d in s <==> d in r || d == s[n]
  {
    var r := s[..n] + s[n + 1..];
    assert s == s[..n] + [s[n]] + s[n + 1..];
  }

  lemma {:induction false} FlushKeepsInv(u: Udp, kernel: Kernel)
    requires Inv(u)
    ensures Inv(Flush(u, kernel).0)
    decreases |u.queue|
  {
    hide Inv;
    if u.queue == [] {
    } else {
      var tried := u.(attempts := u.attempts + 1);
      AttemptsDoNotMatter(u);
      TakeSent(tried);
      TakeDropped(tried);
      if kernel(u.attempts) > 0 {
        FlushKeepsInv(tried.(queue := u.queue[1..], sent := u.sent + [u.queue[0]]), kernel);
      }
    }
  }

  /** `f` and `outcome` are what a flush of `u` may come to after `k` successes. */
  ghost predicate FlushedTo(u: Udp, f: Udp, outcome: Flushed, k: nat) {
    && k <= |u.queue| && f.sent == u.sent + u.queue[..k]
    && match outcome
       case Emptied => k == |u.queue| && f.queue == [] && f.dropped == u.dropped
       case Blocked => k < |u.queue| && f.queue == u.queue[k..] && f.dropped == u.dropped
       case Failed => k < |u.queue| && f.queue == u.queue[k + 1..] && f.dropped == u.dropped + {u.queue[k]}
  }

  lemma FlushedOneMore(u: Udp, f: Udp, outcome: Flushed, k: nat)
    requires u.queue != []
    requires FlushedTo(FirstSent(u), f, outcome, k)
    ensures FlushedTo(u, f, outcome, k + 1)
  {
    var tail := u.queue[1..];
    assert u.queue == [u.queue[0]] + tail;
    assert u.queue[..k + 1] == [u.queue[0]] + tail[..k];
    ConcatAssoc(u.sent, [u.queue[0]], tail[..k]);
    assert u.queue[k + 1..] == tail[k..];
    assert k < |tail| ==> u.queue[k + 2..] == tail[k + 1..];
  }

  /** The kernel's answer to the `i`th attempt from here. */
  function Reply(u: Udp, kernel: Kernel, i: nat): int {
    kernel(u.attempts + i)
  }

  /** The kernel takes the first `k` of the queue, and then none, if there is one. */
  ghost predicate TakesJust(u: Udp, kernel: Kernel, k: nat) {
    && k <= |u.queue| && (forall i: nat :: i < k ==> Reply(u, kernel, i) > 0)
    && (k < |u.queue| ==> Reply(u, kernel, k) <= 0)
  }

  lemma TakesOneMore(u: Udp, kernel: Kernel, k: nat)
    requires u.queue != [] && kernel(u.attempts) > 0 && TakesJust(FirstSent(u), kernel, k)
    ensures TakesJust(u, kernel, k + 1)
  {
    forall i: nat | i < k + 1
      ensures Reply(u, kernel, i) > 0
    {
      if i > 0 {
        assert Reply(FirstSent(u), kernel, i - 1) > 0;
      }
    }
  }

  /** A flush sends a beginning of the queue and leaves the rest, less one datagram if the kernel failed on it.
      It offers each datagram it sends once, and the next one, whose answer decides the outcome. */
  lemma {:induction false} FlushOutcome(u: Udp, kernel: Kernel) returns (k: nat)
    ensures TakesJust(u, kernel, k)
    ensures var (f, outcome) := Flush(u, kernel);
      && FlushedTo(u, f, outcome, k)
      && f.attempts == u.attempts + k + (if k < |u.queue| then 1 else 0)
      && (outcome == Emptied <==> k == |u.queue|)
      && (outcome == Failed <==> k < |u.queue| && Reply(u, kernel, k) < 0)
    decreases |u.queue|
  {
    if u.queue == [] || kernel(u.attempts) <= 0 {
      k := 0;
      assert u.sent + u.queue[..0] == u.sent;
    } else {
      hide FlushedTo, TakesJust;
      var v := FirstSent(u);
      var j := FlushOutcome(v, kernel);
      FlushedOneMore(u, Flush(v, kernel).0, Flush(v, kernel).1, j);
      TakesOneMore(u, kernel, j);
      k := j + 1;
    }
  }

  /** The first answer to the queue that is not positive, the `k`th, is negative. */
  ghost predicate RefusesAt(u: Udp, kernel: Kernel, k: nat) {
    k < |u.queue| && TakesJust(u, kernel, k) && Reply(u, kernel, k) < 0
  }

  /** A flush fails exactly if the first answer that is not positive is negative. */
  lemma FlushFailsIff(u: Udp, kernel: Kernel)
    ensures Flush(u, kernel).1 == Failed <==> exists k: nat :: RefusesAt(u, kernel, k)
  {
    hide Flush, FlushedTo;
    var j := FlushOutcome(u, kernel);
    forall k: nat | RefusesAt(u, kernel, k)
      ensures k == j
    {
      TakesJustOnce(u, kernel, j, k);
    }
    assert Flush(u, kernel).1 == Failed ==> RefusesAt(u, kernel, j);
  }

  lemma TakesJustOnce(u: Udp, kernel: Kernel, j: nat, k: nat)
    requires TakesJust(u, kernel, j) && TakesJust(u, kernel, k)
    ensures j == k
  {
  }

  lemma {:induction false} FlushIgnoresSubmitted(u: Udp, kernel: Kernel, n: nat)
    ensures Flush(u.(submitted := n), kernel) == (Flush(u, kernel).0.(submitted := n), Flush(u, kernel).1)
    decreases |u.queue|
  {
    if u.queue == [] || kernel(u.attempts) <= 0 {
    } else {
      FlushIgnoresSubmitted(FirstSent(u), kernel, n);
    }
  }

  lemma {:induction false} FlushLeaves(u: Udp, kernel: Kernel)
    ensures var (f, outcome) := Flush(u, kernel);
      && f.submitted == u.submitted && f.armed == u.armed
      && (outcome == Emptied ==> f.queue == []) && (outcome == Blocked ==> f.queue != [])
    decreases |u.queue|
  {
    if u.queue == [] || kernel(u.attempts) <= 0 {
    } else {
      FlushLeaves(FirstSent(u), kernel);
    }
  }

  // ---- The newest datagram finds its place ----

  lemma NewestDropped(u: Udp)
    requires Inv(u)
    ensures Inv(u.(submitted := u.submitted + 1, dropped := u.dropped + {u.submitted}))
  {
  }

  lemma NewestQueued(u: Udp)
    requires Inv(u)
    ensures Inv(Enqueue(u.(submitted := u.submitted + 1), u.submitted))
  {
    var all := u.sent + u.queue;
    assert u.sent + (u.queue + [u.submitted]) == all + [u.submitted];
    assert forall i :: 0 <= i < |all| ==> all[i] in all;
  }

  lemma NewestSent(u: Udp)
    requires Inv(u) && u.queue == []
    ensures Inv(u.(submitted := u.submitted + 1, sent := u.sent + [u.submitted]))
  {
    assert u.sent + u.queue == u.sent && u.sent + [u.submitted] + u.queue == u.sent + [u.submitted];
    assert forall i :: 0 <= i < |u.sent| ==> u.sent[i] in u.sent;
  }

  lemma SubmitKeepsInv(u: Udp, kernel: Kernel)
    requires Inv(u)
    ensures Inv(Submit(u, kernel).0)
  {
    hide Inv, Enqueue;
    FlushKeepsInv(u, kernel);
    FlushIgnoresSubmitted(u, kernel, u.submitted + 1);
    FlushLeaves(u, kernel);
    var (f, outcome) := Flush(u, kernel);
    var tried := f.(attempts := f.attempts + 1);
    AttemptsDoNotMatter(f);
    NewestDropped(f);
    NewestQueued(f);
    NewestDropped(tried);
    NewestQueued(tried);
    if f.queue == [] {
      NewestSent(tried);
    }
  }

  lemma SendDataKeepsInv(u: Udp, kernel: Kernel)
    requires Inv(u)
    ensures Inv(SendData(u, kernel))
  {
    FlushKeepsInv(u, kernel);
    FlushLeaves(u, kernel);
    hide Flush;
  }

  /** The result tells whether the new datagram was given up: -1 exactly then, and then for good. */
  lemma SubmitResult(u: Udp, kernel: Kernel)
    requires Inv(u)
    ensures var (n, result) := Submit(u, kernel);
      && (result == -1 <==> u.submitted in n.dropped)
      && (result != -1 ==> u.submitted in n.sent || u.submitted in n.queue)
  {
    hide Flush;
    FlushKeepsInv(u, kernel);
    FlushIgnoresSubmitted(u, kernel, u.submitted + 1);
    FlushLeaves(u, kernel);
    var f := Flush(u, kernel).0;
    assert u.submitted !in f.dropped;
  }

  // ---- Runs ----

  datatype UdpEvent = SendTo | WriteReady

  /** The WRITE event reaches the socket only while it is watched. */
  function UdpStep(u: Udp, e: UdpEvent, kernel: Kernel): Udp {
    match e
    case SendTo => Submit(u, kernel).0
    case WriteReady => if u.armed then SendData(u, kernel) else u
  }

  function UdpRun(u: Udp, events: seq<UdpEvent>, kernel: Kernel): Udp
    decreases events
  {
    if events == [] then u else UdpRun(UdpStep(u, events[0], kernel), events[1..], kernel)
  }

  /** Over every run and for every kernel: each datagram is in exactly one of sent, queued and given up;
      the sent ones are in the order of submission, before the queued ones; and a queue that is not empty
      has the WRITE event watched. */
  lemma {:induction false} RunKeepsInv(u: Udp, events: seq<UdpEvent>, kernel: Kernel)
    requires Inv(u)
    ensures Inv(UdpRun(u, events, kernel))
    decreases events
  {
    hide Inv, Submit, SendData;
    if events == [] {
    } else {
      SubmitKeepsInv(u, kernel);
      SendDataKeepsInv(u, kernel);
      RunKeepsInv(UdpStep(u, events[0], kernel), events[1..], kernel);
    }
  }

  lemma EachInOnePlace(events: seq<UdpEvent>, kernel: Kernel, d: nat)
    ensures var u := UdpRun(NewUdp(), events, kernel);
      && (d < u.submitted <==> d in u.sent || d in u.queue || d in u.dropped)
      && !(d in u.sent && d in u.queue) && !(d in u.sent && d in u.dropped) && !(d in u.queue && d in u.dropped)
      && Increasing(u.sent) && Increasing(u.queue)
      && (u.queue != [] ==> u.armed)
  {
    assert NewUdp().sent + NewUdp().queue == [];
    RunKeepsInv(NewUdp(), events, kernel);
    var u := UdpRun(NewUdp(), events, kernel);
    hide UdpRun;
    var all := u.sent + u.queue;
    assert forall i :: 0 <= i < |u.sent| ==> all[i] == u.sent[i];
    assert forall i :: 0 <= i < |u.queue| ==> all[|u.sent| + i] == u.queue[i];
    assert d in all <==> d in u.sent || d in u.queue;
  }

  /** A kernel that takes everything empties the queue at the next event, in order, and the watch is off. */
  lemma {:induction false} WillingKernelEmpties(u: Udp, kernel: Kernel)
    requires forall n :: kernel(n) > 0
    ensures var n := SendData(u, kernel);
      n.sent == u.sent + u.queue && n.queue == [] && !n.armed && n.dropped == u.dropped
    decreases |u.queue|
  {
    if u.queue == [] {
      assert u.sent + u.queue == u.sent;
    } else {
      WillingKernelEmpties(FirstSent(u), kernel);
      assert u.sent + [u.queue[0]] + u.queue[1..] == u.sent + u.queue;
    }
  }

  /** A kernel that refuses a queued datagram at a submission costs that one and the new one, which it is
      never offered; everything before was sent and everything behind stays queued. */
  lemma RefusalDropsTwo(u: Udp, kernel: Kernel, k: nat)
    requires Inv(u) && RefusesAt(u, kernel, k)
    ensures var n, result := Submit(u, kernel).0, Submit(u, kernel).1;
      && n.dropped == u.dropped + {u.queue[k], u.submitted} && n.attempts == u.attempts + k + 1
      && n.sent == u.sent + u.queue[..k] && n.queue == u.queue[k + 1..] && result == -1
  {
    hide Flush, Inv, TakesJust, Submit;
    var j := FlushOutcome(u, kernel);
    SubmitShape(u, kernel);
    TakesJustOnce(u, kernel, j, k);
  }

  /** A new datagram is given up without having been offered to the kernel exactly if the kernel refuses a
      queued one before it. Given up otherwise, it was the last one offered, and refused itself. */
  lemma GivenUpUnoffered(u: Udp, kernel: Kernel)
    requires Inv(u)
    ensures var n, f := Submit(u, kernel).0, Flush(u, kernel).0;
      && (u.submitted in n.dropped && n.attempts == f.attempts <==> exists k: nat :: RefusesAt(u, kernel, k))
      && (u.submitted in n.dropped && (forall k: nat :: !RefusesAt(u, kernel, k)) ==>
            n.dropped == u.dropped + {u.submitted} && n.attempts == f.attempts + 1 && Reply(f, kernel, 0) < 0)
  {
    hide Flush, Inv, TakesJust, Submit, RefusesAt;
    var j := FlushOutcome(u, kernel);
    FlushFailsIff(u, kernel);
    SubmitShape(u, kernel);
  }

  /** What becomes of the new datagram, in terms of the flush before it. */
  lemma SubmitShape(u: Udp, kernel: Kernel)
    requires Inv(u)
    ensures var n, (f, outcome) := Submit(u, kernel).0, Flush(u, kernel);
      && u.submitted !in f.dropped
      && n.attempts == f.attempts + (if outcome == Emptied then 1 else 0)
      && n.dropped == f.dropped + (if outcome == Failed || (outcome == Emptied && Reply(f, kernel, 0) < 0)
                                   then {u.submitted} else {})
      && (outcome == Failed ==> n.sent == f.sent && n.queue == f.queue && Submit(u, kernel).1 == -1)
  {
    hide Flush, Inv;
    FlushKeepsInv(u, kernel);
    FlushIgnoresSubmitted(u, kernel, u.submitted + 1);
    FlushLeaves(u, kernel);
    NotYetDropped(Flush(u, kernel).0);
  }

  lemma NotYetDropped(u: Udp)
    requires Inv(u)
    ensures u.submitted !in u.dropped
  {
  }

  /** One error can cost two datagrams: the queued one it hit, and the new one behind it, which the kernel
      was never offered. */
  lemma OneErrorDropsTwo()
    ensures var kernel: Kernel := n => if n == 0 then 0 else -1;
      var u := UdpRun(NewUdp(), [SendTo, SendTo], kernel);
      u.attempts == 2 && u.dropped == {0, 1} && u.sent == [] && u.queue == []
  {
    var kernel: Kernel := n => if n == 0 then 0 else -1;
    var one := UdpStep(NewUdp(), SendTo, kernel);
    assert one == Udp([0], true, [], {}, 1, 1);
    var two := UdpStep(one, SendTo, kernel);
    assert two.dropped == {0, 1};
    assert [SendTo, SendTo][1..] == [SendTo] && [SendTo][1..] == [];
    assert UdpRun(NewUdp(), [SendTo, SendTo], kernel) == UdpRun(one, [SendTo], kernel) == two;
  }

  // ---- The socket as an object ----

  class AsyncUdpSocket {
    var list: seq<nat>
    var armed: bool
    var submitted: nat
    var attempts: nat
    ghost var sent: seq<nat>
    ghost var dropped: set<nat>

    ghost function View(): Udp
      reads this
    {
      Udp(list, armed, sent, dropped, submitted, attempts)
    }

    constructor ()
      ensures View() == NewUdp()
    {
      list, armed, submitted, attempts, sent, dropped := [], false, 0, 0, [], {};
    }

    method SendAll(kernel: Kernel) returns (outcome: Flushed)
      modifies this
      ensures (View(), outcome) == Flush(old(View()), kernel)
    {
      while list != []
        invariant Flush(View(), kernel) == Flush(old(View()), kernel)
        decreases |list|
      {
        var answer := kernel(attempts);
        attempts := attempts + 1;
        if answer < 0 {
          dropped := dropped + {list[0]};
          list := list[1..];
          return Failed;
        } else if answer == 0 {
          return Blocked;
        } else {
          sent := sent + [list[0]];
          list := list[1..];
        }
      }
      return Emptied;
    }

    method OnWritable(kernel: Kernel)
      modifies this
      ensures View() == SendData(old(View()), kernel)
    {
      var outcome := SendAll(kernel);
      if outcome == Emptied {
        armed := false;
      }
    }

    method AddUdpPacket(kernel: Kernel) returns (result: int)
      modifies this
      ensures (View(), result) == Submit(old(View()), kernel)
    {
      hide Flush;
      var d := submitted;
      submitted := submitted + 1;
      var outcome := SendAll(kernel);
      if outcome == Failed {
        dropped := dropped + {d};
        return -1;
      }
      if outcome == Emptied {
        result := kernel(attempts);
        attempts := attempts + 1;
        if result < 0 {
          dropped := dropped + {d};
          return -1;
        } else if result > 0 {
          sent := sent + [d];
          return;
        }
      }
      list := list + [d];
      armed := true;
      return ADDRESS_LENGTH;
    }
  }
}
