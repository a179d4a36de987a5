/** One candidate pair as a value: its connectivity state, the transitions, and what runs of them keep. */
module ConnectionState {
  import opened Base

  const WEAK_PING_INTERVAL := 48
  const STRONG_PING_INTERVAL := 480
  const MIN_PINGS_AT_WEAK_PING_INTERVAL := 3
  const STABLING_CONNECTION_PING_INTERVAL := 900
  const STABLE_CONNECTION_PING_INTERVAL := 2500
  const WEAK_CONNECTION_RECEIVE_TIMEOUT := 2500
  const CONNECTION_WRITE_CONNECT_FAILS := 5
  const CONNECTION_WRITE_CONNECT_TIMEOUT := 5000
  const CONNECTION_WRITE_TIMEOUT := 15000
  const RTT_RATIO := 3
  const MIN_RTT := 100
  const MAX_RTT := 60000

  datatype WriteState = StateWritable | StateUnreliable | StateInit | StateTimeout

  /** Position in the program's enumeration, which ranks write states. */
  function Rank(w: WriteState): nat {
    match w
    case StateWritable => 0
    case StateUnreliable => 1
    case StateInit => 2
    case StateTimeout => 3
  }

  datatype PairState = Waiting | InProgress | Succeeded | Failed

  datatype SentPing = SentPing(id: seq<byte>, sentTime: int)

  datatype Conn = Conn(remoteUser: seq<byte>, remotePwd: seq<byte>, localPriority: u32, remotePriority: u32,
                       writeState: WriteState, receiving: bool, lastPingSent: int, numPingsSent: nat,
                       pings: seq<SentPing>, lastPingResponse: int, lastPingReceived: int, lastDataReceived: int,
                       rtt: int, rttSamples: nat, selected: bool, state: PairState)

  function NewConn(user: seq<byte>, pwd: seq<byte>, localPriority: u32, remotePriority: u32): Conn {
    Conn(user, pwd, localPriority, remotePriority, StateInit, false, 0, 0, [], 0, 0, 0, 3000, 0, false, Waiting)
  }

  predicate Writable(c: Conn) {
    c.writeState == StateWritable
  }

  predicate Weak(c: Conn) {
    !(Writable(c) && c.receiving)
  }

  // ---- Receiving ----

  function LastReceived(c: Conn): int {
    Max(Max(c.lastPingReceived, c.lastPingResponse), c.lastDataReceived)
  }

  predicate ReceivingAt(c: Conn, now: int) {
    if c.lastPingSent < c.lastPingResponse then true
    else LastReceived(c) > 0 && now < LastReceived(c) + WEAK_CONNECTION_RECEIVE_TIMEOUT
  }

  function UpdateReceiving(c: Conn, now: int): Conn {
    c.(receiving := ReceivingAt(c, now))
  }

  // ---- Pinging and answers ----

  function Ping(c: Conn, id: seq<byte>, now: int): Conn {
    c.(lastPingSent := now, pings := c.pings + [SentPing(id, now)], state := InProgress,
       numPingsSent := c.numPingsSent + 1)
  }

  /** The library's moving average: (previous, sample, ratio). */
  type Average = (int, int, int) -> int

  /** The first part of `received_ping_response`, up to the update of the receive state. */
  function NoteResponse(c: Conn, rtt: int, now: int, average: Average): Conn {
    c.(rtt := if c.rttSamples > 0 then average(c.rtt, rtt, RTT_RATIO) else rtt, rttSamples := c.rttSamples + 1,
       lastPingResponse := now, pings := [])
  }

  function ReceivedResponse(c: Conn, rtt: int, now: int, average: Average): Conn {
    UpdateReceiving(NoteResponse(c, rtt, now, average), now).(writeState := StateWritable, state := Succeeded)
  }

  // ---- The periodic update ----

  /** The expected response time goes through an `int`. */
  predicate TooManyPingFails(c: Conn, maxPings: nat, rtt: int, now: int)
    requires maxPings > 0
  {
    |c.pings| >= maxPings && now > Wrap32(c.pings[maxPings - 1].sentTime + rtt)
  }

  /** The allowance counts until the expected time no longer fits 31 bits; from then on it is void. */
  lemma AllowanceEnds(c: Conn, maxPings: nat, rtt: int, now: int)
    requires 0 < maxPings <= |c.pings| && 0 <= c.pings[maxPings - 1].sentTime <= now && 0 <= rtt < 0x8000_0000
    ensures var expected := c.pings[maxPings - 1].sentTime + rtt;
      TooManyPingFails(c, maxPings, rtt, now) <==> now > expected || expected >= 0x8000_0000
  {
    var expected := c.pings[maxPings - 1].sentTime + rtt;
    if expected >= 0x8000_0000 && now < 0x8000_0000 {
      assert Wrap32(expected) == expected - 0x1_0000_0000;
    }
  }

  predicate TooLongWithoutResponse(c: Conn, minTime: int, now: int) {
    c.pings != [] && now > c.pings[0].sentTime + minTime
  }

  /** Twice the round-trip time, raised to the minimum if below it and otherwise set to the maximum. */
  function ResponseAllowance(c: Conn): int {
    if 2 * c.rtt < MIN_RTT then MIN_RTT else MAX_RTT
  }

  function Degrade(c: Conn, now: int): Conn {
    if Writable(c)
       && TooManyPingFails(c, CONNECTION_WRITE_CONNECT_FAILS, ResponseAllowance(c), now)
       && TooLongWithoutResponse(c, CONNECTION_WRITE_CONNECT_TIMEOUT, now)
    then c.(writeState := StateUnreliable)
    else c
  }

  function Expire(c: Conn, now: int): Conn {
    if (c.writeState == StateUnreliable || c.writeState == StateInit)
       && TooLongWithoutResponse(c, CONNECTION_WRITE_TIMEOUT, now)
    then c.(writeState := StateTimeout)
    else c
  }

  function UpdateState(c: Conn, now: int): Conn {
    UpdateReceiving(Expire(Degrade(c, now), now), now)
  }

  function MaybeSetRemoteParams(c: Conn, user: seq<byte>, pwd: seq<byte>): Conn {
    if c.remoteUser == user && c.remotePwd == [] then c.(remotePwd := pwd) else c
  }

  /** An `int` holds the waiting time. */
  predicate MissResponse(c: Conn, now: int) {
    c.pings != [] && Wrap32(now - c.pings[0].sentTime) > 2 * c.rtt
  }

  predicate Stable(c: Conn, now: int) {
    c.rttSamples > RTT_RATIO + 1 && !MissResponse(c, now)
  }

  // ---- Runs ----

  datatype Event =
    | SendPing(id: seq<byte>)
    | Response(rtt: int)
    | Update
    | Select(on: bool)
    | RemoteParams(user: seq<byte>, pwd: seq<byte>)

  function Step(c: Conn, e: Event, now: int, average: Average): Conn {
    match e
    case SendPing(id) => Ping(c, id, now)
    case Response(rtt) => ReceivedResponse(c, rtt, now, average)
    case Update => UpdateState(c, now)
    case Select(on) => c.(selected := on)
    case RemoteParams(user, pwd) => MaybeSetRemoteParams(c, user, pwd)
  }

  function Run(c: Conn, events: seq<Timed<Event>>, average: Average): Conn
    decreases events
  {
    if events == [] then c else Run(Step(c, events[0].event, events[0].at, average), events[1..], average)
  }

  // ---- What every run keeps ----

  ghost predicate InSendingOrder(pings: seq<SentPing>) {
    forall i, j :: 0 <= i < j < |pings| ==> pings[i].sentTime <= pings[j].sentTime
  }

  /** The fifth unanswered ping was sent within 60 s of the 31-bit limit of the clock, or later. */
  ghost predicate AllowanceVoid(c: Conn) {
    |c.pings| >= 5 && c.pings[4].sentTime + MAX_RTT >= 0x8000_0000
  }

  /** The unanswered pings in order, all of them sent since the last response and none after the last
      ping; the counters that go with them; and what the write state says about the past: how many pings
      went unanswered, and for how long. */
  ghost predicate Inv(c: Conn, now: int) {
    && 0 <= c.lastPingResponse <= now && 0 <= c.lastPingSent <= now
    && c.lastPingReceived == 0 && c.lastDataReceived == 0
    && InSendingOrder(c.pings)
    && (forall i :: 0 <= i < |c.pings| ==> c.lastPingResponse <= c.pings[i].sentTime <= c.lastPingSent)
    && (c.pings != [] ==> c.pings[|c.pings| - 1].sentTime == c.lastPingSent)
    && |c.pings| <= c.numPingsSent
    && (c.rttSamples == 0 ==> c.lastPingResponse == 0 && |c.pings| == c.numPingsSent && c.rtt == 3000)
    && (c.writeState == StateInit ==> c.rttSamples == 0)
    && (Writable(c) || c.writeState == StateUnreliable ==> c.rttSamples > 0)
    && (c.writeState == StateUnreliable ==> 2 * c.rtt < MIN_RTT || AllowanceVoid(c))
    && (c.writeState == StateTimeout || c.writeState == StateUnreliable ==>
          c.pings != [] && (c.rttSamples > 0 ==> |c.pings| >= 5))
    && (c.writeState == StateUnreliable ==> now > c.pings[0].sentTime + CONNECTION_WRITE_CONNECT_TIMEOUT)
    && (c.writeState == StateTimeout ==> now > c.pings[0].sentTime + CONNECTION_WRITE_TIMEOUT)
  }

  lemma NewConnInv(user: seq<byte>, pwd: seq<byte>, localPriority: u32, remotePriority: u32, now: int)
    requires now >= 0
    ensures Inv(NewConn(user, pwd, localPriority, remotePriority), now)
  {
  }

  lemma PingKeepsInv(c: Conn, id: seq<byte>, before: int, now: int)
    requires Inv(c, before) && before <= now
    ensures Inv(Ping(c, id, now), now)
  {
    var n := Ping(c, id, now);
    assert forall i :: 0 <= i < |c.pings| ==> n.pings[i] == c.pings[i];
    assert n.pings[|c.pings|].sentTime == now;
  }

  lemma ResponseKeepsInv(c: Conn, rtt: int, before: int, now: int, average: Average)
    requires Inv(c, before) && before <= now
    ensures Inv(ReceivedResponse(c, rtt, now, average), now)
  {
  }

  /** The state the periodic update leaves behind, in terms of the unanswered pings alone. With a round
      trip of 50 ms or more a writable connection is never left unreliable while the clock fits 31 bits:
      its allowance of 60 s exceeds the 15 s timeout, so it times out in the same update. */
  lemma UpdateOutcome(c: Conn, before: int, now: int)
    requires Inv(c, before) && before <= now
    ensures var n := UpdateState(c, now).writeState;
      var failed := |c.pings| >= 5 && now > c.pings[0].sentTime + 5000
                    && var expected := c.pings[4].sentTime + (if 2 * c.rtt < 100 then 100 else 60000);
                       now > expected || expected >= 0x8000_0000;
      var expired := c.pings != [] && now > c.pings[0].sentTime + 15000;
      && (n == StateWritable <==> Writable(c) && !failed)
      && (n == StateTimeout <==> c.writeState == StateTimeout
                                 || (expired && (Writable(c) ==> failed)))
      && (n == StateUnreliable ==> (2 * c.rtt < 100 || AllowanceVoid(c)) && !expired)
      && (Writable(c) && 2 * c.rtt >= 100 && !AllowanceVoid(c) && n != StateWritable ==> n == StateTimeout)
  {
    if |c.pings| >= 5 {
      AllowanceEnds(c, 5, ResponseAllowance(c), now);
    }
  }

  lemma UpdateChangesStatesOnly(c: Conn, now: int)
    ensures var n := UpdateState(c, now); n == c.(writeState := n.writeState, receiving := n.receiving)
    ensures c.writeState == StateInit <== UpdateState(c, now).writeState == StateInit
  {
  }

  lemma UpdateKeepsInv(c: Conn, before: int, now: int)
    requires Inv(c, before) && before <= now
    ensures Inv(UpdateState(c, now), now)
  {
    UpdateOutcome(c, before, now);
    UpdateChangesStatesOnly(c, now);
    hide UpdateState, InSendingOrder;
  }

  lemma StepKeepsInv(c: Conn, e: Event, before: int, now: int, average: Average)
    requires Inv(c, before) && before <= now
    ensures Inv(Step(c, e, now, average), now)
  {
    hide Ping, ReceivedResponse, UpdateState;
    match e
    case SendPing(id) => PingKeepsInv(c, id, before, now);
    case Response(rtt) => ResponseKeepsInv(c, rtt, before, now, average);
    case Update => UpdateKeepsInv(c, before, now);
    case Select(on) =>
    case RemoteParams(user, pwd) =>
  }

  lemma {:induction false} RunKeepsInv(c: Conn, now: int, events: seq<Timed<Event>>, average: Average)
    requires Inv(c, now) && ClockRuns(now, events)
    ensures Inv(Run(c, events, average), EndTime(now, events))
    decreases events
  {
    if events == [] {
    } else {
      StepKeepsInv(c, events[0].event, now, events[0].at, average);
      RunKeepsInv(Step(c, events[0].event, events[0].at, average), events[0].at, events[1..], average);
    }
  }

  /** Leaving WRITABLE: only by the periodic update, after at least five pings without an answer, all sent
      since the last response, the first of them more than 5000 ms ago. */
  lemma LeavingWritable(c: Conn, e: Event, before: int, now: int, average: Average)
    requires Inv(c, before) && before <= now && Writable(c) && !Writable(Step(c, e, now, average))
    ensures e == Update && |c.pings| >= 5
    ensures forall i :: 0 <= i < |c.pings| ==> c.lastPingResponse <= c.pings[i].sentTime
    ensures now > c.pings[0].sentTime + 5000 >= c.lastPingResponse + 5000
    ensures var expected := c.pings[4].sentTime + (if 2 * c.rtt < 100 then 100 else 60000);
      now > expected || expected >= 0x8000_0000
  {
    UpdateOutcome(c, before, now);
  }

  /** Entering WRITE_TIMEOUT: only by the periodic update, more than 15000 ms after the last response. */
  lemma EnteringTimeout(c: Conn, e: Event, before: int, now: int, average: Average)
    requires Inv(c, before) && before <= now
    requires c.writeState != StateTimeout && Step(c, e, now, average).writeState == StateTimeout
    ensures e == Update && c.pings != [] && now > c.pings[0].sentTime + 15000 >= c.lastPingResponse + 15000
  {
  }

  /** The only way to WRITABLE is a response; a response always leads there. */
  lemma BecomingWritable(c: Conn, e: Event, now: int, average: Average)
    ensures !Writable(c) && Writable(Step(c, e, now, average)) ==> e.Response?
    ensures e.Response? ==> Writable(Step(c, e, now, average)) && Step(c, e, now, average).pings == []
  {
  }

  lemma SilentStep(c: Conn, e: Event, now: int, average: Average)
    requires !e.Response?
    ensures var n := Step(c, e, now, average);
      && (Writable(n) ==> Writable(c)) && Rank(c.writeState) <= Rank(n.writeState)
      && c.pings <= n.pings && n.lastPingResponse == c.lastPingResponse && n.rtt == c.rtt
  {
  }

  /** Over any run without a response nothing becomes writable, and the unanswered pings only grow. */
  lemma {:induction false} SilenceIsMonotone(c: Conn, events: seq<Timed<Event>>, average: Average)
    requires forall i :: 0 <= i < |events| ==> !events[i].event.Response?
    ensures var n := Run(c, events, average);
      && (Writable(n) ==> Writable(c))
      && c.pings <= n.pings && n.lastPingResponse == c.lastPingResponse && n.rtt == c.rtt
      && Rank(c.writeState) <= Rank(n.writeState)
    decreases events
  {
    hide Step, Rank, Writable;
    if events == [] {
    } else {
      SilentStep(c, events[0].event, events[0].at, average);
      SilenceIsMonotone(Step(c, events[0].event, events[0].at, average), events[1..], average);
    }
  }

  /** A connection that answers nothing any more is given up: from any reachable state with at least five
      unanswered pings, one update more than 60 s after the fifth of them finds or leaves it timed out. */
  lemma SilenceTimesOut(c: Conn, before: int, now: int)
    requires Inv(c, before) && before <= now
    requires |c.pings| >= 5 && now > c.pings[4].sentTime + 60000
    ensures UpdateState(c, now).writeState == StateTimeout
  {
  }

  /** What a reachable connection reports as receiving after an update: answered since the last ping, or
      a response less than 2500 ms old. */
  lemma ReceivingMeans(c: Conn, before: int, now: int)
    requires Inv(c, before) && before <= now
    ensures UpdateState(c, now).receiving
      <==> c.lastPingSent < c.lastPingResponse || (c.lastPingResponse > 0 && now < c.lastPingResponse + 2500)
  {
  }
}
