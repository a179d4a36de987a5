/** When a channel pings, whom it pings, and which connection it uses. */
module ChannelScheduling {
  import opened Base
  import opened ConnectionState
  import opened ConnectionRank
  import opened ChannelState
  import opened ChannelTheorems
  import opened ChannelRuns
  import opened ChannelHistory

  // ---- Spacing ----

  /** The connection an event makes the channel ping, if any. */
  ghost function PingedBy(ch: Chan, e: ChannelEvent, now: int): Option<Id> {
    if Wf(ch) && e.Tick? && ch.started then TickPick(ch, now) else None
  }

  datatype PingRecord = PingRecord(id: Id, at: int, interval: int)

  /** All pings of a run, each with the interval that was in force. */
  ghost function PingLog(ch: Chan, events: seq<Timed<ChannelEvent>>, setup: Setup): seq<PingRecord>
    decreases events
  {
    if events == [] then []
    else
      var n := ChannelStep(ch, events[0].event, events[0].at, setup);
      var pick := PingedBy(ch, events[0].event, events[0].at);
      (if pick.Some? then [PingRecord(pick.value, events[0].at, n.pingInterval)] else [])
      + PingLog(n, events[1..], setup)
  }

  lemma TickTimes(ch: Chan, pingId: seq<byte>, now: int)
    requires Core(ch) && Summarised(ch)
    ensures var n := CheckAndPing(ch, pingId, now);
      && (n.pingInterval == WEAK_PING_INTERVAL || n.pingInterval == STRONG_PING_INTERVAL)
      && (TickPick(ch, now).Some? ==> now >= ch.lastPingSent + n.pingInterval - PING_INTERVAL_DIFF)
  {
    hide Core, Summarised, UpdateConnections, FindNextPingable, PingConnection;
    var updated := UpdateConnections(ch, ch.order, now);
    UpdateConnectionsKeeps(ch, ch.order, now);
    UpdatesKeepClock(ch, ch.order, now);
    SelectionShape(updated, updated.lastPingSent - PING_INTERVAL_DIFF, now);
  }

  /** Only a tick that pings moves the channel's ping clock. */
  lemma OtherStepsLeaveClock(ch: Chan, e: ChannelEvent, now: int, setup: Setup)
    requires Core(ch) && !e.Tick?
    ensures ChannelStep(ch, e, now, setup).lastPingSent == ch.lastPingSent
  {
    hide Core, PingResponse, Resort, Without, StableSort;
    match e
    case Answer(id, rtt) =>
      if id in ch.conns {
        ResponseKeepsPingTimes(ch, id, rtt, now, setup.average);
      }
    case UnknownAddress(id, user, lp, rp) =>
      if id !in ch.conns {
        ResortLeavesBare(ch.(conns := ch.conns[id := NewConn(user, ch.remotePwd, lp, rp)], order := ch.order + [id],
                             unpinged := ch.unpinged + {id}), now);
      }
    case NewRemoteParams(user, pwd) =>
      ResortLeavesBare(ch.(remotePwd := pwd, conns := GiveRemoteParams(ch.conns, ch.order, user, pwd)), now);
    case Destroy(id) =>
      if id in ch.conns && ch.selected == Some(id) {
        OrphanedLeaves(ch, id);
        ResortLeavesBare(Orphaned(ch, id), now);
      }
  }

  lemma StepTimes(ch: Chan, e: ChannelEvent, now: int, setup: Setup)
    requires Core(ch) && Summarised(ch)
    ensures var n, pick := ChannelStep(ch, e, now, setup), PingedBy(ch, e, now);
      && n.lastPingSent == (if pick.Some? then now else ch.lastPingSent)
      && (pick.Some? ==> now >= ch.lastPingSent + n.pingInterval - 5 && (n.pingInterval == 48 || n.pingInterval == 480))
  {
    hide Core, Summarised, CheckAndPing, TickPick;
    if e.Tick? {
      TickTimes(ch, e.pingId, now);
      TickBare(ch, e.pingId, now);
    } else {
      OtherStepsLeaveClock(ch, e, now, setup);
    }
  }

  /** The time of the ping before number `i`; `last` for the first. */
  function Previous(log: seq<PingRecord>, last: int, i: nat): int
    requires i <= |log|
  {
    if i == 0 then last else log[i - 1].at
  }

  /** Each ping at least its interval, less 5 ms, after the one before. */
  ghost predicate Spaced(log: seq<PingRecord>, last: int) {
    forall i :: 0 <= i < |log| ==>
      && (log[i].interval == 48 || log[i].interval == 480)
      && log[i].at >= Previous(log, last, i) + log[i].interval - 5
  }

  lemma SpacedCons(r: PingRecord, rest: seq<PingRecord>, last: int)
    requires Spaced(rest, r.at) && (r.interval == 48 || r.interval == 480) && r.at >= last + r.interval - 5
    ensures Spaced([r] + rest, last)
  {
    var log := [r] + rest;
    forall i | 0 <= i < |log|
      ensures log[i].interval == 48 || log[i].interval == 480
      ensures log[i].at >= Previous(log, last, i) + log[i].interval - 5
    {
      if i > 0 {
        assert log[i] == rest[i - 1];
        assert Previous(log, last, i) == Previous(rest, r.at, i - 1);
      }
    }
  }

  /** Consecutive pings are at least 43 ms apart, and 475 ms where the strong interval is in force. */
  lemma {:induction false} PingsAreSpaced(ch: Chan, now: int, events: seq<Timed<ChannelEvent>>, setup: Setup)
    requires ChannelTheorems.Inv(ch, now) && ClockRuns(now, events)
    ensures Spaced(PingLog(ch, events, setup), ch.lastPingSent)
    decreases events
  {
    hide ChannelTheorems.Inv, SafeEvent, ChannelStep, PingedBy, Spaced;
    if events == [] {
      NothingIsSpaced(ch.lastPingSent);
    } else {
      var e, at := events[0].event, events[0].at;
      InvParts(ch, now);
      StepTimes(ch, e, at, setup);
      StepKeepsInvIff(ch, e, now, at, setup);
      var n := ChannelStep(ch, e, at, setup);
      if SafeEvent(ch, e, setup.logsInfo) {
        PingsAreSpaced(n, at, events[1..], setup);
      } else {
        DanglingLogsNothing(n, events[1..], setup);
        NothingIsSpaced(n.lastPingSent);
        NothingIsSpaced(at);
      }
      var rest := PingLog(n, events[1..], setup);
      if PingedBy(ch, e, at).Some? {
        SpacedCons(PingRecord(PingedBy(ch, e, at).value, at, n.pingInterval), rest, ch.lastPingSent);
      } else {
        assert PingLog(ch, events, setup) == rest;
      }
    }
  }

  /** Once the program's behaviour is undefined the model pings no more. */
  lemma {:induction false} DanglingLogsNothing(ch: Chan, events: seq<Timed<ChannelEvent>>, setup: Setup)
    requires !Wf(ch)
    ensures PingLog(ch, events, setup) == []
    decreases events
  {
    if events == [] {
    } else {
      DanglingLogsNothing(ch, events[1..], setup);
    }
  }

  lemma NothingIsSpaced(last: int)
    ensures Spaced([], last)
  {
  }

  lemma InvParts(ch: Chan, now: int)
    requires ChannelTheorems.Inv(ch, now)
    ensures Core(ch) && Summarised(ch) && ConnectionsInv(ch, now)
  {
  }

  /** So pings number `i` and `j` of a run are at least 43 * (j - i) ms apart, and a window of `span` ms
      holds at most 1 + span / 43 of them. */
  lemma {:induction false} PingRate(log: seq<PingRecord>, last: int, i: nat, j: nat, span: nat)
    requires i <= j < |log| && Spaced(log, last)
    ensures log[j].at - log[i].at >= 43 * (j - i)
    ensures log[j].at <= log[i].at + span ==> j - i + 1 <= 1 + span / 43
    decreases j - i
  {
    if i == j {
    } else {
      PingRate(log, last, i, j - 1, span);
      assert Previous(log, last, j) == log[j - 1].at;
    }
  }

  // ---- Once a connection is selected ----

  /** While the selection is writable and receiving, a connection that has had its first three pings is
      pinged again only after 900 ms, and a stable one only after 2500 ms. */
  lemma StrongChannelPingsRarely(ch: Chan, now: int)
    requires Core(ch) && Summarised(ch) && TickPick(ch, now).Some?
    requires var u := UpdateConnections(ch, ch.order, now); u.selected.Some? && !Weak(u.conns[u.selected.value])
    ensures var p := TickPick(ch, now).value;
      var u := UpdateConnections(ch, ch.order, now);
      && p in ch.conns && p in u.conns
      && (u.conns[p].numPingsSent >= 3 ==> now >= ch.conns[p].lastPingSent + 900)
      && (u.conns[p].numPingsSent >= 3 && Stable(u.conns[p], now) ==> now >= ch.conns[p].lastPingSent + 2500)
  {
    hide UpdateConnections, Core, Summarised, Stable;
    var u := UpdateConnections(ch, ch.order, now);
    UpdateConnectionsKeeps(ch, ch.order, now);
    UpdatesKeepWhatPickReads(ch, now);
    PickIsDue(u, now);
  }

  lemma PickIsDue(ch: Chan, now: int)
    requires Core(ch) && ch.selected.Some? && !Weak(ch.conns[ch.selected.value])
    ensures var pick := SelectConnectionToPing(ch, ch.lastPingSent - PING_INTERVAL_DIFF, now).pick;
      pick.Some? ==> pick.value in ch.conns && PastPingInterval(false, ch.conns[pick.value], now)
  {
    SidesAgree(ch);
    SelectionShape(ch, ch.lastPingSent - PING_INTERVAL_DIFF, now);
    hide PastPingInterval, PingInterval, HasCredentials;
  }

  /** A writable selection does not starve: once 2500 ms have passed since its last ping and 475 ms since
      the channel's, the next tick pings it before any other. */
  lemma SelectionIsKeptAlive(ch: Chan, now: int)
    requires Core(ch) && Summarised(ch)
    requires var u := UpdateConnections(ch, ch.order, now); u.selected.Some? && Writable(u.conns[u.selected.value])
    requires now >= ch.lastPingSent + 475
    requires var s := UpdateConnections(ch, ch.order, now).selected.value;
      s in ch.conns && now >= ch.conns[s].lastPingSent + 2500
    ensures TickPick(ch, now) == UpdateConnections(ch, ch.order, now).selected
  {
    hide UpdateConnections, Core, Summarised, Stable, Pick;
    var u := UpdateConnections(ch, ch.order, now);
    UpdateConnectionsKeeps(ch, ch.order, now);
    UpdatesKeepClock(ch, ch.order, now);
    UpdatesKeepWhatPickReads(ch, now);
    SidesAgree(u);
  }

  // ---- Fairness ----

  /** No connection is selected, and the remote credentials are known for all. */
  ghost predicate Idle(ch: Chan) {
    ch.selected == None && forall id :: id in ch.conns ==> HasCredentials(ch.conns[id])
  }

  /** A stretch of a run during which that holds and no connection comes or goes. */
  ghost predicate QuietRun(ch: Chan, events: seq<Timed<ChannelEvent>>, setup: Setup)
    decreases events
  {
    && Wf(ch) && Idle(ch)
    && (events == []
        || (&& (events[0].event.UnknownAddress? || events[0].event.Destroy? ==>
                  (events[0].event.UnknownAddress? <==> events[0].event.id in ch.conns))
            && QuietRun(ChannelStep(ch, events[0].event, events[0].at, setup), events[1..], setup)))
  }

  /** `a` was pinged before `b`, or at the same time (both never) and has the lower address. */
  ghost predicate Before(table: Table, a: Id, b: Id)
    requires a in table && b in table
  {
    table[a].lastPingSent < table[b].lastPingSent || (table[a].lastPingSent == table[b].lastPingSent && a < b)
  }

  /** `m` is the one of `ids` whose turn it is. */
  ghost predicate Leads(table: Table, ids: set<Id>, m: Id) {
    m in ids && ids <= table.Keys && forall id :: id in ids && id != m ==> Before(table, m, id)
  }

  /** Without a selection the tick pings the connection pinged longest ago, the one with the lowest
      address among several; and it does ping as soon as 43 ms have passed. */
  lemma TickPicksOldest(ch: Chan, pingId: seq<byte>, now: int)
    requires Core(ch) && Summarised(ch) && Idle(ch) && CheckAndPing(ch, pingId, now).selected == None
    ensures var pick := TickPick(ch, now);
      && (pick.Some? <==> ch.conns != map[] && now >= ch.lastPingSent + 43)
      && (pick.Some? ==> Leads(ch.conns, ch.conns.Keys, pick.value))
  {
    hide UpdateConnections, Core, Summarised, HasCredentials, IsPick, Leads, SelectConnectionToPing, Bare;
    var updated := UpdateConnections(ch, ch.order, now);
    UpdateConnectionsKeeps(ch, ch.order, now);
    UpdatesKeepClock(ch, ch.order, now);
    UpdatesKeepWhatPickReads(ch, now);
    TickKeepsSelection(ch, pingId, now);
    PickOfIdle(updated, now);
    var pick := TickPick(ch, now);
    if pick.Some? {
      PickLeads(ch, updated, now, pick.value);
    }
  }

  lemma TickKeepsSelection(ch: Chan, pingId: seq<byte>, now: int)
    requires Core(ch) && Summarised(ch)
    ensures CheckAndPing(ch, pingId, now).selected == UpdateConnections(ch, ch.order, now).selected
  {
    hide UpdateConnections, Core, Summarised, FindNextPingable;
    var updated := UpdateConnections(ch, ch.order, now);
    UpdateConnectionsKeeps(ch, ch.order, now);
    SelectionShape(updated, updated.lastPingSent - PING_INTERVAL_DIFF, now);
  }

  lemma PickLeads(ch: Chan, updated: Chan, now: int, p: Id)
    requires updated.conns.Keys == ch.conns.Keys
    requires forall id :: id in ch.conns ==> updated.conns[id].lastPingSent == ch.conns[id].lastPingSent
    requires Idle(updated) && IsPick(updated.conns, true, updated.conns.Keys, now, Some(p))
    ensures Leads(ch.conns, ch.conns.Keys, p)
  {
    hide HasCredentials;
  }

  lemma UpdatesKeepWhatPickReads(ch: Chan, now: int)
    requires Core(ch)
    ensures var n := UpdateConnections(ch, ch.order, now);
      n.conns.Keys == ch.conns.Keys
      && forall id :: id in ch.conns ==>
           && n.conns[id].lastPingSent == ch.conns[id].lastPingSent
           && HasCredentials(n.conns[id]) == HasCredentials(ch.conns[id])
  {
    hide UpdateConnections, UpdateState, Core, Bare;
    CoreOrder(ch);
    UpdatesBare(ch, ch.order, now);
    forall id | id in ch.conns
      ensures UpdateConnections(ch, ch.order, now).conns[id].lastPingSent == ch.conns[id].lastPingSent
      ensures HasCredentials(UpdateConnections(ch, ch.order, now).conns[id]) == HasCredentials(ch.conns[id])
    {
      BareAt(ch.conns, id);
      BareAt(UpdateConnections(ch, ch.order, now).conns, id);
      UpdateChangesStatesOnly(Bare(ch.conns)[id], now);
    }
  }

  lemma PickOfIdle(ch: Chan, now: int)
    requires Core(ch) && Idle(ch)
    ensures var s := SelectConnectionToPing(ch, ch.lastPingSent - PING_INTERVAL_DIFF, now);
      && (s.pick.Some? <==> ch.conns != map[] && now >= ch.lastPingSent + 43)
      && (s.pick.Some? ==> IsPick(ch.conns, true, ch.conns.Keys, now, s.pick))
  {
    SidesAgree(ch);
    assert ch.unpinged + ch.pinged == ch.conns.Keys;
    hide Pick, Core;
  }

  // ---- Turns ----

  /** The connections of `ids` in the order of their turns. */
  ghost predicate IsQueue(table: Table, ids: set<Id>, q: seq<Id>) {
    && ids <= table.Keys
    && (forall id :: id in ids <==> id in q)
    && forall i, j :: 0 <= i < j < |q| ==> q[i] in table && q[j] in table && Before(table, q[i], q[j])
  }

  lemma {:induction false} QueueExists(table: Table, ids: set<Id>)
    requires ids <= table.Keys
    ensures exists q :: IsQueue(table, ids, q)
  {
    if ids == {} {
      assert IsQueue(table, ids, []);
    } else {
      FirstExists(table, ids);
      var m :| Leads(table, ids, m);
      QueueExists(table, ids - {m});
      var q :| IsQueue(table, ids - {m}, q);
      var all := [m] + q;
      forall id
        ensures id in ids <==> id in all
      {
        assert id in all <==> id == m || id in q;
      }
      assert IsQueue(table, ids, all);
    }
  }

  lemma {:induction false} FirstExists(table: Table, ids: set<Id>)
    requires ids <= table.Keys && ids != {}
    ensures exists m :: Leads(table, ids, m)
  {
    var x :| x in ids;
    if ids == {x} {
      assert Leads(table, ids, x);
    } else {
      FirstExists(table, ids - {x});
      var m :| Leads(table, ids - {x}, m);
      if Before(table, x, m) {
        forall id | id in ids && id != x
          ensures Before(table, x, id)
        {
          assert id == m || Before(table, m, id);
        }
        assert Leads(table, ids, x);
      } else {
        assert Leads(table, ids, m);
      }
    }
  }

  function Turned(q: seq<Id>): (r: seq<Id>)
    requires q != []
    ensures |r| == |q|
  {
    q[1..] + [q[0]]
  }

  lemma LeaderIsFirst(table: Table, q: seq<Id>, p: Id)
    requires IsQueue(table, table.Keys, q) && Leads(table, table.Keys, p)
    ensures q != [] && q[0] == p
  {
    assert p in q;
    var i :| 0 <= i < |q| && q[i] == p;
    assert q[0] in q;
    assert i > 0 ==> Before(table, q[0], q[i]);
  }

  /** A ping of the first in the queue, later than all pings so far, sends it to the back. */
  lemma PingTurnsQueue(table: Table, after: Table, q: seq<Id>, p: Id, now: int)
    requires IsQueue(table, table.Keys, q) && after.Keys == table.Keys
    requires forall id :: id in table ==> table[id].lastPingSent < now
    requires forall id :: id in table ==> after[id].lastPingSent == if id == p then now else table[id].lastPingSent
    requires Leads(table, table.Keys, p)
    ensures q != [] && q[0] == p && IsQueue(after, after.Keys, Turned(q))
  {
    LeaderIsFirst(table, q, p);
    var r := Turned(q);
    assert q == [q[0]] + q[1..];
    assert forall id :: id in after.Keys <==> id in r;
    forall a, b | 0 <= a < b < |r|
      ensures r[a] in after && r[b] in after && Before(after, r[a], r[b])
    {
      TurnedPair(table, after, q, now, a, b);
    }
  }

  lemma TurnedPair(table: Table, after: Table, q: seq<Id>, now: int, a: nat, b: nat)
    requires IsQueue(table, table.Keys, q) && after.Keys == table.Keys && a < b < |q|
    requires forall id :: id in table ==> table[id].lastPingSent < now
    requires forall id :: id in table ==> after[id].lastPingSent == if id == q[0] then now else table[id].lastPingSent
    ensures var r := Turned(q); r[a] in after && r[b] in after && Before(after, r[a], r[b])
  {
    assert q[0] in q && q[a + 1] in q;
    assert Before(table, q[0], q[a + 1]);
    if b < |q| - 1 {
      assert Before(table, q[0], q[b + 1]) && Before(table, q[a + 1], q[b + 1]);
    }
  }

  lemma SameTimesSameQueue(table: Table, after: Table, q: seq<Id>)
    requires IsQueue(table, table.Keys, q) && after.Keys == table.Keys
    requires forall id :: id in table ==> after[id].lastPingSent == table[id].lastPingSent
    ensures IsQueue(after, after.Keys, q)
  {
  }

  lemma TurnedAt(q: seq<Id>, k: nat)
    requires q != [] && k > 0
    ensures Turned(q)[(k - 1) % |q|] == q[k % |q|]
  {
    var n := |q|;
    ModuloStep(k, n);
  }

  lemma ModuloStep(k: nat, n: nat)
    requires k > 0 && n > 0
    ensures (k - 1) % n == if k % n == 0 then n - 1 else k % n - 1
  {
    var d, m := k / n, k % n;
    assert k == d * n + m;
    if m == 0 {
      assert k - 1 == (d - 1) * n + (n - 1);
      ModuloOf(k - 1, d - 1, n - 1, n);
    } else {
      ModuloOf(k - 1, d, m - 1, n);
    }
  }

  lemma ModuloOf(x: int, d: int, m: nat, n: nat)
    requires m < n && x == d * n + m
    ensures x % n == m
  {
    var k := d - x / n;
    assert k * n == d * n - (x / n) * n == x % n - m;
    assert k >= 1 ==> k * n >= n;
    assert k <= -1 ==> (k + 1) * n <= 0;
  }

  /** What any step of a quiet stretch does to the times of the last pings. */
  lemma QuietStep(ch: Chan, e: ChannelEvent, before: int, now: int, setup: Setup)
    requires ChannelTheorems.Inv(ch, before) && before <= now && QuietRun(ch, [Timed(e, now)], setup)
    ensures var n, pick := ChannelStep(ch, e, now, setup), PingedBy(ch, e, now);
      && n.conns.Keys == ch.conns.Keys
      && (forall id :: id in ch.conns ==>
            n.conns[id].lastPingSent == if pick == Some(id) then now else ch.conns[id].lastPingSent)
      && (pick.Some? ==> Leads(ch.conns, ch.conns.Keys, pick.value)
                         && forall id :: id in ch.conns ==> ch.conns[id].lastPingSent < now)
  {
    hide Core, Summarised, CheckAndPing, TickPick, PingResponse, SetRemoteParams, Bare,
      ConnectionState.Inv, UpdateState;
    InvParts(ch, before);
    assert QuietRun(ChannelStep(ch, e, now, setup), [], setup) by {
      assert [Timed(e, now)][1..] == [];
    }
    match e
    case Tick(pingId) =>
      if ch.started {
        TickBare(ch, pingId, now);
        TickPicksOldest(ch, pingId, now);
        TickMoves(ch, pingId, now);
      }
    case Answer(id, rtt) =>
      if id in ch.conns {
        AnswerMovesNothing(ch, id, rtt, now, setup.average);
      }
    case UnknownAddress(id, user, lp, rp) =>
    case NewRemoteParams(user, pwd) => ParamsMoveNothing(ch, user, pwd, now);
    case Destroy(id) =>
  }

  lemma TickMoves(ch: Chan, pingId: seq<byte>, now: int)
    requires Core(ch) && Summarised(ch)
    ensures var n, pick := CheckAndPing(ch, pingId, now), TickPick(ch, now);
      && n.conns.Keys == ch.conns.Keys
      && forall id :: id in ch.conns ==>
           n.conns[id].lastPingSent == if pick == Some(id) then now else ch.conns[id].lastPingSent
  {
    hide Core, Summarised, CheckAndPing, TickPick, Bare, UpdateState;
    TickBare(ch, pingId, now);
    var n, pick := CheckAndPing(ch, pingId, now), TickPick(ch, now);
    forall id | id in ch.conns
      ensures n.conns[id].lastPingSent == if pick == Some(id) then now else ch.conns[id].lastPingSent
    {
      BareAt(ch.conns, id);
      BareAt(n.conns, id);
      UpdateChangesStatesOnly(Bare(ch.conns)[id], now);
    }
  }

  lemma AnswerMovesNothing(ch: Chan, from: Id, rtt: int, now: int, average: Average)
    requires Wf(ch) && from in ch.conns
    ensures var n := PingResponse(ch, from, rtt, now, average);
      && n.conns.Keys == ch.conns.Keys
      && forall id :: id in ch.conns ==> n.conns[id].lastPingSent == ch.conns[id].lastPingSent
  {
    hide PingResponse, Bare, ReceivedResponse;
    ResponseBare(ch, from, rtt, now, average);
    ResponseKeepsPingTimes(ch, from, rtt, now, average);
    forall id | id in ch.conns
      ensures PingResponse(ch, from, rtt, now, average).conns[id].lastPingSent == ch.conns[id].lastPingSent
    {
      BareAt(ch.conns, id);
      BareAt(PingResponse(ch, from, rtt, now, average).conns, id);
    }
  }

  lemma ParamsMoveNothing(ch: Chan, user: seq<byte>, pwd: seq<byte>, now: int)
    requires Wf(ch)
    ensures var n := SetRemoteParams(ch, user, pwd, now);
      && n.conns.Keys == ch.conns.Keys
      && forall id :: id in ch.conns ==> n.conns[id].lastPingSent == ch.conns[id].lastPingSent
  {
    hide Resort, Bare;
    var given := ch.(remotePwd := pwd, conns := GiveRemoteParams(ch.conns, ch.order, user, pwd));
    ResortLeavesBare(given, now);
    forall id | id in ch.conns
      ensures Resort(given, now).conns[id].lastPingSent == ch.conns[id].lastPingSent
    {
      BareAt(given.conns, id);
      BareAt(Resort(given, now).conns, id);
    }
  }

  ghost predicate InTurn(log: seq<PingRecord>, q: seq<Id>) {
    forall k :: 0 <= k < |log| ==> q != [] && log[k].id == q[k % |q|]
  }

  /** While nothing is selected the connections take turns, for ever in the same order: ping number `k`
      goes to number `k` modulo `n` of the `n` connections, listed by their last ping and then address. */
  lemma {:induction false} RoundRobin(ch: Chan, now: int, events: seq<Timed<ChannelEvent>>, setup: Setup, q: seq<Id>)
    requires ChannelTheorems.Inv(ch, now) && ClockRuns(now, events) && QuietRun(ch, events, setup)
    requires IsQueue(ch.conns, ch.conns.Keys, q)
    ensures InTurn(PingLog(ch, events, setup), q)
    decreases events
  {
    hide ChannelTheorems.Inv, ChannelStep, PingedBy, IsQueue, Leads, Idle, Turned, InTurn;
    if events == [] {
      NoTurns(q);
    } else {
      var e, at := events[0].event, events[0].at;
      var n, pick := ChannelStep(ch, e, at, setup), PingedBy(ch, e, at);
      OneQuietStep(ch, events, setup);
      QuietStep(ch, e, now, at, setup);
      StepKeepsInvIff(ch, e, now, at, setup);
      var rest := PingLog(n, events[1..], setup);
      if pick.Some? {
        PingTurnsQueue(ch.conns, n.conns, q, pick.value, at);
        RoundRobin(n, at, events[1..], setup, Turned(q));
        LogTurns(PingRecord(pick.value, at, n.pingInterval), rest, q);
      } else {
        SameTimesSameQueue(ch.conns, n.conns, q);
        RoundRobin(n, at, events[1..], setup, q);
        assert PingLog(ch, events, setup) == rest;
      }
    }
  }

  lemma NoTurns(q: seq<Id>)
    ensures InTurn([], q)
  {
  }

  lemma OneQuietStep(ch: Chan, events: seq<Timed<ChannelEvent>>, setup: Setup)
    requires events != [] && QuietRun(ch, events, setup)
    ensures Wf(ch) && QuietRun(ch, [events[0]], setup) && SafeEvent(ch, events[0].event, setup.logsInfo)
  {
    hide ChannelStep, Idle, HandsOver;
    var n := ChannelStep(ch, events[0].event, events[0].at, setup);
    assert Wf(n) && Idle(n) by {
      assert QuietRun(n, events[1..], setup);
    }
    assert [events[0]][1..] == [];
    assert QuietRun(n, [], setup);
  }

  lemma LogTurns(r: PingRecord, rest: seq<PingRecord>, q: seq<Id>)
    requires q != [] && r.id == q[0]
    requires InTurn(rest, Turned(q))
    ensures InTurn([r] + rest, q)
  {
    forall k | 0 <= k < |rest| + 1
      ensures ([r] + rest)[k].id == q[k % |q|]
    {
      if k > 0 {
        TurnedAt(q, k);
      } else {
        ModuloOf(0, 0, 0, |q|);
      }
    }
  }

  /** So any `n` consecutive pings of a quiet stretch go to the `n` connections, once each. */
  lemma EveryRoundIsFair(ch: Chan, now: int, events: seq<Timed<ChannelEvent>>, setup: Setup, start: nat)
    requires ChannelTheorems.Inv(ch, now) && ClockRuns(now, events) && QuietRun(ch, events, setup)
    requires start + |ch.conns| <= |PingLog(ch, events, setup)|
    ensures var log := PingLog(ch, events, setup);
      && (forall i, j :: start <= i < j < start + |ch.conns| ==> log[i].id != log[j].id)
      && (forall i :: start <= i < start + |ch.conns| ==> log[i].id in ch.conns)
      && (forall id :: id in ch.conns ==> exists i :: start <= i < start + |ch.conns| && log[i].id == id)
  {
    hide ChannelTheorems.Inv, QuietRun, PingLog;
    QueueExists(ch.conns, ch.conns.Keys);
    var q :| IsQueue(ch.conns, ch.conns.Keys, q);
    RoundRobin(ch, now, events, setup, q);
    QueueCounts(ch.conns, ch.conns.Keys, q);
    WindowOfTurns(PingLog(ch, events, setup), q, start);
    assert |ch.conns| == |ch.conns.Keys|;
    hide InTurn;
    forall id | id in ch.conns
      ensures exists i :: start <= i < start + |ch.conns| && PingLog(ch, events, setup)[i].id == id
    {
      assert id in q;
    }
  }

  lemma {:induction false} QueueCounts(table: Table, ids: set<Id>, q: seq<Id>)
    requires IsQueue(table, ids, q)
    ensures |q| == |ids|
  {
    if q == [] {
      assert ids == {};
    } else {
      assert q == [q[0]] + q[1..];
      forall i | 0 <= i < |q[1..]|
        ensures q[1..][i] != q[0]
      {
        assert Before(table, q[0], q[i + 1]);
      }
      assert IsQueue(table, ids - {q[0]}, q[1..]);
      QueueCounts(table, ids - {q[0]}, q[1..]);
    }
  }

  /** A window as long as the queue runs through the queue once. */
  lemma WindowOfTurns(log: seq<PingRecord>, q: seq<Id>, start: nat)
    requires InTurn(log, q) && start + |q| <= |log|
    requires forall i, j :: 0 <= i < j < |q| ==> q[i] != q[j]
    ensures forall i, j :: start <= i < j < start + |q| ==> log[i].id != log[j].id
    ensures forall i :: start <= i < start + |q| ==> log[i].id in q
    ensures forall id :: id in q ==> exists i :: start <= i < start + |q| && log[i].id == id
  {
    var n := |q|;
    forall i, j | start <= i < j < start + n
      ensures log[i].id != log[j].id
    {
      SameRemainder(i, j, n);
    }
    forall i | start <= i < start + n
      ensures log[i].id in q
    {
    }
    forall id | id in q
      ensures exists i :: start <= i < start + n && log[i].id == id
    {
      var k :| 0 <= k < n && q[k] == id;
      var i := InWindow(start, k, n);
      assert log[i].id == id;
    }
  }

  lemma SameRemainder(i: nat, j: nat, n: nat)
    requires n > 0 && i < j < i + n
    ensures i % n != j % n
  {
    var d := j / n - i / n;
    assert (j - i) - d * n == j % n - i % n by {
      assert i == (i / n) * n + i % n && j == (j / n) * n + j % n;
      assert d * n == (j / n) * n - (i / n) * n;
    }
    assert d >= 1 ==> d * n >= n;
    assert d <= 0 ==> d * n <= 0;
  }

  /** Every remainder occurs in a window of `n` numbers. */
  lemma InWindow(start: nat, k: nat, n: nat) returns (i: nat)
    requires k < n
    ensures start <= i < start + n && i % n == k
  {
    var base, m := (start / n) * n, start % n;
    assert start == base + m;
    if m <= k {
      i := base + k;
      ModuloOf(i, start / n, k, n);
    } else {
      i := base + n + k;
      assert i == (start / n + 1) * n + k;
      ModuloOf(i, start / n + 1, k, n);
    }
  }
}
