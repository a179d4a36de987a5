/** Whom a tick pings, selection or not, and why nobody starves behind a selection. */
module ChannelTurns {
  import opened Base
  import opened ConnectionState
  import opened ConnectionRank
  import opened ChannelState
  import opened ChannelTheorems
  import opened ChannelRuns
  import opened ChannelHistory
  import opened ChannelScheduling
  import ChannelSelection
  import ChannelSilence

  // ---- One tick ----

  /** The selected connection can be written to and received from. */
  predicate Strong(ch: Chan)
    requires Wf(ch)
  {
    ch.selected.Some? && var c := ch.conns[ch.selected.value]; c.writeState == StateWritable && c.receiving
  }

  /** How long a connection goes without a ping: 48 ms until its third; then 2500 ms behind a strong
      selection once it had five answers, the round trips are kept and no ping waits for twice of that;
      900 ms otherwise. */
  function Rest(strong: bool, c: Conn, now: int): int {
    if c.numPingsSent < 3 then 48
    else if strong && c.rttSamples >= 5 && (c.pings == [] || Wrap32(now - c.pings[0].sentTime) <= 2 * c.rtt) then 2500
    else 900
  }

  /** A connection that may be pinged: its peer's user and password are known, and its rest is over, which
      matters behind a strong selection only. */
  predicate Wants(strong: bool, c: Conn, now: int) {
    c.remoteUser != [] && c.remotePwd != [] && (strong ==> now >= c.lastPingSent + Rest(true, c, now))
  }

  /** The selected connection is writable and its rest is over. */
  predicate SelectedDue(ch: Chan, now: int)
    requires Wf(ch)
  {
    && ch.selected.Some?
    && var c := ch.conns[ch.selected.value];
    && c.writeState == StateWritable && now >= c.lastPingSent + Rest(Strong(ch), c, now)
  }

  /** The channel's interval: 480 ms behind a strong selection once each connection had three pings. */
  ghost function Interval(ch: Chan): int
    requires Wf(ch)
  {
    if Strong(ch) && forall id :: id in ch.conns ==> ch.conns[id].numPingsSent >= 3 then 480 else 48
  }

  /** `pick` is the one that wants a ping and had none for longest, the lowest address among equals. */
  ghost predicate IsTurn(ch: Chan, now: int, pick: Option<Id>)
    requires Wf(ch)
  {
    match pick
    case None => forall id :: id in ch.conns ==> !Wants(Strong(ch), ch.conns[id], now)
    case Some(p) =>
      && p in ch.conns && Wants(Strong(ch), ch.conns[p], now)
      && forall id :: id in ch.conns && id != p && Wants(Strong(ch), ch.conns[id], now) ==> Before(ch.conns, p, id)
  }

  /** The scheduler's own terms mean the above. */
  lemma TermsMean(ch: Chan, now: int)
    requires Core(ch)
    ensures ControllerWeak(ch) == !Strong(ch) && PingInterval(ch) == Interval(ch)
    ensures PingsSelectedFirst(ch, now) == SelectedDue(ch, now)
    ensures forall id :: id in ch.conns ==>
      Pingable(ControllerWeak(ch), ch.conns[id], now) == Wants(Strong(ch), ch.conns[id], now)
  {
  }

  lemma ChoiceMeans(ch: Chan, now: int)
    requires Core(ch)
    ensures var s := SelectConnectionToPing(ch, ch.lastPingSent - PING_INTERVAL_DIFF, now);
      && s.interval == Interval(ch)
      && (now < ch.lastPingSent + Interval(ch) - 5 ==> s.pick == None)
      && (now >= ch.lastPingSent + Interval(ch) - 5 ==>
            if SelectedDue(ch, now) then s.pick == ch.selected else IsTurn(ch, now, s.pick))
  {
    hide Pingable, Wants, SelectedDue, PingsSelectedFirst, PingInterval, Interval, Pick;
    TermsMean(ch, now);
    SidesAgree(ch);
    var m := MergeSets(ch);
    assert m.unpinged == ch.conns.Keys;
  }

  /** What a tick does, judged on the connections after their updates. Nobody is pinged before the interval
      is over, but for 5 ms. Then it is the selected one if that is due, and otherwise the one, whichever ping
      set holds it, that wants a ping and had none for longest. */
  lemma TickChoice(ch: Chan, pingId: seq<byte>, now: int)
    requires Core(ch) && Summarised(ch)
    ensures var u, n, pick := UpdateConnections(ch, ch.order, now), CheckAndPing(ch, pingId, now), TickPick(ch, now);
      && n.pingInterval == Interval(u)
      && (now < ch.lastPingSent + Interval(u) - 5 ==> pick == None)
      && (now >= ch.lastPingSent + Interval(u) - 5 ==>
            if SelectedDue(u, now) then pick == u.selected else IsTurn(u, now, pick))
  {
    hide UpdateConnections, Core, Summarised, Interval, SelectedDue, IsTurn, SelectConnectionToPing, PingConnection;
    var u := UpdateConnections(ch, ch.order, now);
    UpdateConnectionsKeeps(ch, ch.order, now);
    UpdatesKeepClock(ch, ch.order, now);
    ChoiceMeans(u, now);
  }

  lemma TouchSets(ch: Chan, id: Id, c: Conn, now: int)
    requires Wf(ch) && id in ch.conns
    ensures var n := Touch(ch, id, c, now); n.unpinged == ch.unpinged && n.pinged == ch.pinged
  {
    hide Resort;
    ReplacedIsWf(ch, id, c);
    ChannelSelection.ResortSets(ch.(conns := ch.conns[id := c]), now);
  }

  lemma {:induction false} UpdatesKeepSets(ch: Chan, ids: seq<Id>, now: int)
    requires Wf(ch) && AllIn(ch.conns, ids)
    ensures var n := UpdateConnections(ch, ids, now); n.unpinged == ch.unpinged && n.pinged == ch.pinged
    decreases |ids|
  {
    hide Wf, Touch, Degrade, Expire, UpdateReceiving;
    if ids == [] {
    } else {
      var id := ids[0];
      var a := Touch(ch, id, Degrade(ch.conns[id], now), now);
      var b := Touch(a, id, Expire(a.conns[id], now), now);
      TouchSets(ch, id, Degrade(ch.conns[id], now), now);
      TouchSets(a, id, Expire(a.conns[id], now), now);
      TouchSets(b, id, UpdateReceiving(b.conns[id], now), now);
      UpdatesKeepSets(UpdateConnection(ch, id, now), ids[1..], now);
    }
  }

  /** What a tick leaves of the two ping sets. Every choice by turn puts all connections back among the unpinged
      ones first; whoever is pinged is then among the pinged ones. */
  lemma TickSets(ch: Chan, pingId: seq<byte>, now: int)
    requires Core(ch) && Summarised(ch)
    ensures var u, n, pick := UpdateConnections(ch, ch.order, now), CheckAndPing(ch, pingId, now), TickPick(ch, now);
      if now < ch.lastPingSent + Interval(u) - 5 then n.pinged == ch.pinged && n.unpinged == ch.unpinged
      else if SelectedDue(u, now) then
        pick.Some? && n.pinged == ch.pinged + {pick.value} && n.unpinged == ch.unpinged - {pick.value}
      else
        var chosen := if pick.Some? then {pick.value} else {};
        n.pinged == chosen && n.unpinged == ch.conns.Keys - chosen
  {
    hide UpdateConnections, Core, Summarised, Interval, IsTurn, PingConnection, SelectConnectionToPing, Rest;
    var u := UpdateConnections(ch, ch.order, now);
    UpdateConnectionsKeeps(ch, ch.order, now);
    UpdatesKeepClock(ch, ch.order, now);
    UpdatesKeepSets(ch, ch.order, now);
    ChosenSets(u, pingId, now);
  }

  lemma ChosenSets(u: Chan, pingId: seq<byte>, now: int)
    requires Core(u)
    ensures var s := SelectConnectionToPing(u, u.lastPingSent - PING_INTERVAL_DIFF, now);
      (s.pick.Some? ==> Wf(s.ch) && s.pick.value in s.ch.conns)
      && var n := if s.pick.Some? then PingConnection(s.ch, s.pick.value, pingId, now) else s.ch;
      if now < u.lastPingSent + Interval(u) - 5 then n.pinged == u.pinged && n.unpinged == u.unpinged
      else if SelectedDue(u, now) then
        s.pick == u.selected && n.pinged == u.pinged + {s.pick.value} && n.unpinged == u.unpinged - {s.pick.value}
      else
        var chosen := if s.pick.Some? then {s.pick.value} else {};
        n.pinged == chosen && n.unpinged == u.conns.Keys - chosen
  {
    hide Pingable, Wants, PastPingInterval, Rest, PingInterval, Interval, Pick, Ping;
    TermsMean(u, now);
    SidesAgree(u);
    if SelectedDue(u, now) && u.selected.value in u.pinged {
      assert u.pinged + {u.selected.value} == u.pinged && u.unpinged - {u.selected.value} == u.unpinged;
    }
    SelectionShape(u, u.lastPingSent - PING_INTERVAL_DIFF, now);
    MergedIsWf(u);
    assert MergeSets(u).unpinged == u.conns.Keys;
  }

  /** The timer starts with the first re-sort after which some connection may be pinged. */
  lemma TimerStarts(ch: Chan, now: int)
    requires Core(ch)
    ensures var n := Resort(ch, now);
      n.started <==> ch.started || exists id :: id in n.conns && Wants(Strong(n), n.conns[id], now)
  {
    hide StableSort, SetSelected, Wants, Pingable;
    ResortKeepsCore(ch, now);
    var n := Resort(ch, now);
    var s := SortVector(ch);
    SwitchTargetExists(s);
    var m := Summarise(Switch(s, SwitchTarget(s)));
    assert n == MaybeStartPinging(m, now);
    TermsMean(n, now);
    SameForPinging(m, n, now);
    PingableExists(n, now);
  }

  lemma PingableExists(ch: Chan, now: int)
    requires Core(ch)
    ensures HasPingable(ch, now) <==> exists id :: id in ch.conns && Pingable(ControllerWeak(ch), ch.conns[id], now)
  {
    hide Pingable;
    if id :| id in ch.conns && Pingable(ControllerWeak(ch), ch.conns[id], now) {
      assert id in ch.order;
      var i :| 0 <= i < |ch.order| && ch.order[i] == id;
      assert Pingable(ControllerWeak(ch), ch.conns[ch.order[i]], now);
    }
  }

  // ---- Nobody starves behind a selection ----

  /** What the turns depend on. */
  ghost predicate SameTurns(c: Conn, d: Conn) {
    && d.lastPingSent == c.lastPingSent && d.numPingsSent == c.numPingsSent
    && (HasCredentials(c) ==> HasCredentials(d))
  }

  lemma BareTurns(before: Table, after: Table, id: Id)
    requires id in before && id in after && SameTurns(Bare(before)[id], Bare(after)[id])
    ensures SameTurns(before[id], after[id])
  {
    BareAt(before, id);
    BareAt(after, id);
  }

  /** The event brings no connection and takes none. */
  predicate NoneComesOrGoes(ch: Chan, e: ChannelEvent) {
    && (e.UnknownAddress? ==> e.id in ch.conns)
    && (e.Destroy? ==> e.id !in ch.conns)
  }

  /** Throughout the run `s` is selected and no connection comes or goes. */
  ghost predicate Held(ch: Chan, events: seq<Timed<ChannelEvent>>, setup: Setup, s: Id)
    decreases events
  {
    && Wf(ch) && ch.selected == Some(s)
    && (events == []
        || (NoneComesOrGoes(ch, events[0].event)
            && Held(ChannelStep(ch, events[0].event, events[0].at, setup), events[1..], setup, s)))
  }

  lemma AnswerKeepsTurns(ch: Chan, from: Id, rtt: int, now: int, average: Average)
    requires Wf(ch) && from in ch.conns
    ensures var n := PingResponse(ch, from, rtt, now, average);
      && n.conns.Keys == ch.conns.Keys && (ch.started ==> n.started)
      && n.lastPingSent == ch.lastPingSent && n.pingInterval == ch.pingInterval
      && forall id :: id in ch.conns ==> SameTurns(ch.conns[id], n.conns[id])
  {
    hide PingResponse, Bare, SameTurns;
    var n := PingResponse(ch, from, rtt, now, average);
    ResponseBare(ch, from, rtt, now, average);
    ResponseClock(ch, from, rtt, now, average);
    forall id | id in ch.conns
      ensures SameTurns(ch.conns[id], n.conns[id])
    {
      AnsweredTurns(Bare(ch.conns)[id], rtt, now, average);
      BareTurns(ch.conns, n.conns, id);
    }
  }

  lemma AnsweredTurns(c: Conn, rtt: int, now: int, average: Average)
    ensures SameTurns(c, c) && SameTurns(c, ReceivedResponse(c, rtt, now, average))
  {
  }

  lemma ResponseClock(ch: Chan, id: Id, rtt: int, now: int, average: Average)
    requires Wf(ch) && id in ch.conns
    ensures SameClock(ch, PingResponse(ch, id, rtt, now, average))
  {
    hide Touch, NoteResponse, UpdateReceiving;
    var a := ch.(conns := ch.conns[id := NoteResponse(ch.conns[id], rtt, now, average)]);
    TouchKeepsClock(a, id, UpdateReceiving(a.conns[id], now), now);
    var b := Touch(a, id, UpdateReceiving(a.conns[id], now), now);
    TouchKeepsClock(b, id, b.conns[id].(writeState := StateWritable), now);
  }

  lemma ParamsKeepTurns(ch: Chan, user: seq<byte>, pwd: seq<byte>, now: int)
    requires Wf(ch)
    ensures var n := SetRemoteParams(ch, user, pwd, now);
      && n.conns.Keys == ch.conns.Keys && (ch.started ==> n.started)
      && n.lastPingSent == ch.lastPingSent && n.pingInterval == ch.pingInterval
      && forall id :: id in ch.conns ==> SameTurns(ch.conns[id], n.conns[id])
  {
    hide Resort, Bare, SameTurns;
    var given := ch.(remotePwd := pwd, conns := GiveRemoteParams(ch.conns, ch.order, user, pwd));
    ResortLeavesBare(given, now);
    ResortKeepsClock(given, now);
    forall id | id in ch.conns
      ensures SameTurns(ch.conns[id], Resort(given, now).conns[id])
    {
      BareAt(given.conns, id);
      BareAt(Resort(given, now).conns, id);
      GivenTurns(ch.conns[id], given.conns[id], Resort(given, now).conns[id], user, pwd);
    }
  }

  lemma GivenTurns(c: Conn, d: Conn, e: Conn, user: seq<byte>, pwd: seq<byte>)
    requires (d == c || d == MaybeSetRemoteParams(c, user, pwd)) && d.(selected := false) == e.(selected := false)
    ensures SameTurns(c, e)
  {
  }

  /** Answers and credentials leave the turns alone. */
  lemma OtherStepsKeepTurns(ch: Chan, e: ChannelEvent, now: int, setup: Setup)
    requires Wf(ch) && !e.Tick? && NoneComesOrGoes(ch, e)
    ensures var n := ChannelStep(ch, e, now, setup);
      && n.conns.Keys == ch.conns.Keys && (ch.started ==> n.started)
      && n.lastPingSent == ch.lastPingSent && n.pingInterval == ch.pingInterval
      && forall id :: id in ch.conns ==> SameTurns(ch.conns[id], n.conns[id])
  {
    hide PingResponse, SetRemoteParams, Wf;
    match e
    case Answer(from, rtt) =>
      if from in ch.conns {
        AnswerKeepsTurns(ch, from, rtt, now, setup.average);
      }
    case NewRemoteParams(user, pwd) => ParamsKeepTurns(ch, user, pwd, now);
    case UnknownAddress(_, _, _, _) =>
    case Destroy(_) =>
  }

  /** A tick moves the turn of the connection it pings. */
  lemma TickTurns(ch: Chan, pingId: seq<byte>, now: int)
    requires Core(ch) && Summarised(ch)
    ensures var n, pick := CheckAndPing(ch, pingId, now), TickPick(ch, now);
      && n.conns.Keys == ch.conns.Keys && (pick.Some? ==> pick.value in ch.conns)
      && n.lastPingSent == (if pick.Some? then now else ch.lastPingSent)
      && forall id :: id in ch.conns ==>
           && (HasCredentials(ch.conns[id]) ==> HasCredentials(n.conns[id]))
           && n.conns[id].lastPingSent == (if pick == Some(id) then now else ch.conns[id].lastPingSent)
           && n.conns[id].numPingsSent == ch.conns[id].numPingsSent + if pick == Some(id) then 1 else 0
  {
    hide Core, Summarised, CheckAndPing, TickPick, Bare, UpdateState;
    TickBare(ch, pingId, now);
    var n := CheckAndPing(ch, pingId, now);
    forall id | id in ch.conns
      ensures HasCredentials(ch.conns[id]) ==> HasCredentials(n.conns[id])
      ensures n.conns[id].lastPingSent
           == (if TickPick(ch, now) == Some(id) then now else ch.conns[id].lastPingSent)
      ensures n.conns[id].numPingsSent == ch.conns[id].numPingsSent + if TickPick(ch, now) == Some(id) then 1 else 0
    {
      BareAt(ch.conns, id);
      BareAt(n.conns, id);
      UpdateChangesStatesOnly(Bare(ch.conns)[id], now);
    }
  }

  /** The updates of a tick leave the turns alone. */
  lemma UpdatesKeepTurns(ch: Chan, now: int)
    requires Core(ch)
    ensures var u := UpdateConnections(ch, ch.order, now);
      u.conns.Keys == ch.conns.Keys && forall id :: id in ch.conns ==> SameTurns(ch.conns[id], u.conns[id])
  {
    hide UpdateConnections, UpdateState, Core, Bare;
    var u := UpdateConnections(ch, ch.order, now);
    CoreOrder(ch);
    UpdatesBare(ch, ch.order, now);
    forall id | id in ch.conns
      ensures SameTurns(ch.conns[id], u.conns[id])
    {
      BareAt(ch.conns, id);
      BareAt(u.conns, id);
      UpdateChangesStatesOnly(Bare(ch.conns)[id], now);
    }
  }

  /** Once `x` had no ping for 2500 ms, a tick behind the selection `s` pings `x`, one whose turn comes before,
      or the selection itself, and that only after its own rest or on its turn. */
  lemma OverdueTick(ch: Chan, pingId: seq<byte>, now: int, s: Id, x: Id)
    requires Core(ch) && Summarised(ch) && CheckAndPing(ch, pingId, now).selected == Some(s)
    requires s in ch.conns && x in ch.conns && x != s && HasCredentials(ch.conns[x])
    requires now >= ch.conns[x].lastPingSent + 2500
    ensures var n, pick := CheckAndPing(ch, pingId, now), TickPick(ch, now);
      && (n.pingInterval == 48 || n.pingInterval == 480)
      && (pick.Some? <==> now >= ch.lastPingSent + n.pingInterval - 5)
      && (pick.Some? && pick.value != s && pick.value != x ==>
            pick.value in ch.conns && Before(ch.conns, pick.value, x))
      && (pick == Some(s) ==>
            || Before(ch.conns, s, x)
            || now >= ch.conns[s].lastPingSent + if ch.conns[s].numPingsSent < 3 then 48 else 900)
  {
    hide UpdateConnections, Core, Summarised, CheckAndPing, TickPick;
    var u := UpdateConnections(ch, ch.order, now);
    UpdateConnectionsKeeps(ch, ch.order, now);
    TickKeepsSelection(ch, pingId, now);
    UpdatesKeepTurns(ch, now);
    TickChoice(ch, pingId, now);
    assert Wants(Strong(u), u.conns[x], now);
  }

  // ---- Counting the pings that come before ----

  ghost predicate IsAhead(table: Table, s: Id, x: Id, id: Id)
    requires x in table
  {
    id in table && id != s && id != x && Before(table, id, x)
  }

  /** The others whose turn comes before that of `x`. */
  ghost function Ahead(table: Table, s: Id, x: Id): set<Id>
    requires x in table
  {
    set id | id in table && IsAhead(table, s, x, id)
  }

  /** An upper bound on the pings before that of `x`: each of the others ahead of it once, the selection once in
      between and once more at the start if it is `rested`, and as often as it is still young. */
  ghost function Budget(table: Table, s: Id, x: Id, rested: bool): nat
    requires s in table && x in table
  {
    2 * |Ahead(table, s, x)| + 2 * (if table[s].numPingsSent < 3 then 3 - table[s].numPingsSent else 0)
    + if rested then 1 else 0
  }

  lemma SmallerSet(a: set<Id>, b: set<Id>)
    requires a <= b
    ensures |a| <= |b| && (a != b ==> |a| < |b|)
  {
    assert b == a + (b - a);
    assert a != b ==> b - a != {};
  }

  lemma AheadShrinks(table: Table, after: Table, s: Id, x: Id, pick: Id, now: int)
    requires s in table && x in table && x != s && after.Keys == table.Keys && pick in table && pick != x
    requires now >= table[x].lastPingSent + 2500
    requires forall id :: id in table ==>
      after[id].lastPingSent == if id == pick then now else table[id].lastPingSent
    ensures |Ahead(after, s, x)| <= |Ahead(table, s, x)|
    ensures pick != s && Before(table, pick, x) ==> |Ahead(after, s, x)| < |Ahead(table, s, x)|
  {
    var a, b := Ahead(after, s, x), Ahead(table, s, x);
    assert a <= b;
    if pick != s && Before(table, pick, x) {
      assert pick in b && pick !in a;
    }
    SmallerSet(a, b);
  }

  lemma SameAhead(table: Table, after: Table, s: Id, x: Id)
    requires s in table && x in table && after.Keys == table.Keys
    requires forall id :: id in table ==> SameTurns(table[id], after[id])
    ensures Ahead(after, s, x) == Ahead(table, s, x)
    ensures forall rested :: Budget(after, s, x, rested) == Budget(table, s, x, rested)
  {
    assert forall id :: id in table ==> Before(after, id, x) == Before(table, id, x);
  }

  lemma BudgetBound(table: Table, s: Id, x: Id, rested: bool)
    requires s in table && x in table && x != s
    ensures Budget(table, s, x, rested) <= 2 * |table| + 3
  {
    var a := Ahead(table, s, x);
    assert a <= table.Keys - {s, x};
    SmallerSet(a, table.Keys - {s, x});
    assert |table.Keys - {s, x}| == |table.Keys| - 2;
  }

  // ---- Runs under the channel's own timer ----

  /** The timer comes no more than 5 ms before its period is over and no more than `late` ms after it, and
      so does the end of the run. */
  ghost predicate OnTime(ch: Chan, tick: int, events: seq<Timed<ChannelEvent>>, setup: Setup, late: nat)
    decreases events
  {
    events == []
    || (var e, at := events[0].event, events[0].at;
        && at <= tick + ch.pingInterval + late && (e.Tick? ==> at >= tick + ch.pingInterval - 5)
        && OnTime(ChannelStep(ch, e, at, setup), if e.Tick? then at else tick, events[1..], setup, late))
  }

  ghost predicate PingedUntil(log: seq<PingRecord>, x: Id, limit: int) {
    exists i :: 0 <= i < |log| && log[i].id == x && log[i].at <= limit
  }

  lemma PingedLater(r: Option<PingRecord>, log: seq<PingRecord>, x: Id, limit: int)
    requires PingedUntil(log, x, limit) || (r.Some? && r.value.id == x && r.value.at <= limit)
    ensures PingedUntil((if r.Some? then [r.value] else []) + log, x, limit)
  {
    var all := (if r.Some? then [r.value] else []) + log;
    if PingedUntil(log, x, limit) {
      var i :| 0 <= i < |log| && log[i].id == x && log[i].at <= limit;
      assert all[|all| - |log| + i] == log[i];
    } else {
      assert all[0] == r.value;
    }
  }

  /** The longest time between two pings: a tick after 48 ms that comes too early for the strong interval,
      and then one after 480 ms. */
  function Turn(late: nat): nat {
    528 + 2 * late
  }

  /** The channel pings no later than this. */
  function NextBy(ch: Chan, tick: int, late: nat): int {
    if ch.pingInterval == 480 then tick + 480 + late else tick + Turn(late)
  }

  /** `tick` is the time of the last tick, and `now` is not too late for the next one. */
  ghost predicate Ticking(ch: Chan, tick: int, now: int, late: nat) {
    && ch.started && (ch.pingInterval == 48 || ch.pingInterval == 480)
    && ch.lastPingSent <= tick <= now <= tick + ch.pingInterval + late
  }

  /** The selection that is not `rested` was pinged last, and is not due again before the next ping. */
  ghost predicate Waiting(ch: Chan, tick: int, s: Id, x: Id, rested: bool, late: nat)
    requires s in ch.conns && x in ch.conns
  {
    rested || (&& ch.conns[s].numPingsSent >= 3 && NextBy(ch, tick, late) < ch.conns[s].lastPingSent + 900
               && ch.conns[s].lastPingSent > ch.conns[x].lastPingSent)
  }

  /** Whether the selection is rested after the tick. */
  ghost function RestedAfter(ch: Chan, s: Id, rested: bool, pick: Option<Id>): bool
    requires s in ch.conns
  {
    match pick
    case None => rested
    case Some(p) => p != s || ch.conns[s].numPingsSent + 1 < 3
  }

  /** A tick while `x` is overdue pings it, or makes its turn come closer. */
  lemma OverdueStep(ch: Chan, pingId: seq<byte>, tick: int, before: int, now: int, s: Id, x: Id, rested: bool,
                    late: nat)
    requires Core(ch) && Summarised(ch) && CheckAndPing(ch, pingId, now).selected == Some(s)
    requires s in ch.conns && x in ch.conns && x != s && HasCredentials(ch.conns[x])
    requires Ticking(ch, tick, before, late) && Waiting(ch, tick, s, x, rested, late) && late <= 185
    requires before <= now && tick + ch.pingInterval - 5 <= now <= tick + ch.pingInterval + late
    requires now >= ch.conns[x].lastPingSent + 2500
    ensures now <= NextBy(ch, tick, late)
    ensures var n, pick := CheckAndPing(ch, pingId, now), TickPick(ch, now);
      && n.conns.Keys == ch.conns.Keys && Ticking(n, now, now, late)
      && (pick != Some(x) ==>
            var after := RestedAfter(ch, s, rested, pick);
            && Waiting(n, now, s, x, after, late) && HasCredentials(n.conns[x])
            && n.conns[x].lastPingSent == ch.conns[x].lastPingSent
            && NextBy(n, now, late) + Budget(n.conns, s, x, after) * Turn(late)
               <= NextBy(ch, tick, late) + Budget(ch.conns, s, x, rested) * Turn(late))
  {
    hide Core, Summarised, CheckAndPing, TickPick, HasCredentials, Ahead;
    OverdueTick(ch, pingId, now, s, x);
    TickTurns(ch, pingId, now);
    ChannelSilence.TickStaysStarted(ch, pingId, now);
    var n, pick := CheckAndPing(ch, pingId, now), TickPick(ch, now);
    if pick.Some? && pick != Some(x) {
      AheadShrinks(ch.conns, n.conns, s, x, pick.value, now);
      assert Budget(n.conns, s, x, RestedAfter(ch, s, rested, pick)) + 1 <= Budget(ch.conns, s, x, rested);
      Times(Budget(n.conns, s, x, RestedAfter(ch, s, rested, pick)), Budget(ch.conns, s, x, rested), Turn(late));
    } else if pick.None? {
      SameAheadTimes(ch.conns, n.conns, s, x);
    }
  }

  lemma {:induction false} Times(a: nat, b: nat, g: nat)
    requires a + 1 <= b
    ensures a * g + g <= b * g
    decreases b
  {
    assert b * g == (b - 1) * g + g;
    if b == a + 1 {
    } else {
      Times(a, b - 1, g);
    }
  }

  lemma SameAheadTimes(table: Table, after: Table, s: Id, x: Id)
    requires s in table && x in table && after.Keys == table.Keys
    requires forall id :: id in table ==>
      after[id].lastPingSent == table[id].lastPingSent && after[id].numPingsSent == table[id].numPingsSent
    ensures forall rested :: Budget(after, s, x, rested) == Budget(table, s, x, rested)
  {
    assert forall id :: id in table ==> Before(after, id, x) == Before(table, id, x);
    assert Ahead(after, s, x) == Ahead(table, s, x);
  }

  /** What an answer or credentials leave for the turns. */
  lemma OverdueOther(ch: Chan, e: ChannelEvent, tick: int, before: int, now: int, setup: Setup, s: Id, x: Id,
                     rested: bool, late: nat)
    requires Wf(ch) && !e.Tick? && NoneComesOrGoes(ch, e)
    requires s in ch.conns && x in ch.conns && HasCredentials(ch.conns[x])
    requires Ticking(ch, tick, before, late) && Waiting(ch, tick, s, x, rested, late)
    requires before <= now <= tick + ch.pingInterval + late
    ensures var n := ChannelStep(ch, e, now, setup);
      && n.conns.Keys == ch.conns.Keys && Ticking(n, tick, now, late) && HasCredentials(n.conns[x])
      && Waiting(n, tick, s, x, rested, late) && n.conns[x].lastPingSent == ch.conns[x].lastPingSent
      && NextBy(n, tick, late) == NextBy(ch, tick, late)
      && Budget(n.conns, s, x, rested) == Budget(ch.conns, s, x, rested)
  {
    hide HasCredentials, ChannelStep, Ahead;
    OtherStepsKeepTurns(ch, e, now, setup);
    SameAhead(ch.conns, ChannelStep(ch, e, now, setup).conns, s, x);
  }

  lemma HeldStep(ch: Chan, events: seq<Timed<ChannelEvent>>, setup: Setup, s: Id)
    requires events != [] && Held(ch, events, setup, s)
    ensures var n := ChannelStep(ch, events[0].event, events[0].at, setup);
      Wf(ch) && Wf(n) && n.selected == Some(s) && ch.selected == Some(s) && NoneComesOrGoes(ch, events[0].event)
    ensures SafeEvent(ch, events[0].event, setup.logsInfo)
  {
    hide ChannelStep, HandsOver;
    assert Held(ChannelStep(ch, events[0].event, events[0].at, setup), events[1..], setup, s);
  }

  lemma LogOfStep(ch: Chan, events: seq<Timed<ChannelEvent>>, setup: Setup, x: Id, limit: int)
    requires events != []
    ensures var e, at := events[0].event, events[0].at;
      var pick := PingedBy(ch, e, at);
      PingedUntil(PingLog(ChannelStep(ch, e, at, setup), events[1..], setup), x, limit)
      || (pick == Some(x) && at <= limit)
      ==> PingedUntil(PingLog(ch, events, setup), x, limit)
  {
    hide ChannelStep, PingedBy, PingedUntil;
    var e, at := events[0].event, events[0].at;
    var n, pick := ChannelStep(ch, e, at, setup), PingedBy(ch, e, at);
    var r := if pick.Some? then Some(PingRecord(pick.value, at, n.pingInterval)) else None;
    var rest := PingLog(n, events[1..], setup);
    if PingedUntil(rest, x, limit) || (pick == Some(x) && at <= limit) {
      PingedLater(r, rest, x, limit);
      assert PingLog(ch, events, setup) == (if r.Some? then [r.value] else []) + rest;
    }
  }

  /** An overdue connection is pinged before its turns and time are used up. */
  lemma {:induction false} OverdueIsPinged(ch: Chan, tick: int, now: int, events: seq<Timed<ChannelEvent>>,
                                           setup: Setup, s: Id, x: Id, rested: bool, late: nat, limit: int)
    requires ChannelTheorems.Inv(ch, now) && ClockRuns(now, events) && Held(ch, events, setup, s)
    requires s in ch.conns && x in ch.conns && x != s && HasCredentials(ch.conns[x])
    requires Ticking(ch, tick, now, late) && Waiting(ch, tick, s, x, rested, late) && late <= 185
    requires OnTime(ch, tick, events, setup, late) && now >= ch.conns[x].lastPingSent + 2500
    requires NextBy(ch, tick, late) + Budget(ch.conns, s, x, rested) * Turn(late) <= limit
    ensures PingedUntil(PingLog(ch, events, setup), x, limit) || EndTime(now, events) <= limit
    decreases events
  {
    hide ChannelTheorems.Inv, ChannelStep, CheckAndPing, TickPick, HandsOver, HasCredentials, Budget, PingedUntil,
      PingLog, Core, Summarised, ConnectionsInv, Wf, Waiting, RestedAfter;
    if events == [] {
      BudgetIsPositive(ch.conns, s, x, rested, late);
    } else {
      var e, at := events[0].event, events[0].at;
      var n := ChannelStep(ch, e, at, setup);
      HeldStep(ch, events, setup, s);
      InvParts(ch, now);
      StepKeepsInvIff(ch, e, now, at, setup);
      LogOfStep(ch, events, setup, x, limit);
      if e.Tick? {
        TickIs(ch, e, at, setup);
        OverdueStep(ch, e.pingId, tick, now, at, s, x, rested, late);
        var pick := TickPick(ch, at);
        if pick == Some(x) {
          BudgetIsPositive(ch.conns, s, x, rested, late);
        } else {
          OverdueIsPinged(n, at, at, events[1..], setup, s, x, RestedAfter(ch, s, rested, pick), late, limit);
        }
      } else {
        OverdueOther(ch, e, tick, now, at, setup, s, x, rested, late);
        OverdueIsPinged(n, tick, at, events[1..], setup, s, x, rested, late, limit);
      }
    }
  }

  lemma TickIs(ch: Chan, e: ChannelEvent, now: int, setup: Setup)
    requires Wf(ch) && e.Tick? && ch.started
    ensures ChannelStep(ch, e, now, setup) == CheckAndPing(ch, e.pingId, now)
    ensures PingedBy(ch, e, now) == TickPick(ch, now)
  {
  }

  lemma BudgetIsPositive(table: Table, s: Id, x: Id, rested: bool, late: nat)
    requires s in table && x in table
    ensures Budget(table, s, x, rested) * Turn(late) >= 0
  {
    hide Budget;
  }

  lemma SelectionExists(ch: Chan, now: int, s: Id)
    requires ChannelTheorems.Inv(ch, now) && ch.selected == Some(s)
    ensures s in ch.conns
  {
  }

  lemma LaterInv(ch: Chan, now: int, later: int)
    requires ChannelTheorems.Inv(ch, now) && now <= later
    ensures ChannelTheorems.Inv(ch, later)
  {
    hide Core, Summarised, ConnectionsInv;
    LaterConnections(ch, now, later);
  }

  /** A tick before `x` is overdue. */
  lemma AnyTick(ch: Chan, pingId: seq<byte>, tick: int, before: int, now: int, x: Id, late: nat)
    requires Core(ch) && Summarised(ch) && x in ch.conns && HasCredentials(ch.conns[x])
    requires Ticking(ch, tick, before, late) && before <= now
    ensures var n := CheckAndPing(ch, pingId, now);
      && Ticking(n, now, now, late) && n.conns.Keys == ch.conns.Keys && HasCredentials(n.conns[x])
      && (TickPick(ch, now) != Some(x) ==> n.conns[x].lastPingSent == ch.conns[x].lastPingSent)
  {
    hide Core, Summarised, CheckAndPing, TickPick, HasCredentials;
    TickTurns(ch, pingId, now);
    TickTimes(ch, pingId, now);
    ChannelSilence.TickStaysStarted(ch, pingId, now);
  }

  /** The end of twice as many turns as there are connections, plus four. */
  function LastTurn(due: int, connections: nat, late: nat): int {
    due + (2 * connections + 4) * Turn(late)
  }

  /** The limit holds whatever the turns are when `x` becomes overdue. */
  lemma EnoughTurns(ch: Chan, tick: int, due: int, s: Id, x: Id, late: nat)
    requires s in ch.conns && x in ch.conns && x != s && tick <= due
    ensures NextBy(ch, tick, late) + Budget(ch.conns, s, x, true) * Turn(late)
         <= LastTurn(due, |ch.conns|, late)
  {
    BudgetBound(ch.conns, s, x, true);
    hide Budget;
    Times(Budget(ch.conns, s, x, true), 2 * |ch.conns| + 4, Turn(late));
  }

  /** Behind a selection that stays, every connection whose peer's credentials are known is pinged: at the
      latest 2500 ms after its last ping and then within twice as many turns as there are connections, plus
      four. A turn is one period of each of the two intervals with the timer's lateness. */
  lemma {:induction false} NobodyStarves(ch: Chan, tick: int, now: int, events: seq<Timed<ChannelEvent>>, setup: Setup,
                                         s: Id, x: Id, late: nat, due: int)
    requires ChannelTheorems.Inv(ch, now) && ClockRuns(now, events) && Held(ch, events, setup, s)
    requires x in ch.conns && x != s && HasCredentials(ch.conns[x])
    requires Ticking(ch, tick, now, late) && OnTime(ch, tick, events, setup, late) && late <= 185
    requires due >= now && due >= ch.conns[x].lastPingSent + 2500
    ensures var limit := LastTurn(due, |ch.conns|, late);
      PingedUntil(PingLog(ch, events, setup), x, limit) || EndTime(now, events) <= limit
    decreases events
  {
    hide ChannelTheorems.Inv, ChannelStep, CheckAndPing, TickPick, HandsOver, HasCredentials, Budget, PingedUntil,
      LastTurn, Turn, PingLog, Core, Summarised, ConnectionsInv, NextBy, Wf, PingedBy;
    var limit := LastTurn(due, |ch.conns|, late);
    TurnsTakeTime(due, |ch.conns|, late);
    if events == [] {
    } else {
      var e, at := events[0].event, events[0].at;
      var n := ChannelStep(ch, e, at, setup);
      HeldStep(ch, events, setup, s);
      InvParts(ch, now);
      if at >= due {
        SelectionExists(ch, now, s);
        LaterInv(ch, now, due);
        EnoughTurns(ch, tick, due, s, x, late);
        OverdueIsPinged(ch, tick, due, events, setup, s, x, true, late, limit);
      } else {
        StepKeepsInvIff(ch, e, now, at, setup);
        LogOfStep(ch, events, setup, x, limit);
        AnyStep(ch, e, tick, now, at, setup, x, late);
        if PingedBy(ch, e, at) != Some(x) {
          NobodyStarves(n, if e.Tick? then at else tick, at, events[1..], setup, s, x, late, due);
        }
      }
    }
  }

  /** A step before `x` is overdue. */
  lemma AnyStep(ch: Chan, e: ChannelEvent, tick: int, before: int, now: int, setup: Setup, x: Id, late: nat)
    requires ChannelTheorems.Inv(ch, before) && x in ch.conns && HasCredentials(ch.conns[x])
    requires NoneComesOrGoes(ch, e)
    requires Ticking(ch, tick, before, late) && before <= now <= tick + ch.pingInterval + late
    ensures var n := ChannelStep(ch, e, now, setup);
      && Ticking(n, if e.Tick? then now else tick, now, late) && |n.conns| == |ch.conns|
      && x in n.conns && HasCredentials(n.conns[x])
      && (PingedBy(ch, e, now) != Some(x) ==> n.conns[x].lastPingSent == ch.conns[x].lastPingSent)
  {
    hide ChannelStep, CheckAndPing, TickPick, HasCredentials, Core, Summarised, ConnectionsInv;
    InvMeansWf(ch, before);
    var n := ChannelStep(ch, e, now, setup);
    if e.Tick? {
      TickIs(ch, e, now, setup);
      AnyTick(ch, e.pingId, tick, before, now, x, late);
    } else {
      OtherStepsKeepTurns(ch, e, now, setup);
    }
    SameCount(ch.conns, n.conns);
  }

  lemma TurnsTakeTime(due: int, connections: nat, late: nat)
    ensures LastTurn(due, connections, late) >= due
  {
    hide Turn;
  }

  lemma SameCount(a: Table, b: Table)
    requires a.Keys == b.Keys
    ensures |a| == |b|
  {
    assert |a| == |a.Keys| && |b| == |b.Keys|;
  }
}
