/** What every step and every run of a channel keeps. */
module ChannelTheorems {
  import opened Base
  import opened ConnectionState
  import opened ConnectionRank
  import opened ChannelState

  // ---- The invariant ----

  /** The controller's containers describe the same connections, each once, and both sides agree on the
      selected one, which alone carries the flag. */
  ghost predicate Core(ch: Chan): (b: bool)
    ensures b ==> Wf(ch)
  {
    && Wf(ch)
    && NoDuplicates(ch.order)
    && (forall id :: id in ch.conns <==> id in ch.order)
    && ch.pinged !! ch.unpinged && ch.pinged + ch.unpinged == ch.conns.Keys
    && ch.ctlSelected == ch.selected
    && (forall id :: id in ch.conns ==> (ch.conns[id].selected <==> ch.selected == Some(id)))
    && (ch.started <==> ch.timer.Some?) && (ch.timer.Some? ==> ch.timer.value == ch.pingInterval * 1000)
  }

  /** The cached flags say what the connections say. */
  ghost predicate Summarised(ch: Chan)
    requires Wf(ch)
  {
    && (ch.writable <==> ch.selected.Some? && Writable(ch.conns[ch.selected.value]))
    && (ch.receiving <==> exists i :: 0 <= i < |ch.order| && ch.conns[ch.order[i]].receiving)
  }

  /** Every connection is in a state its own history allows, and no ping is later than the channel's last. */
  ghost predicate ConnectionsInv(ch: Chan, now: int) {
    && 0 <= ch.lastPingSent <= now
    && forall id :: id in ch.conns ==>
         ConnectionState.Inv(ch.conns[id], now) && ch.conns[id].lastPingSent <= ch.lastPingSent
  }

  ghost predicate Inv(ch: Chan, now: int) {
    Core(ch) && Summarised(ch) && ConnectionsInv(ch, now)
  }

  // ---- Re-sorting restores the summary and keeps the rest ----

  lemma PermutationKeepsMembers(xs: seq<Id>, ys: seq<Id>)
    requires multiset(xs) == multiset(ys) && NoDuplicates(xs)
    ensures NoDuplicates(ys) && forall id :: id in xs <==> id in ys
  {
    forall i, j | 0 <= i < j < |ys|
      ensures ys[i] != ys[j]
    {
      if ys[i] == ys[j] {
        TwiceCounts(ys, i, j);
        OnceCounts(xs, ys[i]);
      }
    }
    assert forall id :: id in xs <==> id in multiset(xs);
    assert forall id :: id in ys <==> id in multiset(ys);
  }

  lemma TwiceCounts(ys: seq<Id>, i: nat, j: nat)
    requires i < j < |ys| && ys[i] == ys[j]
    ensures multiset(ys)[ys[i]] >= 2
  {
    assert ys == ys[..j] + [ys[j]] + ys[j + 1..];
    assert ys[i] in multiset(ys[..j]) by { assert ys[..j][i] == ys[i]; }
  }

  lemma {:induction false} OnceCounts(xs: seq<Id>, x: Id)
    requires NoDuplicates(xs)
    ensures multiset(xs)[x] <= 1
  {
    if xs == [] {
    } else {
      assert xs == [xs[0]] + xs[1..];
      OnceCounts(xs[1..], x);
      assert xs[0] !in xs[1..];
      assert x == xs[0] ==> x !in multiset(xs[1..]);
    }
  }

  lemma SwitchKeepsCore(ch: Chan, target: Option<Id>)
    requires Core(ch) && (target.Some? ==> target.value in ch.conns)
    ensures Core(Switch(ch, target))
  {
  }

  lemma SortKeepsCore(ch: Chan)
    requires Core(ch)
    ensures Core(SortVector(ch))
  {
    hide StableSort;
    PermutationKeepsMembers(ch.order, StableSort(ch.conns, ch.order));
  }

  lemma SummariseKeepsCore(ch: Chan)
    requires Core(ch)
    ensures Core(Summarise(ch)) && Summarised(Summarise(ch))
  {
  }

  lemma StartKeepsCore(ch: Chan, now: int)
    requires Core(ch) && Summarised(ch)
    ensures Core(MaybeStartPinging(ch, now)) && Summarised(MaybeStartPinging(ch, now))
  {
    hide HasPingable;
  }

  lemma ResortKeepsCore(ch: Chan, now: int)
    requires Core(ch)
    ensures Core(Resort(ch, now)) && Summarised(Resort(ch, now))
  {
    hide SortVector, Switch, SwitchTarget, Summarise, MaybeStartPinging, Core, Summarised;
    SortKeepsCore(ch);
    SwitchTargetExists(SortVector(ch));
    SwitchKeepsCore(SortVector(ch), SwitchTarget(SortVector(ch)));
    var t := Switch(SortVector(ch), SwitchTarget(SortVector(ch)));
    SummariseKeepsCore(t);
    StartKeepsCore(Summarise(t), now);
  }

  // ---- One connection changes ----

  lemma ReplaceKeepsCore(ch: Chan, id: Id, c: Conn)
    requires Core(ch) && id in ch.conns && c.selected == ch.conns[id].selected
    ensures Core(ch.(conns := ch.conns[id := c]))
  {
  }

  lemma ReplaceKeepsSummary(ch: Chan, id: Id, c: Conn)
    requires Core(ch) && Summarised(ch) && id in ch.conns
    requires c.writeState == ch.conns[id].writeState && c.receiving == ch.conns[id].receiving
    ensures Wf(ch.(conns := ch.conns[id := c])) && Summarised(ch.(conns := ch.conns[id := c]))
  {
    var n := ch.(conns := ch.conns[id := c]);
    assert forall i :: 0 <= i < |ch.order| ==> n.conns[ch.order[i]].receiving == ch.conns[ch.order[i]].receiving;
  }

  lemma TouchKeeps(ch: Chan, id: Id, c: Conn, now: int)
    requires Core(ch) && Summarised(ch) && id in ch.conns && c.selected == ch.conns[id].selected
    ensures Core(Touch(ch, id, c, now)) && Summarised(Touch(ch, id, c, now))
  {
    hide Core, Summarised, Resort;
    ReplaceKeepsCore(ch, id, c);
    if c.writeState == ch.conns[id].writeState && c.receiving == ch.conns[id].receiving {
      ReplaceKeepsSummary(ch, id, c);
    } else {
      ResortKeepsCore(ch.(conns := ch.conns[id := c]), now);
    }
  }

  lemma UpdateConnectionKeeps(ch: Chan, id: Id, now: int)
    requires Core(ch) && Summarised(ch) && id in ch.conns
    ensures Core(UpdateConnection(ch, id, now)) && Summarised(UpdateConnection(ch, id, now))
  {
    hide Core, Summarised, Touch;
    var a := Touch(ch, id, Degrade(ch.conns[id], now), now);
    TouchKeeps(ch, id, Degrade(ch.conns[id], now), now);
    var b := Touch(a, id, Expire(a.conns[id], now), now);
    TouchKeeps(a, id, Expire(a.conns[id], now), now);
    TouchKeeps(b, id, UpdateReceiving(b.conns[id], now), now);
  }

  lemma {:induction false} UpdateConnectionsKeeps(ch: Chan, ids: seq<Id>, now: int)
    requires Core(ch) && Summarised(ch) && AllIn(ch.conns, ids)
    ensures Core(UpdateConnections(ch, ids, now)) && Summarised(UpdateConnections(ch, ids, now))
    decreases |ids|
  {
    hide Core, Summarised, UpdateConnection;
    if ids == [] {
    } else {
      UpdateConnectionKeeps(ch, ids[0], now);
      UpdateConnectionsKeeps(UpdateConnection(ch, ids[0], now), ids[1..], now);
    }
  }

  // ---- A timer tick ----

  lemma MergeKeeps(ch: Chan)
    requires Core(ch) && Summarised(ch)
    ensures Core(MergeSets(ch)) && Summarised(MergeSets(ch))
  {
  }

  lemma PingKeeps(ch: Chan, id: Id, pingId: seq<byte>, now: int)
    requires Core(ch) && Summarised(ch) && id in ch.conns
    ensures Core(PingConnection(ch, id, pingId, now)) && Summarised(PingConnection(ch, id, pingId, now))
  {
    var n := ch.(conns := ch.conns[id := Ping(ch.conns[id], pingId, now)]);
    ReplaceKeepsCore(ch, id, Ping(ch.conns[id], pingId, now));
    ReplaceKeepsSummary(ch, id, Ping(ch.conns[id], pingId, now));
    MarkKeeps(n.(lastPingSent := now), id);
  }

  lemma MarkKeeps(ch: Chan, id: Id)
    requires Core(ch) && Summarised(ch) && id in ch.conns
    ensures Core(MarkPinged(ch, id)) && Summarised(MarkPinged(ch, id))
  {
  }

  lemma SetIntervalKeeps(ch: Chan, interval: int)
    requires Core(ch) && Summarised(ch) && ch.started
    ensures Core(SetInterval(ch, interval)) && Summarised(SetInterval(ch, interval))
  {
  }

  /** The scheduler changes the two sets only, and what it picks exists. */
  lemma SelectionShape(ch: Chan, last: int, now: int)
    requires Core(ch)
    ensures var s := SelectConnectionToPing(ch, last, now);
      && (s.ch == ch || s.ch == MergeSets(ch)) && s.interval == PingInterval(ch)
      && (s.pick.Some? ==> s.pick.value in ch.conns)
  {
  }

  /** The clock of the pings is left alone, and a timer that runs keeps its period. */
  ghost predicate SameClock(a: Chan, b: Chan) {
    && a.lastPingSent == b.lastPingSent && a.pingInterval == b.pingInterval && a.remotePwd == b.remotePwd
    && (a.started ==> b.started && b.timer == a.timer)
  }

  lemma ResortKeepsClock(ch: Chan, now: int)
    requires Wf(ch)
    ensures SameClock(ch, Resort(ch, now))
  {
    hide StableSort, SwitchTarget, HasPingable, SetSelected;
    SwitchTargetExists(SortVector(ch));
    hide Wf;
  }

  lemma TouchKeepsClock(ch: Chan, id: Id, c: Conn, now: int)
    requires Wf(ch) && id in ch.conns
    ensures SameClock(ch, Touch(ch, id, c, now))
  {
    hide Wf, Resort;
    ReplacedIsWf(ch, id, c);
    ResortKeepsClock(ch.(conns := ch.conns[id := c]), now);
  }

  lemma ReplacedIsWf(ch: Chan, id: Id, c: Conn)
    requires Wf(ch) && id in ch.conns
    ensures Wf(ch.(conns := ch.conns[id := c]))
  {
  }

  lemma {:induction false} UpdatesKeepClock(ch: Chan, ids: seq<Id>, now: int)
    requires Wf(ch) && AllIn(ch.conns, ids)
    ensures SameClock(ch, UpdateConnections(ch, ids, now))
    decreases |ids|
  {
    hide Wf, Touch, Degrade, Expire, UpdateReceiving;
    if ids == [] {
    } else {
      var id := ids[0];
      var a := Touch(ch, id, Degrade(ch.conns[id], now), now);
      var b := Touch(a, id, Expire(a.conns[id], now), now);
      TouchKeepsClock(ch, id, Degrade(ch.conns[id], now), now);
      TouchKeepsClock(a, id, Expire(a.conns[id], now), now);
      TouchKeepsClock(b, id, UpdateReceiving(b.conns[id], now), now);
      UpdatesKeepClock(UpdateConnection(ch, id, now), ids[1..], now);
    }
  }

  /** `n` is `u` after a ping of `pick`, if any, apart from the ping sets and the timer. */
  ghost predicate PingedFrom(u: Chan, n: Chan, pick: Option<Id>, pingId: seq<byte>, now: int) {
    && n.selected == u.selected && n.started == u.started
    && match pick
       case None => n.conns == u.conns && n.lastPingSent == u.lastPingSent
       case Some(p) => p in u.conns && n.conns == u.conns[p := Ping(u.conns[p], pingId, now)] && n.lastPingSent == now
  }

  lemma AfterSelection(u: Chan, s: Selection, pingId: seq<byte>, now: int)
    requires Wf(s.ch) && (s.pick.Some? ==> s.pick.value in s.ch.conns) && (s.ch == u || s.ch == MergeSets(u))
    ensures PingedFrom(u, SetInterval(if s.pick.Some? then PingConnection(s.ch, s.pick.value, pingId, now) else s.ch,
                                      s.interval), s.pick, pingId, now)
  {
    hide Wf, Ping;
  }

  /** What a tick leaves of the updated channel. */
  lemma TickShape(ch: Chan, pingId: seq<byte>, now: int)
    requires Core(ch) && Summarised(ch)
    ensures var u := UpdateConnections(ch, ch.order, now);
      PingedFrom(u, CheckAndPing(ch, pingId, now),
                 SelectConnectionToPing(u, u.lastPingSent - PING_INTERVAL_DIFF, now).pick, pingId, now)
  {
    hide Core, Summarised, UpdateConnections, SelectConnectionToPing, PingInterval, PingConnection, SetInterval,
      PingedFrom;
    var u := UpdateConnections(ch, ch.order, now);
    UpdateConnectionsKeeps(ch, ch.order, now);
    SelectionShape(u, u.lastPingSent - PING_INTERVAL_DIFF, now);
    MergedIsWf(u);
    AfterSelection(u, SelectConnectionToPing(u, u.lastPingSent - PING_INTERVAL_DIFF, now), pingId, now);
  }

  lemma TickKeeps(ch: Chan, pingId: seq<byte>, now: int)
    requires Core(ch) && Summarised(ch) && ch.started
    ensures Core(CheckAndPing(ch, pingId, now)) && Summarised(CheckAndPing(ch, pingId, now))
  {
    hide Core, Summarised, UpdateConnections, SelectConnectionToPing, PingConnection, SetInterval, MergeSets;
    var updated := UpdateConnections(ch, ch.order, now);
    UpdateConnectionsKeeps(ch, ch.order, now);
    UpdatesKeepClock(ch, ch.order, now);
    var s := SelectConnectionToPing(updated, updated.lastPingSent - PING_INTERVAL_DIFF, now);
    SelectionShape(updated, updated.lastPingSent - PING_INTERVAL_DIFF, now);
    MergeKeeps(updated);
    MergeStaysStarted(updated);
    if s.pick.Some? {
      PingKeeps(s.ch, s.pick.value, pingId, now);
      PingStaysStarted(s.ch, s.pick.value, pingId, now);
      SetIntervalKeeps(PingConnection(s.ch, s.pick.value, pingId, now), s.interval);
    } else {
      SetIntervalKeeps(s.ch, s.interval);
    }
  }

  lemma MergeStaysStarted(ch: Chan)
    ensures MergeSets(ch) == ch.(unpinged := MergeSets(ch).unpinged, pinged := {})
  {
  }

  lemma PingStaysStarted(ch: Chan, id: Id, pingId: seq<byte>, now: int)
    requires Wf(ch) && id in ch.conns
    ensures PingConnection(ch, id, pingId, now).started == ch.started
  {
  }

  // ---- The other steps ----

  lemma ResponseKeeps(ch: Chan, id: Id, rtt: int, now: int, average: Average)
    requires Core(ch) && Summarised(ch) && id in ch.conns
    ensures Core(PingResponse(ch, id, rtt, now, average)) && Summarised(PingResponse(ch, id, rtt, now, average))
  {
    hide Core, Summarised, Touch;
    var noted := NoteResponse(ch.conns[id], rtt, now, average);
    ReplaceKeepsCore(ch, id, noted);
    ReplaceKeepsSummary(ch, id, noted);
    var a := ch.(conns := ch.conns[id := noted]);
    TouchKeeps(a, id, UpdateReceiving(a.conns[id], now), now);
    var b := Touch(a, id, UpdateReceiving(a.conns[id], now), now);
    TouchKeeps(b, id, b.conns[id].(writeState := StateWritable), now);
    var c := Touch(b, id, b.conns[id].(writeState := StateWritable), now);
    ReplaceKeepsCore(c, id, c.conns[id].(state := Succeeded));
    ReplaceKeepsSummary(c, id, c.conns[id].(state := Succeeded));
  }

  lemma AddKeeps(ch: Chan, id: Id, user: seq<byte>, localPriority: u32, remotePriority: u32, now: int)
    requires Core(ch) && id !in ch.conns
    ensures var n := AddConnection(ch, id, user, localPriority, remotePriority, now); Core(n) && Summarised(n)
  {
    hide Resort;
    var added := ch.(conns := ch.conns[id := NewConn(user, ch.remotePwd, localPriority, remotePriority)],
                     order := ch.order + [id], unpinged := ch.unpinged + {id});
    assert Core(added);
    ResortKeepsCore(added, now);
  }

  lemma RemoteParamsKeeps(ch: Chan, user: seq<byte>, pwd: seq<byte>, now: int)
    requires Core(ch)
    ensures Core(SetRemoteParams(ch, user, pwd, now)) && Summarised(SetRemoteParams(ch, user, pwd, now))
  {
    hide Resort;
    var n := ch.(remotePwd := pwd, conns := GiveRemoteParams(ch.conns, ch.order, user, pwd));
    assert Core(n);
    ResortKeepsCore(n, now);
  }
}
