/** A transport channel with its controller as one value: the ping scheduler, the selection and the
    summary flags, stepped by timer ticks, packets and connection changes. */
module ChannelState {
  import opened Base
  import opened ConnectionState
  import opened ConnectionRank

  const MIN_IMPROVEMENT := 10
  const PING_INTERVAL_DIFF := 5

  /** `ctlSelected` is the controller's selection, `selected` the channel's own; `order` is the
      controller's vector. The timer holds its period in microseconds once it runs. `faulted` is set when a
      null pointer is followed. */
  datatype Chan = Chan(conns: Table, order: seq<Id>, unpinged: set<Id>, pinged: set<Id>,
                       ctlSelected: Option<Id>, selected: Option<Id>, writable: bool, receiving: bool,
                       lastPingSent: int, pingInterval: int, started: bool, timer: Option<int>,
                       remotePwd: seq<byte>, faulted: bool)

  function NewChan(): Chan {
    Chan(map[], [], {}, {}, None, None, false, false, 0, WEAK_PING_INTERVAL, false, None, [], false)
  }

  /** Every pointer leads to a connection that exists, and none was followed that does not. */
  predicate Wf(ch: Chan) {
    && !ch.faulted
    && AllIn(ch.conns, ch.order)
    && (ch.ctlSelected.Some? ==> ch.ctlSelected.value in ch.conns)
    && (ch.selected.Some? ==> ch.selected.value in ch.conns)
    && ch.unpinged <= ch.conns.Keys && ch.pinged <= ch.conns.Keys
  }

  // ---- The controller's ping scheduler ----

  predicate ControllerWeak(ch: Chan)
    requires Wf(ch)
  {
    ch.ctlSelected.None? || Weak(ch.conns[ch.ctlSelected.value])
  }

  function ConnectionPingInterval(weak: bool, c: Conn, now: int): int {
    if c.numPingsSent < MIN_PINGS_AT_WEAK_PING_INTERVAL then WEAK_PING_INTERVAL
    else if weak || !Stable(c, now) then STABLING_CONNECTION_PING_INTERVAL
    else STABLE_CONNECTION_PING_INTERVAL
  }

  predicate PastPingInterval(weak: bool, c: Conn, now: int) {
    now >= c.lastPingSent + ConnectionPingInterval(weak, c, now)
  }

  predicate HasCredentials(c: Conn) {
    c.remoteUser != [] && c.remotePwd != []
  }

  predicate Pingable(weak: bool, c: Conn, now: int) {
    HasCredentials(c) && (weak || PastPingInterval(weak, c, now))
  }

  /** The interval of the whole channel: short while the selection is weak or some connection is young. */
  function PingInterval(ch: Chan): int
    requires Wf(ch)
  {
    if ControllerWeak(ch)
       || exists i :: 0 <= i < |ch.order| && ch.conns[ch.order[i]].numPingsSent < MIN_PINGS_AT_WEAK_PING_INTERVAL
    then WEAK_PING_INTERVAL
    else STRONG_PING_INTERVAL
  }

  /** The outcome of the walk over `ids` in address order: the first among the pingable connections that
      were pinged longest ago; None if none is pingable. */
  ghost predicate IsPick(table: Table, weak: bool, ids: set<Id>, now: int, r: Option<Id>)
    requires ids <= table.Keys
  {
    match r
    case None => forall id :: id in ids ==> !Pingable(weak, table[id], now)
    case Some(p) =>
      && p in ids && Pingable(weak, table[p], now)
      && forall id :: id in ids && Pingable(weak, table[id], now) ==>
           table[p].lastPingSent < table[id].lastPingSent
           || (table[p].lastPingSent == table[id].lastPingSent && p <= id)
  }

  lemma {:induction false} PickExists(table: Table, weak: bool, ids: set<Id>, now: int)
    requires ids <= table.Keys
    ensures exists r :: IsPick(table, weak, ids, now, r)
  {
    if ids == {} {
      assert IsPick(table, weak, ids, now, None);
    } else {
      var x :| x in ids;
      PickExists(table, weak, ids - {x}, now);
      var r :| IsPick(table, weak, ids - {x}, now, r);
      if Pingable(weak, table[x], now)
         && (r.None? || table[x].lastPingSent < table[r.value].lastPingSent
             || (table[x].lastPingSent == table[r.value].lastPingSent && x < r.value)) {
        assert IsPick(table, weak, ids, now, Some(x));
      } else {
        assert IsPick(table, weak, ids, now, r);
      }
    }
  }

  lemma PickUnique(table: Table, weak: bool, ids: set<Id>, now: int, r: Option<Id>, s: Option<Id>)
    requires ids <= table.Keys && IsPick(table, weak, ids, now, r) && IsPick(table, weak, ids, now, s)
    ensures r == s
  {
  }

  ghost function Pick(table: Table, weak: bool, ids: set<Id>, now: int): (r: Option<Id>)
    requires ids <= table.Keys
    ensures IsPick(table, weak, ids, now, r)
  {
    PickExists(table, weak, ids, now);
    var r :| IsPick(table, weak, ids, now, r);
    r
  }

  ghost predicate PingsSelectedFirst(ch: Chan, now: int)
    requires Wf(ch)
  {
    && ch.ctlSelected.Some?
    && var c := ch.conns[ch.ctlSelected.value];
    && Writable(c) && PastPingInterval(ControllerWeak(ch), c, now)
  }

  /** The flag that would keep the two sets apart is never set: the pinged set always flows back. */
  function MergeSets(ch: Chan): Chan {
    ch.(unpinged := ch.unpinged + ch.pinged, pinged := {})
  }

  datatype Selection = Selection(ch: Chan, pick: Option<Id>, interval: int)

  ghost function FindNextPingable(ch: Chan, now: int): Selection
    requires Wf(ch)
  {
    if PingsSelectedFirst(ch, now) then Selection(ch, ch.ctlSelected, PingInterval(ch))
    else
      var m := MergeSets(ch);
      Selection(m, Pick(m.conns, ControllerWeak(m), m.unpinged, now), PingInterval(ch))
  }

  ghost function SelectConnectionToPing(ch: Chan, lastPingSent: int, now: int): Selection
    requires Wf(ch)
  {
    if now >= lastPingSent + PingInterval(ch) then FindNextPingable(ch, now)
    else Selection(ch, None, PingInterval(ch))
  }

  function MarkPinged(ch: Chan, id: Id): Chan {
    if id in ch.pinged then ch else ch.(pinged := ch.pinged + {id}, unpinged := ch.unpinged - {id})
  }

  // ---- The controller's sort and switch ----

  predicate ReadyToSend(c: Conn) {
    Writable(c) || c.writeState == StateUnreliable
  }

  function SortVector(ch: Chan): Chan
    requires Wf(ch)
  {
    ch.(order := StableSort(ch.conns, ch.order))
  }

  /** The connection to switch to, judged on the sorted vector. */
  function SwitchTarget(ch: Chan): Option<Id>
    requires Wf(ch)
  {
    if ch.order == [] then None
    else
      var top := ch.order[0];
      if !ReadyToSend(ch.conns[top]) || ch.ctlSelected == Some(top) then None
      else if ch.ctlSelected.None? then Some(top)
      else if ch.conns[top].rtt <= ch.conns[ch.ctlSelected.value].rtt - MIN_IMPROVEMENT then Some(top)
      else None
  }

  lemma SwitchTargetExists(ch: Chan)
    requires Wf(ch)
    ensures SwitchTarget(ch).Some? ==> SwitchTarget(ch).value in ch.conns
  {
  }

  // ---- The channel ----

  function SetSelected(table: Table, id: Option<Id>, on: bool): (t: Table)
    requires id.Some? ==> id.value in table
    ensures t.Keys == table.Keys
  {
    if id.None? then table else table[id.value := table[id.value].(selected := on)]
  }

  function Switch(ch: Chan, target: Option<Id>): Chan
    requires Wf(ch) && (target.Some? ==> target.value in ch.conns)
  {
    if target.None? then ch
    else ch.(conns := SetSelected(SetSelected(ch.conns, ch.selected, false), target, true),
             selected := target, ctlSelected := target)
  }

  lemma SwitchNowhere(ch: Chan)
    requires Wf(ch)
    ensures Switch(ch, None) == ch
  {
  }

  predicate AnyReceiving(table: Table, ids: seq<Id>)
    requires AllIn(table, ids)
  {
    exists i :: 0 <= i < |ids| && table[ids[i]].receiving
  }

  function Summarise(ch: Chan): Chan
    requires Wf(ch)
  {
    ch.(writable := ch.selected.Some? && Writable(ch.conns[ch.selected.value]),
        receiving := AnyReceiving(ch.conns, ch.order))
  }

  predicate HasPingable(ch: Chan, now: int)
    requires Wf(ch)
  {
    exists i :: 0 <= i < |ch.order| && Pingable(ControllerWeak(ch), ch.conns[ch.order[i]], now)
  }

  function MaybeStartPinging(ch: Chan, now: int): Chan
    requires Wf(ch)
  {
    if !ch.started && HasPingable(ch, now)
    then ch.(started := true, timer := Some(ch.pingInterval * 1000))
    else ch
  }

  /** The controller looks at the connections, their order and its own selection only. */
  ghost predicate SameController(a: Chan, b: Chan) {
    a.conns == b.conns && a.order == b.order && a.ctlSelected == b.ctlSelected
  }

  lemma SameForSorting(a: Chan, b: Chan)
    requires Wf(a) && Wf(b) && SameController(a, b)
    ensures SortVector(a).order == SortVector(b).order && SwitchTarget(a) == SwitchTarget(b)
  {
    hide StableSort;
  }

  lemma SameForPinging(a: Chan, b: Chan, now: int)
    requires Wf(a) && Wf(b) && SameController(a, b)
    ensures HasPingable(a, now) == HasPingable(b, now)
  {
  }

  lemma SameInterval(a: Chan, b: Chan)
    requires Wf(a) && Wf(b) && SameController(a, b)
    ensures PingInterval(a) == PingInterval(b)
  {
  }

  lemma SameFirst(a: Chan, b: Chan, now: int)
    requires Wf(a) && Wf(b) && SameController(a, b)
    ensures PingsSelectedFirst(a, now) == PingsSelectedFirst(b, now) && ControllerWeak(a) == ControllerWeak(b)
  {
    hide PastPingInterval;
  }

  lemma SameFind(a: Chan, b: Chan, now: int)
    requires Wf(a) && Wf(b) && SameController(a, b) && a.unpinged == b.unpinged && a.pinged == b.pinged
    ensures var s, t := FindNextPingable(a, now), FindNextPingable(b, now);
      && s.pick == t.pick && s.interval == PingInterval(a) && t.interval == PingInterval(b)
      && (s.pick.Some? ==> s.pick.value in a.conns)
      && t.ch == b.(unpinged := s.ch.unpinged, pinged := s.ch.pinged)
      && s.ch == a.(unpinged := s.ch.unpinged, pinged := s.ch.pinged)
  {
    SameFirst(a, b, now);
    MergedIsWf(a);
    MergedIsWf(b);
    SameFirst(MergeSets(a), MergeSets(b), now);
    hide Pingable, PingInterval, PastPingInterval, Pick, ControllerWeak;
  }

  /** The scheduler looks at the same and its two sets, and changes nothing but these. */
  lemma SameForSelection(a: Chan, b: Chan, lastPingSent: int, now: int)
    requires Wf(a) && Wf(b) && SameController(a, b) && a.unpinged == b.unpinged && a.pinged == b.pinged
    ensures var s, t := SelectConnectionToPing(a, lastPingSent, now), SelectConnectionToPing(b, lastPingSent, now);
      && s.pick == t.pick && s.interval == t.interval && (s.pick.Some? ==> s.pick.value in a.conns)
      && t.ch == b.(unpinged := s.ch.unpinged, pinged := s.ch.pinged)
      && s.ch == a.(unpinged := s.ch.unpinged, pinged := s.ch.pinged)
  {
    SameInterval(a, b);
    SameFind(a, b, now);
    hide Wf, FindNextPingable, PingInterval;
  }

  function Resort(ch: Chan, now: int): (r: Chan)
    requires Wf(ch)
    ensures Wf(r) && r.conns.Keys == ch.conns.Keys && multiset(r.order) == multiset(ch.order)
  {
    var sorted := SortVector(ch);
    MaybeStartPinging(Summarise(Switch(sorted, SwitchTarget(sorted))), now)
  }

  /** A connection changes; if its write or receive state does, its signal makes the channel re-sort at once. */
  function Touch(ch: Chan, id: Id, c: Conn, now: int): (r: Chan)
    requires Wf(ch) && id in ch.conns
    ensures Wf(r) && r.conns.Keys == ch.conns.Keys && multiset(r.order) == multiset(ch.order)
  {
    var changed := ch.(conns := ch.conns[id := c]);
    if c.writeState != ch.conns[id].writeState || c.receiving != ch.conns[id].receiving
    then Resort(changed, now)
    else changed
  }

  function UpdateConnection(ch: Chan, id: Id, now: int): (r: Chan)
    requires Wf(ch) && id in ch.conns
    ensures Wf(r) && r.conns.Keys == ch.conns.Keys && multiset(r.order) == multiset(ch.order)
  {
    var a := Touch(ch, id, Degrade(ch.conns[id], now), now);
    var b := Touch(a, id, Expire(a.conns[id], now), now);
    Touch(b, id, UpdateReceiving(b.conns[id], now), now)
  }

  /** All connections of a copy of the vector, taken before the first of them could re-sort it. */
  function UpdateConnections(ch: Chan, ids: seq<Id>, now: int): (r: Chan)
    requires Wf(ch) && AllIn(ch.conns, ids)
    ensures Wf(r) && r.conns.Keys == ch.conns.Keys && multiset(r.order) == multiset(ch.order)
    decreases |ids|
  {
    if ids == [] then ch else UpdateConnections(UpdateConnection(ch, ids[0], now), ids[1..], now)
  }

  ghost function PingConnection(ch: Chan, id: Id, pingId: seq<byte>, now: int): Chan
    requires Wf(ch) && id in ch.conns
  {
    MarkPinged(ch.(lastPingSent := now, conns := ch.conns[id := Ping(ch.conns[id], pingId, now)]), id)
  }

  function SetInterval(ch: Chan, interval: int): Chan {
    if ch.pingInterval != interval then ch.(pingInterval := interval, timer := Some(interval * 1000)) else ch
  }

  ghost function CheckAndPing(ch: Chan, pingId: seq<byte>, now: int): Chan
    requires Wf(ch)
  {
    var updated := UpdateConnections(ch, ch.order, now);
    var s := SelectConnectionToPing(updated, updated.lastPingSent - PING_INTERVAL_DIFF, now);
    SetInterval(if s.pick.Some? then PingConnection(s.ch, s.pick.value, pingId, now) else s.ch, s.interval)
  }

  function PingResponse(ch: Chan, id: Id, rtt: int, now: int, average: Average): (r: Chan)
    requires Wf(ch) && id in ch.conns
    ensures Wf(r) && r.conns.Keys == ch.conns.Keys && multiset(r.order) == multiset(ch.order)
  {
    var a := ch.(conns := ch.conns[id := NoteResponse(ch.conns[id], rtt, now, average)]);
    var b := Touch(a, id, UpdateReceiving(a.conns[id], now), now);
    var c := Touch(b, id, b.conns[id].(writeState := StateWritable), now);
    c.(conns := c.conns[id := c.conns[id].(state := Succeeded)])
  }

  function AddConnection(ch: Chan, id: Id, user: seq<byte>, localPriority: u32, remotePriority: u32, now: int): Chan
    requires Wf(ch) && id !in ch.conns
  {
    Resort(ch.(conns := ch.conns[id := NewConn(user, ch.remotePwd, localPriority, remotePriority)],
               order := ch.order + [id], unpinged := ch.unpinged + {id}), now)
  }

  function GiveRemoteParams(table: Table, ids: seq<Id>, user: seq<byte>, pwd: seq<byte>): (t: Table)
    ensures t.Keys == table.Keys
  {
    map id | id in table :: if id in ids then MaybeSetRemoteParams(table[id], user, pwd) else table[id]
  }

  function SetRemoteParams(ch: Chan, user: seq<byte>, pwd: seq<byte>, now: int): Chan
    requires Wf(ch)
  {
    Resort(ch.(remotePwd := pwd, conns := GiveRemoteParams(ch.conns, ch.order, user, pwd)), now)
  }

  /** The vector without the connection that goes. */
  function Without(ids: seq<Id>, id: Id): (r: seq<Id>)
    ensures forall i :: 0 <= i < |r| ==> r[i] in ids
  {
    if ids == [] then []
    else if ids[0] == id then ids[1..]
    else [ids[0]] + Without(ids[1..], id)
  }

  lemma SortedIsWf(ch: Chan)
    requires Wf(ch)
    ensures Wf(SortVector(ch))
  {
    hide StableSort;
  }

  lemma AddedIsWf(ch: Chan, id: Id, c: Conn)
    requires Wf(ch)
    ensures Wf(ch.(conns := ch.conns[id := c], order := ch.order + [id], unpinged := ch.unpinged + {id}))
  {
  }

  lemma MergedIsWf(ch: Chan)
    requires Wf(ch)
    ensures Wf(MergeSets(ch))
  {
  }

  lemma DroppedIsWf(ch: Chan, id: Id)
    requires Wf(ch)
    ensures Wf(Dropped(ch, id))
  {
    hide Without;
    var rest := Without(ch.order, id);
    assert forall i :: 0 <= i < |rest| ==> rest[i] in ch.order;
  }

  function Dropped(ch: Chan, id: Id): Chan {
    ch.(pinged := ch.pinged - {id}, unpinged := ch.unpinged - {id}, order := Without(ch.order, id))
  }

  /** What is left of a channel whose selected connection goes, before it sorts. */
  function Orphaned(ch: Chan, id: Id): Chan
    requires id in ch.conns
  {
    Dropped(ch, id).(selected := None, conns := SetSelected(ch.conns, Some(id), false))
  }

  function Freed(ch: Chan, id: Id): Chan {
    ch.(conns := ch.conns - {id})
  }

  /** A connection announces its end and is freed afterwards. If it was selected, only the channel drops
      its selection; the controller keeps its own until the next switch. If messages of level INFO are
      formatted, the one about the dropped selection asks a null pointer for its name. */
  function DestroyConnection(ch: Chan, id: Id, now: int, logsInfo: bool): Chan
    requires Wf(ch) && id in ch.conns
  {
    if ch.selected != Some(id) then Freed(Summarise(Dropped(ch, id)), id)
    else if logsInfo then Orphaned(ch, id).(faulted := true)
    else Freed(Resort(Orphaned(ch, id), now), id)
  }
}
