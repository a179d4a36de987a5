/** Transactions: requests by id, and what becomes of each of them. */
module StunRequests {
  import opened Base
  import opened StunBinding

  type TransactionId = seq<byte>

  /** `serial` tells request objects apart that were given the same id. */
  datatype Request = Request(id: TransactionId, kind: int, serial: nat)

  type Requests = map<TransactionId, Request>

  datatype Callback = Callback(request: Request, success: bool)

  datatype Verdict = Unknown | Answered | Rejected | WrongType

  function VerdictOn(m: Requests, id: TransactionId, kind: int): Verdict {
    if id !in m then Unknown
    else if kind == SuccessResponse(m[id].kind) then Answered
    else if kind == ErrorResponse(m[id].kind) then Rejected
    else WrongType
  }

  /** Any response to an outstanding request ends it. */
  function AfterResponse(m: Requests, id: TransactionId): Requests {
    m - {id}
  }

  // ---- Runs ----

  datatype RequestEvent =
    | Send(id: TransactionId, kind: int)
    | Receive(id: TransactionId, kind: int)

  /** The map, the callbacks made so far, and the number of requests created. */
  datatype Manager = Manager(requests: Requests, callbacks: seq<Callback>, created: nat)

  function RequestStep(s: Manager, e: RequestEvent): Manager {
    match e
    case Send(id, kind) =>
      s.(requests := s.requests[id := Request(id, kind, s.created)], created := s.created + 1)
    case Receive(id, kind) =>
      var v := VerdictOn(s.requests, id, kind);
      s.(requests := AfterResponse(s.requests, id),
         callbacks := if v == Answered || v == Rejected then s.callbacks + [Callback(s.requests[id], v == Answered)]
                      else s.callbacks)
  }

  function RequestRun(s: Manager, events: seq<RequestEvent>): Manager
    decreases events
  {
    if events == [] then s else RequestRun(RequestStep(s, events[0]), events[1..])
  }

  // ---- The fate of one request, read off the events alone ----

  datatype Fate = Outstanding | Overwritten | Succeeded | Failed | Discarded

  /** The first later event that carries the request's id decides. */
  function FateOf(r: Request, later: seq<RequestEvent>): Fate
    decreases later
  {
    if later == [] then Outstanding
    else if later[0].id != r.id then FateOf(r, later[1..])
    else if later[0].Send? then Overwritten
    else if later[0].kind == SuccessResponse(r.kind) then Succeeded
    else if later[0].kind == ErrorResponse(r.kind) then Failed
    else Discarded
  }

  /** How often a callback of that kind was made for the request object `serial`. */
  function Calls(callbacks: seq<Callback>, serial: nat, success: bool): nat {
    if callbacks == [] then 0
    else
      var last := callbacks[|callbacks| - 1];
      Calls(callbacks[..|callbacks| - 1], serial, success)
      + if last.request.serial == serial && last.success == success then 1 else 0
  }

  lemma OneMoreCall(callbacks: seq<Callback>, c: Callback, serial: nat, success: bool)
    ensures Calls(callbacks + [c], serial, success)
         == Calls(callbacks, serial, success) + if c.request.serial == serial && c.success == success then 1 else 0
  {
    assert (callbacks + [c])[..|callbacks|] == callbacks;
  }

  /** Each key is its request's id, and every request was created before. */
  ghost predicate KeysMatch(s: Manager) {
    forall id :: id in s.requests ==> s.requests[id].id == id && s.requests[id].serial < s.created
  }

  lemma {:induction false} RunKeepsKeys(s: Manager, events: seq<RequestEvent>)
    requires KeysMatch(s)
    ensures KeysMatch(RequestRun(s, events))
    decreases events
  {
    if events == [] {
    } else {
      RunKeepsKeys(RequestStep(s, events[0]), events[1..]);
    }
  }

  /** No request object of that number is in the map. */
  ghost predicate Gone(s: Manager, serial: nat) {
    serial < s.created && forall id :: id in s.requests ==> s.requests[id].serial != serial
  }

  lemma {:induction false} GoneStaysGone(s: Manager, events: seq<RequestEvent>, serial: nat)
    requires Gone(s, serial)
    ensures var n := RequestRun(s, events);
      Gone(n, serial) && forall success :: Calls(n.callbacks, serial, success) == Calls(s.callbacks, serial, success)
    decreases events
  {
    if events == [] {
    } else {
      var n := RequestStep(s, events[0]);
      forall success
        ensures Calls(n.callbacks, serial, success) == Calls(s.callbacks, serial, success)
      {
        if events[0].Receive? && events[0].id in s.requests {
          OneMoreCall(s.callbacks, Callback(s.requests[events[0].id], true), serial, success);
          OneMoreCall(s.callbacks, Callback(s.requests[events[0].id], false), serial, success);
        }
      }
      GoneStaysGone(n, events[1..], serial);
    }
  }

  /** From the moment a request is in the map, the state tells its fate. */
  lemma {:induction false} TrackedToItsFate(s: Manager, events: seq<RequestEvent>, r: Request)
    requires KeysMatch(s) && r.id in s.requests && s.requests[r.id] == r
    requires forall id :: id in s.requests && id != r.id ==> s.requests[id].serial != r.serial
    requires forall success :: Calls(s.callbacks, r.serial, success) == 0
    ensures var n, fate := RequestRun(s, events), FateOf(r, events);
      && (fate == Outstanding <==> r.id in n.requests && n.requests[r.id] == r)
      && Calls(n.callbacks, r.serial, true) == (if fate == Succeeded then 1 else 0)
      && Calls(n.callbacks, r.serial, false) == (if fate == Failed then 1 else 0)
    decreases events
  {
    if events == [] {
    } else {
      var n := RequestStep(s, events[0]);
      if events[0].Receive? && events[0].id in s.requests {
        var other := s.requests[events[0].id];
        OneMoreCall(s.callbacks, Callback(other, true), r.serial, true);
        OneMoreCall(s.callbacks, Callback(other, true), r.serial, false);
        OneMoreCall(s.callbacks, Callback(other, false), r.serial, true);
        OneMoreCall(s.callbacks, Callback(other, false), r.serial, false);
      }
      if events[0].id == r.id {
        GoneStaysGone(n, events[1..], r.serial);
      } else {
        TrackedToItsFate(n, events[1..], r);
      }
    }
  }

  lemma {:induction false} RunInTwo(s: Manager, first: seq<RequestEvent>, second: seq<RequestEvent>)
    ensures RequestRun(s, first + second) == RequestRun(RequestRun(s, first), second)
    decreases first
  {
    if first == [] {
      assert first + second == second;
    } else {
      assert (first + second)[1..] == first[1..] + second;
      RunInTwo(RequestStep(s, first[0]), first[1..], second);
    }
  }

  ghost predicate CallsMatch(s: Manager) {
    forall i :: 0 <= i < |s.callbacks| ==> s.callbacks[i].request.serial < s.created
  }

  lemma {:induction false} RunKeepsCalls(s: Manager, events: seq<RequestEvent>)
    requires KeysMatch(s) && CallsMatch(s)
    ensures CallsMatch(RequestRun(s, events))
    decreases events
  {
    if events == [] {
    } else {
      var n := RequestStep(s, events[0]);
      assert forall i :: 0 <= i < |s.callbacks| ==> n.callbacks[i] == s.callbacks[i];
      RunKeepsCalls(n, events[1..]);
    }
  }

  lemma {:induction false} NoCalls(callbacks: seq<Callback>, serial: nat, success: bool)
    requires forall i :: 0 <= i < |callbacks| ==> callbacks[i].request.serial < serial
    ensures Calls(callbacks, serial, success) == 0
  {
    if callbacks == [] {
    } else {
      NoCalls(callbacks[..|callbacks| - 1], serial, success);
    }
  }

  /** Over every run, for every request sent in it: it is still in the map, or its success callback was
      made once, or its error callback once, or neither - as the first later event with its id says.
      Equal ids are allowed: then the later request overwrites the earlier one, which hears no more. */
  lemma EveryRequestMeetsItsFate(before: seq<RequestEvent>, id: TransactionId, kind: int, later: seq<RequestEvent>)
    ensures var start := RequestRun(Manager(map[], [], 0), before);
      var r := Request(id, kind, start.created);
      var end, fate := RequestRun(Manager(map[], [], 0), before + [Send(id, kind)] + later), FateOf(r, later);
      && (fate == Outstanding <==> id in end.requests && end.requests[id] == r)
      && Calls(end.callbacks, r.serial, true) == (if fate == Succeeded then 1 else 0)
      && Calls(end.callbacks, r.serial, false) == (if fate == Failed then 1 else 0)
  {
    var empty := Manager(map[], [], 0);
    var start := RequestRun(empty, before);
    var r := Request(id, kind, start.created);
    var sent := RequestStep(start, Send(id, kind));
    RunInTwo(empty, before + [Send(id, kind)], later);
    RunInTwo(empty, before, [Send(id, kind)]);
    assert RequestRun(start, [Send(id, kind)]) == sent;
    RunKeepsKeys(empty, before);
    RunKeepsCalls(empty, before);
    NoCalls(start.callbacks, r.serial, true);
    NoCalls(start.callbacks, r.serial, false);
    TrackedToItsFate(sent, later, r);
  }

  /** A second response with the id of the first is unknown, unless a request took the id in between. */
  lemma SecondResponseUnknown(s: Manager, id: TransactionId, kind: int, between: seq<RequestEvent>)
    requires forall i :: 0 <= i < |between| ==> between[i].Send? ==> between[i].id != id
    ensures var n := RequestRun(RequestStep(s, Receive(id, kind)), between);
      forall again :: VerdictOn(n.requests, id, again) == Unknown
  {
    IdStaysFree(RequestStep(s, Receive(id, kind)), id, between);
  }

  lemma {:induction false} IdStaysFree(s: Manager, id: TransactionId, events: seq<RequestEvent>)
    requires id !in s.requests
    requires forall i :: 0 <= i < |events| ==> events[i].Send? ==> events[i].id != id
    ensures id !in RequestRun(s, events).requests
    decreases events
  {
    if events == [] {
    } else {
      IdStaysFree(RequestStep(s, events[0]), id, events[1..]);
    }
  }

  /** No event touches the requests with other ids. */
  lemma OthersUntouched(s: Manager, e: RequestEvent, id: TransactionId)
    requires e.id != id
    ensures var n := RequestStep(s, e);
      (id in n.requests <==> id in s.requests) && (id in s.requests ==> n.requests[id] == s.requests[id])
  {
  }

  /** With ids that are never reused nothing is overwritten. */
  lemma {:induction false} DistinctIdsAreSafe(r: Request, later: seq<RequestEvent>)
    requires forall i :: 0 <= i < |later| ==> later[i].Send? ==> later[i].id != r.id
    ensures FateOf(r, later) != Overwritten
    decreases later
  {
    if later == [] || later[0].id == r.id {
    } else {
      DistinctIdsAreSafe(r, later[1..]);
    }
  }

  // ---- The manager as an object ----

  class StunRequest {
    const id: TransactionId
    const kind: int
    const serial: nat
    var sentTime: int

    constructor (id: TransactionId, kind: int, serial: nat)
      ensures this.id == id && this.kind == kind && this.serial == serial && sentTime == 0
    {
      this.id, this.kind, this.serial, sentTime := id, kind, serial, 0;
    }

    function View(): Request {
      Request(id, kind, serial)
    }
  }

  class StunRequestManager {
    var requests: map<TransactionId, StunRequest>

    constructor ()
      ensures requests == map[]
    {
      requests := map[];
    }

    function View(): (m: Requests)
      reads this
      ensures m.Keys == requests.Keys
    {
      map id | id in requests :: requests[id].View()
    }

    method Transmit(request: StunRequest, now: int)
      modifies this, request
      ensures View() == old(View())[request.id := request.View()]
      ensures request.sentTime == now
    {
      requests := requests[request.id := request];
      request.sentTime := now;
    }

    method Remove(request: StunRequest)
      modifies this
      ensures View() == old(View()) - {request.id} && requests == old(requests) - {request.id}
    {
      if request.id in requests {
        requests := requests - {request.id};
      }
    }

    /** `called` is the request whose callback was made: for success if `verdict` is Answered, for an error
        if it is Rejected. The result of the source is whether one was made. */
    method CheckResponse(id: TransactionId, kind: int) returns (verdict: Verdict, called: Option<Request>)
      requires id in requests ==> requests[id].id == id
      modifies this
      ensures verdict == VerdictOn(old(View()), id, kind) && View() == AfterResponse(old(View()), id)
      ensures called == if verdict == Answered || verdict == Rejected then Some(old(View())[id]) else None
    {
      if id !in requests {
        assert View() == AfterResponse(old(View()), id);
        return Unknown, None;
      }
      var request := requests[id];
      if kind == SuccessResponse(request.kind) {
        verdict, called := Answered, Some(request.View());
      } else if kind == ErrorResponse(request.kind) {
        verdict, called := Rejected, Some(request.View());
      } else {
        verdict, called := WrongType, None;
      }
      Remove(request);
    }

    /** The request leaves the map before it is deleted; its own removal then finds nothing. */
    method EraseAndDelete(id: TransactionId)
      requires id in requests && requests[id].id == id
      modifies this
      ensures requests == old(requests) - {id}
    {
      var request := requests[id];
      requests := requests - {id};
      Remove(request);
    }

    /** The destructor: every outstanding request is freed once, none is called back. */
    method Destroy() returns (freed: seq<StunRequest>)
      requires forall id :: id in requests ==> requests[id].id == id
      modifies this
      ensures requests == map[] && Freeing(old(requests), map[], freed)
    {
      hide Freeing;
      freed := [];
      NoneFreed(requests);
      while requests != map[]
        invariant Freeing(old(requests), requests, freed)
        invariant forall id :: id in requests ==> requests[id].id == id
        decreases |requests|
      {
        assert requests.Keys != {};
        var id :| id in requests;
        FreeOne(old(requests), requests, freed, id);
        freed := freed + [requests[id]];
        EraseAndDelete(id);
      }
    }
  }

  /** `freed` holds the requests of `was` that are not `left` over, each of them once. */
  ghost predicate Freeing<T>(was: map<TransactionId, T>, left: map<TransactionId, T>, freed: seq<T>) {
    && (forall id :: id in left ==> id in was && was[id] == left[id])
    && |freed| + |left| == |was|
    && (forall id :: id in was ==> id in left || was[id] in freed)
  }

  lemma NoneFreed<T>(was: map<TransactionId, T>)
    ensures Freeing(was, was, [])
  {
  }

  lemma FreeOne<T>(was: map<TransactionId, T>, left: map<TransactionId, T>, freed: seq<T>, id: TransactionId)
    requires Freeing(was, left, freed) && id in left
    ensures Freeing(was, left - {id}, freed + [left[id]])
    ensures |left - {id}| < |left|
  {
    assert (left - {id}).Keys == left.Keys - {id};
    assert |left.Keys - {id}| == |left.Keys| - 1;
    var more := freed + [left[id]];
    assert more[|freed|] == left[id];
    assert forall x :: x in freed ==> x in more;
  }
}
