/** The single-producer single-consumer queue as atomic steps of two threads over allocated nodes.
    Dereferencing or deleting a node that is not allocated raises `fault`. */
module QueueSteps {
  import opened Base

  type Addr = int

  datatype Node<T> = Node(value: T, next: Option<Addr>)

  /** Where the producer stands inside `produce`. */
  datatype ProducerPc =
    | ProducerIdle
    | Linked                 // last->next is set, `last` is not
    | Advanced               // `last` is set, the size is not
    | Testing                // about to compare divider and first
    | Unlinking              // they differed: about to move `first`
    | Deleting(temp: Addr)   // `first` has moved, `temp` is still allocated

  /** Where the consumer stands inside `consume`. */
  datatype ConsumerPc<T> =
    | ConsumerIdle
    | Nonempty               // divider and last differed
    | Copied(result: T)      // the value is copied, the divider has not moved
    | Moved(result: T)       // the divider has moved, the size is not yet lowered

  /** The fields of the object, the two program counters, and four records of the past that no step
      reads: addresses in linking order, how many of them are deleted, values produced and consumed. */
  datatype State<T> = State(heap: map<Addr, Node<T>>, first: Addr, divider: Addr, last: Addr, size: int,
                            producer: ProducerPc, consumer: ConsumerPc<T>, fault: bool,
                            order: seq<Addr>, deleted: nat, produced: seq<T>, consumed: seq<T>)

  /** `ProducerBegins` starts a call with the address that `new` returns; `ConsumerBegins` starts a call with its test;
      the other two let a thread that is inside a call make its next access. */
  datatype Step<T> = ProducerBegins(t: T, address: Addr) | ProducerGoes | ConsumerBegins | ConsumerGoes

  function Initial<T>(a: Addr, dummy: T): State<T> {
    State(map[a := Node(dummy, None)], a, a, a, 0, ProducerIdle, ConsumerIdle, false, [a], 0, [], [])
  }

  predicate Enabled<T>(s: State<T>, step: Step<T>) {
    match step
    case ProducerBegins(_, a) => s.producer == ProducerIdle && a !in s.heap
    case ProducerGoes => s.producer != ProducerIdle
    case ConsumerBegins => s.consumer.ConsumerIdle?
    case ConsumerGoes => !s.consumer.ConsumerIdle?
  }

  function Next<T>(s: State<T>, step: Step<T>): State<T>
    requires Enabled(s, step)
  {
    match step
    case ProducerBegins(t, a) => Link(s, t, a)
    case ProducerGoes => ProducerStep(s)
    case ConsumerBegins => if s.divider != s.last then s.(consumer := Nonempty) else s
    case ConsumerGoes => ConsumerStep(s)
  }

  function LinkedHeap<T>(heap: map<Addr, Node<T>>, last: Addr, t: T, a: Addr): map<Addr, Node<T>>
    requires last in heap
  {
    heap[last := heap[last].(next := Some(a))][a := Node(t, None)]
  }

  function Link<T>(s: State<T>, t: T, a: Addr): State<T> {
    if s.last !in s.heap then s.(fault := true)
    else s.(heap := LinkedHeap(s.heap, s.last, t, a),
            producer := Linked, order := s.order + [a], produced := s.produced + [t])
  }

  /** The node behind the one at `a`; None if reading it is a fault. */
  function Behind<T>(s: State<T>, a: Addr): Option<Addr> {
    if a in s.heap then s.heap[a].next else None
  }

  function ProducerStep<T>(s: State<T>): State<T> {
    match s.producer
    case ProducerIdle => s
    case Linked =>
      if Behind(s, s.last).None? then s.(fault := true)
      else s.(last := Behind(s, s.last).value, producer := Advanced)
    case Advanced => s.(size := Wrap32(s.size + 1), producer := Testing)
    case Testing => s.(producer := if s.divider != s.first then Unlinking else ProducerIdle)
    case Unlinking =>
      if Behind(s, s.first).None? then s.(fault := true)
      else s.(first := Behind(s, s.first).value, producer := Deleting(s.first))
    case Deleting(temp) =>
      if temp !in s.heap then s.(fault := true)
      else s.(heap := s.heap - {temp}, deleted := s.deleted + 1, producer := Testing)
  }

  function ConsumerStep<T>(s: State<T>): State<T> {
    match s.consumer
    case ConsumerIdle => s
    case Nonempty =>
      var n := Behind(s, s.divider);
      if n.None? || n.value !in s.heap then s.(fault := true)
      else s.(consumer := Copied(s.heap[n.value].value))
    case Copied(r) =>
      if Behind(s, s.divider).None? then s.(fault := true)
      else s.(divider := Behind(s, s.divider).value, consumer := Moved(r), consumed := s.consumed + [r])
    case Moved(_) => s.(size := Wrap32(s.size - 1), consumer := ConsumerIdle)
  }

  /** A run: steps that are not enabled are skipped, so every list of steps is an interleaving. */
  function Run<T>(s: State<T>, steps: seq<Step<T>>): State<T>
    decreases steps
  {
    if steps == [] then s
    else Run(if Enabled(s, steps[0]) then Next(s, steps[0]) else s, steps[1..])
  }

  // ---- The invariant ----

  function FirstIndex<T>(s: State<T>): nat {
    s.deleted + if s.producer.Deleting? then 1 else 0
  }

  function LastIndex<T>(s: State<T>): int {
    |s.produced| - if s.producer.Linked? then 1 else 0
  }

  function Successor(order: seq<Addr>, i: nat): Option<Addr> {
    if i + 1 < |order| then Some(order[i + 1]) else None
  }

  /** The allocated nodes are exactly those linked and not deleted: distinct, each pointing to the one
      linked after it, and each but the first dummy holding the value it was made for. */
  ghost predicate HeapInv<T>(heap: map<Addr, Node<T>>, order: seq<Addr>, from: nat, produced: seq<T>) {
    && |order| == |produced| + 1 && from < |order|
    && (forall i, j :: from <= i < j < |order| ==> order[i] != order[j])
    && (forall i :: from <= i < |order| ==> order[i] in heap)
    && (forall a :: a in heap ==> exists i :: from <= i < |order| && order[i] == a)
    && (forall i :: from <= i < |order| ==> heap[order[i]].next == Successor(order, i))
    && (forall i :: from <= i < |order| && 0 < i ==> heap[order[i]].value == produced[i - 1])
  }

  /** The three pointers stand in linking order, and each thread knows what its last test told it. */
  ghost predicate CursorInv<T>(s: State<T>) {
    var f, d, l := FirstIndex(s), |s.consumed|, LastIndex(s);
    && f <= d <= l < |s.order|
    && |s.order| == |s.produced| + 1
    && s.first == s.order[f] && s.divider == s.order[d] && s.last == s.order[l]
    && (s.producer.Unlinking? ==> f < d)
    && (s.producer.Deleting? ==> s.producer.temp == s.order[s.deleted])
    && (s.consumer.Nonempty? || s.consumer.Copied? ==> d < l)
    && (s.consumer.Copied? ==> s.consumer.result == s.produced[d])
    && (s.consumer.Moved? ==> d > 0 && s.consumer.result == s.produced[d - 1])
    && s.consumed == s.produced[..d]
  }

  /** The size counts what is reachable, less an increment and plus a decrement still to come. */
  function CountedSize<T>(s: State<T>): int {
    LastIndex(s) - |s.consumed|
    - (if s.producer.Advanced? then 1 else 0) + (if s.consumer.Moved? then 1 else 0)
  }

  ghost predicate Inv<T>(s: State<T>) {
    && !s.fault
    && HeapInv(s.heap, s.order, s.deleted, s.produced)
    && CursorInv(s)
    && s.size == Wrap32(CountedSize(s))
  }

  lemma InitialInv<T>(a: Addr, dummy: T)
    ensures Inv(Initial(a, dummy))
  {
    assert [a][0] == a;
  }

  lemma WrapOnce(x: int, y: int)
    ensures Wrap32(Wrap32(x) + y) == Wrap32(x + y)
  {
  }

  lemma LinkCoversHeap<T>(heap: map<Addr, Node<T>>, order: seq<Addr>, from: nat, produced: seq<T>,
                          last: Addr, t: T, a: Addr)
    requires HeapInv(heap, order, from, produced) && last == order[|order| - 1]
    ensures forall x :: x in LinkedHeap(heap, last, t, a) ==>
              exists i :: from <= i < |order + [a]| && (order + [a])[i] == x
  {
    forall x | x in LinkedHeap(heap, last, t, a)
      ensures exists i :: from <= i < |order + [a]| && (order + [a])[i] == x
    {
      if x == a {
        assert (order + [a])[|order|] == a;
      } else {
        var i :| from <= i < |order| && order[i] == x;
        assert (order + [a])[i] == x;
      }
    }
  }

  lemma LinkKeepsNodes<T>(heap: map<Addr, Node<T>>, order: seq<Addr>, from: nat, produced: seq<T>, t: T, a: Addr)
    requires HeapInv(heap, order, from, produced) && a !in heap
    ensures var heap' := LinkedHeap(heap, order[|order| - 1], t, a);
      forall i :: from <= i < |order| ==>
        && order[i] != a && order[i] in heap'
        && heap'[order[i]].next == Successor(order + [a], i)
        && (i > 0 ==> heap'[order[i]].value == produced[i - 1])
  {
    forall i | from <= i < |order| - 1
      ensures order[i] != order[|order| - 1]
    {
    }
  }

  lemma LinkKeepsHeap<T>(heap: map<Addr, Node<T>>, order: seq<Addr>, from: nat, produced: seq<T>, t: T, a: Addr)
    requires HeapInv(heap, order, from, produced) && a !in heap
    ensures HeapInv(LinkedHeap(heap, order[|order| - 1], t, a), order + [a], from, produced + [t])
  {
    LinkCoversHeap(heap, order, from, produced, order[|order| - 1], t, a);
    LinkKeepsNodes(heap, order, from, produced, t, a);
  }

  lemma DeleteKeepsHeap<T>(heap: map<Addr, Node<T>>, order: seq<Addr>, from: nat, produced: seq<T>)
    requires HeapInv(heap, order, from, produced) && from + 1 < |order|
    ensures HeapInv(heap - {order[from]}, order, from + 1, produced)
  {
  }

  lemma LinkKeepsInv<T>(s: State<T>, t: T, a: Addr)
    requires Inv(s) && Enabled(s, ProducerBegins(t, a))
    ensures Inv(Link(s, t, a))
  {
    hide HeapInv, Wrap32;
    LinkKeepsHeap(s.heap, s.order, s.deleted, s.produced, t, a);
    NodeAt(s, LastIndex(s));
  }

  lemma LastNode<T>(heap: map<Addr, Node<T>>, order: seq<Addr>, produced: seq<T>)
    requires |order| > 0 && HeapInv(heap, order, |order| - 1, produced)
    ensures heap.Keys == {order[|order| - 1]}
  {
    var last := |order| - 1;
    assert order[last] in heap;
    forall a | a in heap
      ensures a == order[last]
    {
      var i :| last <= i < |order| && order[i] == a;
    }
  }

  lemma NodeAt<T>(s: State<T>, i: nat)
    requires HeapInv(s.heap, s.order, s.deleted, s.produced) && s.deleted <= i <= |s.produced|
    ensures s.order[i] in s.heap
    ensures Behind(s, s.order[i]) == Successor(s.order, i)
    ensures i > 0 ==> s.heap[s.order[i]].value == s.produced[i - 1]
  {
  }

  lemma DeletingKeepsInv<T>(s: State<T>)
    requires Inv(s) && s.producer.Deleting?
    ensures Inv(ProducerStep(s))
  {
    hide HeapInv, Wrap32, Behind;
    NodeAt(s, s.deleted);
    DeleteKeepsHeap(s.heap, s.order, s.deleted, s.produced);
  }

  lemma ProducerKeepsInv<T>(s: State<T>)
    requires Inv(s) && s.producer != ProducerIdle
    ensures Inv(ProducerStep(s))
  {
    hide HeapInv, Wrap32, Behind;
    match s.producer
    case Linked => NodeAt(s, LastIndex(s));
    case Advanced => WrapOnce(CountedSize(s), 1);
    case Testing =>
    case Unlinking => NodeAt(s, FirstIndex(s));
    case Deleting(temp) => DeletingKeepsInv(s);
  }

  lemma ConsumerKeepsInv<T>(s: State<T>)
    requires Inv(s) && !s.consumer.ConsumerIdle?
    ensures Inv(ConsumerStep(s))
  {
    hide HeapInv, Wrap32, Behind;
    var d := |s.consumed|;
    if !s.consumer.Moved? {
      NodeAt(s, d);
      NodeAt(s, d + 1);
    }
    WrapOnce(CountedSize(s), -1);
  }

  lemma StepKeepsInv<T>(s: State<T>, step: Step<T>)
    requires Inv(s) && Enabled(s, step)
    ensures Inv(Next(s, step))
  {
    hide HeapInv, Wrap32;
    match step
    case ProducerBegins(t, a) => LinkKeepsInv(s, t, a);
    case ProducerGoes => ProducerKeepsInv(s);
    case ConsumerBegins =>
    case ConsumerGoes => ConsumerKeepsInv(s);
  }

  lemma {:induction false} RunKeepsInv<T>(s: State<T>, steps: seq<Step<T>>)
    requires Inv(s)
    ensures Inv(Run(s, steps))
    decreases steps
  {
    if steps == [] {
    } else {
      if Enabled(s, steps[0]) {
        StepKeepsInv(s, steps[0]);
      }
      RunKeepsInv(if Enabled(s, steps[0]) then Next(s, steps[0]) else s, steps[1..]);
    }
  }
}
