/** What every interleaving of the two threads keeps, seen through the allocated nodes themselves. */
module QueueTheorems {
  import opened Base
  import opened QueueSteps

  /** The addresses met by following `next` from `at`, each at most once. */
  function Reach<T>(heap: map<Addr, Node<T>>, at: Option<Addr>): seq<Addr>
    decreases heap.Keys
  {
    if at.None? || at.value !in heap then []
    else [at.value] + Reach(heap - {at.value}, heap[at.value].next)
  }

  /** The values of the nodes behind `from`, up to and including `to`. */
  function Between<T>(heap: map<Addr, Node<T>>, from: Addr, to: Addr): seq<T>
    decreases heap.Keys
  {
    if from == to || from !in heap || heap[from].next.None? || heap[from].next.value !in heap then []
    else [heap[heap[from].next.value].value] + Between(heap - {from}, heap[from].next.value, to)
  }

  function ValuesAt<T>(heap: map<Addr, Node<T>>, at: seq<Addr>): seq<T>
    requires forall i :: 0 <= i < |at| ==> at[i] in heap
  {
    seq(|at|, i requires 0 <= i < |at| => heap[at[i]].value)
  }

  /** The content a consumer could take without any further step of the producer. */
  function Visible<T>(s: State<T>): seq<T> {
    Between(s.heap, s.divider, s.last)
  }

  lemma {:induction false} ReachIsOrder<T>(heap: map<Addr, Node<T>>, order: seq<Addr>, i: nat)
    requires i < |order|
    requires forall j :: i <= j < |order| ==> order[j] in heap && heap[order[j]].next == Successor(order, j)
    requires forall j, k :: i <= j < k < |order| ==> order[j] != order[k]
    ensures Reach(heap, Some(order[i])) == order[i..]
    decreases |order| - i
  {
    if i == |order| - 1 {
    } else {
      ReachIsOrder(heap - {order[i]}, order, i + 1);
    }
  }

  lemma {:induction false} BetweenIsProduced<T>(heap: map<Addr, Node<T>>, order: seq<Addr>, produced: seq<T>,
                                                i: nat, l: nat)
    requires i <= l < |order| == |produced| + 1
    requires forall j :: i <= j < |order| ==> order[j] in heap && heap[order[j]].next == Successor(order, j)
    requires forall j :: i < j < |order| ==> heap[order[j]].value == produced[j - 1]
    requires forall j, k :: i <= j < k < |order| ==> order[j] != order[k]
    ensures Between(heap, order[i], order[l]) == produced[i..l]
    decreases l - i
  {
    if i == l {
    } else {
      BetweenIsProduced(heap - {order[i]}, order, produced, i + 1, l);
      assert [produced[i]] + produced[i + 1..l] == produced[i..l];
    }
  }

  lemma VisibleIs<T>(s: State<T>)
    requires Inv(s)
    ensures Visible(s) == s.produced[|s.consumed|..LastIndex(s)]
  {
    BetweenIsProduced(s.heap, s.order, s.produced, |s.consumed|, LastIndex(s));
  }

  // ---- First in, first out ----

  lemma ReachIs<T>(s: State<T>, i: nat)
    requires Inv(s) && s.deleted <= i <= |s.produced|
    ensures Reach(s.heap, Some(s.order[i])) == s.order[i..]
    ensures Reach(s.heap, Behind(s, s.order[i])) == s.order[i + 1..]
  {
    hide CursorInv, CountedSize;
    ReachIsOrder(s.heap, s.order, i);
    NodeAt(s, i);
    if i < |s.produced| {
      ReachIsOrder(s.heap, s.order, i + 1);
    }
  }

  lemma Fifo<T>(s: State<T>)
    requires Inv(s)
    ensures var left := Reach(s.heap, Behind(s, s.divider));
      && (forall i :: 0 <= i < |left| ==> left[i] in s.heap)
      && s.consumed + ValuesAt(s.heap, left) == s.produced
  {
    hide HeapInv, Reach, CountedSize, Wrap32, Behind;
    var d := |s.consumed|;
    ReachIs(s, d);
    var left := s.order[d + 1..];
    forall i | 0 <= i < |left|
      ensures left[i] in s.heap && s.heap[left[i]].value == s.produced[d + i]
    {
      NodeAt(s, d + 1 + i);
    }
  }

  /** In every interleaving from a new queue: nothing is dereferenced or deleted that is not allocated,
      and the values consumed, followed by those still linked behind the divider, are the values
      produced, in order. */
  lemma FifoAlways<T>(a: Addr, dummy: T, steps: seq<Step<T>>)
    ensures var s := Run(Initial(a, dummy), steps);
      var left := Reach(s.heap, Behind(s, s.divider));
      && !s.fault
      && (forall i :: 0 <= i < |left| ==> left[i] in s.heap)
      && s.consumed + ValuesAt(s.heap, left) == s.produced
  {
    InitialInv(a, dummy);
    RunKeepsInv(Initial(a, dummy), steps);
    Fifo(Run(Initial(a, dummy), steps));
  }

  /** Every step is a step of a plain queue: advancing `last` appends the value produced, moving the
      divider removes the first value, which is the one returned, `consume` says false only when there
      is none, and all other steps leave the content alone. */
  lemma StepRefinesQueue<T>(s: State<T>, step: Step<T>)
    requires Inv(s) && Enabled(s, step)
    ensures var before, after := Visible(s), Visible(Next(s, step));
      if step.ProducerGoes? && s.producer.Linked? then
        after == before + [s.produced[|s.produced| - 1]]
      else if step.ConsumerGoes? && s.consumer.Copied? then
        before != [] && s.consumer.result == before[0] && after == before[1..]
      else
        && after == before
        && (step.ConsumerBegins? && Next(s, step).consumer.ConsumerIdle? <==> step.ConsumerBegins? && before == [])
  {
    hide Between, HeapInv, Wrap32, Behind;
    StepKeepsInv(s, step);
    VisibleIs(s);
    VisibleIs(Next(s, step));
    match step
    case ProducerBegins(t, a) => NodeAt(s, LastIndex(s));
    case ProducerGoes => ProducerSteps(s);
    case ConsumerBegins => LastDiffers(s);
    case ConsumerGoes => ConsumerSteps(s);
  }

  /** The records of the past change as the two program counters say. */
  lemma ProducerSteps<T>(s: State<T>)
    requires Inv(s) && s.producer != ProducerIdle
    ensures var n := ProducerStep(s);
      && n.produced == s.produced && n.consumed == s.consumed && n.consumer == s.consumer
      && (s.producer.Linked? <==> n.producer.Advanced?) && !n.producer.Linked?
  {
    hide HeapInv, CursorInv, CountedSize, Wrap32, Behind;
    ProducerKeepsInv(s);
  }

  lemma ConsumerSteps<T>(s: State<T>)
    requires Inv(s) && !s.consumer.ConsumerIdle?
    ensures var n := ConsumerStep(s);
      && n.produced == s.produced && n.producer == s.producer
      && n.consumed == if s.consumer.Copied? then s.consumed + [s.consumer.result] else s.consumed
  {
    hide HeapInv, CursorInv, CountedSize, Wrap32, Behind;
    ConsumerKeepsInv(s);
  }

  lemma LastDiffers<T>(s: State<T>)
    requires Inv(s)
    ensures s.divider == s.last <==> |s.consumed| == LastIndex(s)
  {
  }

  // ---- The size ----

  /** The counter is the number of visible values, less an increment and plus a decrement that are still
      to come, in 32 bits; with both threads idle it is exact. */
  lemma SizeInFlight<T>(s: State<T>)
    requires Inv(s)
    ensures s.size == Wrap32(|Visible(s)| - (if s.producer.Advanced? then 1 else 0)
                             + (if s.consumer.Moved? then 1 else 0))
    ensures s.producer == ProducerIdle && s.consumer.ConsumerIdle? ==> s.size == Wrap32(|Visible(s)|)
  {
    VisibleIs(s);
  }

  /** `empty()` tells the truth exactly unless one counter update is due on one side only and the queue
      is short: a value just made visible may go unseen or be counted as none, and the last value just
      taken still counts. */
  lemma EmptyExact<T>(s: State<T>)
    requires Inv(s) && |Visible(s)| < 0x7FFF_FFFF
    ensures (s.size == 0 <==> Visible(s) == [])
      <==> !(s.producer.Advanced? && !s.consumer.Moved? && |Visible(s)| <= 1)
           && !(s.consumer.Moved? && !s.producer.Advanced? && Visible(s) == [])
  {
    SizeInFlight(s);
  }

  /** The counter of an empty queue can be -1: the consumer overtakes the producer's increment. */
  lemma SizeCanBeNegative<T>(a: Addr, b: Addr, dummy: T, t: T)
    requires a != b
    ensures var s := Run(Initial(a, dummy), [ProducerBegins(t, b), ProducerGoes,
                                             ConsumerBegins, ConsumerGoes, ConsumerGoes, ConsumerGoes]);
      s.size == -1 && Visible(s) == [] && s.consumed == [t]
  {
    var s0 := Initial(a, dummy);
    var s1 := Next(s0, ProducerBegins(t, b));
    var s2 := Next(s1, ProducerGoes);
    var s3 := Next(s2, ConsumerBegins);
    var s4 := Next(s3, ConsumerGoes);
    var s5 := Next(s4, ConsumerGoes);
    var s6 := Next(s5, ConsumerGoes);
    Unroll(s0, ProducerBegins(t, b), [ProducerGoes, ConsumerBegins, ConsumerGoes, ConsumerGoes, ConsumerGoes]);
    Unroll(s1, ProducerGoes, [ConsumerBegins, ConsumerGoes, ConsumerGoes, ConsumerGoes]);
    Unroll(s2, ConsumerBegins, [ConsumerGoes, ConsumerGoes, ConsumerGoes]);
    Unroll(s3, ConsumerGoes, [ConsumerGoes, ConsumerGoes]);
    Unroll(s4, ConsumerGoes, [ConsumerGoes]);
    Unroll(s5, ConsumerGoes, []);
  }

  lemma Unroll<T>(s: State<T>, step: Step<T>, rest: seq<Step<T>>)
    requires Enabled(s, step)
    ensures Run(s, [step] + rest) == Run(Next(s, step), rest)
  {
    assert ([step] + rest)[1..] == rest;
  }

  // ---- Reclaiming ----

  /** The allocated nodes form one chain from `first` over `divider` to `last` and at most one node
      further, except for a node that is about to be deleted. */
  lemma OneChain<T>(s: State<T>)
    requires Inv(s)
    ensures var c := Reach(s.heap, Some(s.first));
      && (forall i, j :: 0 <= i < j < |c| ==> c[i] != c[j])
      && var d, l := |s.consumed| - FirstIndex(s), LastIndex(s) - FirstIndex(s);
      && 0 <= d <= l < |c| <= l + 2 && c[d] == s.divider && c[l] == s.last
      && (forall a :: a in s.heap <==> a in c || (s.producer.Deleting? && a == s.producer.temp))
  {
    hide HeapInv, Reach, CountedSize, Wrap32;
    var f, d, l := FirstIndex(s), |s.consumed|, LastIndex(s);
    ReachIs(s, f);
    ChainCoversHeap(s);
  }

  lemma ChainCoversHeap<T>(s: State<T>)
    requires Inv(s)
    ensures forall i, j :: FirstIndex(s) <= i < j < |s.order| ==> s.order[i] != s.order[j]
    ensures forall a :: (a in s.heap <==> (a in s.order[FirstIndex(s)..]
                                           || (s.producer.Deleting? && a == s.order[s.deleted])))
  {
    hide CountedSize, Wrap32, Successor, CursorInv;
    assert FirstIndex(s) <= |s.produced| by { DividerNotBeforeFirst(s); }
    forall a
      ensures a in s.heap <==> (a in s.order[FirstIndex(s)..] || (s.producer.Deleting? && a == s.order[s.deleted]))
    {
      AllocatedIsInChain(s, a);
    }
  }

  lemma DividerNotBeforeFirst<T>(s: State<T>)
    requires Inv(s)
    ensures FirstIndex(s) <= |s.consumed| <= |s.produced|
  {
    hide HeapInv, CountedSize, Wrap32;
  }

  lemma HeapIndex<T>(heap: map<Addr, Node<T>>, order: seq<Addr>, from: nat, produced: seq<T>, a: Addr) returns (i: nat)
    requires HeapInv(heap, order, from, produced) && a in heap
    ensures from <= i < |order| && order[i] == a
  {
    i :| from <= i < |order| && order[i] == a;
  }

  lemma IndexInHeap<T>(heap: map<Addr, Node<T>>, order: seq<Addr>, from: nat, produced: seq<T>, i: nat)
    requires HeapInv(heap, order, from, produced) && from <= i < |order|
    ensures order[i] in heap
  {
  }

  lemma AllocatedIsInChain<T>(s: State<T>, a: Addr)
    requires HeapInv(s.heap, s.order, s.deleted, s.produced) && FirstIndex(s) <= |s.produced|
    ensures a in s.heap <==> (a in s.order[FirstIndex(s)..] || (s.producer.Deleting? && a == s.order[s.deleted]))
  {
    var f := FirstIndex(s);
    assert f <= |s.order|;
    hide HeapInv, FirstIndex;
    if a in s.heap {
      var i := HeapIndex(s.heap, s.order, s.deleted, s.produced, a);
      if i >= f {
        IndexInTail(s.order, f, a, i);
      } else {
        OnlyDeletedBefore(s, i);
      }
    }
    if a in s.order[f..] {
      var k := TailIndex(s.order, f, a);
      OnlyDeletedBefore(s, k);
      IndexInHeap(s.heap, s.order, s.deleted, s.produced, k);
    }
    if s.producer.Deleting? {
      IndexInHeap(s.heap, s.order, s.deleted, s.produced, s.deleted);
    }
  }

  lemma OnlyDeletedBefore<T>(s: State<T>, i: nat)
    ensures s.deleted <= FirstIndex(s)
    ensures s.deleted <= i < FirstIndex(s) ==> i == s.deleted && s.producer.Deleting?
  {
  }

  lemma IndexInTail(order: seq<Addr>, f: nat, a: Addr, i: nat)
    requires f <= i < |order| && order[i] == a
    ensures a in order[f..]
  {
    assert order[f..][i - f] == a;
  }

  lemma TailIndex(order: seq<Addr>, f: nat, a: Addr) returns (i: nat)
    requires f <= |order| && a in order[f..]
    ensures f <= i < |order| && order[i] == a
  {
    var k :| 0 <= k < |order[f..]| && order[f..][k] == a;
    i := f + k;
  }

  /** What the producer deletes is out of the consumer's reach: it is not among the nodes that can be
      followed from the divider, and following them afterwards meets the same nodes. */
  lemma DeletesOnlyBehindDivider<T>(s: State<T>)
    requires Inv(s) && s.producer.Deleting?
    ensures var n := Next(s, ProducerGoes);
      && s.producer.temp in s.heap && n.heap == s.heap - {s.producer.temp}
      && s.producer.temp !in Reach(s.heap, Some(s.divider))
      && Reach(n.heap, Some(n.divider)) == Reach(s.heap, Some(s.divider))
  {
    hide HeapInv, Reach, CountedSize, Wrap32, Behind;
    DeletingKeepsInv(s);
    NodeAt(s, s.deleted);
    ReachIs(s, |s.consumed|);
    ReachIs(ProducerStep(s), |s.consumed|);
    ConsumedIsLater(s);
  }

  lemma ConsumedIsLater<T>(s: State<T>)
    requires Inv(s) && s.producer.Deleting?
    ensures s.order[s.deleted] !in s.order[|s.consumed|..]
  {
    hide CountedSize, Wrap32, Successor;
    var d, rest := |s.consumed|, s.order[|s.consumed|..];
    forall k | 0 <= k < |rest|
      ensures rest[k] != s.order[s.deleted]
    {
      assert rest[k] == s.order[d + k];
    }
  }

  /** Accesses of the producer left in its reclaim loop if the consumer stood still. */
  function ReclaimWork<T>(s: State<T>): int {
    3 * (LastIndex(s) - s.deleted)
    + match s.producer { case Testing => 2 case Unlinking => 1 case _ => 0 }
  }

  predicate Reclaiming<T>(s: State<T>) {
    s.producer.Testing? || s.producer.Unlinking? || s.producer.Deleting?
  }

  /** The reclaim loop ends under every interleaving: each access of the producer uses up some of the
      work, no step of the consumer adds any, and the loop ends with nothing left in front of the divider. */
  lemma ReclaimEnds<T>(s: State<T>, step: Step<T>)
    requires Inv(s) && Enabled(s, step) && Reclaiming(s)
    ensures var n := Next(s, step);
      && 0 <= ReclaimWork(s)
      && (step.ProducerGoes? ==>
            if n.producer == ProducerIdle then n.first == n.divider
            else Reclaiming(n) && ReclaimWork(n) < ReclaimWork(s))
      && (!step.ProducerGoes? ==> n.producer == s.producer && ReclaimWork(n) == ReclaimWork(s))
  {
    hide HeapInv, Wrap32;
    StepKeepsInv(s, step);
  }
}
