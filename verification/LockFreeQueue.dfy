/** The queue object: its methods update the pointers and the nodes in place, access by access. */
module LockFreeQueue {
  import opened Base
  import opened QueueSteps
  import opened QueueTheorems

  class LockFreeQueue<T> {
    var nodes: map<Addr, Node<T>>
    var first: Addr
    var divider: Addr
    var last: Addr
    var size: int
    var producer: ProducerPc
    var consumer: ConsumerPc<T>
    ghost var order: seq<Addr>
    ghost var deleted: nat
    ghost var produced: seq<T>
    ghost var consumed: seq<T>

    ghost function View(): State<T>
      reads this
    {
      State(nodes, first, divider, last, size, producer, consumer, false, order, deleted, produced, consumed)
    }

    constructor (a: Addr, dummy: T)
      ensures View() == Initial(a, dummy) && Inv(View())
    {
      nodes := map[a := Node(dummy, None)];
      first, divider, last := a, a, a;
      size := 0;
      producer, consumer := ProducerIdle, ConsumerIdle;
      order, deleted, produced, consumed := [a], 0, [], [];
      new;
      InitialInv(a, dummy);
    }

    /** `last->next = new Node(t)`, with `a` the address of the new node. */
    method LinkNode(t: T, a: Addr)
      requires Inv(View()) && producer == ProducerIdle && a !in nodes
      modifies this
      ensures View() == Next(old(View()), ProducerBegins(t, a)) && Inv(View())
    {
      hide HeapInv, Wrap32;
      NodeAt(View(), LastIndex(View()));
      LinkKeepsInv(View(), t, a);
      nodes := nodes[last := nodes[last].(next := Some(a))];
      nodes := nodes[a := Node(t, None)];
      producer := Linked;
      order, produced := order + [a], produced + [t];
    }

    /** The next access of a producer that is inside `produce`. */
    method ProducerMoves()
      requires Inv(View()) && producer != ProducerIdle
      modifies this
      ensures View() == Next(old(View()), ProducerGoes) && Inv(View())
    {
      hide HeapInv, Wrap32, CountedSize;
      ProducerKeepsInv(View());
      match producer {
        case Linked =>
          NodeAt(View(), LastIndex(View()));
          last := nodes[last].next.value;
          producer := Advanced;
        case Advanced =>
          size := Wrap32(size + 1);
          producer := Testing;
        case Testing =>
          producer := if divider != first then Unlinking else ProducerIdle;
        case Unlinking =>
          NodeAt(View(), FirstIndex(View()));
          producer := Deleting(first);
          first := nodes[first].next.value;
        case Deleting(temp) =>
          nodes := nodes - {temp};
          deleted := deleted + 1;
          producer := Testing;
      }
    }

    /** The test that starts `consume`. */
    method ConsumerTests()
      requires Inv(View()) && consumer.ConsumerIdle?
      modifies this
      ensures View() == Next(old(View()), ConsumerBegins) && Inv(View())
    {
      StepKeepsInv(View(), ConsumerBegins);
      hide HeapInv, CursorInv, CountedSize, Wrap32;
      if divider != last {
        consumer := Nonempty;
      }
    }

    /** The next access of a consumer that is inside `consume`. */
    method ConsumerMoves()
      requires Inv(View()) && !consumer.ConsumerIdle?
      modifies this
      ensures View() == Next(old(View()), ConsumerGoes) && Inv(View())
    {
      hide HeapInv, Wrap32, CountedSize;
      ConsumerKeepsInv(View());
      match consumer {
        case Nonempty =>
          NodeAt(View(), |consumed|);
          NodeAt(View(), |consumed| + 1);
          consumer := Copied(nodes[nodes[divider].next.value].value);
        case Copied(r) =>
          NodeAt(View(), |consumed|);
          divider := nodes[divider].next.value;
          consumer := Moved(r);
          consumed := consumed + [r];
        case Moved(_) =>
          size := Wrap32(size - 1);
          consumer := ConsumerIdle;
      }
    }

    /** Any number of accesses of the consumer thread between two of the producer's. */
    method ConsumerInterferes()
      requires Inv(View())
      modifies this
      ensures Inv(View())
      ensures producer == old(producer) && produced == old(produced) && nodes == old(nodes)
      ensures order == old(order) && deleted == old(deleted) && first == old(first) && last == old(last)
      ensures old(consumed) <= consumed
    {
      hide Inv, Wrap32;
      var n: nat := *;
      while n > 0
        invariant Inv(View())
        invariant producer == old(producer) && produced == old(produced) && nodes == old(nodes)
        invariant order == old(order) && deleted == old(deleted) && first == old(first) && last == old(last)
        invariant old(consumed) <= consumed
      {
        if consumer.ConsumerIdle? {
          ConsumerTests();
        } else {
          ConsumerLeavesNodes(View());
          ConsumerMoves();
        }
        n := n - 1;
      }
    }

    /** `produce`, with the consumer running freely between any two of its accesses. When it returns, the
        value stands behind all earlier ones, and every node the consumer has left behind is gone. */
    method Produce(t: T, a: Addr)
      requires Inv(View()) && producer == ProducerIdle && a !in nodes
      modifies this
      ensures Inv(View()) && producer == ProducerIdle
      ensures produced == old(produced) + [t] && old(consumed) <= consumed
      ensures first == divider
    {
      hide HeapInv, Wrap32, CountedSize, Behind, CursorInv;
      LinkNode(t, a);
      ConsumerInterferes();
      ProducerSteps(View());
      ProducerMoves();
      ConsumerInterferes();
      ProducerMoves();
      ConsumerInterferes();
      Reclaim();
    }

    /** The loop of `produce` that deletes the nodes in front of the divider. */
    method Reclaim()
      requires Inv(View()) && producer.Testing?
      modifies this
      ensures Inv(View()) && producer == ProducerIdle
      ensures produced == old(produced) && old(consumed) <= consumed
      ensures first == divider
    {
      hide HeapInv, Wrap32, CountedSize, Behind, CursorInv;
      while true
        invariant Inv(View()) && producer.Testing?
        invariant produced == old(produced) && old(consumed) <= consumed
        decreases ReclaimWork(View())
      {
        ReclaimEnds(View(), ProducerGoes);
        ProducerMoves();
        if producer == ProducerIdle {
          break;
        }
        ConsumerInterferes();
        ReclaimEnds(View(), ProducerGoes);
        ProducerMoves();
        ConsumerInterferes();
        ReclaimEnds(View(), ProducerGoes);
        ProducerMoves();
        ConsumerInterferes();
      }
    }

    /** `consume`, wherever the producer is stopped: false exactly when nothing is visible, else the first
        visible value, which is then gone. */
    method Consume() returns (r: Option<T>)
      requires Inv(View()) && consumer.ConsumerIdle?
      modifies this
      ensures Inv(View()) && consumer.ConsumerIdle? && producer == old(producer) && produced == old(produced)
      ensures old(Visible(View())) == [] ==> r == None && View() == old(View())
      ensures old(Visible(View())) != [] ==>
        r == Some(old(Visible(View()))[0]) && Visible(View()) == old(Visible(View()))[1..]
    {
      hide HeapInv, CursorInv, Wrap32, CountedSize, Between, Visible;
      StepRefinesQueue(View(), ConsumerBegins);
      ConsumerTests();
      if consumer.ConsumerIdle? {
        return None;
      }
      StepRefinesQueue(View(), ConsumerGoes);
      ConsumerMoves();
      StepRefinesQueue(View(), ConsumerGoes);
      r := Some(consumer.result);
      ConsumerMoves();
      StepRefinesQueue(View(), ConsumerGoes);
      ConsumerMoves();
    }

    /** The destructor's loop over `first` deletes every node once and ends. */
    method Destroy()
      requires Inv(View()) && producer == ProducerIdle && consumer.ConsumerIdle?
      modifies this
      ensures nodes == map[]
    {
      hide CursorInv, CountedSize, Wrap32;
      FirstIsNotDeleted(View());
      var at := Some(first);
      ghost var i := deleted;
      while at.Some?
        invariant deleted <= i <= |order|
        invariant at == if i < |order| then Some(order[i]) else None
        invariant if i < |order| then HeapInv(nodes, order, i, produced) else nodes == map[]
        decreases |order| - i
      {
        var temp := at.value;
        assert temp == order[i] && temp in nodes && nodes[temp].next == Successor(order, i);
        if i + 1 < |order| {
          DeleteKeepsHeap(nodes, order, i, produced);
        } else {
          LastNode(nodes, order, produced);
        }
        hide HeapInv;
        at := nodes[temp].next;
        nodes := nodes - {temp};
        i := i + 1;
      }
    }
  }

  lemma ConsumerLeavesNodes<T>(s: State<T>)
    requires Inv(s) && !s.consumer.ConsumerIdle?
    ensures var n := ConsumerStep(s);
      && n.heap == s.heap && n.producer == s.producer && n.produced == s.produced
      && n.order == s.order && n.deleted == s.deleted && n.first == s.first && n.last == s.last
      && s.consumed <= n.consumed
  {
    hide HeapInv, CursorInv, CountedSize, Wrap32, Behind;
  }

  lemma FirstIsNotDeleted<T>(s: State<T>)
    requires Inv(s) && s.producer == ProducerIdle
    ensures s.deleted < |s.order| && s.first == s.order[s.deleted]
  {
    hide HeapInv, CountedSize, Wrap32;
  }
}
