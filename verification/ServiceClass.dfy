/** The service class with its cursor loops (src/mlm_server.c:271-305, 583-626, 753-763), proved
    against the values in Offers and Services. */
module ServiceClasses {
  import opened Messages
  import opened MsgQueues
  import opened Options
  import opened Queues
  import opened Selectors
  import opened Offers
  import opened Services
  import opened ZLists
  import Sequences

  /** Where messages leave the server: the `msg` slots of the clients and the router socket. */
  class Delivery {
    const heap: MsgHeap
    var slots: map<Ptr, Message>     // the clients whose `msg` field is set
    var handed: seq<Handed>          // what has been sent as SERVICE DELIVER

    constructor (heap: MsgHeap)
      ensures this.heap == heap && slots == map[] && handed == []
    {
      this.heap, slots, handed := heap, map[], [];
    }

    /** get_message_to_deliver and the send: the slot is emptied and its reference dropped. */
    method ServiceMessageEvent(offer: Offer)
      requires offer.client in slots && slots[offer.client] in heap.refs
      modifies this, heap
      ensures slots == old(slots) - {offer.client}
      ensures handed == old(handed) + [Handed(offer, old(slots)[offer.client])]
      ensures heap.refs == old(heap.refs) - multiset{old(slots)[offer.client]}
    {
      var m := slots[offer.client];
      handed := handed + [Handed(offer, m)];
      heap.Unlink(m);
      slots := slots - {offer.client};
    }
  }

  class ServiceQueue {
    const rex: Matcher
    const offers: ZList<Offer>
    const queue: MsgQ
    const delivery: Delivery
    const heap: MsgHeap
    const cfg: MsgQCfg

    predicate Valid()
      reads this, offers, queue, queue.queue, delivery
    {
      && offers.Valid() && queue.Valid() && queue.cfg == cfg && queue.heap == heap && delivery.heap == heap
      && delivery.slots == map[]
    }

    /** The counters cover the references that the queue holds. */
    predicate Counted()
      reads queue, queue.queue, heap
    {
      multiset(queue.queue.items) <= heap.refs
    }

    function View(): Service
      reads this, offers, queue, queue.queue
    {
      Service(offers.items, queue.View())
    }

    constructor (rex: Matcher, cfg: MsgQCfg, delivery: Delivery)
      requires delivery.slots == map[]
      ensures Valid() && View() == IDLE && fresh(offers) && fresh(queue) && fresh(queue.queue)
      ensures this.rex == rex && this.cfg == cfg && this.delivery == delivery && heap == delivery.heap
    {
      this.rex, this.cfg, this.delivery, heap := rex, cfg, delivery, delivery.heap;
      offers := new ZList();
      queue := new MsgQ(cfg, delivery.heap);
    }

    /** The search of s_service_dispatch_message: stops at the first offer that matches. */
    method FindOffer(m: Message) returns (offer: Option<Offer>)
      requires offers.Valid()
      modifies offers`cursor
      ensures offers.Valid()
      ensures var k := FirstMatch(rex, offers.items, m.subject);
              if k < |offers.items| then offers.cursor == k && offer == Some(offers.items[k]) else offer == None
    {
      ghost var k := FirstMatch(rex, offers.items, m.subject);
      offer := offers.First();
      while offer.Some?
        invariant offers.Valid()
        invariant if offer.Some? then 0 <= offers.cursor <= k && offers.cursor < |offers.items|
                                      && offer.value == offers.items[offers.cursor]
                  else k == |offers.items|
        decreases if offer.Some? then |offers.items| - offers.cursor else -1
      {
        if rex(offer.value.pattern, m.subject) {
          break;
        }
        offer := offers.Next();
      }
    }

    /** s_service_dispatch_message takes over the caller's reference when it returns true. */
    method DispatchMessage(m: Message) returns (taken: bool)
      requires offers.Valid() && delivery.slots == map[] && m in heap.refs && delivery.heap == heap
      modifies offers, delivery, heap
      ensures offers.Valid() && delivery.slots == map[]
      ensures taken == Matched(rex, old(offers.items), m.subject)
      ensures offers.items == Serve(rex, old(offers.items), m)
      ensures delivery.handed == old(delivery.handed) + Hand(rex, old(offers.items), m)
      ensures heap.refs == if taken then old(heap.refs) - multiset{m} else old(heap.refs)
    {
      FirstMatchMatched(rex, offers.items, m.subject);
      var offer := FindOffer(m);
      if offer.Some? {
        delivery.slots := delivery.slots[offer.value.client := m];
        delivery.ServiceMessageEvent(offer.value);
        offers.MoveEnd(offers.cursor);
        taken := true;
      } else {
        taken := false;
      }
    }

    /** write_message_to_service. */
    method Write(m: Message)
      requires Valid() && m in heap.refs
      modifies offers, queue, queue.queue, delivery, heap
      ensures Valid()
      ensures var h := Sent(rex, History(old(View()), cfg.limits, [], old(delivery.handed)), m);
              View() == h.svc && delivery.handed == h.handed
      ensures heap.refs + multiset(old(queue.queue.items)) + multiset{m} == old(heap.refs) + multiset(queue.queue.items)
    {
      var taken := DispatchMessage(m);
      if !taken {
        queue.Add(m);
      }
    }

    /** One turn of the loop in s_service_dispatch: the message is linked while it is dispatched, and
        detached at the cursor when an offer took it. */
    method DispatchAtCursor(m: Message)
      requires Valid() && queue.queue.AtItem() && queue.queue.items[queue.queue.cursor] == m && m in heap.refs
      modifies offers, queue, queue.queue, delivery, heap
      ensures Valid()
      ensures var was := old(View());
              var k := old(queue.queue.cursor);
              if Matched(rex, was.offers, m.subject) then
                && m.size <= was.queue.size
                && View() == Service(Serve(rex, was.offers, m), Dequeue(was.queue, Some(cfg.limits), k))
                && delivery.handed == old(delivery.handed) + Hand(rex, was.offers, m)
                && queue.queue.cursor == k - 1 && heap.refs == old(heap.refs) - multiset{m}
              else
                && View() == was && delivery.handed == old(delivery.handed)
                && queue.queue.cursor == k && heap.refs == old(heap.refs)
    {
      heap.Link(m);
      var taken := DispatchMessage(m);
      if taken {
        var _ := queue.Remove(Some(queue.queue.cursor));
      }
      heap.Unlink(m);
    }

    /** s_service_dispatch: the loop over the queue computes Drain from its first message. */
    method Dispatch()
      requires Valid() && Counted()
      modifies offers, queue, queue.queue, delivery, heap
      ensures Valid()
      ensures var (s, handed) := Drain(rex, old(View()), cfg.limits, 0);
              View() == s && delivery.handed == old(delivery.handed) + handed
      ensures heap.refs + multiset(old(queue.queue.items)) == old(heap.refs) + multiset(queue.queue.items)
    {
      if offers.items == [] {
        DrainWithoutOffers(rex, View(), cfg.limits, 0);
        return;
      }
      ghost var final := Drain(rex, View(), cfg.limits, 0);
      ghost var k := 0;
      var message := queue.queue.First();
      while message.Some?
        invariant Valid() && k <= |queue.queue.items|
        invariant if message.Some? then queue.queue.cursor == k < |queue.queue.items| && message.value == queue.queue.items[k]
                  else k == |queue.queue.items|
        invariant Drain(rex, View(), cfg.limits, k).0 == final.0
        invariant delivery.handed + Drain(rex, View(), cfg.limits, k).1 == old(delivery.handed) + final.1
        invariant Balanced(old(heap.refs), old(queue.queue.items), heap.refs, queue.queue.items)
        decreases |queue.queue.items| - k
      {
        DrainTurn(rex, View(), cfg.limits, k, delivery.handed);
        StaysBalanced(old(heap.refs), old(queue.queue.items), heap.refs, queue.queue.items, k);
        k := k + if Matched(rex, offers.items, message.value.subject) then 0 else 1;
        DispatchAtCursor(message.value);
        message := queue.queue.Next();
      }
    }

    /** SERVICE OFFER: store_service_offer, then dispatch_the_service. */
    method MakeOffer(o: Offer)
      requires Valid() && Counted()
      modifies offers, queue, queue.queue, delivery, heap
      ensures Valid()
      ensures var h := Services.Next(rex, History(old(View()), cfg.limits, [], old(delivery.handed)), Step.MakeOffer(o));
              View() == h.svc && delivery.handed == h.handed
      ensures heap.refs + multiset(old(queue.queue.items)) == old(heap.refs) + multiset(queue.queue.items)
    {
      offers.AddEnd(o);
      Dispatch();
    }

    /** The part of deregister_the_client that concerns this service. */
    method CancelOffers(c: Ptr)
      requires Valid()
      modifies offers
      ensures Valid() && View() == old(View()).(offers := Withdrawn(old(offers.items), c))
    {
      DeleteOffers(offers, c);
    }
  }

  /** The inner loop of deregister_the_client: deletes a client's offers at the cursor. */
  method DeleteOffers(offers: ZList<Offer>, c: Ptr)
    requires offers.Valid()
    modifies offers
    ensures offers.Valid() && offers.items == Withdrawn(old(offers.items), c)
  {
    hide Withdrawn;
    ghost var k := 0;
    DeletedIsWithdrawn(offers.items, c, 0);
    assert offers.items[0..] == offers.items;
    var offer := offers.First();
    while offer.Some?
      invariant offers.Valid() && k <= |offers.items|
      invariant if offer.Some? then offers.cursor == k < |offers.items| && offer.value == offers.items[k]
                else k == |offers.items|
      invariant Deleted(offers.items, c, k) == Withdrawn(old(offers.items), c)
      decreases |offers.items| - k
    {
      if offer.value.client == c {
        var _ := offers.Detach(Some(offers.cursor));
      } else {
        k := k + 1;
      }
      offer := offers.Next();
    }
  }

  /** The loop of DeleteOffers from position k on. */
  function Deleted(offers: seq<Offer>, c: Ptr, k: nat): seq<Offer>
    requires k <= |offers|
    decreases |offers| - k
  {
    if k == |offers| then offers
    else if offers[k].client == c then Deleted(Without(offers, k), c, k)
    else Deleted(offers, c, k + 1)
  }

  lemma {:induction false} DeletedIsWithdrawn(offers: seq<Offer>, c: Ptr, k: nat)
    requires k <= |offers|
    ensures Deleted(offers, c, k) == offers[..k] + Withdrawn(offers[k..], c)
    decreases |offers| - k
  {
    if k < |offers| {
      WithoutSlices(offers, k);
      assert offers[k..][1..] == offers[k + 1..];
      if offers[k].client == c {
        DeletedIsWithdrawn(Without(offers, k), c, k);
      } else {
        DeletedIsWithdrawn(offers, c, k + 1);
        Sequences.Regroup(offers[..k], [offers[k]], Withdrawn(offers[k + 1..], c));
      }
    }
  }

  /** The references beyond those of the queue are the same as before, and the queue's own are covered. */
  predicate Balanced(refs0: multiset<Message>, items0: seq<Message>, refs: multiset<Message>, items: seq<Message>) {
    refs + multiset(items0) == refs0 + multiset(items) && multiset(items) <= refs
  }

  lemma StaysBalanced(refs0: multiset<Message>, items0: seq<Message>, refs: multiset<Message>, items: seq<Message>, k: nat)
    requires k < |items| && Balanced(refs0, items0, refs, items)
    ensures items[k] in refs && Balanced(refs0, items0, refs - multiset{items[k]}, Without(items, k))
  {
    var x := items[k];
    assert items == items[..k] + [x] + items[k + 1..];
    assert multiset(Without(items, k)) == multiset(items) - multiset{x};
    forall y ensures (refs - multiset{x})[y] + multiset(items0)[y] == refs0[y] + (multiset(items) - multiset{x})[y] {
      assert (refs + multiset(items0))[y] == (refs0 + multiset(items))[y];
    }
  }

  lemma {:induction false} DrainWithoutOffers(rex: Matcher, svc: Service, cfg: Limits, k: nat)
    requires svc.offers == [] && Exact(svc.queue) && k <= |svc.queue.items|
    ensures Drain(rex, svc, cfg, k) == (svc, [])
    decreases |svc.queue.items| - k
  {
    if k < |svc.queue.items| {
      DrainWithoutOffers(rex, svc, cfg, k + 1);
    }
  }

  /** What remains to be done before and after one turn. */
  lemma DrainTurn(rex: Matcher, svc: Service, cfg: Limits, k: nat, done: seq<Handed>)
    requires Exact(svc.queue) && k < |svc.queue.items|
    ensures var m := svc.queue.items[k];
            var now := Drain(rex, svc, cfg, k);
            if Matched(rex, svc.offers, m.subject) then
              && m.size <= svc.queue.size
              && var next := Service(Serve(rex, svc.offers, m), Dequeue(svc.queue, Some(cfg), k));
              && Exact(next.queue) && Drain(rex, next, cfg, k).0 == now.0
              && done + Hand(rex, svc.offers, m) + Drain(rex, next, cfg, k).1 == done + now.1
            else Drain(rex, svc, cfg, k + 1) == now
  {
    if Matched(rex, svc.offers, svc.queue.items[k].subject) {
      DequeueExact(svc.queue, Some(cfg), k);
    }
  }
}
