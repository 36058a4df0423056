/** Every message counter equals the number of its holders: queues, mailboxes and pipes. Between steps
    no `msg` slot and no handler variable holds a message. */
module BrokerOwnership {
  import opened Messages
  import opened Options
  import opened Queues
  import opened Selectors
  import opened Offers
  import opened Services
  import opened Mailboxes
  import opened Holders
  import opened Broker
  import BrokerMail
  import StreamNet

  function Requests(services: map<string, Service>): map<string, seq<Message>> {
    map name | name in services :: services[name].queue.items
  }

  function Mails(boxes: map<string, Queue>): map<string, seq<Message>> {
    map a | a in boxes :: boxes[a].items
  }

  /** What the queues of services and mailboxes hold. */
  ghost function Kept(services: map<string, Service>, boxes: map<string, Queue>): multiset<Message> {
    HeldByQueues(Requests(services)) + HeldByQueues(Mails(boxes))
  }

  /** `flying` is held by pipes, `kept` by queues; a queued message is held once and by nobody else. */
  ghost predicate Balance(flying: multiset<Message>, kept: multiset<Message>, refs: multiset<Message>) {
    && refs == flying + kept
    && forall m :: m in kept ==> kept[m] == 1 && m !in flying
  }

  ghost predicate Owned(b: Broker) {
    Balance(HeldByStreams(b.net.streams), Kept(b.services, b.boxes), b.refs)
  }

  // ---------------------------------------------------------------------------------------------
  // Three ways to keep the balance

  lemma PipesChange(flying: multiset<Message>, kept: multiset<Message>, refs: multiset<Message>,
                    flying': multiset<Message>, refs': multiset<Message>)
    requires Balance(flying, kept, refs) && refs' + flying == refs + flying'
    requires forall m :: m in flying' ==> m in flying || m !in refs
    ensures Balance(flying', kept, refs')
  {
    forall m ensures refs'[m] == (flying' + kept)[m] {
      assert (refs' + flying)[m] == (refs + flying')[m];
    }
  }

  lemma QueueKeeps(flying: multiset<Message>, kept: multiset<Message>, refs: multiset<Message>, m: Message)
    requires Balance(flying, kept, refs) && m !in refs
    ensures Balance(flying, kept + multiset{m}, refs + multiset{m})
  {
  }

  lemma QueueReleases(flying: multiset<Message>, kept: multiset<Message>, refs: multiset<Message>,
                      gone: multiset<Message>, left: multiset<Message>)
    requires Balance(flying, kept, refs) && left + gone == kept
    ensures Balance(flying, left, refs - gone)
  {
    forall m ensures (refs - gone)[m] == (flying + left)[m] {
      assert (left + gone)[m] == kept[m];
    }
    forall m | m in left ensures left[m] == 1 && m !in flying {
      assert (left + gone)[m] == kept[m];
    }
  }

  // ---------------------------------------------------------------------------------------------
  // Streams

  lemma PublishOwned(b: Broker, s: nat, p: StreamNet.Pub)
    requires Owned(b) && s < |b.net.streams| && p.msg !in b.refs
    ensures var st := b.net.streams[s];
            Balance(HeldByStreams(b.net.streams[s := st.(pub := st.pub + [p])]), Kept(b.services, b.boxes), b.refs + multiset{p.msg})
  {
    var st := b.net.streams[s];
    var st' := st.(pub := st.pub + [p]);
    PublicationsAppend(st.pub, p);
    assert HeldByStream(st') == HeldByStream(st) + multiset{p.msg};
    StreamsUpdate(b.net.streams, s, st');
    StreamGrows(b.net.streams, s, st', multiset{p.msg});
    PipesChange(HeldByStreams(b.net.streams), Kept(b.services, b.boxes), b.refs,
                HeldByStreams(b.net.streams[s := st']), b.refs + multiset{p.msg});
  }

  lemma StreamGrows(ss: seq<StreamNet.Stream>, s: nat, st: StreamNet.Stream, x: multiset<Message>)
    requires s < |ss| && HeldByStream(st) == HeldByStream(ss[s]) + x
    ensures HeldByStreams(ss[s := st]) == HeldByStreams(ss) + x
  {
    StreamsUpdate(ss, s, st);
    var a, c, old' := HeldByStreams(ss[s := st]), HeldByStreams(ss), HeldByStream(ss[s]);
    assert a + old' == c + (old' + x);
    forall m ensures a[m] == (c + x)[m] {
      assert (a + old')[m] == (c + (old' + x))[m];
    }
  }

  lemma StreamShrinks(ss: seq<StreamNet.Stream>, s: nat, st: StreamNet.Stream, x: multiset<Message>)
    requires s < |ss| && HeldByStream(st) + x == HeldByStream(ss[s])
    ensures HeldByStreams(ss[s := st]) + x == HeldByStreams(ss)
  {
    StreamsUpdate(ss, s, st);
    var a, c, new' := HeldByStreams(ss[s := st]), HeldByStreams(ss), HeldByStream(st);
    assert a + (new' + x) == c + new';
    forall m ensures (a + x)[m] == c[m] {
      assert (a + (new' + x))[m] == (c + new')[m];
    }
  }

  /** Popping a delivery from a message pipe gives back its reference. */
  lemma DeliverOwned(b: Broker, s: nat)
    requires Owned(b) && s < |b.net.streams| && b.net.streams[s].out != []
    ensures var st := b.net.streams[s];
            Balance(HeldByStreams(b.net.streams[s := st.(out := st.out[1..])]), Kept(b.services, b.boxes),
                    if st.out[0].Deliver? then b.refs - multiset{st.out[0].msg} else b.refs)
  {
    var st := b.net.streams[s];
    var st' := st.(out := st.out[1..]);
    var x := if st.out[0].Deliver? then multiset{st.out[0].msg} else multiset{};
    assert HeldByReplies(st.out) == x + HeldByReplies(st'.out);
    StreamShrinks(b.net.streams, s, st', x);
    var flying, flying' := HeldByStreams(b.net.streams), HeldByStreams(b.net.streams[s := st']);
    assert flying' + x == flying;
    PipesChange(flying, Kept(b.services, b.boxes), b.refs, flying', b.refs - x);
    assert b.refs - multiset{} == b.refs;
  }

  lemma CommandHolds(st: StreamNet.Stream)
    requires st.cmd != []
    ensures HeldByStream(StreamNet.EngineCommand(st)) == HeldByStream(st)
  {
    match st.cmd[0]
    case Compile(c, p) =>
    case Cancel(c) =>
      RepliesSplit(st.out, [Ack(c)]);
      assert [Ack(c)][1..] == [];
  }

  /** Commands carry no message, and ACKs hold none. */
  lemma CommandOwned(b: Broker, s: nat)
    requires Owned(b) && s < |b.net.streams| && b.net.streams[s].cmd != []
    ensures HeldByStreams(b.net.streams[s := StreamNet.EngineCommand(b.net.streams[s])]) == HeldByStreams(b.net.streams)
  {
    CommandHolds(b.net.streams[s]);
    SameHolding(b.net.streams, s, StreamNet.EngineCommand(b.net.streams[s]));
  }

  lemma SameHolding(ss: seq<StreamNet.Stream>, s: nat, st: StreamNet.Stream)
    requires s < |ss| && HeldByStream(st) == HeldByStream(ss[s])
    ensures HeldByStreams(ss[s := st]) == HeldByStreams(ss)
  {
    assert HeldByStream(st) == HeldByStream(ss[s]) + multiset{};
    StreamGrows(ss, s, st, multiset{});
  }

  lemma {:induction false} CancelEachHolds(ss: seq<StreamNet.Stream>, readers: seq<nat>, c: Ptr)
    requires forall i :: 0 <= i < |readers| ==> readers[i] < |ss|
    ensures HeldByStreams(StreamNet.CancelEach(ss, readers, c)) == HeldByStreams(ss)
    decreases |readers|
  {
    if readers != [] {
      var s := readers[0];
      SameHolding(ss, s, ss[s].(cmd := ss[s].cmd + [StreamNet.Cmd.Cancel(c)]));
      CancelEachHolds(StreamNet.Push(ss, s, StreamNet.Cmd.Cancel(c)), readers[1..], c);
    }
  }

  lemma RequireHolds(net: Net, name: string)
    ensures HeldByStreams(StreamNet.Require(net, name).0.streams) == HeldByStreams(net.streams)
  {
    StreamsAppend(net.streams);
  }

  /** A publication taken by the actor: its reference is replaced by one per copy. */
  lemma PublicationOwned(rex: Matcher, b: Broker, s: nat)
    requires Owned(b) && s < |b.net.streams| && b.net.streams[s].pub != [] && b.net.streams[s].pub[0].msg in b.refs
    ensures Owned(ActorPublishes(rex, b, s))
  {
    hide HeldByStreams, Copies, Kept;
    var st := b.net.streams[s];
    var m := st.pub[0].msg;
    var n := |Copies(rex, st.selectors, st.pub[0].sender, m)|;
    var flying, flying' := HeldByStreams(b.net.streams), HeldByStreams(b.net.streams[s := StreamNet.EngineMessage(rex, st)]);
    PublicationCounted(b, s);
    PublicationReplaced(rex, b.net.streams, s);
    var refs' := ActorPublishes(rex, b, s).refs;
    Recount(b.refs, refs', flying, flying', m, n);
    PipesChange(flying, Kept(b.services, b.boxes), b.refs, flying', refs');
  }

  lemma PublicationReplaced(rex: Matcher, ss: seq<StreamNet.Stream>, s: nat)
    requires s < |ss| && ss[s].pub != []
    ensures var st := ss[s];
            var m := st.pub[0].msg;
            var n := |Copies(rex, st.selectors, st.pub[0].sender, m)|;
            forall x :: HeldByStreams(ss[s := StreamNet.EngineMessage(rex, st)])[x] ==
                        HeldByStreams(ss)[x] + if x == m then n - 1 else 0
  {
    hide HeldByStreams, Copies;
    var st := ss[s];
    var r := StreamNet.EngineMessage(rex, st);
    var m := st.pub[0].msg;
    var out := Copies(rex, st.selectors, st.pub[0].sender, m);
    CopiesHold(rex, st.selectors, st.pub[0].sender, m);
    RepliesSplit(st.out, out);
    StreamsUpdate(ss, s, r);
    ReplaceOne(HeldByPublications(r.pub), HeldByReplies(st.out), m, |out|, HeldByStreams(ss), HeldByStreams(ss[s := r]),
               HeldByStream(st), HeldByStream(r));
  }

  lemma {:induction false} HeldInStream(ss: seq<StreamNet.Stream>, s: nat)
    requires s < |ss|
    ensures HeldByStream(ss[s]) <= HeldByStreams(ss)
  {
    if s < |ss| - 1 {
      HeldInStream(ss[..|ss| - 1], s);
    }
  }

  /** A publication on its way to the actor has a reference. */
  lemma PublicationCounted(b: Broker, s: nat)
    requires Owned(b) && s < |b.net.streams| && b.net.streams[s].pub != []
    ensures b.net.streams[s].pub[0].msg in HeldByStreams(b.net.streams) && b.net.streams[s].pub[0].msg in b.refs
  {
    HeldInStream(b.net.streams, s);
    assert b.net.streams[s].pub[0].msg in HeldByStream(b.net.streams[s]);
  }

  /** A delivery on its way to the server has a reference. */
  lemma DeliveryCounted(b: Broker, s: nat)
    requires Owned(b) && s < |b.net.streams| && b.net.streams[s].out != [] && b.net.streams[s].out[0].Deliver?
    ensures b.net.streams[s].out[0].msg in b.refs
  {
    HeldInStream(b.net.streams, s);
    assert b.net.streams[s].out[0].msg in HeldByStream(b.net.streams[s]);
  }

  /** So does every message in a queue. */
  lemma QueuedCounted(b: Broker)
    requires Owned(b)
    ensures QueuedIsAllocated(b.services, b.boxes, b.refs)
  {
    forall name | name in b.services ensures multiset(b.services[name].queue.items) <= b.refs {
      HeldWithout(Requests(b.services), name);
    }
    forall a | a in b.boxes ensures multiset(b.boxes[a].items) <= b.refs {
      HeldWithout(Mails(b.boxes), a);
    }
  }

  /** Bookkeeping of one stream: publication m is replaced by n copies of it. */
  lemma ReplaceOne(pub: multiset<Message>, out: multiset<Message>, m: Message, n: nat, flying: multiset<Message>,
                   flying': multiset<Message>, was: multiset<Message>, now: multiset<Message>)
    requires was == multiset{m} + pub + out && now == pub + (out + multiset{}[m := n])
    requires flying' + was == flying + now
    ensures forall x :: flying'[x] == flying[x] + if x == m then n - 1 else 0
  {
    forall x ensures flying'[x] == flying[x] + if x == m then n - 1 else 0 {
      assert (flying' + was)[x] == (flying + now)[x];
    }
  }

  lemma Recount(refs: multiset<Message>, refs': multiset<Message>, flying: multiset<Message>, flying': multiset<Message>, m: Message, n: nat)
    requires refs[m] >= 1 && refs' == refs[m := refs[m] - 1 + n]
    requires forall x :: flying'[x] == flying[x] + if x == m then n - 1 else 0
    ensures refs' + flying == refs + flying'
  {
    forall x ensures (refs' + flying)[x] == (refs + flying')[x] {
    }
  }

  // ---------------------------------------------------------------------------------------------
  // Services and mailboxes

  lemma RequestsUpdate(services: map<string, Service>, boxes: map<string, Queue>, name: string, s: Service)
    ensures Kept(services[name := s], boxes) + multiset(ServiceOf(services, name).queue.items) ==
            Kept(services, boxes) + multiset(s.queue.items)
  {
    var q := Requests(services);
    assert Requests(services[name := s]) == q[name := s.queue.items];
    HeldUpdate(q, name, s.queue.items);
    Shuffle(HeldByQueues(q - {name}), multiset(s.queue.items), HeldByQueues(Mails(boxes)),
            multiset(ServiceOf(services, name).queue.items));
  }

  lemma MailsUpdate(services: map<string, Service>, boxes: map<string, Queue>, a: string, q: Queue)
    ensures Kept(services, boxes[a := q]) + multiset(BoxOf(boxes, a).items) == Kept(services, boxes) + multiset(q.items)
  {
    var m := Mails(boxes);
    assert Mails(boxes[a := q]) == m[a := q.items];
    HeldUpdate(m, a, q.items);
    Shuffle(HeldByQueues(m - {a}), multiset(q.items), HeldByQueues(Requests(services)), multiset(BoxOf(boxes, a).items));
    assert HeldByQueues(Requests(services)) + (HeldByQueues(m - {a}) + multiset(q.items)) ==
           HeldByQueues(m - {a}) + multiset(q.items) + HeldByQueues(Requests(services));
    assert HeldByQueues(Requests(services)) + (HeldByQueues(m - {a}) + multiset(BoxOf(boxes, a).items)) ==
           HeldByQueues(m - {a}) + multiset(BoxOf(boxes, a).items) + HeldByQueues(Requests(services));
  }

  lemma Shuffle(base: multiset<Message>, new': multiset<Message>, other: multiset<Message>, old': multiset<Message>)
    ensures base + new' + other + old' == base + old' + other + new'
  {
  }

  lemma {:induction false} SelectSplits(rex: Matcher, offers: seq<Offer>, queue: seq<Message>)
    ensures multiset(Select(rex, offers, queue, false)) + multiset(Select(rex, offers, queue, true)) == multiset(queue)
  {
    if queue != [] {
      SelectSplits(rex, offers, queue[1..]);
      assert queue == [queue[0]] + queue[1..];
    }
  }

  /** Offering a service releases exactly the requests it hands out. */
  lemma OfferOwned(rex: Matcher, b: Broker, name: string, o: Offer)
    requires Owned(b) && AllServicesExact(b.services)
    ensures Owned(TakeOffer(rex, b, name, o))
  {
    var svc := ServiceOf(b.services, name).(offers := ServiceOf(b.services, name).offers + [o]);
    var items := svc.queue.items;
    var (s, handed) := Drain(rex, svc, b.serviceCfg, 0);
    assert items[0..] == items && items[..0] == [];
    DrainDispatches(rex, svc, b.serviceCfg, 0);
    DispatchIsStableFilter(rex, svc.offers, items);
    SelectSplits(rex, svc.offers, items);
    RequestsUpdate(b.services, b.boxes, name, s);
    Released(Kept(b.services, b.boxes), Kept(b.services[name := s], b.boxes), multiset(items), multiset(s.queue.items),
             multiset(MessagesOf(handed)));
    QueueReleases(HeldByStreams(b.net.streams), Kept(b.services, b.boxes), b.refs, multiset(MessagesOf(handed)),
                  Kept(b.services[name := s], b.boxes));
  }

  lemma Released(kept: multiset<Message>, kept': multiset<Message>, items: multiset<Message>, left: multiset<Message>, gone: multiset<Message>)
    requires kept' + items == kept + left && left + gone == items
    ensures kept' + gone == kept
  {
    forall m ensures (kept' + gone)[m] == kept[m] {
      assert (kept' + items)[m] == (kept + left)[m] && (left + gone)[m] == items[m];
    }
  }

  lemma Gained(kept: multiset<Message>, kept': multiset<Message>, items: multiset<Message>, more: multiset<Message>)
    requires kept' + items == kept + (items + more)
    ensures kept' == kept + more
  {
    forall m ensures kept'[m] == (kept + more)[m] {
      assert (kept' + items)[m] == (kept + (items + more))[m];
    }
  }

  lemma RequestOwned(rex: Matcher, b: Broker, m: Message)
    requires Owned(b) && m !in b.refs
    ensures Owned(Request(rex, b, m))
  {
    var svc := ServiceOf(b.services, m.address);
    var s := Sent(rex, History(svc, b.serviceCfg, [], []), m).svc;
    var more := if s.queue.items == svc.queue.items then multiset{} else multiset{m};
    SentKeepsOrAdds(rex, svc, b.serviceCfg, m);
    RequestsUpdate(b.services, b.boxes, m.address, s);
    Gained(Kept(b.services, b.boxes), Kept(b.services[m.address := s], b.boxes), multiset(svc.queue.items), more);
    QueueKeeps(HeldByStreams(b.net.streams), Kept(b.services, b.boxes), b.refs, m);
  }

  lemma SentKeepsOrAdds(rex: Matcher, svc: Service, cfg: Limits, m: Message)
    ensures var s := Sent(rex, History(svc, cfg, [], []), m).svc;
            multiset(s.queue.items) == multiset(svc.queue.items) + if s.queue.items == svc.queue.items then multiset{} else multiset{m}
  {
  }

  lemma EmptyBoxOwned(b: Broker, address: string)
    requires Owned(b) && AllExact(b.boxes)
    ensures Owned(EmptyBox(b, address))
  {
    if address in b.boxes {
      var q := Emptied(b.boxes[address], b.boxCfg);
      var items := b.boxes[address].items;
      BrokerMail.EmptiedIsEmpty(b.boxes[address], b.boxCfg);
      MailsUpdate(b.services, b.boxes, address, q);
      var kept, kept' := Kept(b.services, b.boxes), Kept(b.services, b.boxes[address := q]);
      Released(kept, kept', multiset(items), multiset(q.items), multiset(items));
      QueueReleases(HeldByStreams(b.net.streams), kept, b.refs, multiset(items), kept');
    }
  }

  lemma MailOwned(b: Broker, m: Message)
    requires Owned(b) && AllExact(b.boxes) && m !in b.refs
    ensures Owned(Mail(b, m))
  {
    if m.address in b.table {
      EmptyBoxOwned(b.(posted := b.posted + [m], mailed := b.mailed + [m]), m.address);
    } else {
      StoreOwned(b, m, BoxOf(b.boxes, m.address));
    }
  }

  /** A message put into a mailbox is held by it, unless it does not fit. */
  lemma StoreOwned(b: Broker, m: Message, q: Queue)
    requires Owned(b) && m !in b.refs && q == BoxOf(b.boxes, m.address)
    ensures Balance(HeldByStreams(b.net.streams), Kept(b.services, Store(b.boxes, b.boxCfg, m.address, m)),
                    if Fits(q, Some(b.boxCfg), m) then b.refs + multiset{m} else b.refs)
  {
    var r := Enqueue(q, Some(b.boxCfg), m);
    var more := if Fits(q, Some(b.boxCfg), m) then multiset{m} else multiset{};
    assert multiset(r.items) == multiset(q.items) + more;
    MailsUpdate(b.services, b.boxes, m.address, r);
    Gained(Kept(b.services, b.boxes), Kept(b.services, b.boxes[m.address := r]), multiset(q.items), more);
    QueueKeeps(HeldByStreams(b.net.streams), Kept(b.services, b.boxes), b.refs, m);
  }

  lemma DepartOwned(b: Broker, c: Ptr)
    requires Owned(b) && StreamNet.Shape(b.net) && c in b.net.clients
    ensures Owned(Depart(b, c))
  {
    CancelEachHolds(b.net.streams, b.net.clients[c].readers, c);
    assert Requests(WithoutOffersOf(b.services, c)) == Requests(b.services);
  }

  lemma RegisterOwned(b: Broker, c: Ptr, address: string)
    requires Owned(b) && StreamNet.Shape(b.net) && AllExact(b.boxes) && c in b.net.clients
    requires address in b.table ==> b.table[address] in b.net.clients && b.table[address] != c
    ensures Owned(Register(b, c, address))
  {
    var expired := if address != "" && address in b.table then Depart(b, b.table[address]) else b;
    if address != "" && address in b.table {
      DepartOwned(b, b.table[address]);
    }
    if address != "" {
      EmptyBoxOwned(expired.(net := OpenNet(expired.net, c, address), table := expired.table[address := c]), address);
    }
  }

  // ---------------------------------------------------------------------------------------------
  // What the balance says about single messages

  /** A message waiting in a queue has exactly one reference, so the queue may destroy it outright. */
  lemma QueuedIsHeldOnce(b: Broker, name: string, i: nat)
    requires Owned(b) && name in b.services && i < |b.services[name].queue.items|
    ensures b.refs[b.services[name].queue.items[i]] == 1
  {
    var m := b.services[name].queue.items[i];
    HeldWithout(Requests(b.services), name);
    assert m in multiset(b.services[name].queue.items);
    assert m in Kept(b.services, b.boxes);
  }

  /** So does mail that waits for its address. */
  lemma MailIsHeldOnce(b: Broker, address: string, i: nat)
    requires Owned(b) && address in b.boxes && i < |b.boxes[address].items|
    ensures b.refs[b.boxes[address].items[i]] == 1
  {
    var m := b.boxes[address].items[i];
    HeldWithout(Mails(b.boxes), address);
    assert m in multiset(b.boxes[address].items);
    assert m in Kept(b.services, b.boxes);
  }

  /** A message with no holder left has been destroyed, and one with a holder has not. */
  lemma DestroyedExactlyWhenUnheld(b: Broker, m: Message)
    requires Owned(b)
    ensures m in b.refs <==> m in HeldByStreams(b.net.streams) || m in Kept(b.services, b.boxes)
  {
  }
}
