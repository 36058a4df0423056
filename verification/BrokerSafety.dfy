/** All invariants of the broker together, over every run. */
module BrokerSafety {
  import opened Messages
  import opened Options
  import opened Queues
  import opened Selectors
  import opened Offers
  import opened Services
  import opened Mailboxes
  import opened Broker
  import opened BrokerRegistry
  import opened BrokerMail
  import opened BrokerOwnership
  import Holders
  import StreamNet
  import StreamSafety

  /** Every service keeps its exact byte count, and nothing waits in it that an offer would take. */
  predicate ServicesOk(rex: Matcher, services: map<string, Service>) {
    forall name :: name in services ==> Exact(services[name].queue) && WorkConserving(rex, services[name])
  }

  ghost predicate Inv(rex: Matcher, b: Broker) {
    && StreamSafety.Inv(b.net)
    && Registry(b.net.clients, b.table) && OffersLive(b.net.clients, b.services)
    && ServicesOk(rex, b.services)
    && MailInv(b)
    && Owned(b)
  }

  lemma InitialHolds(rex: Matcher)
    ensures Inv(rex, INITIAL)
  {
  }

  /** STREAM CANCEL needs its guard, as in StreamSafety. */
  predicate Guard(b: Broker, event: Event)
    requires StreamNet.Shape(b.net) && Enabled(b, event)
  {
    event.StreamCancel? ==> StreamSafety.CancelIsCovered(b.net, event.c, event.name)
  }

  // ---------------------------------------------------------------------------------------------
  // Parts of the proof

  /** The history of Services, without its records. */
  function Bare(svc: Service, cfg: Limits): History {
    History(svc, cfg, [], [])
  }

  lemma ServiceStepOk(rex: Matcher, svc: Service, cfg: Limits, step: Services.Step)
    requires Exact(svc.queue) && WorkConserving(rex, svc)
    ensures var r := Services.Next(rex, Bare(svc, cfg), step).svc; Exact(r.queue) && WorkConserving(rex, r)
  {
    match step
    case Send(m) => SendConserves(rex, svc, cfg, m);
    case MakeOffer(o) =>
      var s := svc.(offers := svc.offers + [o]);
      assert s.queue.items[0..] == s.queue.items && s.queue.items[..0] == [];
      DrainDispatches(rex, s, cfg, 0);
      DispatchIsStableFilter(rex, s.offers, s.queue.items);
      DispatchPermutes(rex, s.offers, s.queue.items);
      DispatchConserves(rex, Drain(rex, s, cfg, 0).0, s.offers, s.queue.items);
    case Withdraw(c) =>
    case Reconfigure(limits) =>
  }

  lemma SendConserves(rex: Matcher, svc: Service, cfg: Limits, m: Message)
    requires Exact(svc.queue) && WorkConserving(rex, svc)
    ensures var r := Sent(rex, Bare(svc, cfg), m).svc; Exact(r.queue) && WorkConserving(rex, r)
  {
    var r := Sent(rex, Bare(svc, cfg), m).svc;
    EnqueueExact(svc.queue, Some(cfg), m);
    ServePermutes(rex, svc.offers, m);
    forall i | 0 <= i < |r.queue.items| ensures !Matched(rex, r.offers, r.queue.items[i].subject) {
      MatchedByPermutation(rex, svc.offers, r.offers, r.queue.items[i].subject);
    }
  }

  lemma OneServiceOk(rex: Matcher, services: map<string, Service>, name: string, s: Service)
    requires ServicesOk(rex, services) && Exact(s.queue) && WorkConserving(rex, s)
    ensures ServicesOk(rex, services[name := s])
  {
  }

  lemma WithdrawOk(rex: Matcher, services: map<string, Service>, c: Ptr)
    requires ServicesOk(rex, services)
    ensures ServicesOk(rex, WithoutOffersOf(services, c))
  {
    forall name | name in services
      ensures Exact(WithoutOffersOf(services, c)[name].queue) && WorkConserving(rex, WithoutOffersOf(services, c)[name])
    {
      ServiceStepOk(rex, services[name], Limits(0, 0), Withdraw(c));
    }
  }

  lemma TakeOfferLive(rex: Matcher, b: Broker, name: string, o: Offer)
    requires OffersLive(b.net.clients, b.services) && AllServicesExact(b.services)
    requires o.client in b.net.clients && b.net.clients[o.client].phase == StreamNet.Connected
    ensures OffersLive(b.net.clients, TakeOffer(rex, b, name, o).services)
  {
    var svc := ServiceOf(b.services, name).(offers := ServiceOf(b.services, name).offers + [o]);
    DrainDispatches(rex, svc, b.serviceCfg, 0);
    DispatchPermutes(rex, svc.offers, svc.queue.items[0..]);
    BrokerRegistry.OfferKeeps(b.net.clients, b.services, name, Drain(rex, svc, b.serviceCfg, 0).0, o);
  }

  lemma QuietFaces(rex: Matcher, net: Net, step: StreamNet.Step)
    requires StreamNet.Shape(net) && StreamNet.Enabled(net, step)
    requires step.StreamWrite? || step.StreamRead? || step.StreamCancel? || step.ActorCommand?
    ensures var r := StreamNet.Next(rex, net, step).clients;
            r.Keys == net.clients.Keys
            && forall c :: c in r ==> r[c].phase == net.clients[c].phase && r[c].address == net.clients[c].address
  {
    hide StreamNet.EngineCommand;
  }

  lemma ReaderHolds(net: Net, c: Ptr, name: string, p: string)
    requires StreamNet.Shape(net) && c in net.clients
    ensures Holders.HeldByStreams(StreamNet.StoreReader(net, c, name, p).streams) == Holders.HeldByStreams(StreamNet.Require(net, name).0.streams)
  {
    var (n, s) := StreamNet.Require(net, name);
    SameHolding(n.streams, s, n.streams[s].(cmd := n.streams[s].cmd + [StreamNet.Cmd.Compile(c, p)]));
  }

  lemma CancelHolds(net: Net, c: Ptr, name: string)
    requires StreamNet.Shape(net) && c in net.clients
    ensures Holders.HeldByStreams(StreamNet.CancelReader(net, c, name).streams) == Holders.HeldByStreams(StreamNet.Require(net, name).0.streams)
  {
    var (n, s) := StreamNet.Require(net, name);
    SameHolding(n.streams, s, n.streams[s].(cmd := n.streams[s].cmd + [StreamNet.Cmd.Cancel(c)]));
  }

  lemma QuietHolds(rex: Matcher, b: Broker, step: StreamNet.Step)
    requires Owned(b) && StreamNet.Shape(b.net) && StreamNet.Enabled(b.net, step)
    requires step.Connect? || step.StreamWrite? || step.StreamRead? || step.StreamCancel? || step.ActorCommand?
    ensures Holders.HeldByStreams(StreamNet.Next(rex, b.net, step).streams) == Holders.HeldByStreams(b.net.streams)
  {
    match step
    case Connect(c) =>
    case StreamWrite(c, name) => RequireHolds(b.net, name);
    case StreamRead(c, name, p) => RequireHolds(b.net, name); ReaderHolds(b.net, c, name, p);
    case StreamCancel(c, name) => RequireHolds(b.net, name); CancelHolds(b.net, c, name);
    case ActorCommand(s) => CommandOwned(b, s);
  }

  // ---------------------------------------------------------------------------------------------
  // Every event keeps every invariant

  /** The event finds the state fit for it and keeps all invariants. */
  ghost predicate Kept(rex: Matcher, b: Broker, event: Event) {
    Enabled(b, event) && Ready(b, event) && Inv(rex, React(rex, b, event))
  }

  /** What every event relies on. */
  lemma SaneHolds(rex: Matcher, b: Broker)
    requires Inv(rex, b)
    ensures StreamNet.Shape(b.net) && AllExact(b.boxes) && AllServicesExact(b.services)
    ensures QueuedIsAllocated(b.services, b.boxes, b.refs)
  {
    QueuedCounted(b);
  }

  lemma ConnectAll(rex: Matcher, b: Broker, c: Ptr)
    requires Inv(rex, b) && Enabled(b, Event.Connect(c))
    ensures Kept(rex, b, Event.Connect(c))
  {
    SaneHolds(rex, b);
    StreamSafety.ConnectKeeps(b.net, c);
    ConnectKeeps(b.net.clients, c, b.table, b.services);
    TableShrinks(b, b.(net := StreamNet.Next(rex, b.net, StreamNet.Connect(c))));
  }

  /** Steps that change nothing but the stream net. */
  lemma QuietAll(rex: Matcher, b: Broker, step: StreamNet.Step)
    requires Inv(rex, b) && StreamNet.Enabled(b.net, step)
    requires step.StreamWrite? || step.StreamRead? || step.StreamCancel? || step.ActorCommand?
    requires step.StreamCancel? ==> StreamSafety.CancelIsCovered(b.net, step.c, step.name)
    ensures Inv(rex, b.(net := StreamNet.Next(rex, b.net, step)))
  {
    var n := StreamNet.Next(rex, b.net, step);
    StreamSafety.StepKeeps(rex, b.net, step);
    QuietFaces(rex, b.net, step);
    FacesSame(b.net.clients, n.clients, b.table, b.services);
    QuietHolds(rex, b, step);
    TableShrinks(b, b.(net := n));
  }

  lemma DepartAll(rex: Matcher, b: Broker, c: Ptr)
    requires Inv(rex, b) && c in b.net.clients && b.net.clients[c].phase != StreamNet.Zombie
    ensures Inv(rex, Depart(b, c))
  {
    StreamSafety.TerminateKeeps(b.net, c);
    DepartKeeps(b, c);
    WithdrawOk(rex, b.services, c);
    DepartOwned(b, c);
    TableShrinks(b, Depart(b, c));
  }

  lemma OpenAll(rex: Matcher, b: Broker, c: Ptr, address: string)
    requires Inv(rex, b) && Enabled(b, Event.Open(c, address))
    ensures Kept(rex, b, Event.Open(c, address))
  {
    hide StreamSafety.Inv, Registry, OffersLive, MailInv, Owned, ServicesOk, Register;
    SaneHolds(rex, b);
    RegisterKeeps(b, c, address);
    RegisterKeepsMail(b, c, address);
    RegisterOwned(b, c, address);
    RegisterKeepsNet(rex, b, c, address);
  }

  lemma RegisterKeepsNet(rex: Matcher, b: Broker, c: Ptr, address: string)
    requires StreamSafety.Inv(b.net) && Registry(b.net.clients, b.table) && AllExact(b.boxes) && ServicesOk(rex, b.services)
    requires c in b.net.clients && b.net.clients[c].phase == StreamNet.Start
    ensures address in b.table ==> b.table[address] in b.net.clients && b.table[address] != c
    ensures StreamSafety.Inv(Register(b, c, address).net) && ServicesOk(rex, Register(b, c, address).services)
  {
    var e := if address != "" && address in b.table then Depart(b, b.table[address]) else b;
    if address != "" && address in b.table {
      StreamSafety.TerminateKeeps(b.net, b.table[address]);
      WithdrawOk(rex, b.services, b.table[address]);
    }
    StreamSafety.RecordKeeps(e.net, c, e.net.clients[c].(phase := StreamNet.Connected, address := Some(address)));
  }

  lemma PublishedOwned(b: Broker, c: Ptr, m: Message)
    requires Owned(b) && StreamNet.Shape(b.net) && c in b.net.clients && b.net.clients[c].writer.Some? && m !in b.refs
    ensures Owned(b.(net := StreamNet.Publish(b.net, c, m), refs := b.refs + multiset{m}))
  {
    PublishOwned(b, b.net.clients[c].writer.value, StreamNet.Pub(c, m));
  }

  lemma PublishAll(rex: Matcher, b: Broker, c: Ptr, m: Message)
    requires Inv(rex, b) && Enabled(b, Event.StreamSend(c, m)) && b.net.clients[c].writer.Some?
    ensures Kept(rex, b, Event.StreamSend(c, m))
  {
    hide Registry, OffersLive, MailInv, ServicesOk, Owned;
    SaneHolds(rex, b);
    StreamSafety.PublishKeeps(b.net, c, m);
    PublishedOwned(b, c, m);
    TableShrinks(b, b.(net := StreamNet.Publish(b.net, c, m), refs := b.refs + multiset{m}));
  }

  lemma MailAll(rex: Matcher, b: Broker, c: Ptr, m: Message)
    requires Inv(rex, b) && Enabled(b, Event.MailboxSend(c, m))
    ensures Kept(rex, b, Event.MailboxSend(c, m))
  {
    hide StreamSafety.Inv, Registry, OffersLive, MailInv, Owned, ServicesOk, Mail;
    SaneHolds(rex, b);
    MailOwned(b, m);
    if m.address in b.table {
      MailToConnected(b, m);
    } else {
      MailToBox(b, m);
    }
  }

  lemma RequestKeeps(rex: Matcher, b: Broker, m: Message)
    requires Inv(rex, b) && m !in b.refs
    ensures Inv(rex, Request(rex, b, m))
  {
    var svc := ServiceOf(b.services, m.address);
    var s := Sent(rex, Bare(svc, b.serviceCfg), m).svc;
    SendConserves(rex, svc, b.serviceCfg, m);
    OneServiceOk(rex, b.services, m.address, s);
    ServePermutes(rex, svc.offers, m);
    OffersPermuted(b.net.clients, b.services, m.address, s);
    RequestOwned(rex, b, m);
    TableShrinks(b, Request(rex, b, m));
  }

  lemma RequestAll(rex: Matcher, b: Broker, c: Ptr, m: Message)
    requires Inv(rex, b) && Enabled(b, Event.ServiceSend(c, m))
    ensures Kept(rex, b, Event.ServiceSend(c, m))
  {
    hide Inv, Request;
    SaneHolds(rex, b);
    RequestKeeps(rex, b, m);
    assert React(rex, b, Event.ServiceSend(c, m)) == Request(rex, b, m);
  }

  lemma OfferKeepsAll(rex: Matcher, b: Broker, name: string, o: Offer)
    requires Inv(rex, b) && StreamNet.IsConnected(b.net, o.client)
    ensures Inv(rex, TakeOffer(rex, b, name, o))
  {
    ServiceStepOk(rex, ServiceOf(b.services, name), b.serviceCfg, MakeOffer(o));
    OneServiceOk(rex, b.services, name, TakeOffer(rex, b, name, o).services[name]);
    TakeOfferLive(rex, b, name, o);
    OfferOwned(rex, b, name, o);
    TableShrinks(b, TakeOffer(rex, b, name, o));
  }

  lemma OfferAll(rex: Matcher, b: Broker, c: Ptr, name: string, o: Offer)
    requires Inv(rex, b) && Enabled(b, Event.ServiceOffer(c, name, o))
    ensures Kept(rex, b, Event.ServiceOffer(c, name, o))
  {
    hide Inv, TakeOffer;
    SaneHolds(rex, b);
    OfferKeepsAll(rex, b, name, o);
    assert React(rex, b, Event.ServiceOffer(c, name, o)) == TakeOffer(rex, b, name, o);
  }

  lemma PublicationAll(rex: Matcher, b: Broker, s: nat)
    requires Inv(rex, b) && Enabled(b, Event.ActorMessage(s))
    ensures Kept(rex, b, Event.ActorMessage(s))
  {
    hide StreamSafety.Inv, Registry, OffersLive, MailInv, Owned, ServicesOk;
    SaneHolds(rex, b);
    PublicationCounted(b, s);
    StreamSafety.StepKeeps(rex, b.net, StreamNet.ActorMessage(s));
    PublicationOwned(rex, b, s);
    TableShrinks(b, ActorPublishes(rex, b, s));
  }

  lemma ForwardKeepsAll(rex: Matcher, b: Broker, s: nat)
    requires Inv(rex, b) && s < |b.net.streams| && b.net.streams[s].out != []
    ensures b.net.streams[s].out[0].client in b.net.clients && Inv(rex, Forwarded(b, s))
    ensures b.net.streams[s].out[0].Deliver? ==> b.net.streams[s].out[0].msg in b.refs
  {
    StreamSafety.ForwardKeeps(b.net, s);
    ForwardKeeps(b, s);
    DeliverOwned(b, s);
    if b.net.streams[s].out[0].Deliver? {
      DeliveryCounted(b, s);
    }
    TableShrinks(b, Forwarded(b, s));
  }

  lemma ForwardAll(rex: Matcher, b: Broker, s: nat)
    requires Inv(rex, b) && Enabled(b, Event.ServerForward(s))
    ensures Kept(rex, b, Event.ServerForward(s))
  {
    hide Inv, Forwarded;
    SaneHolds(rex, b);
    ForwardKeepsAll(rex, b, s);
    assert React(rex, b, Event.ServerForward(s)) == Forwarded(b, s);
  }

  lemma ConfigureAll(rex: Matcher, b: Broker, serviceCfg: Limits, boxCfg: Limits)
    requires Inv(rex, b)
    ensures Kept(rex, b, Event.Configure(serviceCfg, boxCfg))
  {
    SaneHolds(rex, b);
    TableShrinks(b, b.(serviceCfg := serviceCfg, boxCfg := boxCfg));
  }

  lemma StreamWriteAll(rex: Matcher, b: Broker, c: Ptr, name: string)
    requires Inv(rex, b) && Enabled(b, Event.StreamWrite(c, name))
    ensures Kept(rex, b, Event.StreamWrite(c, name))
  {
    SaneHolds(rex, b);
    QuietAll(rex, b, StreamNet.StreamWrite(c, name));
  }

  lemma StreamReadAll(rex: Matcher, b: Broker, c: Ptr, name: string, p: string)
    requires Inv(rex, b) && Enabled(b, Event.StreamRead(c, name, p))
    ensures Kept(rex, b, Event.StreamRead(c, name, p))
  {
    SaneHolds(rex, b);
    QuietAll(rex, b, StreamNet.StreamRead(c, name, p));
  }

  lemma StreamCancelAll(rex: Matcher, b: Broker, c: Ptr, name: string)
    requires Inv(rex, b) && Enabled(b, Event.StreamCancel(c, name)) && StreamSafety.CancelIsCovered(b.net, c, name)
    ensures Kept(rex, b, Event.StreamCancel(c, name))
  {
    SaneHolds(rex, b);
    QuietAll(rex, b, StreamNet.StreamCancel(c, name));
  }

  lemma ActorCommandAll(rex: Matcher, b: Broker, s: nat)
    requires Inv(rex, b) && Enabled(b, Event.ActorCommand(s))
    ensures Kept(rex, b, Event.ActorCommand(s))
  {
    SaneHolds(rex, b);
    QuietAll(rex, b, StreamNet.ActorCommand(s));
  }

  lemma LeaveAll(rex: Matcher, b: Broker, c: Ptr)
    requires Inv(rex, b) && Enabled(b, Event.Leave(c))
    ensures Kept(rex, b, Event.Leave(c))
  {
    hide Inv, Depart;
    SaneHolds(rex, b);
    DepartAll(rex, b, c);
    assert React(rex, b, Event.Leave(c)) == Depart(b, c);
  }

  /** STREAM SEND without a writer raises the exception event. */
  lemma SendWithoutWriterAll(rex: Matcher, b: Broker, c: Ptr, m: Message)
    requires Inv(rex, b) && Enabled(b, Event.StreamSend(c, m)) && b.net.clients[c].writer == None
    ensures Kept(rex, b, Event.StreamSend(c, m))
  {
    hide Inv, Depart;
    SaneHolds(rex, b);
    DepartAll(rex, b, c);
    assert React(rex, b, Event.StreamSend(c, m)) == Depart(b, c);
  }

  /** Every event that can be taken finds the state fit for it, and keeps all invariants. */
  lemma ReactKeeps(rex: Matcher, b: Broker, event: Event)
    requires Inv(rex, b) && Enabled(b, event) && Guard(b, event)
    ensures Ready(b, event) && Inv(rex, React(rex, b, event))
  {
    match event
    case Connect(c) => ConnectAll(rex, b, c);
    case Open(c, a) => OpenAll(rex, b, c, a);
    case StreamWrite(c, name) => StreamWriteAll(rex, b, c, name);
    case StreamRead(c, name, p) => StreamReadAll(rex, b, c, name, p);
    case StreamCancel(c, name) => StreamCancelAll(rex, b, c, name);
    case StreamSend(c, m) =>
      if b.net.clients[c].writer.Some? {
        PublishAll(rex, b, c, m);
      } else {
        SendWithoutWriterAll(rex, b, c, m);
      }
    case MailboxSend(c, m) => MailAll(rex, b, c, m);
    case ServiceSend(c, m) => RequestAll(rex, b, c, m);
    case ServiceOffer(c, name, o) => OfferAll(rex, b, c, name, o);
    case Leave(c) => LeaveAll(rex, b, c);
    case ActorCommand(s) => ActorCommandAll(rex, b, s);
    case ActorMessage(s) => PublicationAll(rex, b, s);
    case ServerForward(s) => ForwardAll(rex, b, s);
    case Configure(s, m) => ConfigureAll(rex, b, s, m);
  }

  // ---------------------------------------------------------------------------------------------
  // Runs

  datatype Outcome = Reached(b: Broker) | Failed | Blocked

  /** A run of the broker. It fails when an event finds the state unfit for it: a freed client or a
      freed message would be used, an owner in the table would be gone, or a byte count be wrong. */
  ghost function Exec(rex: Matcher, b: Broker, events: seq<Event>): Outcome
    decreases |events|
  {
    if events == [] then Reached(b)
    else if !Enabled(b, events[0]) then Blocked
    else if !Ready(b, events[0]) then Failed
    else Exec(rex, React(rex, b, events[0]), events[1..])
  }

  ghost predicate Guarded(rex: Matcher, b: Broker, events: seq<Event>)
    decreases |events|
  {
    events != [] && StreamNet.Shape(b.net) && Enabled(b, events[0]) && Ready(b, events[0]) ==>
      Guard(b, events[0]) && Guarded(rex, React(rex, b, events[0]), events[1..])
  }

  /** No run fails, and every invariant holds in every state it reaches. */
  lemma {:induction false} BrokerRunsAreSafe(rex: Matcher, b: Broker, events: seq<Event>)
    requires Inv(rex, b) && Guarded(rex, b, events)
    ensures !Exec(rex, b, events).Failed?
    ensures Exec(rex, b, events).Reached? ==> Inv(rex, Exec(rex, b, events).b)
    decreases |events|
  {
    if events != [] && Enabled(b, events[0]) {
      ReactKeeps(rex, b, events[0]);
      BrokerRunsAreSafe(rex, React(rex, b, events[0]), events[1..]);
    }
  }
}
