/** The whole broker as one state machine: client contexts and streams, the address table, services,
    mailboxes, and the counters of all messages (src/mlm_server.c, src/mlm_server_engine.inc). */
module Broker {
  import opened Messages
  import opened Options
  import opened Queues
  import opened Selectors
  import opened Offers
  import opened Services
  import opened Mailboxes
  import StreamNet

  type Net = StreamNet.Net
  type Client = StreamNet.Client

  /** `posted` and `mailed` record what was accepted for mailboxes and what was delivered from them. */
  datatype Broker = Broker(net: Net, table: map<string, Ptr>, services: map<string, Service>, boxes: map<string, Queue>,
                           serviceCfg: Limits, boxCfg: Limits, refs: multiset<Message>,
                           posted: seq<Message>, mailed: seq<Message>)

  datatype Event =
    | Connect(c: Ptr)
    | Open(c: Ptr, address: string)
    | StreamWrite(c: Ptr, name: string)
    | StreamRead(c: Ptr, name: string, pattern: string)
    | StreamCancel(c: Ptr, name: string)
    | StreamSend(c: Ptr, m: Message)
    | MailboxSend(c: Ptr, m: Message)
    | ServiceSend(c: Ptr, m: Message)
    | ServiceOffer(c: Ptr, name: string, o: Offer)
    | Leave(c: Ptr)
    | ActorCommand(s: nat)
    | ActorMessage(s: nat)
    | ServerForward(s: nat)
    | Configure(serviceCfg: Limits, boxCfg: Limits)

  // ---------------------------------------------------------------------------------------------
  // Registration and departure

  /** zhashx_delete on the address table, for a client that has a non-empty address. */
  function Evict(table: map<string, Ptr>, address: Option<string>): map<string, Ptr> {
    if address.Some? && address.value != "" then table - {address.value} else table
  }

  function WithoutOffersOf(services: map<string, Service>, c: Ptr): map<string, Service> {
    map name | name in services :: services[name].(offers := Withdrawn(services[name].offers, c))
  }

  /** deregister_the_client and terminate; client_terminate runs when the context is freed at once. */
  function Depart(b: Broker, c: Ptr): Broker
    requires StreamNet.Shape(b.net) && c in b.net.clients
  {
    var cl := b.net.clients[c];
    var table := Evict(b.table, cl.address);
    b.(net := StreamNet.Terminate(b.net, c),
       table := if cl.refcount == 0 then Evict(table, StreamNet.Deregistered(cl).address) else table,
       services := WithoutOffersOf(b.services, c))
  }

  /** The repeated QUERY of check_for_mailbox_messages: every waiting message is delivered. */
  function Emptied(q: Queue, cfg: Limits): Queue
    requires Exact(q)
    decreases |q.items|
  {
    if q.items == [] then q
    else DequeueExact(q, Some(cfg), 0); Emptied(Dequeue(q, Some(cfg), 0), cfg)
  }

  function EmptyBox(b: Broker, address: string): (r: Broker)
    requires AllExact(b.boxes)
    ensures r.net == b.net && r.table == b.table && r.services == b.services
  {
    if address !in b.boxes then b
    else
      var q := b.boxes[address];
      b.(boxes := b.boxes[address := Emptied(q, b.boxCfg)], mailed := b.mailed + q.items,
         refs := b.refs - multiset(q.items))
  }

  /** CONNECTION OPEN: register_new_client, which first expires the current owner of the address, then
      check_for_mailbox_messages. */
  function Register(b: Broker, c: Ptr, address: string): Broker
    requires StreamNet.Shape(b.net) && AllExact(b.boxes) && c in b.net.clients
    requires address in b.table ==> b.table[address] in b.net.clients && b.table[address] != c
  {
    var expired := if address != "" && address in b.table then Depart(b, b.table[address]) else b;
    var owned := expired.(net := OpenNet(expired.net, c, address),
                           table := if address != "" then expired.table[address := c] else expired.table);
    if address != "" then EmptyBox(owned, address) else owned
  }

  function OpenNet(net: Net, c: Ptr, address: string): Net {
    if c in net.clients then
      net.(clients := net.clients[c := net.clients[c].(phase := StreamNet.Connected, address := Some(address))])
    else net
  }

  // ---------------------------------------------------------------------------------------------
  // Messages

  /** write_message_to_mailbox: to the connected owner of the address, else into its mailbox. */
  function Mail(b: Broker, m: Message): (r: Broker)
    requires AllExact(b.boxes)
    ensures r.net == b.net && r.table == b.table && r.services == b.services
  {
    if m.address in b.table then
      EmptyBox(b.(posted := b.posted + [m], mailed := b.mailed + [m]), m.address)
    else if Fits(BoxOf(b.boxes, m.address), Some(b.boxCfg), m) then
      b.(boxes := Store(b.boxes, b.boxCfg, m.address, m), posted := b.posted + [m], refs := b.refs + multiset{m})
    else b.(boxes := Store(b.boxes, b.boxCfg, m.address, m))
  }

  function ServiceOf(services: map<string, Service>, name: string): Service {
    if name in services then services[name] else IDLE
  }

  /** write_message_to_service. */
  function Request(rex: Matcher, b: Broker, m: Message): (r: Broker)
    ensures r == b.(services := r.services, refs := r.refs)
  {
    var svc := ServiceOf(b.services, m.address);
    var r := Sent(rex, History(svc, b.serviceCfg, [], []), m);
    b.(services := b.services[m.address := r.svc],
       refs := if r.svc.queue.items == svc.queue.items then b.refs else b.refs + multiset{m})
  }

  predicate AllServicesExact(services: map<string, Service>) {
    forall name :: name in services ==> Exact(services[name].queue)
  }

  /** SERVICE OFFER: store_service_offer, then dispatch_the_service. */
  function TakeOffer(rex: Matcher, b: Broker, name: string, o: Offer): (r: Broker)
    requires AllServicesExact(b.services)
    ensures r == b.(services := r.services, refs := r.refs)
  {
    var svc := ServiceOf(b.services, name);
    var (s, handed) := Drain(rex, svc.(offers := svc.offers + [o]), b.serviceCfg, 0);
    b.(services := b.services[name := s], refs := b.refs - multiset(MessagesOf(handed)))
  }

  // ---------------------------------------------------------------------------------------------
  // Steps of the stream actors and their pipes

  /** A publication taken by the actor: one reference for each copy, minus its own. */
  function ActorPublishes(rex: Matcher, b: Broker, s: nat): Broker
    requires s < |b.net.streams| && b.net.streams[s].pub != [] && b.net.streams[s].pub[0].msg in b.refs
  {
    var st := b.net.streams[s];
    var m := st.pub[0].msg;
    b.(net := b.net.(streams := b.net.streams[s := StreamNet.EngineMessage(rex, st)]),
       refs := b.refs[m := b.refs[m] - 1 + |Copies(rex, st.selectors, st.pub[0].sender, m)|])
  }

  /** s_forward_stream_traffic: an ACK may free the client, whose client_terminate then runs; a message
      is delivered, or dropped for a zombie, and gives back its reference either way. */
  function Forwarded(b: Broker, s: nat): Broker
    requires StreamNet.Shape(b.net) && s < |b.net.streams| && b.net.streams[s].out != []
    requires b.net.streams[s].out[0].client in b.net.clients
  {
    var o := b.net.streams[s].out[0];
    var net := StreamNet.Forward(b.net, s);
    b.(net := net,
       table := if o.client in net.clients then b.table else Evict(b.table, b.net.clients[o.client].address),
       refs := if o.Deliver? then b.refs - multiset{o.msg} else b.refs)
  }

  // ---------------------------------------------------------------------------------------------
  // One event

  /** Messages are created at an unused address; offers are made by the client that sends them. */
  predicate Enabled(b: Broker, event: Event) {
    match event
    case Connect(c) => StreamNet.Enabled(b.net, StreamNet.Connect(c))
    case Open(c, a) => StreamNet.Enabled(b.net, StreamNet.Step.Open(c, a))
    case StreamWrite(c, name) => StreamNet.Enabled(b.net, StreamNet.StreamWrite(c, name))
    case StreamRead(c, name, p) => StreamNet.Enabled(b.net, StreamNet.StreamRead(c, name, p))
    case StreamCancel(c, name) => StreamNet.Enabled(b.net, StreamNet.StreamCancel(c, name))
    case StreamSend(c, m) => StreamNet.Enabled(b.net, StreamNet.StreamSend(c, m)) && m !in b.refs
    case MailboxSend(c, m) => StreamNet.IsConnected(b.net, c) && m !in b.refs
    case ServiceSend(c, m) => StreamNet.IsConnected(b.net, c) && m !in b.refs
    case ServiceOffer(c, name, o) => StreamNet.IsConnected(b.net, c) && o.client == c
    case Leave(c) => StreamNet.Enabled(b.net, StreamNet.Leave(c))
    case ActorCommand(s) => StreamNet.Enabled(b.net, StreamNet.ActorCommand(s))
    case ActorMessage(s) => StreamNet.Enabled(b.net, StreamNet.ActorMessage(s))
    case ServerForward(s) => StreamNet.Enabled(b.net, StreamNet.ServerForward(s))
    case Configure(_, _) => true
  }

  /** Every queued message is allocated, with a reference for each place it waits in. */
  predicate QueuedIsAllocated(services: map<string, Service>, boxes: map<string, Queue>, refs: multiset<Message>) {
    && (forall name :: name in services ==> multiset(services[name].queue.items) <= refs)
    && (forall a :: a in boxes ==> multiset(boxes[a].items) <= refs)
  }

  /** What the data structures must satisfy for an event to make sense: the clients and the messages it touches
      are allocated, and indices and byte counts are right. */
  predicate Ready(b: Broker, event: Event)
    requires Enabled(b, event)
  {
    && StreamNet.Shape(b.net) && AllExact(b.boxes) && AllServicesExact(b.services)
    && (event.ServerForward? ==> b.net.streams[event.s].out[0].client in b.net.clients)
    && (event.Open? && event.address in b.table ==> b.table[event.address] in b.net.clients && b.table[event.address] != event.c)
    && (event.ActorMessage? ==> b.net.streams[event.s].pub[0].msg in b.refs)
    && (event.ServerForward? && b.net.streams[event.s].out[0].Deliver? ==> b.net.streams[event.s].out[0].msg in b.refs)
    && (event.Open? || event.MailboxSend? || event.ServiceOffer? ==> QueuedIsAllocated(b.services, b.boxes, b.refs))
  }

  function React(rex: Matcher, b: Broker, event: Event): Broker
    requires Enabled(b, event) && Ready(b, event)
  {
    match event
    case Connect(c) => b.(net := StreamNet.Next(rex, b.net, StreamNet.Connect(c)))
    case Open(c, a) => Register(b, c, a)
    case StreamWrite(c, name) => b.(net := StreamNet.Next(rex, b.net, StreamNet.StreamWrite(c, name)))
    case StreamRead(c, name, p) => b.(net := StreamNet.Next(rex, b.net, StreamNet.StreamRead(c, name, p)))
    case StreamCancel(c, name) => b.(net := StreamNet.Next(rex, b.net, StreamNet.StreamCancel(c, name)))
    case StreamSend(c, m) =>
      if b.net.clients[c].writer.Some? then
        b.(net := StreamNet.Publish(b.net, c, m), refs := b.refs + multiset{m})
      else Depart(b, c)
    case MailboxSend(c, m) => Mail(b, m)
    case ServiceSend(c, m) => Request(rex, b, m)
    case ServiceOffer(c, name, o) => TakeOffer(rex, b, name, o)
    case Leave(c) => Depart(b, c)
    case ActorCommand(s) => b.(net := StreamNet.Next(rex, b.net, StreamNet.ActorCommand(s)))
    case ActorMessage(s) => ActorPublishes(rex, b, s)
    case ServerForward(s) => Forwarded(b, s)
    case Configure(serviceCfg, boxCfg) => b.(serviceCfg := serviceCfg, boxCfg := boxCfg)
  }

  const INITIAL := Broker(StreamNet.INITIAL, map[], map[], map[], Limits(UNLIMITED, UNLIMITED),
                          Limits(UNLIMITED, UNLIMITED), multiset{}, [], [])
}
