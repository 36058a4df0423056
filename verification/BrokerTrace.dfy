/** The broker's mail, services, limits and streams, told from the events of a run (src/mlm_server.c:463-626, 737-768). */
module BrokerTraces {
  import opened Messages
  import opened Options
  import opened Queues
  import opened Selectors
  import opened Offers
  import opened Mailboxes
  import opened Broker
  import opened BrokerMail
  import opened BrokerOwnership
  import opened BrokerSafety
  import BrokerRegistry
  import Services
  import ServiceLedgers
  import StreamNet

  /** A run from a state with all invariants that gets to its end. */
  ghost predicate Runs(rex: Matcher, b: Broker, events: seq<Event>) {
    BrokerSafety.Inv(rex, b) && Guarded(rex, b, events) && Exec(rex, b, events).Reached?
  }

  /** Its first event, and the rest of it. */
  lemma RunsOn(rex: Matcher, b: Broker, events: seq<Event>)
    requires Runs(rex, b, events) && events != []
    ensures Enabled(b, events[0]) && Guard(b, events[0]) && Ready(b, events[0])
    ensures Runs(rex, React(rex, b, events[0]), events[1..])
    ensures Exec(rex, b, events) == Exec(rex, React(rex, b, events[0]), events[1..])
  {
    hide React, Enabled, Ready, BrokerSafety.Inv;
    SaneHolds(rex, b);
    ReactKeeps(rex, b, events[0]);
  }

  ghost function End(rex: Matcher, b: Broker, events: seq<Event>): Broker
    requires Runs(rex, b, events)
  {
    Exec(rex, b, events).b
  }

  // ---------------------------------------------------------------------------------------------
  // Limits

  /** The limits for services, or for mailboxes, of the last configuration. */
  function LimitsAfter(cfg: Limits, events: seq<Event>, services: bool): Limits
    decreases |events|
  {
    if events == [] then cfg
    else
      LimitsAfter(if !events[0].Configure? then cfg else if services then events[0].serviceCfg else events[0].boxCfg, events[1..], services)
  }

  lemma DepartFrame(b: Broker, c: Ptr)
    requires StreamNet.Shape(b.net) && c in b.net.clients
    ensures var r := Depart(b, c); r == b.(net := r.net, table := r.table, services := r.services)
  {
    hide StreamNet.Terminate;
  }

  lemma RegisterFrame(b: Broker, c: Ptr, address: string)
    requires StreamNet.Shape(b.net) && AllExact(b.boxes) && c in b.net.clients
    requires address in b.table ==> b.table[address] in b.net.clients && b.table[address] != c
    ensures var r := Register(b, c, address); r.serviceCfg == b.serviceCfg && r.boxCfg == b.boxCfg && r.posted == b.posted
  {
    hide Depart, Emptied;
    if address != "" && address in b.table {
      DepartFrame(b, b.table[address]);
    }
  }

  lemma MailFrame(b: Broker, m: Message)
    requires AllExact(b.boxes)
    ensures Mail(b, m).serviceCfg == b.serviceCfg && Mail(b, m).boxCfg == b.boxCfg
  {
    hide Emptied, Store;
  }

  /** What every event leaves alone, but for the handlers concerned with it. */
  lemma ReactFrame(rex: Matcher, b: Broker, event: Event)
    requires Enabled(b, event) && Ready(b, event)
    ensures var r := React(rex, b, event);
            && (!event.Configure? ==> r.serviceCfg == b.serviceCfg && r.boxCfg == b.boxCfg)
            && (!event.MailboxSend? ==> r.posted == b.posted)
            && (!event.MailboxSend? && !event.Open? ==> r.mailed == b.mailed)
  {
    hide StreamNet.Next, StreamNet.Forward, StreamNet.Publish, Copies, StreamNet.EngineMessage, Depart, Register, Mail, Request, TakeOffer, Evict;
    match event
    case Open(c, a) => RegisterFrame(b, c, a);
    case StreamSend(c, m) => if b.net.clients[c].writer.None? { DepartFrame(b, c); }
    case Leave(c) => DepartFrame(b, c);
    case MailboxSend(c, m) => MailFrame(b, m);
    case _ =>
  }

  lemma ReactLimits(rex: Matcher, b: Broker, event: Event)
    requires Enabled(b, event) && Ready(b, event)
    ensures var r := React(rex, b, event);
            && r.serviceCfg == (if event.Configure? then event.serviceCfg else b.serviceCfg)
            && r.boxCfg == (if event.Configure? then event.boxCfg else b.boxCfg)
  {
    if !event.Configure? {
      hide React, Enabled, Ready;
      ReactFrame(rex, b, event);
    }
  }

  lemma {:induction false} RunHasLimits(rex: Matcher, b: Broker, events: seq<Event>)
    requires Runs(rex, b, events)
    ensures End(rex, b, events).serviceCfg == LimitsAfter(b.serviceCfg, events, true)
    ensures End(rex, b, events).boxCfg == LimitsAfter(b.boxCfg, events, false)
    decreases |events|
  {
    hide Runs, React, Enabled, Ready;
    if events != [] {
      RunsOn(rex, b, events);
      ReactLimits(rex, b, events[0]);
      RunHasLimits(rex, React(rex, b, events[0]), events[1..]);
    }
  }

  // ---------------------------------------------------------------------------------------------
  // Mail

  /** The mail finds its address absent, and a finite limit that the waiting bytes and its own would exceed. */
  predicate Overflows(b: Broker, m: Message) {
    && m.address !in b.table && b.boxCfg.limit != 0xFFFF_FFFF_FFFF_FFFF
    && TotalSize(BoxOf(b.boxes, m.address).items) + m.size > b.boxCfg.limit
  }

  function MailOf(events: seq<Event>): seq<Message> {
    if events == [] then [] else (if events[0].MailboxSend? then [events[0].m] else []) + MailOf(events[1..])
  }

  /** The mail of the events, in order, without what overflows when its turn comes. */
  ghost function Survivors(rex: Matcher, b: Broker, events: seq<Event>): seq<Message>
    requires Runs(rex, b, events)
    decreases |events|
  {
    if events == [] then []
    else
      RunsOn(rex, b, events);
      (if events[0].MailboxSend? && !Overflows(b, events[0].m) then [events[0].m] else [])
      + Survivors(rex, React(rex, b, events[0]), events[1..])
  }

  lemma MailPosts(b: Broker, m: Message)
    requires AllExact(b.boxes)
    ensures Mail(b, m).posted == b.posted + if !Overflows(b, m) then [m] else []
  {
    hide Emptied, Store;
    assert Exact(BoxOf(b.boxes, m.address));
  }

  lemma ReactPosts(rex: Matcher, b: Broker, event: Event)
    requires Enabled(b, event) && Ready(b, event)
    ensures React(rex, b, event).posted == b.posted + if event.MailboxSend? && !Overflows(b, event.m) then [event.m] else []
  {
    hide Mail, Overflows;
    if event.MailboxSend? {
      MailPosts(b, event.m);
    } else {
      hide React, Enabled, Ready;
      ReactFrame(rex, b, event);
    }
  }

  lemma {:induction false} PostedAreSurvivors(rex: Matcher, b: Broker, events: seq<Event>)
    requires Runs(rex, b, events)
    ensures End(rex, b, events).posted == b.posted + Survivors(rex, b, events)
    decreases |events|
  {
    hide Runs, React, Enabled, Ready, Overflows;
    if events != [] {
      RunsOn(rex, b, events);
      ReactPosts(rex, b, events[0]);
      PostedAreSurvivors(rex, React(rex, b, events[0]), events[1..]);
    }
  }

  lemma StartRuns(rex: Matcher, events: seq<Event>)
    requires Guarded(rex, INITIAL, events) && Exec(rex, INITIAL, events).Reached?
    ensures Runs(rex, INITIAL, events)
  {
    InitialHolds(rex);
  }

  /** Over every run of the broker: the mail sent to an address, without what overflowed, is what was delivered to it,
      and then what waits for it. */
  lemma AllMailIsAccountedFor(rex: Matcher, events: seq<Event>, a: string)
    requires Runs(rex, INITIAL, events)
    ensures var b := End(rex, INITIAL, events);
            ForAddress(Survivors(rex, INITIAL, events), a) == ForAddress(b.mailed, a) + BoxOf(b.boxes, a).items
  {
    hide ForAddress, Survivors, Guarded, Exec;
    PostedAreSurvivors(rex, INITIAL, events);
    BrokerRunsAreSafe(rex, INITIAL, events);
    assert [] + Survivors(rex, INITIAL, events) == Survivors(rex, INITIAL, events);
    assert InOrderAt(End(rex, INITIAL, events), a);
  }

  predicate NeverLimited(events: seq<Event>) {
    forall i :: 0 <= i < |events| && events[i].Configure? ==> events[i].boxCfg.limit == 0xFFFF_FFFF_FFFF_FFFF
  }

  /** While mailboxes have no finite limit, no mail is missing. */
  lemma {:induction false} UnlimitedLosesNoMail(rex: Matcher, b: Broker, events: seq<Event>)
    requires Runs(rex, b, events) && b.boxCfg.limit == 0xFFFF_FFFF_FFFF_FFFF && NeverLimited(events)
    ensures Survivors(rex, b, events) == MailOf(events)
    decreases |events|
  {
    hide Runs, React, Enabled, Ready;
    if events != [] {
      RunsOn(rex, b, events);
      ReactLimits(rex, b, events[0]);
      assert NeverLimited(events[1..]);
      UnlimitedLosesNoMail(rex, React(rex, b, events[0]), events[1..]);
    }
  }

  /** Mail is delivered to an address only while it has an owner; while it has one, none waits (NothingWaits). */
  lemma MailWaitsForAnOwner(rex: Matcher, b: Broker, event: Event, a: string)
    requires BrokerSafety.Inv(rex, b) && Enabled(b, event) && Ready(b, event)
    ensures a !in React(rex, b, event).table ==> ForAddress(React(rex, b, event).mailed, a) == ForAddress(b.mailed, a)
  {
    hide ForAddress, BrokerRegistry.Registry, BrokerRegistry.OffersLive, Mail, Register;
    if a in React(rex, b, event).table {
    } else if event.MailboxSend? {
      MailMails(b, event.m, a);
    } else if event.Open? {
      RegisterMails(b, event.c, event.address, a);
    } else {
      ReactFrame(rex, b, event);
    }
  }

  lemma MailMails(b: Broker, m: Message, a: string)
    requires BoxesOk(b.boxes) && a !in b.table
    ensures ForAddress(Mail(b, m).mailed, a) == ForAddress(b.mailed, a)
  {
    hide ForAddress, EmptyBox, Store;
    if m.address in b.table {
      ForAddressSplit(b.mailed, [m], a);
      AllForAddress([m], m.address, a);
      EmptyBoxMails(b.(posted := b.posted + [m], mailed := b.mailed + [m]), m.address, a);
    }
  }

  lemma RegisterMails(b: Broker, c: Ptr, address: string, a: string)
    requires BoxesOk(b.boxes) && StreamNet.Shape(b.net) && c in b.net.clients
    requires address in b.table ==> b.table[address] in b.net.clients && b.table[address] != c
    requires a !in Register(b, c, address).table
    ensures ForAddress(Register(b, c, address).mailed, a) == ForAddress(b.mailed, a)
  {
    hide ForAddress, EmptyBox, Depart;
    if address != "" {
      var e := if address in b.table then Depart(b, b.table[address]) else b;
      if address in b.table {
        DepartFrame(b, b.table[address]);
      }
      EmptyBoxMails(e.(net := OpenNet(e.net, c, address), table := e.table[address := c]), address, a);
    }
  }

  lemma EmptyBoxMails(b: Broker, address: string, a: string)
    requires BoxesOk(b.boxes)
    ensures ForAddress(EmptyBox(b, address).mailed, a) ==
            ForAddress(b.mailed, a) + if a == address then BoxOf(b.boxes, address).items else []
  {
    if address in b.boxes {
      ForAddressSplit(b.mailed, b.boxes[address].items, a);
      AllForAddress(b.boxes[address].items, address, a);
    }
  }

  // ---------------------------------------------------------------------------------------------
  // Services

  /** The client that an event takes out of service. */
  function LeavesBy(b: Broker, event: Event): Option<Ptr> {
    match event
    case Leave(c) => Some(c)
    case StreamSend(c, _) => if c in b.net.clients && b.net.clients[c].writer.None? then Some(c) else None
    case Open(_, a) => if a != "" && a in b.table then Some(b.table[a]) else None
    case _ => None
  }

  /** What an event means for the service of one name. */
  function StepsFor(b: Broker, event: Event, name: string): seq<Services.Step> {
    if event.ServiceSend? then if event.m.address == name then [Services.Send(event.m)] else []
    else if event.ServiceOffer? then if event.name == name then [Services.MakeOffer(event.o)] else []
    else if event.Configure? then [Services.Reconfigure(event.serviceCfg)]
    else if LeavesBy(b, event).Some? then [Services.Withdraw(LeavesBy(b, event).value)]
    else []
  }

  ghost function StepsOf(rex: Matcher, b: Broker, events: seq<Event>, name: string): seq<Services.Step>
    requires Runs(rex, b, events)
    decreases |events|
  {
    if events == [] then []
    else RunsOn(rex, b, events); StepsFor(b, events[0], name) + StepsOf(rex, React(rex, b, events[0]), events[1..], name)
  }

  /** The history of a service that stands as the broker's service of that name does. */
  ghost predicate Stands(rex: Matcher, b: Broker, h: Services.History, name: string) {
    Services.Inv(rex, h) && h.svc == ServiceOf(b.services, name) && h.cfg == b.serviceCfg
  }

  lemma DepartServices(b: Broker, c: Ptr, name: string)
    requires StreamNet.Shape(b.net) && c in b.net.clients
    ensures var s := ServiceOf(b.services, name);
            ServiceOf(Depart(b, c).services, name) == s.(offers := Services.Withdrawn(s.offers, c))
  {
    hide StreamNet.Terminate;
  }

  /** Opening an address that nobody owns touches no service. */
  lemma RegisterServices(b: Broker, c: Ptr, address: string)
    requires StreamNet.Shape(b.net) && AllExact(b.boxes) && c in b.net.clients && (address == "" || address !in b.table)
    requires address in b.table ==> b.table[address] in b.net.clients && b.table[address] != c
    ensures Register(b, c, address).services == b.services
  {
    hide EmptyBox;
  }

  /** Events that are no concern of the service leave it as it is. */
  lemma OthersLeaveServices(rex: Matcher, b: Broker, event: Event)
    requires Enabled(b, event) && Ready(b, event) && LeavesBy(b, event).None? && !event.ServiceSend? && !event.ServiceOffer?
    ensures React(rex, b, event).services == b.services
  {
    hide StreamNet.Next, StreamNet.Forward, StreamNet.Publish, StreamNet.EngineMessage, Copies, Depart, Register, Mail, Request, TakeOffer,
         Evict, QueuedIsAllocated, AllServicesExact;
    if event.Open? {
      RegisterServices(b, event.c, event.address);
    }
  }

  lemma LeavingWithdraws(rex: Matcher, b: Broker, event: Event, name: string)
    requires Enabled(b, event) && Ready(b, event) && LeavesBy(b, event).Some?
    ensures var s := ServiceOf(b.services, name);
            ServiceOf(React(rex, b, event).services, name) == s.(offers := Services.Withdrawn(s.offers, LeavesBy(b, event).value))
  {
    hide Depart, EmptyBox, ServiceOf;
    DepartServices(b, LeavesBy(b, event).value, name);
  }

  lemma RequestServices(rex: Matcher, b: Broker, m: Message, h: Services.History, name: string)
    requires h.svc == ServiceOf(b.services, name) && h.cfg == b.serviceCfg
    ensures ServiceOf(Request(rex, b, m).services, name) == if m.address == name then Services.Sent(rex, h, m).svc else h.svc
  {
    hide Enqueue, Serve, Matched, Hand;
  }

  lemma OfferServices(rex: Matcher, b: Broker, n: string, o: Offer, h: Services.History, name: string)
    requires AllServicesExact(b.services) && Exact(h.svc.queue) && h.svc == ServiceOf(b.services, name) && h.cfg == b.serviceCfg
    ensures ServiceOf(TakeOffer(rex, b, n, o).services, name) ==
            if n == name then Services.Next(rex, h, Services.MakeOffer(o)).svc else h.svc
  {
    hide Services.Drain;
  }

  lemma OneStep(rex: Matcher, h: Services.History, step: Services.Step)
    requires Exact(h.svc.queue)
    ensures Services.Next(rex, h, step).cfg == if step.Reconfigure? then step.limits else h.cfg
  {
    hide Services.Drain;
  }

  /** One event is at most one step of the service. */
  lemma ReactServices(rex: Matcher, b: Broker, event: Event, h: Services.History, name: string)
    requires Enabled(b, event) && Ready(b, event) && Stands(rex, b, h, name)
    ensures var r := React(rex, b, event);
            var steps := StepsFor(b, event, name);
            && |steps| <= 1
            && ServiceOf(r.services, name) == (if steps == [] then h else Services.Next(rex, h, steps[0])).svc
            && r.serviceCfg == (if steps == [] then h else Services.Next(rex, h, steps[0])).cfg
  {
    hide Services.InSubjectOrder, Services.WorkConserving, ServiceOf, Request, TakeOffer, Exact;
    ReactLimits(rex, b, event);
    if StepsFor(b, event, name) != [] {
      OneStep(rex, h, StepsFor(b, event, name)[0]);
    }
    if event.ServiceSend? {
      RequestServices(rex, b, event.m, h, name);
    } else if event.ServiceOffer? {
      OfferServices(rex, b, event.name, event.o, h, name);
    } else {
      hide React, Enabled, Ready;
      if LeavesBy(b, event).Some? {
        LeavingWithdraws(rex, b, event, name);
      } else {
        OthersLeaveServices(rex, b, event);
      }
    }
  }

  lemma StepAfterStep(rex: Matcher, h: Services.History, steps: seq<Services.Step>, rest: seq<Services.Step>)
    requires Services.Inv(rex, h) && |steps| <= 1
    ensures Services.Inv(rex, if steps == [] then h else Services.Next(rex, h, steps[0]))
    ensures Services.Run(rex, h, steps + rest) == Services.Run(rex, if steps == [] then h else Services.Next(rex, h, steps[0]), rest)
  {
    if steps == [] {
      assert steps + rest == rest;
    } else {
      Services.StepKeeps(rex, h, steps[0]);
      assert (steps + rest)[1..] == rest;
    }
  }

  /** Over every run of the broker, each of its services stands where the steps that the events mean for it put it. */
  lemma {:induction false} ServicesFollowTheEvents(rex: Matcher, b: Broker, events: seq<Event>, h: Services.History, name: string)
    requires Runs(rex, b, events) && Stands(rex, b, h, name)
    ensures var r := End(rex, b, events);
            Stands(rex, r, Services.Run(rex, h, StepsOf(rex, b, events, name)), name)
    decreases |events|
  {
    hide Runs, React, Enabled, Ready, Services.Next, Services.InSubjectOrder, Services.WorkConserving, Services.Run, StepsFor;
    if events == [] {
      NoSteps(rex, h);
    } else {
      RunsOn(rex, b, events);
      var r, steps := React(rex, b, events[0]), StepsFor(b, events[0], name);
      ReactServices(rex, b, events[0], h, name);
      StepAfterStep(rex, h, steps, StepsOf(rex, r, events[1..], name));
      ServicesFollowTheEvents(rex, r, events[1..], if steps == [] then h else Services.Next(rex, h, steps[0]), name);
    }
  }

  lemma NoSteps(rex: Matcher, h: Services.History)
    requires Services.Inv(rex, h)
    ensures Services.Run(rex, h, []) == h
  {
  }

  /** So, in every run of the broker: the requests to a service with one subject, without those that overflowed, are
      those handed to offers and then those that wait, and its offers are those made and not withdrawn since. */
  lemma AllRequestsAreAccountedFor(rex: Matcher, events: seq<Event>, name: string, t: string)
    requires Runs(rex, INITIAL, events)
    ensures var s := ServiceOf(End(rex, INITIAL, events).services, name);
            var steps := StepsOf(rex, INITIAL, events, name);
            var unused := ServiceLedgers.Unused(INITIAL.serviceCfg);
            && Services.BySubject(ServiceLedgers.Survivors(rex, unused, steps), t) ==
               Services.BySubject(MessagesOf(Services.Run(rex, unused, steps).handed), t) + Services.BySubject(s.queue.items, t)
            && multiset(s.offers) == multiset(ServiceLedgers.OffersMade([], steps))
  {
    hide Runs, End, StepsOf, Services.BySubject, Services.Run, ServiceLedgers.Survivors, ServiceLedgers.OffersMade;
    var unused := ServiceLedgers.Unused(INITIAL.serviceCfg);
    var steps := StepsOf(rex, INITIAL, events, name);
    ServicesFollowTheEvents(rex, INITIAL, events, unused, name);
    ServiceLedgers.EveryRequestIsAccountedFor(rex, INITIAL.serviceCfg, steps, t);
    ServiceLedgers.OffersAreThoseMade(rex, unused, [], steps);
  }

  // ---------------------------------------------------------------------------------------------
  // Streams

  /** What an event means for the stream net. */
  function NetSteps(b: Broker, event: Event): seq<StreamNet.Step> {
    match event
    case Connect(c) => [StreamNet.Connect(c)]
    case Open(c, a) => (if a != "" && a in b.table then [StreamNet.Leave(b.table[a])] else []) + [StreamNet.Step.Open(c, a)]
    case StreamWrite(c, name) => [StreamNet.StreamWrite(c, name)]
    case StreamRead(c, name, p) => [StreamNet.StreamRead(c, name, p)]
    case StreamCancel(c, name) => [StreamNet.StreamCancel(c, name)]
    case StreamSend(c, m) => [StreamNet.StreamSend(c, m)]
    case Leave(c) => [StreamNet.Leave(c)]
    case ActorCommand(s) => [StreamNet.ActorCommand(s)]
    case ActorMessage(s) => [StreamNet.ActorMessage(s)]
    case ServerForward(s) => [StreamNet.ServerForward(s)]
    case _ => []
  }

  ghost function NetRun(rex: Matcher, b: Broker, events: seq<Event>): seq<StreamNet.Step>
    requires Runs(rex, b, events)
    decreases |events|
  {
    if events == [] then []
    else RunsOn(rex, b, events); NetSteps(b, events[0]) + NetRun(rex, React(rex, b, events[0]), events[1..])
  }

  lemma OneNetStep(rex: Matcher, net: Net, step: StreamNet.Step, rest: seq<StreamNet.Step>)
    requires StreamNet.Shape(net) && StreamNet.Enabled(net, step) && !StreamNet.PopsFreedClient(net, step)
    ensures StreamNet.Exec(rex, net, [step] + rest) == StreamNet.Exec(rex, StreamNet.Next(rex, net, step), rest)
  {
    assert ([step] + rest)[1..] == rest;
  }

  lemma ReactNet(rex: Matcher, b: Broker, event: Event, rest: seq<StreamNet.Step>)
    requires BrokerRegistry.Registry(b.net.clients, b.table) && Enabled(b, event) && Ready(b, event)
    ensures StreamNet.Shape(React(rex, b, event).net)
    ensures StreamNet.Exec(rex, b.net, NetSteps(b, event) + rest) == StreamNet.Exec(rex, React(rex, b, event).net, rest)
  {
    hide StreamNet.Exec, BrokerRegistry.Registry;
    if event.Open? && event.address != "" && event.address in b.table {
      TakeOverNet(rex, b, event.c, event.address, rest);
    } else if NetSteps(b, event) == [] {
      NoNetStep(rex, b, event);
      assert [] + rest == rest;
    } else {
      SameNetStep(rex, b, event);
      OneNetStep(rex, b.net, NetSteps(b, event)[0], rest);
    }
  }

  lemma NoNetStep(rex: Matcher, b: Broker, event: Event)
    requires Enabled(b, event) && Ready(b, event) && NetSteps(b, event) == []
    ensures React(rex, b, event).net == b.net
  {
    hide Services.Drain, Emptied, Store;
  }

  lemma SameNetStep(rex: Matcher, b: Broker, event: Event)
    requires Enabled(b, event) && Ready(b, event) && NetSteps(b, event) != []
    requires event.Open? ==> event.address == "" || event.address !in b.table
    ensures var steps := NetSteps(b, event);
            && steps == [steps[0]] && StreamNet.Enabled(b.net, steps[0]) && !StreamNet.PopsFreedClient(b.net, steps[0])
            && React(rex, b, event).net == StreamNet.Next(rex, b.net, steps[0])
  {
    hide StreamNet.StoreWriter, StreamNet.StoreReader, StreamNet.CancelReader, StreamNet.Terminate, StreamNet.Forward,
         StreamNet.Publish, StreamNet.EngineCommand, StreamNet.EngineMessage, Emptied, Copies, Evict;
  }

  lemma TakeOverNet(rex: Matcher, b: Broker, c: Ptr, a: string, rest: seq<StreamNet.Step>)
    requires BrokerRegistry.Registry(b.net.clients, b.table) && Enabled(b, Event.Open(c, a)) && Ready(b, Event.Open(c, a)) && a != "" && a in b.table
    ensures StreamNet.Shape(React(rex, b, Event.Open(c, a)).net)
    ensures StreamNet.Exec(rex, b.net, NetSteps(b, Event.Open(c, a)) + rest) == StreamNet.Exec(rex, React(rex, b, Event.Open(c, a)).net, rest)
  {
    hide StreamNet.Exec, StreamNet.CancelEach, Emptied, Store;
    var d, open := b.table[a], StreamNet.Step.Open(c, a);
    assert NetSteps(b, Event.Open(c, a)) + rest == [StreamNet.Leave(d)] + ([open] + rest);
    OneNetStep(rex, b.net, StreamNet.Leave(d), [open] + rest);
    OneNetStep(rex, StreamNet.Terminate(b.net, d), open, rest);
  }

  /** Over every run of the broker its streams and clients go through a run of the stream net, so that everything said of
      such runs holds of them. */
  lemma {:induction false} NetFollowsTheEvents(rex: Matcher, b: Broker, events: seq<Event>)
    requires Runs(rex, b, events)
    ensures StreamNet.Shape(b.net) && StreamNet.Exec(rex, b.net, NetRun(rex, b, events)) == StreamNet.Reached(End(rex, b, events).net)
    decreases |events|
  {
    SaneHolds(rex, b);
    hide Runs, React, Enabled, Ready, NetSteps;
    if events != [] {
      RunsOn(rex, b, events);
      InvOf(rex, b, events);
      var r := React(rex, b, events[0]);
      ReactNet(rex, b, events[0], NetRun(rex, r, events[1..]));
      NetFollowsTheEvents(rex, r, events[1..]);
    }
  }

  lemma InvOf(rex: Matcher, b: Broker, events: seq<Event>)
    requires Runs(rex, b, events)
    ensures BrokerSafety.Inv(rex, b)
  {
  }
}
