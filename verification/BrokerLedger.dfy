/** The life of a message over a run of the broker: created where a client sends it, destroyed once. */
module BrokerLedger {
  import opened Messages
  import opened Options
  import opened Queues
  import opened Selectors
  import opened Offers
  import opened Services
  import opened Mailboxes
  import opened Broker
  import opened BrokerOwnership
  import BrokerSafety
  import Holders
  import StreamNet
  import StreamSafety

  /** mlm_msg_new is called for m while the event is handled. */
  predicate Creates(b: Broker, event: Event, m: Message)
    requires Enabled(b, event)
  {
    match event
    case StreamSend(c, x) => b.net.clients[c].writer.Some? && x == m
    case MailboxSend(c, x) => x == m
    case ServiceSend(c, x) => x == m
    case _ => false
  }

  /** m is allocated before or during the event, and not after it. */
  predicate Destroys(rex: Matcher, b: Broker, event: Event, m: Message)
    requires Enabled(b, event) && Ready(b, event)
  {
    (m in b.refs || Creates(b, event, m)) && m !in React(rex, b, event).refs
  }

  function Count(bit: bool): nat {
    if bit then 1 else 0
  }

  /** How often m is created over a run that gets to its end. */
  ghost function Created(rex: Matcher, b: Broker, events: seq<Event>, m: Message): nat
    requires BrokerSafety.Exec(rex, b, events).Reached?
    decreases |events|
  {
    if events == [] then 0
    else Count(Creates(b, events[0], m)) + Created(rex, React(rex, b, events[0]), events[1..], m)
  }

  ghost function Destroyed(rex: Matcher, b: Broker, events: seq<Event>, m: Message): nat
    requires BrokerSafety.Exec(rex, b, events).Reached?
    decreases |events|
  {
    if events == [] then 0
    else Count(Destroys(rex, b, events[0], m)) + Destroyed(rex, React(rex, b, events[0]), events[1..], m)
  }

  /** No event brings a message back: whatever is allocated afterwards was allocated before, or is created by it. */
  lemma NothingComesBack(rex: Matcher, b: Broker, event: Event, m: Message)
    requires Enabled(b, event) && Ready(b, event)
    ensures m in React(rex, b, event).refs ==> m in b.refs || Creates(b, event, m)
    ensures Creates(b, event, m) ==> m !in b.refs
  {
    hide StreamNet.Next, StreamNet.Publish, StreamNet.Forward, StreamNet.Terminate, Emptied, Drain, Store, Copies;
    if event.Open? {
      RegisterReleases(b, event.c, event.address, m);
    }
  }

  lemma RegisterReleases(b: Broker, c: Ptr, address: string, m: Message)
    requires StreamNet.Shape(b.net) && AllExact(b.boxes) && c in b.net.clients
    requires address in b.table ==> b.table[address] in b.net.clients && b.table[address] != c
    ensures m in Register(b, c, address).refs ==> m in b.refs
  {
    hide StreamNet.Terminate, Emptied;
  }

  /** Over every run, a message is destroyed exactly as often as it is created, but for being allocated at one end only:
      so each creation ends in at most one destruction, and in exactly one once the message is gone. */
  lemma {:induction false} EveryMessageDiesOnce(rex: Matcher, b: Broker, events: seq<Event>, m: Message)
    requires BrokerSafety.Exec(rex, b, events).Reached?
    ensures Count(m in b.refs) + Created(rex, b, events, m) ==
            Destroyed(rex, b, events, m) + Count(m in BrokerSafety.Exec(rex, b, events).b.refs)
    decreases |events|
  {
    hide React, Enabled, Ready, Creates;
    if events != [] {
      NothingComesBack(rex, b, events[0], m);
      EveryMessageDiesOnce(rex, React(rex, b, events[0]), events[1..], m);
    }
  }

  /** From the start of the broker: once neither a pipe nor a queue holds the message, it has been destroyed exactly
      once for each time it was created; while one holds it, once less. */
  lemma UnheldMeansDestroyed(rex: Matcher, events: seq<Event>, m: Message)
    requires BrokerSafety.Guarded(rex, INITIAL, events) && BrokerSafety.Exec(rex, INITIAL, events).Reached?
    ensures var b := BrokerSafety.Exec(rex, INITIAL, events).b;
            var held := m in Holders.HeldByStreams(b.net.streams) || m in Kept(b.services, b.boxes);
            Created(rex, INITIAL, events, m) == Destroyed(rex, INITIAL, events, m) + Count(held)
  {
    BrokerSafety.InitialHolds(rex);
    BrokerSafety.BrokerRunsAreSafe(rex, INITIAL, events);
    EveryMessageDiesOnce(rex, INITIAL, events, m);
    DestroyedExactlyWhenUnheld(BrokerSafety.Exec(rex, INITIAL, events).b, m);
  }
}
