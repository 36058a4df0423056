/** Mailboxes inside the broker: a connected client's mailbox is empty, and mail to one address arrives
    in the order in which it was accepted, whether it waited or not. */
module BrokerMail {
  import opened Messages
  import opened Options
  import opened Queues
  import opened Selectors
  import opened Mailboxes
  import opened Broker
  import StreamNet
  import Sequences

  function ForAddress(ms: seq<Message>, a: string): seq<Message> {
    if ms == [] then [] else (if ms[0].address == a then [ms[0]] else []) + ForAddress(ms[1..], a)
  }

  predicate AllFor(ms: seq<Message>, a: string) {
    forall i :: 0 <= i < |ms| ==> ms[i].address == a
  }

  /** No mail waits for a connected client. */
  predicate NothingWaits(table: map<string, Ptr>, boxes: map<string, Queue>) {
    forall a :: a in table ==> BoxOf(boxes, a).items == []
  }

  predicate BoxesOk(boxes: map<string, Queue>) {
    AllExact(boxes) && forall a :: a in boxes ==> AllFor(boxes[a].items, a)
  }

  /** What was accepted for an address is what was delivered to it, followed by what waits for it. */
  predicate InOrderAt(b: Broker, a: string) {
    ForAddress(b.posted, a) == ForAddress(b.mailed, a) + BoxOf(b.boxes, a).items
  }

  ghost predicate MailInv(b: Broker) {
    BoxesOk(b.boxes) && NothingWaits(b.table, b.boxes) && forall a :: InOrderAt(b, a)
  }

  lemma {:induction false} ForAddressSplit(x: seq<Message>, y: seq<Message>, a: string)
    ensures ForAddress(x + y, a) == ForAddress(x, a) + ForAddress(y, a)
  {
    if x == [] {
      assert x + y == y;
    } else {
      assert (x + y)[1..] == x[1..] + y;
      ForAddressSplit(x[1..], y, a);
    }
  }

  lemma {:induction false} AllForAddress(ms: seq<Message>, a: string, d: string)
    requires AllFor(ms, a)
    ensures ForAddress(ms, d) == if d == a then ms else []
  {
    if ms != [] {
      AllForAddress(ms[1..], a, d);
    }
  }

  lemma {:induction false} EmptiedIsEmpty(q: Queue, cfg: Limits)
    requires Exact(q)
    ensures Emptied(q, cfg).items == [] && Exact(Emptied(q, cfg))
    decreases |q.items|
  {
    if q.items != [] {
      DequeueExact(q, Some(cfg), 0);
      EmptiedIsEmpty(Dequeue(q, Some(cfg), 0), cfg);
    }
  }

  /** Delivering all waiting mail keeps the order and leaves the box empty. */
  lemma EmptyBoxKeeps(b: Broker, address: string)
    requires BoxesOk(b.boxes) && forall a :: InOrderAt(b, a)
    ensures var r := EmptyBox(b, address);
            BoxesOk(r.boxes) && BoxOf(r.boxes, address).items == [] && forall a :: InOrderAt(r, a)
    ensures forall a :: a != address ==> BoxOf(EmptyBox(b, address).boxes, a) == BoxOf(b.boxes, a)
  {
    if address in b.boxes {
      EmptiedIsEmpty(b.boxes[address], b.boxCfg);
      forall a ensures InOrderAt(EmptyBox(b, address), a) {
        assert InOrderAt(b, a);
        EmptyBoxAt(b, address, a);
      }
    }
  }

  lemma EmptyBoxAt(b: Broker, address: string, a: string)
    requires BoxesOk(b.boxes) && address in b.boxes && InOrderAt(b, a)
    ensures InOrderAt(EmptyBox(b, address), a)
  {
    var q := b.boxes[address];
    EmptiedIsEmpty(q, b.boxCfg);
    ForAddressSplit(b.mailed, q.items, a);
    AllForAddress(q.items, address, a);
  }

  /** Mail for a connected client is delivered at once: nothing can wait in front of it. */
  lemma MailToConnected(b: Broker, m: Message)
    requires MailInv(b) && m.address in b.table
    ensures MailInv(Mail(b, m))
  {
    hide ForAddress, EmptyBox, BoxesOk;
    var d := b.(posted := b.posted + [m], mailed := b.mailed + [m]);
    forall a ensures InOrderAt(d, a) {
      assert InOrderAt(b, a);
      ForAddressSplit(b.posted, [m], a);
      ForAddressSplit(b.mailed, [m], a);
      AllForAddress([m], m.address, a);
      assert a == m.address ==> BoxOf(b.boxes, a).items == [];
    }
    EmptyBoxKeeps(d, m.address);
  }

  lemma MailToBox(b: Broker, m: Message)
    requires MailInv(b) && m.address !in b.table
    ensures MailInv(Mail(b, m))
  {
    StoreKeepsBoxes(b.boxes, b.boxCfg, b.table, m);
    forall a ensures InOrderAt(Mail(b, m), a) {
      assert InOrderAt(b, a);
      MailToBoxAt(b, m, a);
    }
  }

  lemma StoreKeepsBoxes(boxes: map<string, Queue>, cfg: Limits, table: map<string, Ptr>, m: Message)
    requires BoxesOk(boxes) && NothingWaits(table, boxes) && m.address !in table
    ensures BoxesOk(Store(boxes, cfg, m.address, m)) && NothingWaits(table, Store(boxes, cfg, m.address, m))
  {
    EnqueueExact(BoxOf(boxes, m.address), Some(cfg), m);
    assert AllFor(BoxOf(boxes, m.address).items + [m], m.address);
  }

  lemma MailToBoxAt(b: Broker, m: Message, a: string)
    requires AllExact(b.boxes) && m.address !in b.table && InOrderAt(b, a)
    ensures InOrderAt(Mail(b, m), a)
  {
    var r := Mail(b, m);
    if Fits(BoxOf(b.boxes, m.address), Some(b.boxCfg), m) {
      var waiting := BoxOf(b.boxes, a).items;
      assert BoxOf(r.boxes, a).items == if a == m.address then waiting + [m] else waiting;
      ForAddressSplit(b.posted, [m], a);
      AllForAddress([m], m.address, a);
      Sequences.Regroup(ForAddress(b.mailed, a), waiting, [m]);
    } else {
      assert BoxOf(r.boxes, a) == BoxOf(b.boxes, a);
    }
  }

  /** A client that leaves only makes the table smaller. */
  lemma TableShrinks(b: Broker, r: Broker)
    requires MailInv(b) && r.boxes == b.boxes && r.posted == b.posted && r.mailed == b.mailed
    requires forall a :: a in r.table ==> a in b.table
    ensures MailInv(r)
  {
    forall a ensures InOrderAt(r, a) {
      assert InOrderAt(b, a);
    }
  }

  lemma RegisterKeepsMail(b: Broker, c: Ptr, address: string)
    requires MailInv(b) && StreamNet.Shape(b.net) && c in b.net.clients
    requires address in b.table ==> b.table[address] in b.net.clients && b.table[address] != c
    ensures MailInv(Register(b, c, address))
  {
    hide ForAddress, EmptyBox, StreamNet.Terminate;
    var expired := if address != "" && address in b.table then Depart(b, b.table[address]) else b;
    TableShrinks(b, expired);
    var owned := expired.(net := OpenNet(expired.net, c, address),
                          table := if address != "" then expired.table[address := c] else expired.table);
    forall a ensures InOrderAt(owned, a) {
      assert InOrderAt(expired, a);
    }
    if address != "" {
      EmptyBoxKeeps(owned, address);
    }
  }
}
