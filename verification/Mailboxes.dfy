/** The mailbox engine (src/mlm_mailbox_bounded.c): a table of bounded queues by address. */
module Mailboxes {
  import opened Messages
  import opened MsgQueues
  import opened Options
  import opened Queues
  import opened ZLists

  // ---------------------------------------------------------------------------------------------
  // The engine as values

  function BoxOf(boxes: map<string, Queue>, address: string): Queue {
    if address in boxes then boxes[address] else EMPTY
  }

  function Store(boxes: map<string, Queue>, cfg: Limits, address: string, m: Message): map<string, Queue> {
    boxes[address := Enqueue(BoxOf(boxes, address), Some(cfg), m)]
  }

  predicate AllExact(boxes: map<string, Queue>) {
    forall a :: a in boxes ==> Exact(boxes[a])
  }

  /** QUERY: the oldest message of that address, or none. */
  function Query(boxes: map<string, Queue>, cfg: Limits, address: string): (r: (map<string, Queue>, Option<Message>))
    requires AllExact(boxes)
  {
    if BoxOf(boxes, address).items == [] then (boxes, None)
    else
      DequeueExact(boxes[address], Some(cfg), 0);
      (boxes[address := Dequeue(boxes[address], Some(cfg), 0)], Some(boxes[address].items[0]))
  }

  // ---------------------------------------------------------------------------------------------
  // Runs: every mailbox is a first-in first-out queue that only loses what did not fit

  datatype Command = STORE(address: string, m: Message) | QUERY(address: string) | CONFIGURE(limits: Limits)

  /** The engine with its history for one address: what it has accepted and what it has answered. */
  datatype Watched = Watched(boxes: map<string, Queue>, cfg: Limits, accepted: seq<Message>, answered: seq<Message>)

  function Handle(w: Watched, address: string, cmd: Command): Watched
    requires AllExact(w.boxes)
  {
    match cmd
    case STORE(a, m) =>
      w.(boxes := Store(w.boxes, w.cfg, a, m),
         accepted := if a == address && Fits(BoxOf(w.boxes, a), Some(w.cfg), m) then w.accepted + [m] else w.accepted)
    case QUERY(a) =>
      var (boxes, res) := Query(w.boxes, w.cfg, a);
      w.(boxes := boxes, answered := if a == address && res.Some? then w.answered + [res.value] else w.answered)
    case CONFIGURE(limits) => w.(cfg := limits)
  }

  /** The mailbox holds what was accepted and not yet answered, in order, with its exact size. */
  predicate Fifo(w: Watched, address: string) {
    AllExact(w.boxes) && w.accepted == w.answered + BoxOf(w.boxes, address).items
  }

  lemma HandleKeepsFifo(w: Watched, address: string, cmd: Command)
    requires Fifo(w, address)
    ensures Fifo(Handle(w, address, cmd), address)
  {
    match cmd
    case STORE(a, m) => StoreKeepsFifo(w, address, a, m);
    case QUERY(a) => QueryKeepsFifo(w, address, a);
    case CONFIGURE(limits) =>
  }

  lemma StoreExact(boxes: map<string, Queue>, cfg: Limits, a: string, m: Message)
    requires AllExact(boxes)
    ensures AllExact(Store(boxes, cfg, a, m))
  {
    hide Enqueue, Exact;
    assert Exact(EMPTY) by { EmptyExact(); }
    EnqueueExact(BoxOf(boxes, a), Some(cfg), m);
  }

  lemma EmptyExact()
    ensures Exact(EMPTY)
  {
  }

  lemma StoreKeepsFifo(w: Watched, address: string, a: string, m: Message)
    requires Fifo(w, address)
    ensures Fifo(Handle(w, address, STORE(a, m)), address)
  {
    hide AllExact, Exact, Fits;
    StoreExact(w.boxes, w.cfg, a, m);
    var items := BoxOf(w.boxes, address).items;
    assert w.answered + (items + [m]) == w.answered + items + [m];
  }

  lemma QueryKeepsFifo(w: Watched, address: string, a: string)
    requires Fifo(w, address)
    ensures Fifo(Handle(w, address, QUERY(a)), address)
  {
    hide Exact;
    var items := BoxOf(w.boxes, a).items;
    if items != [] {
      DequeueExact(w.boxes[a], Some(w.cfg), 0);
      assert Without(items, 0) == items[1..];
      assert w.answered + ([items[0]] + items[1..]) == w.answered + [items[0]] + items[1..];
    }
  }

  function HandleAll(w: Watched, address: string, cmds: seq<Command>): Watched
    requires Fifo(w, address)
    decreases |cmds|
  {
    if cmds == [] then w
    else HandleKeepsFifo(w, address, cmds[0]); HandleAll(Handle(w, address, cmds[0]), address, cmds[1..])
  }

  /** Over any run of STORE, QUERY and CONFIGURE, each address sees its accepted messages in order. */
  lemma {:induction false} MailboxesAreFifo(w: Watched, address: string, cmds: seq<Command>)
    requires Fifo(w, address)
    ensures Fifo(HandleAll(w, address, cmds), address)
    decreases |cmds|
  {
    if cmds != [] {
      HandleKeepsFifo(w, address, cmds[0]);
      MailboxesAreFifo(Handle(w, address, cmds[0]), address, cmds[1..]);
    }
  }

  /** A STORE that a finite limit keeps out: the bytes that wait and its own would exceed it. */
  predicate Overflows(w: Watched, a: string, m: Message) {
    w.cfg.limit != 0xFFFF_FFFF_FFFF_FFFF && TotalSize(BoxOf(w.boxes, a).items) + m.size > w.cfg.limit
  }

  function StoredBy(w: Watched, address: string, cmd: Command): seq<Message> {
    if cmd.STORE? && cmd.address == address && !Overflows(w, address, cmd.m) then [cmd.m] else []
  }

  function FoundBy(w: Watched, address: string, cmd: Command): nat {
    if cmd == QUERY(address) && BoxOf(w.boxes, address).items != [] then 1 else 0
  }

  /** The messages that the commands store for an address, without those that overflow. */
  ghost function Stored(w: Watched, address: string, cmds: seq<Command>): seq<Message>
    requires Fifo(w, address)
    decreases |cmds|
  {
    if cmds == [] then []
    else
      HandleKeepsFifo(w, address, cmds[0]);
      StoredBy(w, address, cmds[0]) + Stored(Handle(w, address, cmds[0]), address, cmds[1..])
  }

  /** How many of the commands find mail waiting for the address they ask for. */
  ghost function Found(w: Watched, address: string, cmds: seq<Command>): nat
    requires Fifo(w, address)
    decreases |cmds|
  {
    if cmds == [] then 0
    else
      HandleKeepsFifo(w, address, cmds[0]);
      FoundBy(w, address, cmds[0]) + Found(Handle(w, address, cmds[0]), address, cmds[1..])
  }

  lemma {:induction false} CommandsAreCounted(w: Watched, address: string, cmds: seq<Command>)
    requires Fifo(w, address)
    ensures HandleAll(w, address, cmds).accepted == w.accepted + Stored(w, address, cmds)
    ensures |HandleAll(w, address, cmds).answered| == |w.answered| + Found(w, address, cmds)
    decreases |cmds|
  {
    hide StoredBy, FoundBy, Handle, BoxOf, Exact;
    if cmds != [] {
      HandleKeepsFifo(w, address, cmds[0]);
      OneCommandCounted(w, address, cmds[0]);
      CommandsAreCounted(Handle(w, address, cmds[0]), address, cmds[1..]);
    }
  }

  lemma OneCommandCounted(w: Watched, address: string, cmd: Command)
    requires Fifo(w, address)
    ensures var r := Handle(w, address, cmd);
            r.accepted == w.accepted + StoredBy(w, address, cmd) && |r.answered| == |w.answered| + FoundBy(w, address, cmd)
  {
    hide Dequeue, Store;
    if cmd.STORE? {
      assert Exact(BoxOf(w.boxes, cmd.address));
    }
  }

  /** Over any run of a new engine: what was stored for an address, without what overflowed, is what was answered, one
      message for each QUERY that found any, and then what waits. */
  lemma AllMailIsAccountedFor(cfg: Limits, address: string, cmds: seq<Command>)
    ensures var w := Watched(map[], cfg, [], []);
            var r := HandleAll(w, address, cmds);
            && Stored(w, address, cmds) == r.answered + BoxOf(r.boxes, address).items
            && |r.answered| == Found(w, address, cmds)
  {
    var w := Watched(map[], cfg, [], []);
    MailboxesAreFifo(w, address, cmds);
    CommandsAreCounted(w, address, cmds);
    assert [] + Stored(w, address, cmds) == Stored(w, address, cmds);
  }

  /** STORE and QUERY keep a mailbox within a limit that does not change, and warn with hysteresis. */
  lemma HandleKeepsBounds(w: Watched, address: string, cmd: Command)
    requires AllExact(w.boxes) && !cmd.CONFIGURE?
    requires forall a :: a in w.boxes ==> Bounded(w.boxes[a], w.cfg)
    ensures forall a :: a in Handle(w, address, cmd).boxes ==> Bounded(Handle(w, address, cmd).boxes[a], w.cfg)
  {
    match cmd
    case STORE(a, m) => ApplyBounded(BoxOf(w.boxes, a), w.cfg, Put(m));
    case QUERY(a) =>
      if BoxOf(w.boxes, a).items != [] {
        ApplyBounded(w.boxes[a], w.cfg, Take(0));
      }
  }

  /** Hence, while the limits do not change, every mailbox stays within them over any run. */
  lemma {:induction false} MailboxesStayBounded(w: Watched, address: string, cmds: seq<Command>)
    requires Fifo(w, address) && forall i :: 0 <= i < |cmds| ==> !cmds[i].CONFIGURE?
    requires forall a :: a in w.boxes ==> Bounded(w.boxes[a], w.cfg)
    ensures var r := HandleAll(w, address, cmds); r.cfg == w.cfg && forall a :: a in r.boxes ==> Bounded(r.boxes[a], r.cfg)
    decreases |cmds|
  {
    if cmds != [] {
      HandleKeepsFifo(w, address, cmds[0]);
      HandleKeepsBounds(w, address, cmds[0]);
      MailboxesStayBounded(Handle(w, address, cmds[0]), address, cmds[1..]);
    }
  }

  lemma OneChange(was: map<string, Queue>, now: map<string, Queue>, address: string)
    requires address in now && now.Keys == was.Keys + {address}
    requires forall a :: a in was && a != address ==> now[a] == was[a]
    ensures now == was[address := now[address]]
  {
  }

  // ---------------------------------------------------------------------------------------------
  // The engine as an actor

  class MailboxEngine {
    const cfg: MsgQCfg
    const heap: MsgHeap
    var mailboxes: map<string, MsgQ>
    // the address of each queue and of each list, so that no two mailboxes share one
    ghost var queues: map<MsgQ, string>
    ghost var lists: map<ZList<Message>, string>

    ghost predicate Valid()
      reads this, queues.Keys, lists.Keys
    {
      forall a :: a in mailboxes ==>
        var q := mailboxes[a];
        && q in queues && queues[q] == a && q.queue in lists && lists[q.queue] == a
        && q.cfg == cfg && q.heap == heap && q.Valid()
    }

    ghost function Boxes(): (r: map<string, Queue>)
      requires Valid()
      reads this, queues.Keys, lists.Keys
      ensures r.Keys == mailboxes.Keys
      ensures forall a :: a in r ==> r[a] == mailboxes[a].View()
    {
      map a | a in mailboxes :: mailboxes[a].View()
    }

    constructor (heap: MsgHeap)
      ensures Valid() && Boxes() == map[] && cfg.limits == Limits(UNLIMITED, UNLIMITED) && this.heap == heap
      ensures fresh(cfg) && queues == map[] && lists == map[]
    {
      this.heap := heap;
      cfg := new MsgQCfg();
      mailboxes, queues, lists := map[], map[], map[];
    }

    /** The mailbox of an address, created when it is missing. */
    method Require(address: string) returns (mailbox: MsgQ)
      requires Valid()
      modifies this
      ensures Valid() && fresh(queues.Keys - old(queues.Keys)) && fresh(lists.Keys - old(lists.Keys))
      ensures mailboxes.Keys == old(mailboxes).Keys + {address} && mailboxes[address] == mailbox
      ensures mailbox.View() == BoxOf(old(Boxes()), address)
      ensures forall a :: a in old(mailboxes) ==> mailboxes[a] == old(mailboxes)[a] && mailboxes[a].View() == old(Boxes())[a]
    {
      if address in mailboxes {
        mailbox := mailboxes[address];
      } else {
        mailbox := Create(address);
      }
    }

    method Create(address: string) returns (mailbox: MsgQ)
      requires Valid() && address !in mailboxes
      modifies this
      ensures Valid() && fresh(mailbox) && fresh(mailbox.queue) && mailbox.View() == EMPTY
      ensures mailboxes == old(mailboxes)[address := mailbox]
      ensures queues == old(queues)[mailbox := address] && lists == old(lists)[mailbox.queue := address]
      ensures forall a :: a in old(mailboxes) ==> mailboxes[a].View() == old(mailboxes[a].View())
    {
      mailbox := new MsgQ(cfg, heap);
      mailboxes := mailboxes[address := mailbox];
      queues, lists := queues[mailbox := address], lists[mailbox.queue := address];
    }

    /** The STORE command. */
    method HandleStore(address: string, m: Message)
      requires Valid() && m in heap.refs
      modifies this, heap, queues.Keys, lists.Keys
      ensures Valid() && fresh(queues.Keys - old(queues.Keys)) && fresh(lists.Keys - old(lists.Keys))
      ensures Boxes() == Store(old(Boxes()), cfg.limits, address, m)
      ensures heap.refs == if Fits(BoxOf(old(Boxes()), address), Some(cfg.limits), m)
                           then old(heap.refs) else old(heap.refs) - multiset{m}
    {
      var mailbox := Require(address);
      AddTo(mailbox, address, m);
      OneChange(old(Boxes()), Boxes(), address);
    }

    method AddTo(mailbox: MsgQ, address: string, m: Message)
      requires Valid() && m in heap.refs && address in mailboxes && mailboxes[address] == mailbox
      modifies mailbox, mailbox.queue, heap
      ensures Valid() && mailbox.View() == Enqueue(old(mailbox.View()), Some(cfg.limits), m)
      ensures forall a :: a in mailboxes && a != address ==> mailboxes[a].View() == old(mailboxes[a].View())
      ensures heap.refs == if Fits(old(mailbox.View()), Some(cfg.limits), m)
                           then old(heap.refs) else old(heap.refs) - multiset{m}
    {
      hide Enqueue, Exact, Fits;
      mailbox.Add(m);
    }

    /** The QUERY command; the reply is a null pointer when there is no message. */
    method HandleQuery(address: string) returns (res: Option<Message>)
      requires Valid()
      modifies queues.Keys, lists.Keys
      ensures Valid() && AllExact(old(Boxes())) && (Boxes(), res) == Query(old(Boxes()), cfg.limits, address)
    {
      hide Dequeue, Exact;
      ghost var was := Boxes();
      if address in mailboxes {
        res := TakeFrom(mailboxes[address], address);
        OneChange(was, Boxes(), address);
        assert was[address := was[address]] == was;
      } else {
        res := None;
      }
    }

    method TakeFrom(mailbox: MsgQ, address: string) returns (res: Option<Message>)
      requires Valid() && address in mailboxes && mailboxes[address] == mailbox
      modifies mailbox, mailbox.queue
      ensures Valid()
      ensures forall a :: a in mailboxes && a != address ==> mailboxes[a].View() == old(mailboxes[a].View())
      ensures old(mailbox.queue.items) == [] ==> res == None && mailbox.View() == old(mailbox.View())
      ensures old(mailbox.queue.items) != [] ==>
                && res == Some(old(mailbox.queue.items)[0])
                && old(mailbox.queue.items)[0].size <= old(mailbox.messagesSize)
                && mailbox.View() == Dequeue(old(mailbox.View()), Some(cfg.limits), 0)
    {
      res := mailbox.Remove(None);
    }

    /** The CONFIGURE command: the new limits apply to every mailbox at once. */
    method HandleConfigure(limits: Limits)
      requires Valid()
      modifies cfg
      ensures Valid() && Boxes() == old(Boxes()) && cfg.limits == limits
    {
      cfg.Configure(limits);
    }
  }
}
