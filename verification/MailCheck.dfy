/** check_for_mailbox_messages (src/mlm_server.c:633-659): QUERY until the mailbox engine has nothing left to answer. */
module MailChecks {
  import opened Messages
  import opened Options
  import opened Queues
  import opened Mailboxes
  import opened Broker
  import Sequences

  /** The engine's table once the mail of one address has been taken out. */
  ghost function Collected(boxes: map<string, Queue>, cfg: Limits, address: string): map<string, Queue>
    requires AllExact(boxes)
  {
    if address in boxes then boxes[address := Emptied(boxes[address], cfg)] else boxes
  }

  lemma EmptiedStep(q: Queue, cfg: Limits)
    requires Exact(q) && q.items != []
    ensures q.items[0].size <= q.size && Exact(Dequeue(q, Some(cfg), 0))
    ensures Emptied(q, cfg) == Emptied(Dequeue(q, Some(cfg), 0), cfg)
    ensures q.items == [q.items[0]] + Dequeue(q, Some(cfg), 0).items
  {
    DequeueExact(q, Some(cfg), 0);
  }

  lemma CollectStep(boxes: map<string, Queue>, cfg: Limits, address: string)
    requires AllExact(boxes) && Query(boxes, cfg, address).1.Some?
    ensures var (rest, res) := Query(boxes, cfg, address);
            && AllExact(rest) && address in boxes && address in rest
            && Collected(rest, cfg, address) == Collected(boxes, cfg, address)
            && boxes[address].items == [res.value] + rest[address].items
  {
    hide Emptied, Exact, Dequeue;
    var q := boxes[address];
    EmptiedStep(q, cfg);
    var rest := Query(boxes, cfg, address).0;
    assert rest == boxes[address := Dequeue(q, Some(cfg), 0)];
    assert rest[address := Emptied(rest[address], cfg)] == boxes[address := Emptied(q, cfg)];
  }

  lemma CollectEnd(boxes: map<string, Queue>, cfg: Limits, address: string)
    requires AllExact(boxes) && Query(boxes, cfg, address).1.None?
    ensures Collected(boxes, cfg, address) == boxes && BoxOf(boxes, address).items == []
  {
    if address in boxes {
      assert boxes[address := boxes[address]] == boxes;
    }
  }

  /** One QUERY: its answer was at the head of the mailbox, and collecting the rest ends where it would have ended. */
  ghost predicate Next(boxes: map<string, Queue>, rest: map<string, Queue>, cfg: Limits, address: string, res: Option<Message>) {
    && AllExact(boxes) && AllExact(rest) && Collected(rest, cfg, address) == Collected(boxes, cfg, address)
    && BoxOf(boxes, address).items == Listed(res) + BoxOf(rest, address).items
    && (res.None? ==> BoxOf(rest, address).items == [] && Collected(rest, cfg, address) == rest)
  }

  method NextMail(engine: MailboxEngine, address: string, ghost boxes: map<string, Queue>)
    returns (res: Option<Message>, ghost rest: map<string, Queue>)
    requires engine.Valid() && boxes == engine.Boxes()
    modifies engine.queues.Keys, engine.lists.Keys
    ensures engine.Valid() && rest == engine.Boxes() && Next(boxes, rest, engine.cfg.limits, address, res)
  {
    hide Collected, AllExact, BoxOf;
    res := engine.HandleQuery(address);
    rest := engine.Boxes();
    Answered(boxes, engine.cfg.limits, address, rest, res);
  }

  /** get_message_to_deliver and the send: the slot is emptied and its reference dropped. */
  method MailboxMessageEvent(heap: MsgHeap, slot: Option<Message>, before: seq<Message>)
    returns (empty: Option<Message>, delivered: seq<Message>)
    requires slot.Some? && slot.value in heap.refs
    modifies heap
    ensures empty == None && delivered == before + [slot.value]
    ensures heap.refs == old(heap.refs) - multiset{slot.value}
  {
    delivered := before + [slot.value];
    heap.Unlink(slot.value);
    empty := None;
  }

  /** A client collects its mail: oldest first, all of it, and no other mailbox is touched. Each message goes through
      the client's slot, which ends empty, and gives back the reference it was waiting with. */
  method CheckForMailboxMessages(engine: MailboxEngine, address: string)
    returns (slot: Option<Message>, delivered: seq<Message>)
    requires engine.Valid()
    requires multiset(BoxOf(engine.Boxes(), address).items) <= engine.heap.refs
    modifies engine.queues.Keys, engine.lists.Keys, engine.heap
    ensures engine.Valid() && AllExact(old(engine.Boxes())) && slot == None
    ensures engine.Boxes() == if address == "" then old(engine.Boxes()) else Collected(old(engine.Boxes()), engine.cfg.limits, address)
    ensures delivered == if address == "" then [] else BoxOf(old(engine.Boxes()), address).items
    ensures engine.heap.refs + multiset(delivered) == old(engine.heap.refs)
  {
    EngineIsExact(engine);
    slot, delivered := None, [];
    if address != "" {
      slot, delivered := TakeAll(engine, address);
    }
  }

  method TakeAll(engine: MailboxEngine, address: string) returns (slot: Option<Message>, delivered: seq<Message>)
    requires engine.Valid()
    requires multiset(BoxOf(engine.Boxes(), address).items) <= engine.heap.refs
    modifies engine.queues.Keys, engine.lists.Keys, engine.heap
    ensures engine.Valid() && AllExact(old(engine.Boxes())) && slot == None
    ensures engine.Boxes() == Collected(old(engine.Boxes()), engine.cfg.limits, address)
    ensures delivered == BoxOf(old(engine.Boxes()), address).items
    ensures engine.heap.refs + multiset(delivered) == old(engine.heap.refs)
  {
    hide Next, Collected, AllExact, BoxOf, Progress;
    ghost var was, refs, cfg, now := engine.Boxes(), engine.heap.refs, engine.cfg.limits, engine.Boxes();
    slot, now := NextMail(engine, address, was);
    delivered := [];
    ProgressStarts(was, now, cfg, address, slot, refs);
    while slot.Some?
      invariant engine.Valid() && engine.cfg.limits == cfg && now == engine.Boxes()
      invariant Progress(was, now, cfg, address, slot, delivered, engine.heap.refs, refs)
      decreases |BoxOf(now, address).items|, slot.Some?
    {
      slot, delivered, now := DeliverOne(engine, address, slot, delivered, was, now, refs);
    }
    ProgressEnds(was, now, cfg, address, delivered, engine.heap.refs, refs);
  }

  /** One turn: the message in the slot is delivered, and the next one is asked for. */
  method DeliverOne(engine: MailboxEngine, address: string, held: Option<Message>, before: seq<Message>,
                    ghost was: map<string, Queue>, ghost now: map<string, Queue>, ghost refs: multiset<Message>)
    returns (slot: Option<Message>, delivered: seq<Message>, ghost next: map<string, Queue>)
    requires engine.Valid() && held.Some? && now == engine.Boxes()
    requires Progress(was, now, engine.cfg.limits, address, held, before, engine.heap.refs, refs)
    modifies engine.queues.Keys, engine.lists.Keys, engine.heap
    ensures engine.Valid() && next == engine.Boxes()
    ensures Progress(was, next, engine.cfg.limits, address, slot, delivered, engine.heap.refs, refs)
    ensures |BoxOf(next, address).items| + |Listed(slot)| == |BoxOf(now, address).items|
  {
    hide Next, Collected, AllExact, BoxOf, Progress;
    ghost var counted := engine.heap.refs;
    HeldIsCounted(was, now, engine.cfg.limits, address, held.value, before, counted, refs);
    slot, delivered := MailboxMessageEvent(engine.heap, held, before);
    slot, next := NextMail(engine, address, now);
    ProgressGoesOn(was, now, next, engine.cfg.limits, address, held.value, slot, before, counted, refs);
  }

  lemma HeldIsCounted(was: map<string, Queue>, now: map<string, Queue>, cfg: Limits, address: string,
                      m: Message, taken: seq<Message>, refs: multiset<Message>, start: multiset<Message>)
    requires Progress(was, now, cfg, address, Some(m), taken, refs, start)
    ensures m in refs
  {
    hide Collected, AllExact, BoxOf;
    StillCounted(BoxOf(was, address).items, taken, m, BoxOf(now, address).items, refs, start);
  }

  lemma ProgressGoesOn(was: map<string, Queue>, now: map<string, Queue>, next: map<string, Queue>, cfg: Limits, address: string,
                       m: Message, res: Option<Message>, taken: seq<Message>, refs: multiset<Message>, start: multiset<Message>)
    requires Progress(was, now, cfg, address, Some(m), taken, refs, start) && Next(now, next, cfg, address, res)
    ensures Progress(was, next, cfg, address, res, taken + [m], refs - multiset{m}, start)
    ensures |BoxOf(next, address).items| + |Listed(res)| == |BoxOf(now, address).items|
  {
    hide Collected, AllExact, BoxOf;
    var left := BoxOf(now, address).items;
    StillCounted(BoxOf(was, address).items, taken, m, left, refs, start);
    assert [] + left == left;
  }

  /** The mail of the start: what was delivered, what is in the slot, and what waits. */
  predicate Split(mail: seq<Message>, taken: seq<Message>, held: seq<Message>, left: seq<Message>) {
    mail == taken + (held + left)
  }

  /** Where the collection stands: the rest is still to be collected, the slot holds the next message, and the counters
      have lost one reference for each message delivered. */
  ghost predicate Progress(was: map<string, Queue>, now: map<string, Queue>, cfg: Limits, address: string,
                           held: Option<Message>, taken: seq<Message>, refs: multiset<Message>, start: multiset<Message>) {
    && AllExact(was) && AllExact(now) && Collected(now, cfg, address) == Collected(was, cfg, address)
    && Split(BoxOf(was, address).items, taken, Listed(held), BoxOf(now, address).items)
    && refs + multiset(taken) == start && multiset(BoxOf(was, address).items) <= start
    && (held.None? ==> BoxOf(now, address).items == [] && Collected(now, cfg, address) == now)
  }

  lemma ProgressStarts(was: map<string, Queue>, now: map<string, Queue>, cfg: Limits, address: string,
                       held: Option<Message>, start: multiset<Message>)
    requires Next(was, now, cfg, address, held) && multiset(BoxOf(was, address).items) <= start
    ensures Progress(was, now, cfg, address, held, [], start, start)
  {
    var mail := BoxOf(was, address).items;
    assert [] + mail == mail;
  }

  lemma ProgressEnds(was: map<string, Queue>, now: map<string, Queue>, cfg: Limits, address: string,
                     taken: seq<Message>, refs: multiset<Message>, start: multiset<Message>)
    requires Progress(was, now, cfg, address, None, taken, refs, start)
    ensures AllExact(was) && now == Collected(was, cfg, address)
    ensures taken == BoxOf(was, address).items && refs + multiset(taken) == start
  {
    assert taken + ([] + []) == taken;
  }

  lemma StillCounted(mail: seq<Message>, taken: seq<Message>, m: Message, left: seq<Message>, refs: multiset<Message>, was: multiset<Message>)
    requires Split(mail, taken, [m], left) && multiset(mail) <= was && refs + multiset(taken) == was
    ensures m in refs && Split(mail, taken + [m], [], left)
    ensures refs - multiset{m} + multiset(taken + [m]) == was
  {
    assert [] + left == left;
    Sequences.Regroup(taken, [m], left);
    assert multiset(mail)[m] == multiset(taken)[m] + 1 + multiset(left)[m];
    assert was[m] == refs[m] + multiset(taken)[m];
  }

  function Listed(res: Option<Message>): seq<Message> {
    if res.Some? then [res.value] else []
  }

  lemma EngineIsExact(engine: MailboxEngine)
    requires engine.Valid()
    ensures AllExact(engine.Boxes())
  {
  }

  lemma Answered(boxes: map<string, Queue>, cfg: Limits, address: string, rest: map<string, Queue>, res: Option<Message>)
    requires AllExact(boxes) && (rest, res) == Query(boxes, cfg, address)
    ensures Next(boxes, rest, cfg, address, res)
  {
    if res.Some? {
      CollectStep(boxes, cfg, address);
    } else {
      CollectEnd(boxes, cfg, address);
    }
  }
}
