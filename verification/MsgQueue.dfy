/** The message queue class (src/mlm_msgq.c) over a CZMQ list. */
module MsgQueues {
  import opened Messages
  import opened Options
  import opened Queues
  import opened ZLists

  /** mlm_msgq_cfg_t: shared by all queues of one kind, and changed while they hold messages. */
  class MsgQCfg {
    var limits: Limits

    constructor ()
      ensures limits == Limits(UNLIMITED, UNLIMITED)
    {
      limits := Limits(UNLIMITED, UNLIMITED);
    }

    /** mlm_msgq_cfg_configure, after the two values have been read from the configuration tree. */
    method Configure(limits: Limits)
      modifies this
      ensures this.limits == limits
    {
      this.limits := limits;
    }
  }

  class MsgQ {
    const queue: ZList<Message>
    const heap: MsgHeap
    const cfg: MsgQCfg?
    var messagesSize: nat
    var warned: bool

    predicate Valid()
      reads this, queue
    {
      queue.Valid() && Exact(View())
    }

    function View(): Queue
      reads this, queue
    {
      Queue(queue.items, messagesSize, warned)
    }

    function Config(): Option<Limits>
      reads if cfg == null then {} else {cfg}
    {
      if cfg == null then None else Some(cfg.limits)
    }

    constructor (cfg: MsgQCfg?, heap: MsgHeap)
      ensures Valid() && View() == EMPTY && fresh(queue) && this.cfg == cfg && this.heap == heap && queue.cursor == -1
    {
      this.cfg, this.heap := cfg, heap;
      queue := new ZList();
      messagesSize, warned := 0, false;
    }

    /** mlm_msgq_enqueue takes over the caller's reference: kept with the message, or dropped with it. */
    method Add(m: Message)
      requires Valid() && m in heap.refs
      modifies this, queue, heap
      ensures Valid() && View() == Enqueue(old(View()), Config(), m)
      ensures heap.refs == if Fits(old(View()), Config(), m) then old(heap.refs) else old(heap.refs) - multiset{m}
    {
      hide TotalSize;
      EnqueueExact(View(), Config(), m);
      if cfg == null || cfg.limits.limit == UNLIMITED || messagesSize + m.size <= cfg.limits.limit {
        queue.AddEnd(m);
        messagesSize := messagesSize + m.size;
        if cfg != null && !warned && cfg.limits.warn != UNLIMITED && messagesSize > cfg.limits.warn {
          warned := true;
        }
      } else {
        heap.Unlink(m);
      }
    }

    /** s_dequeue. */
    method Remove(handle: Option<nat>) returns (res: Option<Message>)
      requires Valid() && (handle.Some? ==> handle.value < |queue.items|)
      modifies this, queue
      ensures Valid()
      ensures handle == None && old(queue.items) == [] ==> res == None && View() == old(View()) && queue.cursor == old(queue.cursor)
      ensures !(handle == None && old(queue.items) == []) ==>
                var k := if handle.Some? then handle.value else 0;
                && res == Some(old(queue.items)[k])
                && old(queue.items)[k].size <= old(messagesSize) && View() == Dequeue(old(View()), Config(), k)
                && queue.cursor == if old(queue.cursor) >= k then old(queue.cursor) - 1 else old(queue.cursor)
    {
      ghost var k := if handle.Some? then handle.value else 0;
      if k < |queue.items| {
        DequeueExact(View(), Config(), k);
      }
      res := queue.Detach(handle);
      if res.Some? {
        messagesSize := messagesSize - res.value.size;
        if cfg != null && messagesSize <= cfg.limits.warn / 2 {
          warned := false;
        }
      }
    }
  }
}
