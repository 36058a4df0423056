/** Bounded message queues (src/mlm_msgq.c) as values, and what any run of them keeps. */
module Queues {
  import opened Messages
  import opened Options

  /** (size_t) -1, which stands for "no limit". Sums of sizes are taken to stay below it. */
  const UNLIMITED: nat := 0xFFFF_FFFF_FFFF_FFFF

  datatype Limits = Limits(warn: nat, limit: nat)

  /** A queue: its messages, its byte count, and whether the soft limit has been reported. */
  datatype Queue = Queue(items: seq<Message>, size: nat, warned: bool)

  const EMPTY := Queue([], 0, false)

  function TotalSize(items: seq<Message>): nat {
    if items == [] then 0 else TotalSize(items[..|items| - 1]) + items[|items| - 1].size
  }

  predicate Fits(q: Queue, cfg: Option<Limits>, m: Message) {
    cfg == None || cfg.value.limit == UNLIMITED || q.size + m.size <= cfg.value.limit
  }

  /** The soft limit is reported by this message. */
  predicate Reports(q: Queue, cfg: Option<Limits>, m: Message) {
    Fits(q, cfg, m) && cfg.Some? && !q.warned && cfg.value.warn != UNLIMITED && q.size + m.size > cfg.value.warn
  }

  /** mlm_msgq_enqueue: a message that does not fit is dropped. */
  function Enqueue(q: Queue, cfg: Option<Limits>, m: Message): Queue {
    if Fits(q, cfg, m) then Queue(q.items + [m], q.size + m.size, q.warned || Reports(q, cfg, m)) else q
  }

  predicate Exact(q: Queue) {
    q.size == TotalSize(q.items)
  }

  function Without<T>(s: seq<T>, k: nat): seq<T>
    requires k < |s|
  {
    s[..k] + s[k + 1..]
  }

  /** s_dequeue: removes the message at a position. */
  function Dequeue(q: Queue, cfg: Option<Limits>, k: nat): Queue
    requires k < |q.items| && q.items[k].size <= q.size
  {
    var size := q.size - q.items[k].size;
    Queue(Without(q.items, k), size, q.warned && !(cfg.Some? && size <= cfg.value.warn / 2))
  }

  // ---------------------------------------------------------------------------------------------
  // The byte count

  lemma {:induction false} TotalAppend(a: seq<Message>, b: seq<Message>)
    ensures TotalSize(a + b) == TotalSize(a) + TotalSize(b)
  {
    if b == [] {
      assert a + b == a;
    } else {
      var n := |b| - 1;
      assert (a + b)[..|a + b| - 1] == a + b[..n];
      TotalAppend(a, b[..n]);
    }
  }

  lemma {:induction false} TotalWithout(s: seq<Message>, k: nat)
    requires k < |s|
    ensures TotalSize(Without(s, k)) == TotalSize(s) - s[k].size
  {
    var n := |s| - 1;
    if k == n {
      assert Without(s, k) == s[..n];
    } else {
      TotalWithout(s[..n], k);
      assert Without(s, k)[..n - 1] == Without(s[..n], k);
    }
  }

  lemma EnqueueExact(q: Queue, cfg: Option<Limits>, m: Message)
    requires Exact(q)
    ensures Exact(Enqueue(q, cfg, m))
  {
    assert (q.items + [m])[..|q.items|] == q.items;
  }

  lemma DequeueExact(q: Queue, cfg: Option<Limits>, k: nat)
    requires Exact(q) && k < |q.items|
    ensures q.items[k].size <= q.size && Exact(Dequeue(q, cfg, k))
  {
    TotalWithout(q.items, k);
  }

  /** What becomes of a message: it stands at the end of the queue unless a finite limit would be exceeded, and then the
      queue is as it was. */
  lemma EnqueueKeepsOrDrops(q: Queue, cfg: Option<Limits>, m: Message)
    requires Exact(q)
    ensures var over := cfg.Some? && cfg.value.limit != 0xFFFF_FFFF_FFFF_FFFF && TotalSize(q.items + [m]) > cfg.value.limit;
            if over then Enqueue(q, cfg, m) == q else Enqueue(q, cfg, m).items == q.items + [m]
  {
    assert (q.items + [m])[..|q.items|] == q.items;
  }

  // ---------------------------------------------------------------------------------------------
  // Runs under a configuration

  datatype Op = Put(m: Message) | Take(k: nat)

  predicate Possible(q: Queue, op: Op) {
    op.Take? ==> op.k < |q.items|
  }

  function Apply(q: Queue, cfg: Limits, op: Op): (r: Queue)
    requires Exact(q) && Possible(q, op)
    ensures Exact(r)
  {
    match op
    case Put(m) => EnqueueExact(q, Some(cfg), m); Enqueue(q, Some(cfg), m)
    case Take(k) => DequeueExact(q, Some(cfg), k); Dequeue(q, Some(cfg), k)
  }

  predicate Runs(q: Queue, cfg: Limits, ops: seq<Op>)
    requires Exact(q)
    decreases |ops|
  {
    ops == [] || (Possible(q, ops[0]) && Runs(Apply(q, cfg, ops[0]), cfg, ops[1..]))
  }

  /** The queue after the first n operations. */
  function After(q: Queue, cfg: Limits, ops: seq<Op>, n: nat): (r: Queue)
    requires Exact(q) && Runs(q, cfg, ops) && n <= |ops|
    ensures Exact(r) && Runs(r, cfg, ops[n..])
    decreases n
  {
    if n == 0 then q else After(Apply(q, cfg, ops[0]), cfg, ops[1..], n - 1)
  }

  /** What holds of a queue under one configuration: the size stays within the limit, and the warning
      flag follows the size with hysteresis between warn / 2 and warn. */
  predicate Bounded(q: Queue, cfg: Limits) {
    && (q.size <= cfg.limit || cfg.limit == UNLIMITED)
    && (q.warned ==> q.size > cfg.warn / 2)
    && (!q.warned ==> q.size <= cfg.warn || cfg.warn == UNLIMITED)
  }

  lemma ApplyBounded(q: Queue, cfg: Limits, op: Op)
    requires Exact(q) && Possible(q, op)
    ensures Bounded(q, cfg) ==> Bounded(Apply(q, cfg, op), cfg)
    // above a limit that has been lowered, the queue does not grow
    ensures cfg.limit != UNLIMITED && q.size > cfg.limit ==> Apply(q, cfg, op).size <= q.size
  {
    if op.Take? {
      DequeueExact(q, Some(cfg), op.k);
    }
  }

  lemma {:induction false} RunsStayBounded(q: Queue, cfg: Limits, ops: seq<Op>, n: nat)
    requires Exact(q) && Runs(q, cfg, ops) && n <= |ops| && Bounded(q, cfg)
    ensures Bounded(After(q, cfg, ops, n), cfg)
    decreases n
  {
    if n > 0 {
      ApplyBounded(q, cfg, ops[0]);
      RunsStayBounded(Apply(q, cfg, ops[0]), cfg, ops[1..], n - 1);
    }
  }

  /** Operation i of the run reports the soft limit. */
  predicate ReportsAt(q: Queue, cfg: Limits, ops: seq<Op>, i: nat)
    requires Exact(q) && Runs(q, cfg, ops) && i < |ops|
  {
    ops[i].Put? && Reports(After(q, cfg, ops, i), Some(cfg), ops[i].m)
  }

  lemma {:induction false} AfterStep(q: Queue, cfg: Limits, ops: seq<Op>, n: nat)
    requires Exact(q) && Runs(q, cfg, ops) && n < |ops|
    ensures var s := After(q, cfg, ops, n);
            Possible(s, ops[n]) && After(q, cfg, ops, n + 1) == Apply(s, cfg, ops[n])
    decreases n
  {
    if n > 0 {
      AfterStep(Apply(q, cfg, ops[0]), cfg, ops[1..], n - 1);
    }
  }

  lemma {:induction false} WarnedUntilHalf(q: Queue, cfg: Limits, ops: seq<Op>, i: nat, j: nat)
    requires Exact(q) && Runs(q, cfg, ops) && i <= j <= |ops| && After(q, cfg, ops, i).warned
    requires forall k :: i < k <= j ==> After(q, cfg, ops, k).size > cfg.warn / 2
    ensures After(q, cfg, ops, j).warned
    decreases j
  {
    hide After, Runs;
    if i < j {
      WarnedUntilHalf(q, cfg, ops, i, j - 1);
      AfterStep(q, cfg, ops, j - 1);
    }
  }

  /** Each excursion above the soft limit is reported once: between two reports the size has been down
      to half of the soft limit. */
  lemma OneReportPerExcursion(q: Queue, cfg: Limits, ops: seq<Op>, i: nat, j: nat)
    requires Exact(q) && Runs(q, cfg, ops) && i < j < |ops|
    requires ReportsAt(q, cfg, ops, i) && ReportsAt(q, cfg, ops, j)
    ensures exists k :: i < k <= j && After(q, cfg, ops, k).size <= cfg.warn / 2
  {
    AfterStep(q, cfg, ops, i);
    if forall k :: i < k <= j ==> After(q, cfg, ops, k).size > cfg.warn / 2 {
      WarnedUntilHalf(q, cfg, ops, i + 1, j);
    }
  }
}
