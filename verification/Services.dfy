/** A service as a state machine: its offers, its queue, and what any run of sends, offers,
    withdrawals and reconfigurations keeps (src/mlm_server.c:271-305, 583-626, 753-763). */
module Services {
  import opened Messages
  import opened Options
  import opened Queues
  import opened Selectors
  import opened Offers
  import Sequences

  datatype Service = Service(offers: seq<Offer>, queue: Queue)

  const IDLE := Service([], EMPTY)

  /** The loop of s_service_dispatch from position k on: a message that is taken is removed in place,
      so the next one slides into its position. */
  function Drain(rex: Matcher, svc: Service, cfg: Limits, k: nat): (r: (Service, seq<Handed>))
    requires Exact(svc.queue) && k <= |svc.queue.items|
    decreases |svc.queue.items| - k
  {
    if k == |svc.queue.items| then (svc, [])
    else
      var m := svc.queue.items[k];
      if Matched(rex, svc.offers, m.subject) then
        DequeueExact(svc.queue, Some(cfg), k);
        var (s, handed) := Drain(rex, Service(Serve(rex, svc.offers, m), Dequeue(svc.queue, Some(cfg), k)), cfg, k);
        (s, Hand(rex, svc.offers, m) + handed)
      else Drain(rex, svc, cfg, k + 1)
  }

  lemma WithoutSlices<T>(s: seq<T>, k: nat)
    requires k < |s|
    ensures s[k..] == [s[k]] + s[k + 1..]
    ensures Without(s, k)[..k] == s[..k] && Without(s, k)[k..] == s[k + 1..]
    ensures s[..k + 1] == s[..k] + [s[k]]
  {
    assert s[k..][0] == s[k] && s[k..][1..] == s[k + 1..];
  }

  lemma DispatchStep(rex: Matcher, offers: seq<Offer>, m: Message, rest: seq<Message>)
    ensures var d := Dispatch(rex, offers, [m] + rest);
            var e := Dispatch(rex, Serve(rex, offers, m), rest);
            && d.offers == e.offers
            && d.left == (if Matched(rex, offers, m.subject) then e.left else [m] + e.left)
            && d.handed == Hand(rex, offers, m) + e.handed
  {
    assert ([m] + rest)[1..] == rest;
  }

  /** Removing matched messages at the cursor computes the dispatch of the remaining queue, keeps the
      byte count exact and stays within the old size. */
  lemma {:induction false} DrainDispatches(rex: Matcher, svc: Service, cfg: Limits, k: nat)
    requires Exact(svc.queue) && k <= |svc.queue.items|
    ensures var (s, handed) := Drain(rex, svc, cfg, k);
            var d := Dispatch(rex, svc.offers, svc.queue.items[k..]);
            && s.queue.items == svc.queue.items[..k] + d.left
            && s.offers == d.offers && handed == d.handed
            && Exact(s.queue) && s.queue.size <= svc.queue.size
    decreases |svc.queue.items| - k
  {
    var items := svc.queue.items;
    if k < |items| {
      var m := items[k];
      WithoutSlices(items, k);
      DispatchStep(rex, svc.offers, m, items[k + 1..]);
      FirstMatchMatched(rex, svc.offers, m.subject);
      if Matched(rex, svc.offers, m.subject) {
        DequeueExact(svc.queue, Some(cfg), k);
        DrainDispatches(rex, Service(Serve(rex, svc.offers, m), Dequeue(svc.queue, Some(cfg), k)), cfg, k);
      } else {
        DrainDispatches(rex, svc, cfg, k + 1);
        Sequences.Regroup(items[..k], [m], Dispatch(rex, svc.offers, items[k + 1..]).left);
      }
    }
  }

  // ---------------------------------------------------------------------------------------------
  // Steps, with the history of the service

  function Withdrawn(offers: seq<Offer>, c: Ptr): (r: seq<Offer>)
    ensures forall o :: o in r <==> o in offers && o.client != c
  {
    if offers == [] then []
    else (if offers[0].client == c then [] else [offers[0]]) + Withdrawn(offers[1..], c)
  }

  datatype Step = Send(m: Message) | MakeOffer(o: Offer) | Withdraw(c: Ptr) | Reconfigure(limits: Limits)

  /** `accepted` leaves out only what was dropped for the size limit, as ServiceLedgers proves. */
  datatype History = History(svc: Service, cfg: Limits, accepted: seq<Message>, handed: seq<Handed>)

  /** write_message_to_service: to the first matching offer, else into the queue. */
  function Sent(rex: Matcher, h: History, m: Message): History {
    if Matched(rex, h.svc.offers, m.subject) then
      h.(svc := h.svc.(offers := Serve(rex, h.svc.offers, m)), accepted := h.accepted + [m],
         handed := h.handed + Hand(rex, h.svc.offers, m))
    else
      h.(svc := h.svc.(queue := Enqueue(h.svc.queue, Some(h.cfg), m)),
         accepted := if Fits(h.svc.queue, Some(h.cfg), m) then h.accepted + [m] else h.accepted)
  }

  function Next(rex: Matcher, h: History, step: Step): History
    requires Exact(h.svc.queue)
  {
    match step
    case Send(m) => Sent(rex, h, m)
    case MakeOffer(o) =>
      var (s, handed) := Drain(rex, h.svc.(offers := h.svc.offers + [o]), h.cfg, 0);
      h.(svc := s, handed := h.handed + handed)
    case Withdraw(c) => h.(svc := h.svc.(offers := Withdrawn(h.svc.offers, c)))
    case Reconfigure(limits) => h.(cfg := limits)
  }

  // ---------------------------------------------------------------------------------------------
  // Work conservation and order per subject

  /** No waiting message could be taken by a current offer. */
  predicate WorkConserving(rex: Matcher, svc: Service) {
    forall i :: 0 <= i < |svc.queue.items| ==> !Matched(rex, svc.offers, svc.queue.items[i].subject)
  }

  function BySubject(ms: seq<Message>, t: string): seq<Message> {
    if ms == [] then [] else (if ms[0].subject == t then [ms[0]] else []) + BySubject(ms[1..], t)
  }

  /** What was accepted with a subject is what was handed over with it, followed by what still waits. */
  ghost predicate InSubjectOrder(h: History) {
    forall t :: BySubject(h.accepted, t) == BySubject(MessagesOf(h.handed), t) + BySubject(h.svc.queue.items, t)
  }

  ghost predicate Inv(rex: Matcher, h: History) {
    Exact(h.svc.queue) && WorkConserving(rex, h.svc) && InSubjectOrder(h)
  }

  lemma {:induction false} BySubjectSplit(a: seq<Message>, b: seq<Message>, t: string)
    ensures BySubject(a + b, t) == BySubject(a, t) + BySubject(b, t)
  {
    if a == [] {
      assert a + b == b;
    } else {
      assert (a + b)[1..] == a[1..] + b && (a + b)[0] == a[0];
      BySubjectSplit(a[1..], b, t);
      Sequences.Regroup(if a[0].subject == t then [a[0]] else [], BySubject(a[1..], t), BySubject(b, t));
    }
  }

  /** All messages of one subject share one fate: all are taken, or all stay. */
  lemma {:induction false} OneFatePerSubject(rex: Matcher, offers: seq<Offer>, queue: seq<Message>, matched: bool, t: string)
    ensures BySubject(Select(rex, offers, queue, matched), t) ==
            if Matched(rex, offers, t) == matched then BySubject(queue, t) else []
  {
    if queue != [] {
      OneFatePerSubject(rex, offers, queue[1..], matched, t);
      var head := if Matched(rex, offers, queue[0].subject) == matched then [queue[0]] else [];
      BySubjectSplit(head, Select(rex, offers, queue[1..], matched), t);
      assert head != [] ==> head[1..] == [];
    }
  }

  lemma {:induction false} SelectedHaveFate(rex: Matcher, offers: seq<Offer>, queue: seq<Message>, matched: bool)
    ensures forall i :: 0 <= i < |Select(rex, offers, queue, matched)| ==>
              Matched(rex, offers, Select(rex, offers, queue, matched)[i].subject) == matched
  {
    if queue != [] {
      SelectedHaveFate(rex, offers, queue[1..], matched);
    }
  }

  lemma SendKeeps(rex: Matcher, h: History, m: Message)
    requires Inv(rex, h)
    ensures Inv(rex, Sent(rex, h, m))
  {
    var r := Sent(rex, h, m);
    var taken := Matched(rex, h.svc.offers, m.subject);
    FirstMatchMatched(rex, h.svc.offers, m.subject);
    EnqueueExact(h.svc.queue, Some(h.cfg), m);
    if taken {
      ServePermutes(rex, h.svc.offers, m);
      forall i | 0 <= i < |r.svc.queue.items| ensures !Matched(rex, r.svc.offers, r.svc.queue.items[i].subject) {
        MatchedByPermutation(rex, h.svc.offers, r.svc.offers, r.svc.queue.items[i].subject);
      }
    }
    forall t ensures BySubject(r.accepted, t) == BySubject(MessagesOf(r.handed), t) + BySubject(r.svc.queue.items, t) {
      BySubjectSplit(h.accepted, [m], t);
      BySubjectSplit(h.svc.queue.items, [m], t);
      SendInOrder(rex, h, m, t);
    }
  }

  lemma SendInOrder(rex: Matcher, h: History, m: Message, t: string)
    requires Inv(rex, h)
    requires BySubject(h.accepted + [m], t) == BySubject(h.accepted, t) + BySubject([m], t)
    requires BySubject(h.svc.queue.items + [m], t) == BySubject(h.svc.queue.items, t) + BySubject([m], t)
    ensures var r := Sent(rex, h, m);
            BySubject(r.accepted, t) == BySubject(MessagesOf(r.handed), t) + BySubject(r.svc.queue.items, t)
  {
    var before, waiting := BySubject(MessagesOf(h.handed), t), BySubject(h.svc.queue.items, t);
    assert BySubject(h.accepted, t) == before + waiting;
    if Matched(rex, h.svc.offers, m.subject) {
      HandIsTheMessage(rex, h.svc.offers, m);
      MessagesOfSplit(h.handed, Hand(rex, h.svc.offers, m));
      BySubjectSplit(MessagesOf(h.handed), [m], t);
      if m.subject == t {
        NoneWaiting(rex, h.svc, h.svc.queue.items, t);
      }
      Sequences.Regroup(before, waiting, BySubject([m], t));
    } else {
      Sequences.Regroup(before, waiting, BySubject([m], t));
    }
  }

  lemma HandIsTheMessage(rex: Matcher, offers: seq<Offer>, m: Message)
    requires Matched(rex, offers, m.subject)
    ensures MessagesOf(Hand(rex, offers, m)) == [m]
  {
    FirstMatchMatched(rex, offers, m.subject);
  }

  lemma {:induction false} NoneWaiting(rex: Matcher, svc: Service, items: seq<Message>, t: string)
    requires Matched(rex, svc.offers, t)
    requires forall i :: 0 <= i < |items| ==> !Matched(rex, svc.offers, items[i].subject)
    ensures BySubject(items, t) == []
  {
    if items != [] {
      NoneWaiting(rex, svc, items[1..], t);
    }
  }

  lemma OfferKeeps(rex: Matcher, h: History, o: Offer)
    requires Inv(rex, h)
    ensures Inv(rex, Next(rex, h, MakeOffer(o)))
  {
    var svc := h.svc.(offers := h.svc.offers + [o]);
    var items := svc.queue.items;
    var (s, handed) := Drain(rex, svc, h.cfg, 0);
    assert items[0..] == items && items[..0] == [];
    DrainDispatches(rex, svc, h.cfg, 0);
    DispatchIsStableFilter(rex, svc.offers, items);
    DispatchPermutes(rex, svc.offers, items);
    DispatchConserves(rex, s, svc.offers, items);
    forall t ensures BySubject(h.accepted, t) == BySubject(MessagesOf(h.handed + handed), t) + BySubject(s.queue.items, t) {
      DispatchInOrder(rex, svc.offers, items, h.accepted, h.handed, handed, s.queue.items, t);
    }
  }

  lemma DispatchConserves(rex: Matcher, s: Service, offers: seq<Offer>, items: seq<Message>)
    requires multiset(s.offers) == multiset(offers) && s.queue.items == Select(rex, offers, items, false)
    ensures WorkConserving(rex, s)
  {
    SelectedHaveFate(rex, offers, items, false);
    forall i | 0 <= i < |s.queue.items| ensures !Matched(rex, s.offers, s.queue.items[i].subject) {
      MatchedByPermutation(rex, offers, s.offers, s.queue.items[i].subject);
    }
  }

  lemma DispatchInOrder(rex: Matcher, offers: seq<Offer>, items: seq<Message>, accepted: seq<Message>,
                        before: seq<Handed>, handed: seq<Handed>, left: seq<Message>, t: string)
    requires BySubject(accepted, t) == BySubject(MessagesOf(before), t) + BySubject(items, t)
    requires MessagesOf(handed) == Select(rex, offers, items, true) && left == Select(rex, offers, items, false)
    ensures BySubject(accepted, t) == BySubject(MessagesOf(before + handed), t) + BySubject(left, t)
  {
    hide BySubject, Select, MessagesOf;
    OneFatePerSubject(rex, offers, items, false, t);
    OneFatePerSubject(rex, offers, items, true, t);
    MessagesOfSplit(before, handed);
    BySubjectSplit(MessagesOf(before), MessagesOf(handed), t);
  }

  lemma StepKeeps(rex: Matcher, h: History, step: Step)
    requires Inv(rex, h)
    ensures Inv(rex, Next(rex, h, step))
  {
    match step
    case Send(m) => SendKeeps(rex, h, m);
    case MakeOffer(o) => OfferKeeps(rex, h, o);
    case Withdraw(c) =>
    case Reconfigure(limits) =>
  }

  function Run(rex: Matcher, h: History, steps: seq<Step>): (r: History)
    requires Inv(rex, h)
    decreases |steps|
  {
    if steps == [] then h
    else StepKeeps(rex, h, steps[0]); Run(rex, Next(rex, h, steps[0]), steps[1..])
  }

  /** Over any run, no message waits that a current offer would take, and messages of one subject
      leave in the order in which they were accepted. */
  lemma {:induction false} ServiceRunsKeepOrder(rex: Matcher, h: History, steps: seq<Step>)
    requires Inv(rex, h)
    ensures Inv(rex, Run(rex, h, steps))
    decreases |steps|
  {
    if steps != [] {
      StepKeeps(rex, h, steps[0]);
      ServiceRunsKeepOrder(rex, Next(rex, h, steps[0]), steps[1..]);
    }
  }
}
