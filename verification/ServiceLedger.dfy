/** What becomes of every request and every offer of a service, told from the steps of a run
    (src/mlm_server.c:271-305, 583-626, 753-763; src/mlm_msgq.c:96-113). */
module ServiceLedgers {
  import opened Messages
  import opened Options
  import opened Queues
  import opened Selectors
  import opened Offers
  import opened Services
  import F = Fairness
  import Sequences

  function Unused(cfg: Limits): (h: History)
    ensures forall rex: Matcher :: Inv(rex, h)
  {
    History(IDLE, cfg, [], [])
  }

  // ---------------------------------------------------------------------------------------------
  // Requests

  /** The request finds no offer that matches it, and a finite limit that the waiting bytes and its own would exceed. */
  predicate Overflows(rex: Matcher, h: History, m: Message) {
    && (forall i :: 0 <= i < |h.svc.offers| ==> !rex(h.svc.offers[i].pattern, m.subject))
    && h.cfg.limit != 0xFFFF_FFFF_FFFF_FFFF && TotalSize(h.svc.queue.items) + m.size > h.cfg.limit
  }

  /** The requests of the steps, in order. */
  function Requests(steps: seq<Step>): seq<Message> {
    if steps == [] then [] else (if steps[0].Send? then [steps[0].m] else []) + Requests(steps[1..])
  }

  /** The same without those that overflow when their turn comes. */
  ghost function Survivors(rex: Matcher, h: History, steps: seq<Step>): seq<Message>
    requires Inv(rex, h)
    decreases |steps|
  {
    if steps == [] then []
    else
      StepKeeps(rex, h, steps[0]);
      (if steps[0].Send? && !Overflows(rex, h, steps[0].m) then [steps[0].m] else [])
      + Survivors(rex, Next(rex, h, steps[0]), steps[1..])
  }

  lemma StepAccepts(rex: Matcher, h: History, step: Step)
    requires Inv(rex, h)
    ensures Next(rex, h, step).accepted == h.accepted + if step.Send? && !Overflows(rex, h, step.m) then [step.m] else []
  {
    hide Drain, Enqueue, BySubject;
    if step.Send? {
      assert Matched(rex, h.svc.offers, step.m.subject) <==>
             !(forall i :: 0 <= i < |h.svc.offers| ==> !rex(h.svc.offers[i].pattern, step.m.subject)) by {
        if i :| 0 <= i < |h.svc.offers| && rex(h.svc.offers[i].pattern, step.m.subject) {
          assert Matches(rex, h.svc.offers[i], step.m.subject);
        }
      }
    }
  }

  lemma {:induction false} AcceptedAreSurvivors(rex: Matcher, h: History, steps: seq<Step>)
    requires Inv(rex, h)
    ensures Run(rex, h, steps).accepted == h.accepted + Survivors(rex, h, steps)
    decreases |steps|
  {
    hide InSubjectOrder, WorkConserving, Exact, Next, Overflows;
    if steps != [] {
      StepKeeps(rex, h, steps[0]);
      StepAccepts(rex, h, steps[0]);
      AcceptedAreSurvivors(rex, Next(rex, h, steps[0]), steps[1..]);
    }
  }

  /** Over any run of a new service: the requests of a subject, without those that overflowed, are those handed to
      offers, and then those that wait. */
  lemma EveryRequestIsAccountedFor(rex: Matcher, cfg: Limits, steps: seq<Step>, t: string)
    ensures var h := Run(rex, Unused(cfg), steps);
            BySubject(Survivors(rex, Unused(cfg), steps), t) == BySubject(MessagesOf(h.handed), t) + BySubject(h.svc.queue.items, t)
  {
    hide BySubject, Run, Survivors;
    ServiceRunsKeepOrder(rex, Unused(cfg), steps);
    AcceptedAreSurvivors(rex, Unused(cfg), steps);
    assert [] + Survivors(rex, Unused(cfg), steps) == Survivors(rex, Unused(cfg), steps);
    assert InSubjectOrder(Run(rex, Unused(cfg), steps));
  }

  predicate NeverLimited(steps: seq<Step>) {
    forall i :: 0 <= i < |steps| && steps[i].Reconfigure? ==> steps[i].limits.limit == 0xFFFF_FFFF_FFFF_FFFF
  }

  /** While no finite limit is set, nothing is missing. */
  lemma {:induction false} UnlimitedLosesNothing(rex: Matcher, h: History, steps: seq<Step>)
    requires Inv(rex, h) && h.cfg.limit == 0xFFFF_FFFF_FFFF_FFFF && NeverLimited(steps)
    ensures Survivors(rex, h, steps) == Requests(steps)
    decreases |steps|
  {
    hide InSubjectOrder, WorkConserving, Exact;
    if steps != [] {
      StepKeeps(rex, h, steps[0]);
      assert NeverLimited(steps[1..]);
      UnlimitedLosesNothing(rex, Next(rex, h, steps[0]), steps[1..]);
    }
  }

  /** The limits of the last reconfiguration. */
  function LimitsAfter(cfg: Limits, steps: seq<Step>): Limits
    decreases |steps|
  {
    if steps == [] then cfg else LimitsAfter(if steps[0].Reconfigure? then steps[0].limits else cfg, steps[1..])
  }

  lemma {:induction false} RunHasLimits(rex: Matcher, h: History, steps: seq<Step>)
    requires Inv(rex, h)
    ensures Run(rex, h, steps).cfg == LimitsAfter(h.cfg, steps)
    decreases |steps|
  {
    hide InSubjectOrder, WorkConserving, Exact, Drain;
    if steps != [] {
      StepKeeps(rex, h, steps[0]);
      RunHasLimits(rex, Next(rex, h, steps[0]), steps[1..]);
    }
  }

  // ---------------------------------------------------------------------------------------------
  // Offers

  function Others(offers: seq<Offer>, c: Ptr): seq<Offer> {
    if offers == [] then [] else (if offers[0].client != c then [offers[0]] else []) + Others(offers[1..], c)
  }

  function OneMade(before: seq<Offer>, step: Step): seq<Offer> {
    match step
    case MakeOffer(o) => before + [o]
    case Withdraw(c) => Others(before, c)
    case _ => before
  }

  /** The offers made and not withdrawn since, in the order they were made. */
  function OffersMade(before: seq<Offer>, steps: seq<Step>): seq<Offer>
    decreases |steps|
  {
    if steps == [] then before else OffersMade(OneMade(before, steps[0]), steps[1..])
  }

  lemma {:induction false} OthersCount(offers: seq<Offer>, c: Ptr, o: Offer)
    ensures multiset(Others(offers, c))[o] == if o.client == c then 0 else multiset(offers)[o]
  {
    if offers != [] {
      OthersCount(offers[1..], c, o);
      assert offers == [offers[0]] + offers[1..];
    }
  }

  lemma {:induction false} WithdrawnIsOthers(offers: seq<Offer>, c: Ptr)
    ensures Withdrawn(offers, c) == Others(offers, c)
  {
    if offers != [] {
      WithdrawnIsOthers(offers[1..], c);
    }
  }

  lemma OthersOfPermutation(a: seq<Offer>, b: seq<Offer>, c: Ptr)
    requires multiset(a) == multiset(b)
    ensures multiset(Others(a, c)) == multiset(Others(b, c))
  {
    forall o: Offer ensures multiset(Others(a, c))[o] == multiset(Others(b, c))[o] {
      OthersCount(a, c, o);
      OthersCount(b, c, o);
    }
  }

  lemma StepOffers(rex: Matcher, h: History, made: seq<Offer>, step: Step)
    requires Inv(rex, h) && multiset(h.svc.offers) == multiset(made)
    ensures multiset(Next(rex, h, step).svc.offers) ==
            multiset(OneMade(made, step))
  {
    hide BySubject, Drain, Dispatch;
    match step
    case Send(m) => ServePermutes(rex, h.svc.offers, m);
    case MakeOffer(o) =>
      var svc := h.svc.(offers := h.svc.offers + [o]);
      DrainDispatches(rex, svc, h.cfg, 0);
      DispatchPermutes(rex, svc.offers, svc.queue.items[0..]);
    case Withdraw(c) =>
      WithdrawnIsOthers(h.svc.offers, c);
      OthersOfPermutation(h.svc.offers, made, c);
    case Reconfigure(limits) =>
  }

  /** Over any run, the offers of a service are those made and not withdrawn since. */
  lemma {:induction false} OffersAreThoseMade(rex: Matcher, h: History, made: seq<Offer>, steps: seq<Step>)
    requires Inv(rex, h) && multiset(h.svc.offers) == multiset(made)
    ensures multiset(Run(rex, h, steps).svc.offers) == multiset(OffersMade(made, steps))
    decreases |steps|
  {
    hide InSubjectOrder, WorkConserving, Exact, Next;
    if steps != [] {
      StepKeeps(rex, h, steps[0]);
      StepOffers(rex, h, made, steps[0]);
      OffersAreThoseMade(rex, Next(rex, h, steps[0]), OneMade(made, steps[0]), steps[1..]);
    }
  }

  /** A new offer is on the list after its step, and nothing that it matches waits any more. */
  lemma OfferTakesWhatWaits(rex: Matcher, h: History, o: Offer)
    requires Inv(rex, h)
    ensures var r := Next(rex, h, MakeOffer(o));
            o in r.svc.offers && forall i :: 0 <= i < |r.svc.queue.items| ==> !rex(o.pattern, r.svc.queue.items[i].subject)
  {
    hide BySubject, Next;
    var r := Next(rex, h, MakeOffer(o));
    StepKeeps(rex, h, MakeOffer(o));
    StepOffers(rex, h, h.svc.offers, MakeOffer(o));
    assert o in multiset(r.svc.offers);
    var k :| 0 <= k < |r.svc.offers| && r.svc.offers[k] == o;
    forall i | 0 <= i < |r.svc.queue.items| ensures !rex(o.pattern, r.svc.queue.items[i].subject) {
      assert !Matched(rex, r.svc.offers, r.svc.queue.items[i].subject);
      assert !Matches(rex, r.svc.offers[k], r.svc.queue.items[i].subject);
    }
  }

  // ---------------------------------------------------------------------------------------------
  // A service run as a run of the offer list

  function Arrivals(ms: seq<Message>): seq<F.Event> {
    if ms == [] then [] else [F.Arrival(ms[0])] + Arrivals(ms[1..])
  }

  /** What a step means for the list of offers. */
  function EventsOf(h: History, step: Step): seq<F.Event> {
    match step
    case Send(m) => [F.Arrival(m)]
    case MakeOffer(o) => [F.Joined(o)] + Arrivals(h.svc.queue.items)
    case Withdraw(c) => [F.Left(c)]
    case Reconfigure(_) => []
  }

  function AfterAll(rex: Matcher, offers: seq<Offer>, events: seq<F.Event>): seq<Offer>
    decreases |events|
  {
    if events == [] then offers else AfterAll(rex, F.After(rex, offers, events[0]), events[1..])
  }

  function ChosenAll(rex: Matcher, offers: seq<Offer>, events: seq<F.Event>): seq<Handed>
    decreases |events|
  {
    if events == [] then [] else F.Chosen(rex, offers, events[0]) + ChosenAll(rex, F.After(rex, offers, events[0]), events[1..])
  }

  lemma {:induction false} DispatchIsArrivals(rex: Matcher, offers: seq<Offer>, queue: seq<Message>)
    ensures AfterAll(rex, offers, Arrivals(queue)) == Dispatch(rex, offers, queue).offers
    ensures ChosenAll(rex, offers, Arrivals(queue)) == Dispatch(rex, offers, queue).handed
    decreases |queue|
  {
    if queue != [] {
      DispatchIsArrivals(rex, Serve(rex, offers, queue[0]), queue[1..]);
      assert Arrivals(queue)[1..] == Arrivals(queue[1..]);
    }
  }

  lemma OneEvent(rex: Matcher, offers: seq<Offer>, e: F.Event)
    ensures AfterAll(rex, offers, [e]) == F.After(rex, offers, e) && ChosenAll(rex, offers, [e]) == F.Chosen(rex, offers, e)
  {
    assert [e][1..] == [];
  }

  lemma JoinedFirst(rex: Matcher, offers: seq<Offer>, o: Offer, rest: seq<F.Event>)
    ensures AfterAll(rex, offers, [F.Joined(o)] + rest) == AfterAll(rex, offers + [o], rest)
    ensures ChosenAll(rex, offers, [F.Joined(o)] + rest) == ChosenAll(rex, offers + [o], rest)
  {
    assert ([F.Joined(o)] + rest)[1..] == rest;
  }

  /** Each step of a service moves its offers, and hands messages over, as these events do. */
  lemma StepIsEvents(rex: Matcher, h: History, step: Step)
    requires Inv(rex, h)
    ensures var r := Next(rex, h, step);
            && r.svc.offers == AfterAll(rex, h.svc.offers, EventsOf(h, step))
            && r.handed == h.handed + ChosenAll(rex, h.svc.offers, EventsOf(h, step))
  {
    hide BySubject, Drain, Dispatch, AfterAll, ChosenAll;
    match step
    case Send(m) =>
      OneEvent(rex, h.svc.offers, F.Arrival(m));
      FirstMatchMatched(rex, h.svc.offers, m.subject);
    case MakeOffer(o) =>
      var svc := h.svc.(offers := h.svc.offers + [o]);
      assert svc.queue.items[0..] == svc.queue.items;
      DrainDispatches(rex, svc, h.cfg, 0);
      DispatchIsArrivals(rex, svc.offers, svc.queue.items);
      JoinedFirst(rex, h.svc.offers, o, Arrivals(svc.queue.items));
    case Withdraw(c) => OneEvent(rex, h.svc.offers, F.Left(c));
    case Reconfigure(limits) => NoEvents(rex, h.svc.offers);
  }

  lemma NoEvents(rex: Matcher, offers: seq<Offer>)
    ensures AfterAll(rex, offers, []) == offers && ChosenAll(rex, offers, []) == []
  {
  }

  ghost function EventsOfRun(rex: Matcher, h: History, steps: seq<Step>): seq<F.Event>
    requires Inv(rex, h)
    decreases |steps|
  {
    if steps == [] then []
    else StepKeeps(rex, h, steps[0]); EventsOf(h, steps[0]) + EventsOfRun(rex, Next(rex, h, steps[0]), steps[1..])
  }

  lemma {:induction false} EventsSplit(rex: Matcher, offers: seq<Offer>, a: seq<F.Event>, b: seq<F.Event>)
    ensures AfterAll(rex, offers, a + b) == AfterAll(rex, AfterAll(rex, offers, a), b)
    ensures ChosenAll(rex, offers, a + b) == ChosenAll(rex, offers, a) + ChosenAll(rex, AfterAll(rex, offers, a), b)
    decreases |a|
  {
    if a == [] {
      assert a + b == b;
    } else {
      assert (a + b)[1..] == a[1..] + b;
      EventsSplit(rex, F.After(rex, offers, a[0]), a[1..], b);
    }
  }

  lemma {:induction false} RunIsEvents(rex: Matcher, h: History, steps: seq<Step>)
    requires Inv(rex, h)
    ensures var r := Run(rex, h, steps);
            && r.svc.offers == AfterAll(rex, h.svc.offers, EventsOfRun(rex, h, steps))
            && r.handed == h.handed + ChosenAll(rex, h.svc.offers, EventsOfRun(rex, h, steps))
    decreases |steps|
  {
    hide InSubjectOrder, WorkConserving, Exact, Next, EventsOf, F.After, F.Chosen;
    if steps != [] {
      var n := Next(rex, h, steps[0]);
      StepKeeps(rex, h, steps[0]);
      StepIsEvents(rex, h, steps[0]);
      RunIsEvents(rex, n, steps[1..]);
      EventsSplit(rex, h.svc.offers, EventsOf(h, steps[0]), EventsOfRun(rex, n, steps[1..]));
    }
  }

  /** So an offer of a service that is never chosen is passed by at most as often as offers stood before it. */
  lemma ServiceBypassIsBounded(rex: Matcher, h: History, steps: seq<Step>, o: Offer)
    requires Inv(rex, h) && F.KeepsWaiting(rex, h.svc.offers, o, EventsOfRun(rex, h, steps))
    ensures F.BypassCount(rex, h.svc.offers, o, EventsOfRun(rex, h, steps)) <= F.IndexOf(h.svc.offers, o)
    ensures Run(rex, h, steps).handed == h.handed + ChosenAll(rex, h.svc.offers, EventsOfRun(rex, h, steps))
  {
    hide InSubjectOrder, WorkConserving, Exact, EventsOfRun;
    F.BoundedBypass(rex, h.svc.offers, o, EventsOfRun(rex, h, steps));
    RunIsEvents(rex, h, steps);
  }

  // ---------------------------------------------------------------------------------------------
  // The order of offers is the order of their last use

  /** The last mention of each offer. */
  function LastUses(uses: seq<Offer>): seq<Offer> {
    if uses == [] then [] else (if uses[0] in uses[1..] then [] else [uses[0]]) + LastUses(uses[1..])
  }

  function OffersOf(handed: seq<Handed>): seq<Offer> {
    if handed == [] then [] else [handed[0].offer] + OffersOf(handed[1..])
  }

  /** The uses of offers: one when it is made and one for each message handed to it. */
  ghost function UsesAfter(uses: seq<Offer>, e: F.Event, chosen: seq<Handed>): seq<Offer> {
    match e
    case Joined(o) => uses + [o]
    case Arrival(_) => uses + OffersOf(chosen)
    case Left(c) => Others(uses, c)
  }

  lemma {:induction false} LastUsesSame(uses: seq<Offer>)
    ensures Distinct(LastUses(uses)) && forall o :: o in LastUses(uses) <==> o in uses
  {
    if uses != [] {
      LastUsesSame(uses[1..]);
    }
  }

  lemma FirstUse(x: Offer, rest: seq<Offer>)
    ensures LastUses([x] + rest) == (if x in rest then LastUses(rest) else [x] + LastUses(rest))
  {
    assert ([x] + rest)[1..] == rest;
  }

  lemma FirstOther(x: Offer, rest: seq<Offer>, c: Ptr)
    ensures Others([x] + rest, c) == (if x.client == c then Others(rest, c) else [x] + Others(rest, c))
  {
    assert ([x] + rest)[1..] == rest;
  }

  lemma FirstRemoved(x: Offer, rest: seq<Offer>, o: Offer)
    ensures RemoveFirst([x] + rest, o) == (if x == o then rest else [x] + RemoveFirst(rest, o))
  {
    assert ([x] + rest)[1..] == rest;
  }

  lemma {:induction false} UsedAgain(uses: seq<Offer>, o: Offer)
    ensures LastUses(uses + [o]) == RemoveFirst(LastUses(uses), o) + [o]
  {
    hide LastUses, RemoveFirst;
    if uses == [] {
      UsedOnce(o);
      assert uses + [o] == [o] && uses == [];
    } else {
      var x, rest := uses[0], uses[1..];
      UsedAgain(rest, o);
      assert uses == [x] + rest && uses + [o] == [x] + (rest + [o]);
      FirstUse(x, rest);
      FirstUse(x, rest + [o]);
      FirstRemoved(x, LastUses(rest), o);
      LastUsesSame(rest);
      if x == o && x !in rest {
        assert RemoveFirst(LastUses(rest), o) == LastUses(rest);
      }
    }
  }

  lemma UsedOnce(o: Offer)
    ensures LastUses([o]) == [o] && LastUses([]) == [] && RemoveFirst([], o) == []
  {
    assert [o][1..] == [];
  }

  lemma {:induction false} OthersLastUses(uses: seq<Offer>, c: Ptr)
    ensures LastUses(Others(uses, c)) == Others(LastUses(uses), c)
    ensures forall o :: o in Others(uses, c) <==> o in uses && o.client != c
  {
    if uses != [] {
      hide LastUses, Others;
      var x, rest := uses[0], uses[1..];
      OthersLastUses(rest, c);
      assert uses == [x] + rest;
      FirstUse(x, rest);
      FirstOther(x, rest, c);
      FirstOther(x, LastUses(rest), c);
      FirstUse(x, Others(rest, c));
    }
  }

  /** Moving the offer at position k to the end is using it again. */
  lemma MoveEndIsUse(offers: seq<Offer>, k: nat)
    requires k < |offers| && Distinct(offers)
    ensures MoveEnd(offers, k) == RemoveFirst(offers, offers[k]) + [offers[k]]
  {
    RemoveAt(offers, k);
  }

  lemma {:induction false} RemoveAt(offers: seq<Offer>, k: nat)
    requires k < |offers| && Distinct(offers)
    ensures RemoveFirst(offers, offers[k]) == Without(offers, k)
  {
    if k > 0 {
      RemoveAt(offers[1..], k - 1);
      assert offers[1..][k - 1] == offers[k];
    }
  }

  /** The offers stand in the order of their last use, if a new one is told apart from those on the list. */
  lemma EventKeepsUseOrder(rex: Matcher, offers: seq<Offer>, uses: seq<Offer>, e: F.Event)
    requires offers == LastUses(uses) && (e.Joined? ==> e.o !in offers)
    ensures F.After(rex, offers, e) == LastUses(UsesAfter(uses, e, F.Chosen(rex, offers, e)))
  {
    LastUsesSame(uses);
    match e
    case Joined(o) => UsedAgain(uses, o);
    case Left(c) =>
      WithdrawnIsOthers(offers, c);
      OthersLastUses(uses, c);
    case Arrival(m) =>
      var k := FirstMatch(rex, offers, m.subject);
      if k < |offers| {
        MoveEndIsUse(offers, k);
        UsedAgain(uses, offers[k]);
        assert OffersOf([Handed(offers[k], m)]) == [offers[k]];
      } else {
        assert uses + [] == uses;
      }
  }

  /** All uses over a run of events. */
  ghost function UsesOf(rex: Matcher, offers: seq<Offer>, uses: seq<Offer>, events: seq<F.Event>): seq<Offer>
    decreases |events|
  {
    if events == [] then uses
    else UsesOf(rex, F.After(rex, offers, events[0]), UsesAfter(uses, events[0], F.Chosen(rex, offers, events[0])), events[1..])
  }

  /** No offer joins that is on the list. */
  ghost predicate NewOffers(rex: Matcher, offers: seq<Offer>, events: seq<F.Event>)
    decreases |events|
  {
    events != [] ==> (events[0].Joined? ==> events[0].o !in offers) && NewOffers(rex, F.After(rex, offers, events[0]), events[1..])
  }

  lemma {:induction false} EventsKeepUseOrder(rex: Matcher, offers: seq<Offer>, uses: seq<Offer>, events: seq<F.Event>)
    requires offers == LastUses(uses) && NewOffers(rex, offers, events)
    ensures AfterAll(rex, offers, events) == LastUses(UsesOf(rex, offers, uses, events))
    decreases |events|
  {
    hide F.After, F.Chosen, LastUses, UsesAfter;
    if events != [] {
      EventKeepsUseOrder(rex, offers, uses, events[0]);
      EventsKeepUseOrder(rex, F.After(rex, offers, events[0]), UsesAfter(uses, events[0], F.Chosen(rex, offers, events[0])), events[1..]);
    }
  }

  /** Over any run of a new service its offers stand in the order of their last use: a new offer behind all earlier
      ones, but for those that were handed a message after it was made. */
  lemma OffersStandByLastUse(rex: Matcher, cfg: Limits, steps: seq<Step>)
    requires NewOffers(rex, [], EventsOfRun(rex, Unused(cfg), steps))
    ensures Run(rex, Unused(cfg), steps).svc.offers == LastUses(UsesOf(rex, [], [], EventsOfRun(rex, Unused(cfg), steps)))
  {
    hide Run, EventsOfRun;
    RunIsEvents(rex, Unused(cfg), steps);
    EventsKeepUseOrder(rex, [], [], EventsOfRun(rex, Unused(cfg), steps));
  }

  /** A message goes to that one of the matching offers whose last use is longest ago. */
  lemma LeastRecentlyUsedIsChosen(rex: Matcher, uses: seq<Offer>, m: Message, k: nat)
    requires k < |LastUses(uses)| && rex(LastUses(uses)[k].pattern, m.subject)
    requires forall i :: 0 <= i < k ==> !rex(LastUses(uses)[i].pattern, m.subject)
    ensures F.Chosen(rex, LastUses(uses), F.Arrival(m)) == [Handed(LastUses(uses)[k], m)]
    ensures F.After(rex, LastUses(uses), F.Arrival(m)) == LastUses(uses + [LastUses(uses)[k]])
  {
    var offers := LastUses(uses);
    assert Matches(rex, offers[k], m.subject);
    assert forall i :: 0 <= i < k ==> !Matches(rex, offers[i], m.subject);
    assert FirstMatch(rex, offers, m.subject) == k;
    LastUsesSame(uses);
    MoveEndIsUse(offers, k);
    UsedAgain(uses, offers[k]);
  }
}
