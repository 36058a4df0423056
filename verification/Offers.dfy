/** Service offers and the dispatch of messages to them (src/mlm_server.c:271-305) as values. */
module Offers {
  import opened Messages
  import opened Queues
  import opened Selectors

  /** offer_t; `id` stands for its address. */
  datatype Offer = Offer(id: nat, pattern: string, client: Ptr)

  /** A message handed to the client of an offer. */
  datatype Handed = Handed(offer: Offer, msg: Message)

  predicate Matches(rex: Matcher, o: Offer, subject: string) {
    rex(o.pattern, subject)
  }

  predicate Matched(rex: Matcher, offers: seq<Offer>, subject: string) {
    exists i :: 0 <= i < |offers| && Matches(rex, offers[i], subject)
  }

  /** The first offer that matches, or the number of offers. */
  function FirstMatch(rex: Matcher, offers: seq<Offer>, subject: string): (k: nat)
    ensures k <= |offers|
    ensures k < |offers| ==> Matches(rex, offers[k], subject)
    ensures forall i :: 0 <= i < k ==> !Matches(rex, offers[i], subject)
  {
    if offers == [] then 0
    else if Matches(rex, offers[0], subject) then 0
    else 1 + FirstMatch(rex, offers[1..], subject)
  }

  /** zlistx_move_end. */
  function MoveEnd(offers: seq<Offer>, k: nat): seq<Offer>
    requires k < |offers|
  {
    Without(offers, k) + [offers[k]]
  }

  /** s_service_dispatch_message: the offers afterwards; the message is taken when one matches. */
  function Serve(rex: Matcher, offers: seq<Offer>, m: Message): seq<Offer> {
    var k := FirstMatch(rex, offers, m.subject);
    if k < |offers| then MoveEnd(offers, k) else offers
  }

  function Hand(rex: Matcher, offers: seq<Offer>, m: Message): seq<Handed> {
    var k := FirstMatch(rex, offers, m.subject);
    if k < |offers| then [Handed(offers[k], m)] else []
  }

  datatype Dispatched = Dispatched(offers: seq<Offer>, left: seq<Message>, handed: seq<Handed>)

  /** s_service_dispatch over the messages of a queue, first to last. */
  function Dispatch(rex: Matcher, offers: seq<Offer>, queue: seq<Message>): Dispatched
    decreases |queue|
  {
    if queue == [] then Dispatched(offers, [], [])
    else
      var m := queue[0];
      var rest := Dispatch(rex, Serve(rex, offers, m), queue[1..]);
      rest.(left := (if Matched(rex, offers, m.subject) then [] else [m]) + rest.left,
            handed := Hand(rex, offers, m) + rest.handed)
  }

  /** The messages of a queue whose subject is, or is not, matched by some offer. */
  function Select(rex: Matcher, offers: seq<Offer>, queue: seq<Message>, matched: bool): seq<Message> {
    if queue == [] then []
    else (if Matched(rex, offers, queue[0].subject) == matched then [queue[0]] else [])
         + Select(rex, offers, queue[1..], matched)
  }

  function MessagesOf(handed: seq<Handed>): (r: seq<Message>)
    ensures |r| == |handed|
    ensures forall i :: 0 <= i < |handed| ==> r[i] == handed[i].msg
  {
    seq(|handed|, i requires 0 <= i < |handed| => handed[i].msg)
  }

  // ---------------------------------------------------------------------------------------------
  // Dispatch is a stable filter that only permutes the offers

  lemma MoveEndPermutes(offers: seq<Offer>, k: nat)
    requires k < |offers|
    ensures multiset(MoveEnd(offers, k)) == multiset(offers)
  {
    assert offers == offers[..k] + [offers[k]] + offers[k + 1..];
  }

  lemma ServePermutes(rex: Matcher, offers: seq<Offer>, m: Message)
    ensures multiset(Serve(rex, offers, m)) == multiset(offers)
  {
    var k := FirstMatch(rex, offers, m.subject);
    if k < |offers| {
      MoveEndPermutes(offers, k);
    }
  }

  /** Whether a subject is matched does not depend on the order of the offers. */
  lemma MatchedByPermutation(rex: Matcher, a: seq<Offer>, b: seq<Offer>, subject: string)
    requires multiset(a) == multiset(b)
    ensures Matched(rex, a, subject) == Matched(rex, b, subject)
  {
    if Matched(rex, a, subject) {
      var i :| 0 <= i < |a| && Matches(rex, a[i], subject);
      assert a[i] in multiset(b);
    }
    if Matched(rex, b, subject) {
      var i :| 0 <= i < |b| && Matches(rex, b[i], subject);
      assert b[i] in multiset(a);
    }
  }

  lemma {:induction false} SelectByPermutation(rex: Matcher, a: seq<Offer>, b: seq<Offer>, queue: seq<Message>, matched: bool)
    requires multiset(a) == multiset(b)
    ensures Select(rex, a, queue, matched) == Select(rex, b, queue, matched)
  {
    if queue != [] {
      MatchedByPermutation(rex, a, b, queue[0].subject);
      SelectByPermutation(rex, a, b, queue[1..], matched);
    }
  }

  lemma {:induction false} DispatchPermutes(rex: Matcher, offers: seq<Offer>, queue: seq<Message>)
    ensures multiset(Dispatch(rex, offers, queue).offers) == multiset(offers)
    decreases |queue|
  {
    if queue != [] {
      ServePermutes(rex, offers, queue[0]);
      DispatchPermutes(rex, Serve(rex, offers, queue[0]), queue[1..]);
    }
  }

  /** Dispatch leaves exactly the unmatched messages, in their order, and hands over the matched ones
      in queue order. */
  lemma {:induction false} DispatchIsStableFilter(rex: Matcher, offers: seq<Offer>, queue: seq<Message>)
    ensures var r := Dispatch(rex, offers, queue);
            && r.left == Select(rex, offers, queue, false)
            && MessagesOf(r.handed) == Select(rex, offers, queue, true)
    decreases |queue|
  {
    if queue != [] {
      var m := queue[0];
      var next := Serve(rex, offers, m);
      ServePermutes(rex, offers, m);
      DispatchIsStableFilter(rex, next, queue[1..]);
      SelectByPermutation(rex, next, offers, queue[1..], false);
      SelectByPermutation(rex, next, offers, queue[1..], true);
      MessagesOfSplit(Hand(rex, offers, m), Dispatch(rex, next, queue[1..]).handed);
    }
  }

  lemma MessagesOfSplit(a: seq<Handed>, b: seq<Handed>)
    ensures MessagesOf(a + b) == MessagesOf(a) + MessagesOf(b)
  {
  }

  /** Every message goes to one of the offers, and to one that matches it. */
  lemma {:induction false} DispatchServesMatching(rex: Matcher, offers: seq<Offer>, queue: seq<Message>)
    ensures forall h :: h in Dispatch(rex, offers, queue).handed ==> h.offer in offers && Matches(rex, h.offer, h.msg.subject)
    decreases |queue|
  {
    if queue != [] {
      var next := Serve(rex, offers, queue[0]);
      ServePermutes(rex, offers, queue[0]);
      DispatchServesMatching(rex, next, queue[1..]);
      forall h | h in Dispatch(rex, next, queue[1..]).handed ensures h.offer in offers {
        assert h.offer in multiset(next);
      }
    }
  }

  lemma FirstMatchMatched(rex: Matcher, offers: seq<Offer>, subject: string)
    ensures FirstMatch(rex, offers, subject) < |offers| <==> Matched(rex, offers, subject)
  {
  }
}
