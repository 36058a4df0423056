/** Fairness of the offer rotation (src/mlm_server.c:271-289, 612, 754-761). */
module Fairness {
  import opened Messages
  import opened Queues
  import opened Selectors
  import opened Offers
  import opened Services

  // ---------------------------------------------------------------------------------------------
  // Bounded bypass

  /** What happens to a list of offers. */
  datatype Event = Arrival(m: Message) | Joined(o: Offer) | Left(c: Ptr)

  function After(rex: Matcher, offers: seq<Offer>, e: Event): seq<Offer> {
    match e
    case Arrival(m) => Serve(rex, offers, m)
    case Joined(o) => offers + [o]
    case Left(c) => Withdrawn(offers, c)
  }

  function Chosen(rex: Matcher, offers: seq<Offer>, e: Event): seq<Handed> {
    if e.Arrival? then Hand(rex, offers, e.m) else []
  }

  /** The event hands a message that o matches to another offer. */
  predicate Bypasses(rex: Matcher, offers: seq<Offer>, o: Offer, e: Event) {
    e.Arrival? && Matches(rex, o, e.m.subject) && Chosen(rex, offers, e) != [] && Chosen(rex, offers, e)[0].offer != o
  }

  /** The offer stays on the list and is not chosen. */
  predicate KeepsWaiting(rex: Matcher, offers: seq<Offer>, o: Offer, events: seq<Event>)
    decreases |events|
  {
    o in offers &&
    (events != [] ==>
       && (Chosen(rex, offers, events[0]) != [] ==> Chosen(rex, offers, events[0])[0].offer != o)
       && KeepsWaiting(rex, After(rex, offers, events[0]), o, events[1..]))
  }

  function BypassCount(rex: Matcher, offers: seq<Offer>, o: Offer, events: seq<Event>): nat
    decreases |events|
  {
    if events == [] then 0
    else (if Bypasses(rex, offers, o, events[0]) then 1 else 0)
         + BypassCount(rex, After(rex, offers, events[0]), o, events[1..])
  }

  /** The first position of an item. */
  function IndexOf<T(==)>(s: seq<T>, x: T): (k: nat)
    requires x in s
    ensures k < |s| && s[k] == x && forall i :: 0 <= i < |s| && s[i] == x ==> k <= i
  {
    if s[0] == x then 0 else 1 + IndexOf(s[1..], x)
  }

  /** Serving another offer moves an offer one place forward if it was behind the one served. */
  lemma ServedAnother(offers: seq<Offer>, k: nat, o: Offer)
    requires k < |offers| && o in offers && offers[k] != o
    ensures o in MoveEnd(offers, k)
    ensures IndexOf(MoveEnd(offers, k), o) <= IndexOf(offers, o) - if k < IndexOf(offers, o) then 1 else 0
  {
    var i := IndexOf(offers, o);
    assert MoveEnd(offers, k)[if k < i then i - 1 else i] == o;
  }

  /** An arrival that passes an offer by moves it one place forward; other events never move it back. */
  lemma EventMovesForward(rex: Matcher, offers: seq<Offer>, o: Offer, e: Event)
    requires o in offers && o in After(rex, offers, e)
    requires Chosen(rex, offers, e) != [] ==> Chosen(rex, offers, e)[0].offer != o
    ensures IndexOf(After(rex, offers, e), o) + (if Bypasses(rex, offers, o, e) then 1 else 0) <= IndexOf(offers, o)
  {
    var i := IndexOf(offers, o);
    match e
    case Arrival(m) =>
      var k := FirstMatch(rex, offers, m.subject);
      if k < |offers| {
        ServedAnother(offers, k, o);
      }
    case Joined(p) => assert (offers + [p])[i] == o;
    case Left(c) => WithdrawnIndex(offers, c, o);
  }

  lemma {:induction false} WithdrawnIndex(offers: seq<Offer>, c: Ptr, o: Offer)
    requires o in offers && o.client != c
    ensures o in Withdrawn(offers, c) && IndexOf(Withdrawn(offers, c), o) <= IndexOf(offers, o)
  {
    if offers[0] != o {
      WithdrawnIndex(offers[1..], c, o);
      var tail := Withdrawn(offers[1..], c);
      var k := IndexOf(tail, o);
      assert Withdrawn(offers, c)[if offers[0].client == c then k else k + 1] == o;
    }
  }

  /** Bounded bypass: an offer at position i sees at most i messages it matches go to other offers
      before it is chosen, whatever offers join or leave meanwhile. */
  lemma {:induction false} BoundedBypass(rex: Matcher, offers: seq<Offer>, o: Offer, events: seq<Event>)
    requires KeepsWaiting(rex, offers, o, events)
    ensures BypassCount(rex, offers, o, events) <= IndexOf(offers, o)
    decreases |events|
  {
    if events != [] {
      EventMovesForward(rex, offers, o, events[0]);
      BoundedBypass(rex, After(rex, offers, events[0]), o, events[1..]);
    }
  }

  // ---------------------------------------------------------------------------------------------
  // Round robin

  function ServeAll(rex: Matcher, offers: seq<Offer>, ms: seq<Message>): seq<Handed>
    decreases |ms|
  {
    if ms == [] then [] else Hand(rex, offers, ms[0]) + ServeAll(rex, Serve(rex, offers, ms[0]), ms[1..])
  }

  predicate AllMatch(rex: Matcher, offers: seq<Offer>, ms: seq<Message>) {
    forall i, t :: 0 <= i < |offers| && 0 <= t < |ms| ==> Matches(rex, offers[i], ms[t].subject)
  }

  function Rotated<T>(s: seq<T>): seq<T>
    requires s != []
  {
    s[1..] + [s[0]]
  }

  lemma FirstServes(rex: Matcher, offers: seq<Offer>, ms: seq<Message>)
    requires offers != [] && ms != [] && AllMatch(rex, offers, ms)
    ensures Hand(rex, offers, ms[0]) == [Handed(offers[0], ms[0])] && Serve(rex, offers, ms[0]) == Rotated(offers)
    ensures AllMatch(rex, Rotated(offers), ms[1..])
  {
    assert Matches(rex, offers[0], ms[0].subject);
    forall i, t | 0 <= i < |offers| && 0 <= t < |ms[1..]| ensures Matches(rex, Rotated(offers)[i], ms[1..][t].subject) {
      assert Matches(rex, offers[if i + 1 < |offers| then i + 1 else 0], ms[t + 1].subject);
    }
  }

  /** When every offer matches every message, message t goes to offer t modulo their number. */
  lemma {:induction false} RoundRobin(rex: Matcher, offers: seq<Offer>, ms: seq<Message>)
    requires offers != [] && AllMatch(rex, offers, ms)
    ensures |ServeAll(rex, offers, ms)| == |ms|
    ensures forall t :: 0 <= t < |ms| ==> ServeAll(rex, offers, ms)[t] == Handed(offers[t % |offers|], ms[t])
    decreases |ms|
  {
    if ms != [] {
      FirstServes(rex, offers, ms);
      var tail := ServeAll(rex, Rotated(offers), ms[1..]);
      RoundRobin(rex, Rotated(offers), ms[1..]);
      assert ServeAll(rex, offers, ms) == [Handed(offers[0], ms[0])] + tail;
      forall t | 0 < t < |ms| ensures tail[t - 1] == Handed(offers[t % |offers|], ms[t]) {
        NextInTurn(offers, t);
      }
    }
  }

  lemma NextInTurn<T>(s: seq<T>, t: nat)
    requires s != [] && t > 0
    ensures Rotated(s)[(t - 1) % |s|] == s[t % |s|]
  {
    DivStep(t, |s|);
  }

  lemma MulMono(n: nat, a: int, b: int)
    ensures a <= b ==> n * a <= n * b
  {
  }

  lemma ModIs(t: nat, n: nat, q: nat, r: nat)
    requires n > 0 && r < n && t == n * q + r
    ensures t / n == q && t % n == r
  {
    var d := t / n;
    MulMono(n, d + 1, q);
    MulMono(n, q + 1, d);
  }

  /** Division of successive numbers. */
  lemma DivStep(k: nat, n: nat)
    requires n > 0 && k > 0
    ensures if (k - 1) % n + 1 < n then k / n == (k - 1) / n && k % n == (k - 1) % n + 1
            else k / n == (k - 1) / n + 1 && k % n == 0
  {
    var q, r := (k - 1) / n, (k - 1) % n;
    if r + 1 < n {
      ModIs(k, n, q, r + 1);
    } else {
      ModIs(k, n, q + 1, 0);
    }
  }

  /** How many of the first k turns are those of position j among n. */
  function Turns(k: nat, n: nat, j: nat): nat
    requires n > 0
  {
    if k == 0 then 0 else Turns(k - 1, n, j) + if (k - 1) % n == j then 1 else 0
  }

  lemma {:induction false} TurnsAreEven(k: nat, n: nat, j: nat)
    requires j < n
    ensures Turns(k, n, j) == k / n + if j < k % n then 1 else 0
  {
    if k > 0 {
      TurnsAreEven(k - 1, n, j);
      DivStep(k, n);
    }
  }

  function CountOf(handed: seq<Handed>, o: Offer): nat {
    if handed == [] then 0 else CountOf(handed[..|handed| - 1], o) + if handed[|handed| - 1].offer == o then 1 else 0
  }

  lemma {:induction false} CountIsTurns(offers: seq<Offer>, handed: seq<Handed>, j: nat)
    requires j < |offers| && Distinct(offers)
    requires forall t :: 0 <= t < |handed| ==> handed[t].offer == offers[t % |offers|]
    ensures CountOf(handed, offers[j]) == Turns(|handed|, |offers|, j)
  {
    if handed != [] {
      CountIsTurns(offers, handed[..|handed| - 1], j);
      assert handed[|handed| - 1].offer == offers[(|handed| - 1) % |offers|];
    }
  }

  /** Delivery counts over a fixed list of offers that all match differ by at most one. */
  lemma CountsDifferByOne(rex: Matcher, offers: seq<Offer>, ms: seq<Message>, i: nat, j: nat)
    requires Distinct(offers) && AllMatch(rex, offers, ms) && i < |offers| && j < |offers|
    ensures var handed := ServeAll(rex, offers, ms);
            -1 <= CountOf(handed, offers[i]) - CountOf(handed, offers[j]) <= 1
  {
    var handed := ServeAll(rex, offers, ms);
    RoundRobin(rex, offers, ms);
    CountIsTurns(offers, handed, i);
    CountIsTurns(offers, handed, j);
    TurnsAreEven(|ms|, |offers|, i);
    TurnsAreEven(|ms|, |offers|, j);
  }
}
