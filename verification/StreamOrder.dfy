/** What a reader sees of one stream: how many copies of a publication, and in which order. */
module StreamOrder {
  import opened Messages
  import opened Selectors
  import opened StreamNet

  /** Number of copies for client d. */
  function CopiesTo(out: seq<Out>, d: Ptr): nat {
    if out == [] then 0 else (if out[0].Deliver? && out[0].client == d then 1 else 0) + CopiesTo(out[1..], d)
  }

  /** Number of selectors that match a subject and list client d. */
  function MatchingPairs(rex: Matcher, sel: seq<Selector>, subject: string, d: Ptr): nat {
    if sel == [] then 0
    else (if rex(sel[0].pattern, subject) && d in sel[0].clients then 1 else 0) + MatchingPairs(rex, sel[1..], subject, d)
  }

  lemma {:induction false} CopiesToSplit(a: seq<Out>, b: seq<Out>, d: Ptr)
    ensures CopiesTo(a + b, d) == CopiesTo(a, d) + CopiesTo(b, d)
  {
    if a == [] {
      assert a + b == b;
    } else {
      assert (a + b)[1..] == a[1..] + b;
      CopiesToSplit(a[1..], b, d);
    }
  }

  lemma {:induction false} OneCopyPerClient(clients: seq<Ptr>, sender: Ptr, m: Message, d: Ptr)
    requires Distinct(clients)
    ensures CopiesTo(CopiesFor(clients, sender, m), d) == if d in clients && d != sender then 1 else 0
  {
    if clients != [] {
      OneCopyPerClient(clients[1..], sender, m, d);
      var head := if clients[0] != sender then [Deliver(clients[0], m)] else [];
      CopiesToSplit(head, CopiesFor(clients[1..], sender, m), d);
      assert head != [] ==> head[1..] == [];
      assert d in clients <==> d == clients[0] || d in clients[1..];
    }
  }

  /** A publication makes exactly one copy per matching (pattern, client) pair, and none for its sender. */
  lemma {:induction false} OneCopyPerPair(rex: Matcher, sel: seq<Selector>, sender: Ptr, m: Message, d: Ptr)
    requires WellFormed(sel)
    ensures CopiesTo(Copies(rex, sel, sender, m), d) == if d == sender then 0 else MatchingPairs(rex, sel, m.subject, d)
  {
    if sel != [] {
      OneCopyPerPair(rex, sel[1..], sender, m, d);
      OneCopyPerClient(sel[0].clients, sender, m, d);
      var head := if rex(sel[0].pattern, m.subject) then CopiesFor(sel[0].clients, sender, m) else [];
      CopiesToSplit(head, Copies(rex, sel[1..], sender, m), d);
    }
  }

  const TWICE := [Selector("a", [1]), Selector("b", [1])]

  /** A client with two patterns that both match a subject gets the message twice. */
  lemma TwoPatternsTwoCopies(rex: Matcher, m: Message)
    requires rex("a", m.subject) && rex("b", m.subject)
    ensures WellFormed(TWICE) && CopiesTo(Copies(rex, TWICE, 2, m), 1) == 2
  {
    assert "a"[0] != "b"[0];
    assert TWICE[1..] == [Selector("b", [1])] && [Selector("b", [1])][1..] == [];
    assert MatchingPairs(rex, [Selector("b", [1])], m.subject, 1) == 1;
    OneCopyPerPair(rex, TWICE, 2, m, 1);
  }

  ghost predicate AtMostOnce(rex: Matcher, sel: seq<Selector>, d: Ptr) {
    forall sender, m :: CopiesTo(Copies(rex, sel, sender, m), d) <= 1
  }

  ghost predicate NoSubjectTwice(rex: Matcher, sel: seq<Selector>, d: Ptr) {
    forall subject :: MatchingPairs(rex, sel, subject, d) <= 1
  }

  /** A client gets every message at most once exactly while no subject is matched by two of its patterns. */
  lemma AtMostOnceIff(rex: Matcher, sel: seq<Selector>, d: Ptr)
    requires WellFormed(sel)
    ensures AtMostOnce(rex, sel, d) <==> NoSubjectTwice(rex, sel, d)
  {
    hide CopiesTo, MatchingPairs, Copies, WellFormed;
    if AtMostOnce(rex, sel, d) {
      forall subject ensures MatchingPairs(rex, sel, subject, d) <= 1 {
        var m := Message(0, "", "", subject, 0);
        OneCopyPerPair(rex, sel, d + 1, m, d);
        assert CopiesTo(Copies(rex, sel, d + 1, m), d) <= 1;
      }
    }
    if NoSubjectTwice(rex, sel, d) {
      forall sender, m ensures CopiesTo(Copies(rex, sel, sender, m), d) <= 1 {
        OneCopyPerPair(rex, sel, sender, m, d);
      }
    }
  }

  // ---------------------------------------------------------------------------------------------
  // Order over a run

  datatype Op = Ask(cmd: Cmd) | Send(pub: Pub) | HandleCommand | HandleMessage | Take

  /** A stream with its history: all publications, how many the actor has handled, all pairs it has
      sent with the publication each one came from, and how many of them the server has taken. */
  datatype History = History(st: Stream, sent: seq<Pub>, handled: nat, emitted: seq<Out>, origin: seq<nat>, taken: nat)

  const NOTHING_YET := History(EMPTY_STREAM, [], 0, [], [], 0)

  function Advance(rex: Matcher, h: History, op: Op): History {
    match op
    case Ask(cmd) => h.(st := h.st.(cmd := h.st.cmd + [cmd]))
    case Send(pub) => h.(st := h.st.(pub := h.st.pub + [pub]), sent := h.sent + [pub])
    case HandleCommand =>
      if h.st.cmd == [] then h
      else
        var r := EngineCommand(h.st);
        var more := if h.st.cmd[0].Cancel? then [Ack(h.st.cmd[0].client)] else [];
        h.(st := r, emitted := h.emitted + more, origin := h.origin + seq(|more|, _ => h.handled))
    case HandleMessage =>
      if h.st.pub == [] then h
      else
        var more := Copies(rex, h.st.selectors, h.st.pub[0].sender, h.st.pub[0].msg);
        h.(st := EngineMessage(rex, h.st), handled := h.handled + 1,
           emitted := h.emitted + more, origin := h.origin + seq(|more|, _ => h.handled))
    case Take =>
      if h.st.out == [] then h
      else h.(st := h.st.(out := h.st.out[1..]), taken := h.taken + 1)
  }

  function Run(rex: Matcher, h: History, ops: seq<Op>): History
    decreases |ops|
  {
    if ops == [] then h else Run(rex, Advance(rex, h, ops[0]), ops[1..])
  }

  /** The pipes are the unread ends of the histories; copies follow the order of publications. */
  ghost predicate InOrder(h: History) {
    && h.handled <= |h.sent| && h.st.pub == h.sent[h.handled..]
    && h.taken <= |h.emitted| && h.st.out == h.emitted[h.taken..]
    && |h.origin| == |h.emitted|
    && (forall i :: 0 <= i < |h.origin| ==> h.origin[i] <= h.handled)
    && (forall i, j :: 0 <= i < j < |h.origin| ==> h.origin[i] <= h.origin[j])
    && (forall i :: 0 <= i < |h.emitted| && h.emitted[i].Deliver? ==>
          && h.origin[i] < h.handled
          && h.emitted[i].msg == h.sent[h.origin[i]].msg
          && h.emitted[i].client != h.sent[h.origin[i]].sender)
  }

  lemma EmitKeeps(h: History, st: Stream, handled: nat, more: seq<Out>)
    requires InOrder(h) && h.handled <= handled <= |h.sent| && st.pub == h.sent[handled..]
    requires st.out == h.st.out + more
    requires forall k :: 0 <= k < |more| && more[k].Deliver? ==>
               h.handled < handled && more[k].msg == h.sent[h.handled].msg && more[k].client != h.sent[h.handled].sender
    ensures InOrder(h.(st := st, handled := handled, emitted := h.emitted + more, origin := h.origin + seq(|more|, _ => h.handled)))
  {
    assert (h.emitted + more)[h.taken..] == h.emitted[h.taken..] + more;
  }

  lemma AdvanceKeeps(rex: Matcher, h: History, op: Op)
    requires InOrder(h)
    ensures InOrder(Advance(rex, h, op))
  {
    match op
    case Ask(cmd) =>
    case Send(pub) => assert (h.sent + [pub])[h.handled..] == h.sent[h.handled..] + [pub];
    case HandleCommand =>
      if h.st.cmd != [] {
        var more := if h.st.cmd[0].Cancel? then [Ack(h.st.cmd[0].client)] else [];
        assert h.st.out + [] == h.st.out;
        EmitKeeps(h, EngineCommand(h.st), h.handled, more);
      }
    case HandleMessage =>
      if h.st.pub != [] {
        assert h.st.pub[0] == h.sent[h.handled];
        CopiesAreForSubscribers(rex, h.st.selectors, h.st.pub[0].sender, h.st.pub[0].msg);
        EmitKeeps(h, EngineMessage(rex, h.st), h.handled + 1, Copies(rex, h.st.selectors, h.st.pub[0].sender, h.st.pub[0].msg));
      }
    case Take =>
  }

  /** Over any run, every reader sees the stream in publication order, and never its own messages. */
  lemma {:induction false} ReadersSeePublicationOrder(rex: Matcher, h: History, ops: seq<Op>)
    requires InOrder(h)
    ensures InOrder(Run(rex, h, ops))
    decreases |ops|
  {
    if ops != [] {
      AdvanceKeeps(rex, h, ops[0]);
      ReadersSeePublicationOrder(rex, Advance(rex, h, ops[0]), ops[1..]);
    }
  }

  /** In particular over every run of a new stream. */
  lemma NewStreamsKeepOrder(rex: Matcher, ops: seq<Op>)
    ensures InOrder(Run(rex, NOTHING_YET, ops))
  {
    ReadersSeePublicationOrder(rex, NOTHING_YET, ops);
  }
}
