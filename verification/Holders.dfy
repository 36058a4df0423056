/** Who holds a message: the references kept by queues and by the message pipes of streams. */
module Holders {
  import opened Messages
  import opened Selectors
  import opened StreamNet

  /** The references kept by a table of queues. */
  ghost function HeldByQueues(queues: map<string, seq<Message>>): multiset<Message>
    decreases |queues|
  {
    if queues == map[] then multiset{}
    else
      var name :| name in queues;
      multiset(queues[name]) + HeldByQueues(queues - {name})
  }

  /** Any queue can be taken out first. */
  lemma {:induction false} HeldWithout(queues: map<string, seq<Message>>, name: string)
    requires name in queues
    ensures HeldByQueues(queues) == multiset(queues[name]) + HeldByQueues(queues - {name})
    decreases |queues|
  {
    var first :| first in queues && HeldByQueues(queues) == multiset(queues[first]) + HeldByQueues(queues - {first});
    if first != name {
      HeldWithout(queues - {first}, name);
      HeldWithout(queues - {name}, first);
      assert queues - {first} - {name} == queues - {name} - {first};
      Swap(multiset(queues[first]), multiset(queues[name]), HeldByQueues(queues - {name} - {first}));
    }
  }

  lemma Swap<T>(a: multiset<T>, b: multiset<T>, c: multiset<T>)
    ensures a + (b + c) == b + (a + c)
  {
  }

  /** Replacing or adding one queue changes what is held by that queue alone. */
  lemma HeldUpdate(queues: map<string, seq<Message>>, name: string, items: seq<Message>)
    ensures HeldByQueues(queues[name := items]) == HeldByQueues(queues - {name}) + multiset(items)
    ensures HeldByQueues(queues) == HeldByQueues(queues - {name}) + multiset(if name in queues then queues[name] else [])
  {
    HeldWithout(queues[name := items], name);
    assert queues[name := items] - {name} == queues - {name};
    if name in queues {
      HeldWithout(queues, name);
    } else {
      assert queues - {name} == queues;
    }
  }

  /** The references that deliveries on their way to the server carry. */
  function HeldByReplies(out: seq<Out>): multiset<Message> {
    if out == [] then multiset{}
    else (if out[0].Deliver? then multiset{out[0].msg} else multiset{}) + HeldByReplies(out[1..])
  }

  function HeldByPublications(pub: seq<Pub>): multiset<Message> {
    if pub == [] then multiset{} else multiset{pub[0].msg} + HeldByPublications(pub[1..])
  }

  function HeldByStream(st: Stream): multiset<Message> {
    HeldByPublications(st.pub) + HeldByReplies(st.out)
  }

  function HeldByStreams(ss: seq<Stream>): multiset<Message> {
    if ss == [] then multiset{} else HeldByStreams(ss[..|ss| - 1]) + HeldByStream(ss[|ss| - 1])
  }

  lemma {:induction false} RepliesSplit(a: seq<Out>, b: seq<Out>)
    ensures HeldByReplies(a + b) == HeldByReplies(a) + HeldByReplies(b)
  {
    if a == [] {
      assert a + b == b;
    } else {
      assert (a + b)[1..] == a[1..] + b;
      RepliesSplit(a[1..], b);
    }
  }

  lemma {:induction false} PublicationsAppend(pub: seq<Pub>, p: Pub)
    ensures HeldByPublications(pub + [p]) == HeldByPublications(pub) + multiset{p.msg}
  {
    if pub == [] {
      assert pub + [p] == [p] && [p][1..] == [];
    } else {
      assert (pub + [p])[1..] == pub[1..] + [p];
      PublicationsAppend(pub[1..], p);
    }
  }

  lemma {:induction false} StreamsUpdate(ss: seq<Stream>, s: nat, st: Stream)
    requires s < |ss|
    ensures HeldByStreams(ss[s := st]) + HeldByStream(ss[s]) == HeldByStreams(ss) + HeldByStream(st)
  {
    hide HeldByStream;
    var n := |ss| - 1;
    if s == n {
      assert ss[s := st][..n] == ss[..n];
    } else {
      StreamsUpdate(ss[..n], s, st);
      assert ss[s := st][..n] == ss[..n][s := st];
      Exchange(HeldByStreams(ss[..n][s := st]), HeldByStream(ss[s]), HeldByStreams(ss[..n]), HeldByStream(st), HeldByStream(ss[n]));
    }
  }

  lemma Exchange<T>(a: multiset<T>, b: multiset<T>, c: multiset<T>, d: multiset<T>, e: multiset<T>)
    requires a + b == c + d
    ensures a + e + b == c + e + d
  {
    assert a + e + b == a + b + e;
    assert c + e + d == c + d + e;
  }

  lemma StreamsAppend(ss: seq<Stream>)
    ensures HeldByStreams(ss + [EMPTY_STREAM]) == HeldByStreams(ss)
  {
    assert (ss + [EMPTY_STREAM])[..|ss|] == ss;
  }

  /** A publication that the actor has copied: one reference per copy instead of its own. */
  lemma {:induction false} CopiesHold(rex: Matcher, sel: seq<Selector>, sender: Ptr, m: Message)
    ensures var out := Copies(rex, sel, sender, m);
            HeldByReplies(out) == multiset{}[m := |out|]
  {
    if sel != [] {
      CopiesHold(rex, sel[1..], sender, m);
      ClientCopiesHold(sel[0].clients, sender, m);
      var head := if rex(sel[0].pattern, m.subject) then CopiesFor(sel[0].clients, sender, m) else [];
      RepliesSplit(head, Copies(rex, sel[1..], sender, m));
    }
  }

  lemma {:induction false} ClientCopiesHold(clients: seq<Ptr>, sender: Ptr, m: Message)
    ensures HeldByReplies(CopiesFor(clients, sender, m)) == multiset{}[m := |CopiesFor(clients, sender, m)|]
  {
    if clients != [] {
      ClientCopiesHold(clients[1..], sender, m);
      var head := if clients[0] != sender then [Deliver(clients[0], m)] else [];
      assert head != [] ==> head[1..] == [];
      RepliesSplit(head, CopiesFor(clients[1..], sender, m));
    }
  }
}
