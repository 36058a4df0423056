/** The selector lists of a stream engine (src/mlm_stream_simple.c) as values: what COMPILE, CANCEL
    and a publication do to them, and the relation of (pattern, client) pairs they stand for. */
module Selectors {
  import opened Messages

  /** Address of a client context. Addresses may be used again after the context is freed. */
  type Ptr = nat

  /** zrex is outside the model: it is any predicate on (pattern, subject). */
  type Matcher = (string, string) -> bool

  datatype Selector = Selector(pattern: string, clients: seq<Ptr>)

  /** One (client, message) or (client, ACK) pair on the message pipe towards the server. */
  datatype Out = Deliver(client: Ptr, msg: Message) | Ack(client: Ptr)

  predicate Distinct<T(==)>(s: seq<T>) {
    forall i, j :: 0 <= i < j < |s| ==> s[i] != s[j]
  }

  function RemoveFirst<T(==)>(s: seq<T>, x: T): (r: seq<T>)
    ensures x !in s ==> r == s
    ensures |r| == if x in s then |s| - 1 else |s|
  {
    if s == [] then []
    else if s[0] == x then s[1..]
    else [s[0]] + RemoveFirst(s[1..], x)
  }

  // ---------------------------------------------------------------------------------------------
  // What the engine does

  function Compile(sel: seq<Selector>, c: Ptr, pattern: string): seq<Selector> {
    if sel == [] then [Selector(pattern, [c])]
    else if sel[0].pattern == pattern then
      [if c in sel[0].clients then sel[0] else Selector(pattern, sel[0].clients + [c])] + sel[1..]
    else [sel[0]] + Compile(sel[1..], c, pattern)
  }

  function Cancel(sel: seq<Selector>, c: Ptr): (r: seq<Selector>)
    ensures |r| == |sel|
    ensures forall i :: 0 <= i < |sel| ==> r[i] == Selector(sel[i].pattern, RemoveFirst(sel[i].clients, c))
  {
    if sel == [] then []
    else [Selector(sel[0].pattern, RemoveFirst(sel[0].clients, c))] + Cancel(sel[1..], c)
  }

  function CopiesFor(clients: seq<Ptr>, sender: Ptr, m: Message): seq<Out> {
    if clients == [] then []
    else (if clients[0] != sender then [Deliver(clients[0], m)] else []) + CopiesFor(clients[1..], sender, m)
  }

  function Copies(rex: Matcher, sel: seq<Selector>, sender: Ptr, m: Message): seq<Out> {
    if sel == [] then []
    else (if rex(sel[0].pattern, m.subject) then CopiesFor(sel[0].clients, sender, m) else [])
         + Copies(rex, sel[1..], sender, m)
  }

  // ---------------------------------------------------------------------------------------------
  // The relation behind the lists

  predicate WellFormed(sel: seq<Selector>) {
    && (forall i, j :: 0 <= i < j < |sel| ==> sel[i].pattern != sel[j].pattern)
    && (forall i :: 0 <= i < |sel| ==> Distinct(sel[i].clients))
  }

  predicate Holds(sel: seq<Selector>, pattern: string, c: Ptr) {
    exists i :: 0 <= i < |sel| && sel[i].pattern == pattern && c in sel[i].clients
  }

  predicate Subscribed(sel: seq<Selector>, c: Ptr) {
    exists i :: 0 <= i < |sel| && c in sel[i].clients
  }

  /** Without duplicates, removing one entry removes every entry and keeps the others in order. */
  lemma {:induction false} RemoveFirstDistinct<T>(s: seq<T>, x: T)
    requires Distinct(s)
    ensures Distinct(RemoveFirst(s, x))
    ensures forall y :: y in RemoveFirst(s, x) <==> y in s && y != x
  {
    if s == [] {
    } else if s[0] == x {
      assert forall y :: y in s <==> y == s[0] || y in s[1..];
    } else {
      RemoveFirstDistinct(s[1..], x);
      assert forall y :: y in s <==> y == s[0] || y in s[1..];
      var r := RemoveFirst(s[1..], x);
      forall i, j | 0 <= i < j < |r| + 1 ensures ([s[0]] + r)[i] != ([s[0]] + r)[j] {
        assert r[j - 1] in r;
      }
    }
  }

  /** COMPILE adds exactly the pair (pattern, c) and keeps the lists well formed. */
  lemma {:induction false} CompileAddsOnePair(sel: seq<Selector>, c: Ptr, pattern: string)
    requires WellFormed(sel)
    ensures WellFormed(Compile(sel, c, pattern))
    ensures forall q, d :: Holds(Compile(sel, c, pattern), q, d) <==> Holds(sel, q, d) || (q == pattern && d == c)
  {
    var r := Compile(sel, c, pattern);
    var k := CompileShape(sel, c, pattern);
    if k == |sel| {
      assert r[k] == Selector(pattern, [c]);
    }
    forall q, d ensures Holds(r, q, d) <==> Holds(sel, q, d) || (q == pattern && d == c) {
      if Holds(sel, q, d) {
        var i :| 0 <= i < |sel| && sel[i].pattern == q && d in sel[i].clients;
        assert r[i].pattern == q && d in r[i].clients;
      }
      assert r[k].pattern == pattern && c in r[k].clients;
    }
  }

  /** Where COMPILE writes: the selector with that pattern, or a new one at the end. */
  lemma {:induction false} CompileShape(sel: seq<Selector>, c: Ptr, pattern: string) returns (k: nat)
    ensures k <= |sel|
    ensures forall i :: 0 <= i < k ==> sel[i].pattern != pattern
    ensures k < |sel| ==> sel[k].pattern == pattern
    ensures Compile(sel, c, pattern) ==
            if k == |sel| then sel + [Selector(pattern, [c])]
            else sel[k := Selector(pattern, if c in sel[k].clients then sel[k].clients else sel[k].clients + [c])]
  {
    if sel == [] || sel[0].pattern == pattern {
      k := 0;
    } else {
      var j := CompileShape(sel[1..], c, pattern);
      k := j + 1;
    }
  }

  /** CANCEL removes every pair of c and nothing else, one removal per selector. */
  lemma CancelRemovesClient(sel: seq<Selector>, c: Ptr)
    requires WellFormed(sel)
    ensures WellFormed(Cancel(sel, c))
    ensures forall q, d :: Holds(Cancel(sel, c), q, d) <==> Holds(sel, q, d) && d != c
    ensures forall d :: Subscribed(Cancel(sel, c), d) <==> Subscribed(sel, d) && d != c
  {
    var r := Cancel(sel, c);
    forall i | 0 <= i < |sel|
      ensures Distinct(r[i].clients)
      ensures forall d :: d in r[i].clients <==> d in sel[i].clients && d != c
    {
      RemoveFirstDistinct(sel[i].clients, c);
    }
  }

  /** Copies of a publication go to subscribers only, and carry no ACK. */
  lemma {:induction false} CopiesAreForSubscribers(rex: Matcher, sel: seq<Selector>, sender: Ptr, m: Message)
    ensures forall k :: 0 <= k < |Copies(rex, sel, sender, m)| ==>
              var o := Copies(rex, sel, sender, m)[k];
              o.Deliver? && o.msg == m && o.client != sender && Subscribed(sel, o.client)
  {
    if sel != [] {
      CopiesAreForSubscribers(rex, sel[1..], sender, m);
      CopiesForList(sel[0].clients, sender, m);
      forall d | Subscribed(sel[1..], d) ensures Subscribed(sel, d) {
        var i :| 0 <= i < |sel[1..]| && d in sel[1..][i].clients;
        assert d in sel[i + 1].clients;
      }
    }
  }

  lemma {:induction false} CopiesForList(clients: seq<Ptr>, sender: Ptr, m: Message)
    ensures forall k :: 0 <= k < |CopiesFor(clients, sender, m)| ==>
              var o := CopiesFor(clients, sender, m)[k];
              o.Deliver? && o.msg == m && o.client != sender && o.client in clients
  {
    if clients != [] {
      CopiesForList(clients[1..], sender, m);
    }
  }
}
