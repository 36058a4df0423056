/** The stream engine actor (src/mlm_stream_simple.c): its lists, cursor loops and pipes, proved
    against the values in Selectors and StreamNet. */
module StreamEngines {
  import opened Messages
  import opened Options
  import opened Selectors
  import opened StreamNet
  import opened ZLists

  /** selector_t: a pattern, and the list of the clients that asked for it. */
  class SelectorNode {
    const pattern: string
    const clients: ZList<Ptr>

    constructor (c: Ptr, pattern: string)
      ensures this.pattern == pattern && fresh(clients) && clients.Valid() && clients.items == [c]
    {
      this.pattern := pattern;
      var list := new ZList<Ptr>();
      list.AddEnd(c);
      clients := list;
    }

    /** The inner loop of COMPILE: a duplicate client is ignored. */
    method AddIfNew(c: Ptr)
      requires clients.Valid()
      modifies clients
      ensures clients.Valid()
      ensures clients.items == if c in old(clients.items) then old(clients.items) else old(clients.items) + [c]
    {
      var existing := clients.First();
      ghost var seen := 0;
      while existing.Some?
        invariant clients.Valid() && clients.items == old(clients.items) && seen <= |clients.items|
        invariant if existing.Some? then clients.cursor == seen < |clients.items| && existing.value == clients.items[seen]
                  else seen == |clients.items|
        invariant c !in clients.items[..seen]
        decreases |clients.items| - seen
      {
        if existing.value == c {
          return;
        }
        existing := clients.Next();
        seen := seen + 1;
      }
      clients.AddEnd(c);
    }

    /** zlistx_find, then zlistx_delete of the handle found. */
    method Delete(c: Ptr)
      requires clients.Valid()
      modifies clients
      ensures clients.Valid() && clients.items == RemoveFirst(old(clients.items), c)
    {
      var handle := Find(clients, c);
      if handle.Some? {
        RemoveFirstAt(clients.items, c, handle.value);
        var _ := clients.Detach(handle);
      }
    }
  }

  lemma {:induction false} RemoveFirstAt<T>(s: seq<T>, x: T, k: nat)
    requires k < |s| && s[k] == x && x !in s[..k]
    ensures RemoveFirst(s, x) == s[..k] + s[k + 1..]
  {
    if k > 0 {
      assert s[0] in s[..k];
      assert s[1..][..k - 1] == s[..k][1..];
      RemoveFirstAt(s[1..], x, k - 1);
    }
  }

  function Values(nodes: seq<SelectorNode>): (r: seq<Selector>)
    reads set n | n in nodes :: n.clients
    ensures |r| == |nodes|
    ensures forall i :: 0 <= i < |nodes| ==> r[i] == Selector(nodes[i].pattern, nodes[i].clients.items)
  {
    seq(|nodes|, i requires 0 <= i < |nodes| reads set n | n in nodes :: n.clients =>
      Selector(nodes[i].pattern, nodes[i].clients.items))
  }

  class StreamEngine {
    const rex: Matcher
    const selectors: ZList<SelectorNode>
    const heap: MsgHeap
    var cmdpipe: seq<Cmd>
    var msgpipe: seq<Pub>
    var replies: seq<Out>
    ghost var owners: map<ZList<Ptr>, SelectorNode>  // the selector of each list, so that no two share one

    ghost predicate Valid()
      reads this, selectors, owners.Keys
    {
      && selectors.Valid() && Distinct(selectors.items)
      && forall i :: 0 <= i < |selectors.items| ==>
           var n := selectors.items[i]; n.clients in owners && owners[n.clients] == n && n.clients.Valid()
    }

    ghost function Lists(): seq<Selector>
      reads selectors, set n | n in selectors.items :: n.clients
    {
      Values(selectors.items)
    }

    ghost function View(): Stream
      reads this, selectors, set n | n in selectors.items :: n.clients
    {
      Stream(cmdpipe, msgpipe, Lists(), replies)
    }

    constructor (rex: Matcher, heap: MsgHeap)
      ensures Valid() && View() == EMPTY_STREAM && fresh(selectors) && owners == map[] && this.rex == rex && this.heap == heap
    {
      this.rex, this.heap := rex, heap;
      selectors := new ZList();
      cmdpipe, msgpipe, replies, owners := [], [], [], map[];
    }

    /** The outer loop of COMPILE: stops at the selector with this pattern. */
    method FindSelector(pattern: string) returns (selector: Option<SelectorNode>)
      requires Valid()
      modifies selectors`cursor
      ensures Valid()
      ensures selector.Some? ==> selectors.AtItem() && selector.value == selectors.items[selectors.cursor]
                                 && selector.value.pattern == pattern
      ensures forall i :: 0 <= i < |selectors.items| && (selector == None || i < selectors.cursor) ==>
                selectors.items[i].pattern != pattern
    {
      selector := selectors.First();
      while selector.Some?
        invariant Valid()
        invariant selector.Some? ==> selectors.AtItem() && selector.value == selectors.items[selectors.cursor]
        invariant forall i :: 0 <= i < |selectors.items| && (selector == None || i < selectors.cursor) ==>
                    selectors.items[i].pattern != pattern
        decreases if selector.Some? then |selectors.items| - selectors.cursor else -1
      {
        if selector.value.pattern == pattern {
          break;
        }
        selector := selectors.Next();
      }
    }

    /** s_stream_engine_compile. */
    method CompileSelector(c: Ptr, pattern: string)
      requires Valid()
      modifies selectors, owners.Keys, `owners
      ensures Valid() && fresh(owners.Keys - old(owners.Keys))
      ensures Lists() == Selectors.Compile(old(Lists()), c, pattern)
    {
      hide Selectors.Compile;
      ghost var was := Lists();
      ghost var k := CompileShape(was, c, pattern);
      var selector := FindSelector(pattern);
      if selector.Some? {
        AddClient(selector.value, c);
      } else {
        AddSelector(c, pattern);
      }
    }

    /** The selector at the cursor gets the client. */
    method AddClient(selector: SelectorNode, c: Ptr)
      requires Valid() && selectors.AtItem() && selectors.items[selectors.cursor] == selector
      modifies owners.Keys
      ensures Valid()
      ensures var k, was := old(selectors.cursor), old(Lists());
              Lists() == was[k := if c in was[k].clients then was[k] else Selector(was[k].pattern, was[k].clients + [c])]
    {
      ghost var was, k := Lists(), selectors.cursor;
      selector.AddIfNew(c);
      assert forall i :: 0 <= i < |selectors.items| && i != k ==> selectors.items[i].clients != selector.clients;
      assert Lists() == was[k := Lists()[k]];
    }

    method AddSelector(c: Ptr, pattern: string)
      requires Valid()
      modifies selectors, `owners
      ensures Valid() && fresh(owners.Keys - old(owners.Keys)) && Lists() == old(Lists()) + [Selector(pattern, [c])]
    {
      ghost var was := Lists();
      var node := new SelectorNode(c, pattern);
      selectors.AddEnd(node);
      owners := owners[node.clients := node];
      assert Lists() == was + [Selector(pattern, [c])];
    }

    /** One selector loses the client, the others keep their lists. */
    method RemoveClient(ghost k: nat, selector: SelectorNode, c: Ptr)
      requires Valid() && k < |selectors.items| && selectors.items[k] == selector
      modifies selector.clients
      ensures Valid() && selector.clients.items == RemoveFirst(old(selector.clients.items), c)
      ensures forall i :: 0 <= i < |selectors.items| && i != k ==>
                selectors.items[i].clients.items == old(selectors.items[i].clients.items)
    {
      hide RemoveFirst;
      assert forall i :: 0 <= i < |selectors.items| && i != k ==> selectors.items[i].clients != selector.clients;
      selector.Delete(c);
    }

    /** s_stream_engine_cancel. */
    method CancelClient(c: Ptr)
      requires Valid()
      modifies selectors`cursor, owners.Keys
      ensures Valid() && Lists() == Selectors.Cancel(old(Lists()), c)
    {
      hide RemoveFirst, Distinct, Selectors.Cancel;
      ghost var was := Lists();
      var selector := selectors.First();
      ghost var done := 0;
      while selector.Some?
        invariant Valid() && done <= |selectors.items|
        invariant if selector.Some? then selectors.cursor == done < |selectors.items| && selector.value == selectors.items[done]
                  else done == |selectors.items|
        invariant forall i :: 0 <= i < done ==> selectors.items[i].clients.items == RemoveFirst(was[i].clients, c)
        invariant forall i :: done <= i < |selectors.items| ==> selectors.items[i].clients.items == was[i].clients
        decreases |selectors.items| - done
      {
        RemoveClient(done, selector.value, c);
        selector := selectors.Next();
        done := done + 1;
      }
      CancelledOneByOne(was, Lists(), c);
    }

    /** s_stream_engine_handle_command, for the two commands that change the engine's lists. */
    method HandleCommand()
      requires Valid() && cmdpipe != []
      modifies this, selectors, owners.Keys
      ensures Valid() && fresh(owners.Keys - old(owners.Keys)) && View() == EngineCommand(old(View()))
    {
      hide Selectors.Compile, Selectors.Cancel, Distinct;
      var cmd := cmdpipe[0];
      cmdpipe := cmdpipe[1..];
      match cmd
      case Compile(c, pattern) =>
        CompileSelector(c, pattern);
      case Cancel(c) =>
        CancelClient(c);
        replies := replies + [Ack(c)];
    }

    /** The inner loop of a publication: every client of one selector but the sender gets a copy. */
    method SendToClients(clients: seq<Ptr>, sender: Ptr, msg: Message)
      requires msg in heap.refs
      modifies this`replies, heap
      ensures replies == old(replies) + CopiesFor(clients, sender, msg)
      ensures heap.refs == old(heap.refs)[msg := old(heap.refs)[msg] + |replies| - |old(replies)|]
    {
      for i := 0 to |clients|
        invariant replies + CopiesFor(clients[i..], sender, msg) == old(replies) + CopiesFor(clients, sender, msg)
        invariant |old(replies)| <= |replies|
        invariant heap.refs == old(heap.refs)[msg := old(heap.refs)[msg] + |replies| - |old(replies)|]
      {
        if clients[i] != sender {
          heap.Link(msg);
          replies := replies + [Deliver(clients[i], msg)];
        }
      }
    }

    /** s_stream_engine_handle_message: one counted copy per matching pair, then the engine's own
        reference is dropped. */
    method HandleMessage()
      requires Valid() && msgpipe != [] && msgpipe[0].msg in heap.refs
      modifies this, heap, selectors`cursor
      ensures Valid() && View() == EngineMessage(rex, old(View()))
      ensures var msg := old(msgpipe)[0].msg;
              heap.refs == old(heap.refs)[msg := old(heap.refs)[msg] + |replies| - |old(replies)| - 1]
    {
      hide Copies, Distinct;
      var sender, msg := msgpipe[0].sender, msgpipe[0].msg;
      msgpipe := msgpipe[1..];
      SendToSelectors(sender, msg);
      heap.Unlink(msg);
    }

    /** The clients of one selector get a copy each if its pattern matches. */
    method SendToSelector(selector: SelectorNode, sender: Ptr, msg: Message)
      requires msg in heap.refs
      modifies this`replies, heap
      ensures replies == old(replies) + if rex(selector.pattern, msg.subject) then CopiesFor(selector.clients.items, sender, msg) else []
      ensures heap.refs == old(heap.refs)[msg := old(heap.refs)[msg] + |replies| - |old(replies)|]
    {
      if rex(selector.pattern, msg.subject) {
        SendToClients(selector.clients.items, sender, msg);
      }
    }

    /** The outer loop of a publication. */
    method SendToSelectors(sender: Ptr, msg: Message)
      requires Valid() && msg in heap.refs
      modifies this`replies, heap, selectors`cursor
      ensures Valid() && replies == old(replies) + Copies(rex, Lists(), sender, msg)
      ensures heap.refs == old(heap.refs)[msg := old(heap.refs)[msg] + |replies| - |old(replies)|]
    {
      hide Copies, CopiesFor, Distinct;
      ghost var sel := Lists();
      ghost var total := old(replies) + Copies(rex, sel, sender, msg);
      var selector := selectors.First();
      ghost var done := 0;
      while selector.Some?
        invariant selectors.Valid() && done <= |selectors.items|
        invariant if selector.Some? then selectors.cursor == done < |selectors.items| && selector.value == selectors.items[done]
                  else done == |selectors.items|
        invariant replies + Copies(rex, sel[done..], sender, msg) == total
        invariant |old(replies)| <= |replies|
        invariant heap.refs == old(heap.refs)[msg := old(heap.refs)[msg] + |replies| - |old(replies)|]
        decreases |selectors.items| - done
      {
        CopiesStep(rex, sel, done, sender, msg, replies);
        SendToSelector(selector.value, sender, msg);
        selector := selectors.Next();
        done := done + 1;
      }
      NoCopiesLeft(rex, sel, sender, msg, replies);
    }
  }

  lemma CancelledOneByOne(was: seq<Selector>, now: seq<Selector>, c: Ptr)
    requires |now| == |was|
    requires forall i :: 0 <= i < |was| ==> now[i] == Selector(was[i].pattern, RemoveFirst(was[i].clients, c))
    ensures now == Selectors.Cancel(was, c)
  {
    hide RemoveFirst;
  }

  lemma NoCopiesLeft(rex: Matcher, sel: seq<Selector>, sender: Ptr, m: Message, sent: seq<Out>)
    ensures sent + Copies(rex, sel[|sel|..], sender, m) == sent
  {
  }

  /** The copies still to send, split at the next selector. */
  lemma CopiesStep(rex: Matcher, sel: seq<Selector>, k: nat, sender: Ptr, m: Message, sent: seq<Out>)
    requires k < |sel|
    ensures var now := if rex(sel[k].pattern, m.subject) then CopiesFor(sel[k].clients, sender, m) else [];
            sent + Copies(rex, sel[k..], sender, m) == (sent + now) + Copies(rex, sel[k + 1..], sender, m)
  {
    assert sel[k..][1..] == sel[k + 1..];
  }
}
