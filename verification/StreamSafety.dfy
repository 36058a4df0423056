/** Safety of the raw client addresses that travel through the stream pipes. */
module StreamSafety {
  import opened Messages
  import opened Options
  import opened Selectors
  import opened StreamNet

  // ---------------------------------------------------------------------------------------------
  // One stream and one client

  /** Some COMPILE of c has no CANCEL of c behind it. */
  predicate LooseCompile(cmd: seq<Cmd>, c: Ptr) {
    exists i :: 0 <= i < |cmd| && cmd[i].Compile? && cmd[i].client == c && Cmd.Cancel(c) !in cmd[i..]
  }

  /** Some message for c has no ACK of c behind it. */
  predicate LooseDeliver(out: seq<Out>, c: Ptr) {
    exists i :: 0 <= i < |out| && out[i].Deliver? && out[i].client == c && Ack(c) !in out[i..]
  }

  /** The stream may still send c something that no ACK will follow. */
  predicate Exposed(st: Stream, c: Ptr) {
    || LooseCompile(st.cmd, c)
    || (Cmd.Cancel(c) !in st.cmd && (Subscribed(st.selectors, c) || LooseDeliver(st.out, c)))
  }

  /** References of c that the stream has still to give back: CANCELs to come and ACKs on their way. */
  function Owed(st: Stream, c: Ptr): nat {
    multiset(st.cmd)[Cmd.Cancel(c)] + multiset(st.out)[Ack(c)]
  }

  lemma PushCommand(st: Stream, cmd: Cmd, c: Ptr)
    ensures var r := st.(cmd := st.cmd + [cmd]);
            && Owed(r, c) == Owed(st, c) + (if cmd == Cmd.Cancel(c) then 1 else 0)
            && (Exposed(r, c) ==> Exposed(st, c) || (cmd.Compile? && cmd.client == c))
            && (cmd == Cmd.Cancel(c) ==> !Exposed(r, c))
  {
    var r := st.(cmd := st.cmd + [cmd]);
    if LooseCompile(r.cmd, c) {
      var i :| 0 <= i < |r.cmd| && r.cmd[i].Compile? && r.cmd[i].client == c && Cmd.Cancel(c) !in r.cmd[i..];
      assert r.cmd[i..][|st.cmd| - i] == cmd;
      if i < |st.cmd| {
        assert r.cmd[i..] == st.cmd[i..] + [cmd];
      }
    }
    assert r.cmd[|st.cmd|] == cmd;
    assert forall x :: x in st.cmd ==> x in r.cmd;
  }

  lemma PopOut(st: Stream, c: Ptr)
    requires st.out != []
    ensures var r := st.(out := st.out[1..]);
            && Owed(r, c) == Owed(st, c) - (if st.out[0] == Ack(c) then 1 else 0)
            && (Exposed(r, c) ==> Exposed(st, c))
  {
    var r := st.(out := st.out[1..]);
    assert st.out == [st.out[0]] + r.out;
    if LooseDeliver(r.out, c) {
      var i :| 0 <= i < |r.out| && r.out[i].Deliver? && r.out[i].client == c && Ack(c) !in r.out[i..];
      assert st.out[i + 1..] == r.out[i..];
      assert st.out[i + 1].Deliver?;
    }
  }

  /** Output added behind a message leaves it loose only if it holds no ACK of its client. */
  lemma PushOut(out: seq<Out>, more: seq<Out>, c: Ptr)
    requires LooseDeliver(out + more, c)
    requires forall k :: 0 <= k < |more| && more[k].Deliver? ==> more[k].client != c
    ensures LooseDeliver(out, c) && Ack(c) !in more
  {
    var r := out + more;
    var i :| 0 <= i < |r| && r[i].Deliver? && r[i].client == c && Ack(c) !in r[i..];
    assert i < |out|;
    assert r[i..] == out[i..] + more;
  }

  /** A command handled by the actor hides nothing: what was covered stays covered. */
  lemma HandleCommand(st: Stream, c: Ptr)
    requires st.cmd != [] && WellFormed(st.selectors)
    ensures var r := EngineCommand(st);
            && Owed(r, c) == Owed(st, c)
            && (Exposed(r, c) ==> Exposed(st, c))
            && WellFormed(r.selectors)
  {
    hide LooseCompile, LooseDeliver, Subscribed, WellFormed, Selectors.Compile, Selectors.Cancel;
    var r := EngineCommand(st);
    PopCommand(st.cmd, c);
    match st.cmd[0]
    case Compile(d, p) => CompileExposes(st.selectors, d, p, c);
    case Cancel(d) => CancelHides(st.selectors, d, c); AckHides(st.out, d, c);
  }

  /** A command popped: what is loose behind it was loose before; a COMPILE not cancelled behind it was loose itself. */
  lemma PopCommand(cmd: seq<Cmd>, c: Ptr)
    requires cmd != []
    ensures multiset(cmd) == multiset{cmd[0]} + multiset(cmd[1..])
    ensures LooseCompile(cmd[1..], c) ==> LooseCompile(cmd, c)
    ensures cmd[0].Compile? && cmd[0].client == c && Cmd.Cancel(c) !in cmd ==> LooseCompile(cmd, c)
    ensures LooseCompile(cmd, c) ==> LooseCompile(cmd[1..], c) || (cmd[0].Compile? && cmd[0].client == c)
  {
    var rest := cmd[1..];
    assert cmd == [cmd[0]] + rest;
    assert cmd[0..] == cmd;
    if LooseCompile(rest, c) {
      var i :| 0 <= i < |rest| && rest[i].Compile? && rest[i].client == c && Cmd.Cancel(c) !in rest[i..];
      assert cmd[i + 1..] == rest[i..];
      assert cmd[i + 1].Compile?;
    }
    if LooseCompile(cmd, c) {
      var i :| 0 <= i < |cmd| && cmd[i].Compile? && cmd[i].client == c && Cmd.Cancel(c) !in cmd[i..];
      if i > 0 {
        assert cmd[i..] == rest[i - 1..];
        assert rest[i - 1].Compile?;
      }
    }
  }

  lemma CompileExposes(sel: seq<Selector>, d: Ptr, p: string, c: Ptr)
    requires WellFormed(sel)
    ensures WellFormed(Selectors.Compile(sel, d, p))
    ensures Subscribed(Selectors.Compile(sel, d, p), c) <==> Subscribed(sel, c) || d == c
  {
    hide Selectors.Compile;
    CompileAddsOnePair(sel, d, p);
    SubscribedHolds(sel, c);
    SubscribedHolds(Selectors.Compile(sel, d, p), c);
    assert Holds(Selectors.Compile(sel, d, p), p, d);
  }

  lemma CancelHides(sel: seq<Selector>, d: Ptr, c: Ptr)
    requires WellFormed(sel)
    ensures WellFormed(Selectors.Cancel(sel, d))
    ensures Subscribed(Selectors.Cancel(sel, d), c) <==> Subscribed(sel, c) && c != d
  {
    CancelRemovesClient(sel, d);
  }

  lemma AckHides(out: seq<Out>, d: Ptr, c: Ptr)
    ensures LooseDeliver(out + [Ack(d)], c) ==> LooseDeliver(out, c) && d != c
  {
    if LooseDeliver(out + [Ack(d)], c) {
      PushOut(out, [Ack(d)], c);
    }
  }

  lemma SubscribedHolds(sel: seq<Selector>, c: Ptr)
    ensures Subscribed(sel, c) <==> exists q :: Holds(sel, q, c)
  {
    if Subscribed(sel, c) {
      var i :| 0 <= i < |sel| && c in sel[i].clients;
      assert Holds(sel, sel[i].pattern, c);
    }
  }

  /** A publication handled by the actor reaches only clients that were exposed or owed an ACK. */
  lemma HandleMessage(rex: Matcher, st: Stream, c: Ptr)
    requires st.pub != []
    ensures var r := EngineMessage(rex, st);
            && Owed(r, c) == Owed(st, c)
            && (Exposed(r, c) ==> Exposed(st, c))
  {
    var r := EngineMessage(rex, st);
    var more := Copies(rex, st.selectors, st.pub[0].sender, st.pub[0].msg);
    CopiesAreForSubscribers(rex, st.selectors, st.pub[0].sender, st.pub[0].msg);
    assert Ack(c) !in more;
    if LooseDeliver(r.out, c) && !Subscribed(st.selectors, c) {
      PushOut(st.out, more, c);
    }
  }

  // ---------------------------------------------------------------------------------------------
  // The whole net

  /** CANCELs and ACKs of c in all streams together. */
  function Pending(ss: seq<Stream>, c: Ptr): nat {
    if ss == [] then 0 else Pending(ss[..|ss| - 1], c) + Owed(ss[|ss| - 1], c)
  }

  lemma {:induction false} PendingUpdate(ss: seq<Stream>, s: nat, st: Stream, c: Ptr)
    requires s < |ss|
    ensures Pending(ss[s := st], c) == Pending(ss, c) - Owed(ss[s], c) + Owed(st, c)
  {
    var n := |ss| - 1;
    if s == n {
      assert ss[s := st][..n] == ss[..n];
    } else {
      PendingUpdate(ss[..n], s, st, c);
      assert ss[s := st][..n] == ss[..n][s := st];
    }
  }

  lemma {:induction false} PendingCovers(ss: seq<Stream>, s: nat, c: Ptr)
    requires s < |ss|
    ensures Owed(ss[s], c) <= Pending(ss, c)
  {
    if s < |ss| - 1 {
      PendingCovers(ss[..|ss| - 1], s, c);
    }
  }

  lemma PendingAppend(ss: seq<Stream>, c: Ptr)
    ensures Pending(ss + [EMPTY_STREAM], c) == Pending(ss, c)
  {
    assert (ss + [EMPTY_STREAM])[..|ss|] == ss;
  }

  /** References a client should hold: its reader entries, and what the streams still owe. */
  function References(net: Net, c: Ptr): nat {
    Pending(net.streams, c) + if c in net.clients then |net.clients[c].readers| else 0
  }

  predicate Counted(net: Net, c: Ptr) {
    if c in net.clients then net.clients[c].refcount == References(net, c) else Pending(net.streams, c) == 0
  }

  predicate Covered(net: Net, s: nat, c: Ptr)
    requires s < |net.streams|
  {
    Exposed(net.streams[s], c) ==> c in net.clients && s in net.clients[c].readers
  }

  predicate PhaseOk(cl: Client) {
    && (cl.phase == Zombie ==> cl.readers == [] && cl.refcount > 0)
    && (cl.phase == Start ==> cl.readers == [] && cl.writer == None && cl.address == None)
  }

  /** The invariant: references are counted exactly, and whatever a stream may still send to a client
      is covered by a reader entry unless a CANCEL or an ACK stands behind it. */
  ghost predicate Inv(net: Net) {
    && Shape(net)
    && (forall c :: c in net.clients ==> PhaseOk(net.clients[c]))
    && (forall c :: Counted(net, c))
    && (forall s, c :: 0 <= s < |net.streams| ==> Covered(net, s, c))
    && (forall s :: 0 <= s < |net.streams| ==> WellFormed(net.streams[s].selectors))
  }

  // ---------------------------------------------------------------------------------------------
  // Every step keeps the invariant

  /** A stream that neither owes nor exposes more than before can take its predecessor's place. */
  lemma ReplaceStream(net: Net, s: nat, st: Stream)
    requires Inv(net) && s < |net.streams| && WellFormed(st.selectors)
    requires forall c :: Owed(st, c) == Owed(net.streams[s], c)
    requires forall c :: Exposed(st, c) ==> Exposed(net.streams[s], c)
    ensures Inv(net.(streams := net.streams[s := st]))
  {
    var r := net.(streams := net.streams[s := st]);
    forall c ensures Counted(r, c) {
      PendingUpdate(net.streams, s, st, c);
      assert Counted(net, c);
    }
    forall t, c | 0 <= t < |r.streams| ensures Covered(r, t, c) {
      assert Covered(net, t, c);
    }
  }

  lemma RequireKeeps(net: Net, name: string)
    requires Inv(net)
    ensures var (n, s) := Require(net, name);
            Inv(n) && s < |n.streams| && n.clients == net.clients && |net.streams| <= |n.streams|
  {
    var (n, s) := Require(net, name);
    if name !in net.names {
      forall c ensures Counted(n, c) {
        PendingAppend(net.streams, c);
        assert Counted(net, c);
      }
      forall t, c | 0 <= t < |n.streams| ensures Covered(n, t, c) {
        if t < |net.streams| {
          assert Covered(net, t, c);
        }
      }
    }
  }

  /** One command is added to one stream while the client's record changes. */
  lemma Commanded(net: Net, c: Ptr, cl: Client, s: nat, cmd: Cmd)
    requires Inv(net) && c in net.clients && s < |net.streams| && PhaseOk(cl) && cmd.client == c
    requires cl.writer == net.clients[c].writer
    requires forall i :: 0 <= i < |cl.readers| ==> cl.readers[i] < |net.streams|
    requires cl.refcount - |cl.readers| == net.clients[c].refcount - |net.clients[c].readers| + if cmd.Cancel? then 1 else 0
    requires forall t :: 0 <= t < |net.streams| && t != s && Exposed(net.streams[t], c) ==> t in cl.readers
    requires cmd.Compile? ==> s in cl.readers
    ensures Inv(net.(clients := net.clients[c := cl], streams := Push(net.streams, s, cmd)))
  {
    hide Exposed, Owed, Pending, WellFormed;
    var st := net.streams[s].(cmd := net.streams[s].cmd + [cmd]);
    var r := net.(clients := net.clients[c := cl], streams := Push(net.streams, s, cmd));
    assert r.streams == net.streams[s := st];
    forall d ensures Counted(r, d) {
      PendingUpdate(net.streams, s, st, d);
      PushCommand(net.streams[s], cmd, d);
      assert Counted(net, d);
    }
    forall t, d | 0 <= t < |r.streams| ensures Covered(r, t, d) {
      assert Covered(net, t, d);
      PushCommand(net.streams[s], cmd, d);
    }
  }

  lemma ReadKeeps(net: Net, c: Ptr, name: string, pattern: string)
    requires Inv(net) && IsConnected(net, c)
    ensures Inv(StoreReader(net, c, name, pattern))
  {
    RequireKeeps(net, name);
    var (n, s) := Require(net, name);
    var cl := n.clients[c];
    forall t | 0 <= t < |n.streams| && Exposed(n.streams[t], c) ensures t in cl.readers {
      assert Covered(n, t, c);
    }
    Commanded(n, c, cl.(readers := cl.readers + [s], refcount := cl.refcount + 1), s, Compile(c, pattern));
  }

  /** What cancel_stream_reader needs: the entry it drops is for the named stream, or is not the last
      thing that covers what its own stream may still send. */
  predicate CancelIsCovered(net: Net, c: Ptr, name: string)
    requires Shape(net) && c in net.clients
  {
    var (n, s) := Require(net, name);
    var readers := net.clients[c].readers;
    readers != [] && (readers[0] == s || readers[0] in readers[1..] || !Exposed(n.streams[readers[0]], c))
  }

  /** cancel_stream_reader keeps the invariant exactly when the entry it drops may go. */
  lemma CancelKeepsIff(net: Net, c: Ptr, name: string)
    requires Inv(net) && IsConnected(net, c)
    ensures Inv(CancelReader(net, c, name)) <==> CancelIsCovered(net, c, name)
  {
    RequireKeeps(net, name);
    var (n, s) := Require(net, name);
    var cl := n.clients[c];
    var r := CancelReader(net, c, name);
    if cl.readers == [] {
      PendingUpdate(n.streams, s, r.streams[s], c);
      PushCommand(n.streams[s], Cmd.Cancel(c), c);
      assert Counted(n, c);
      assert !Counted(r, c);
    } else {
      var tail := cl.readers[1..];
      assert cl.readers == [cl.readers[0]] + tail;
      if CancelIsCovered(net, c, name) {
        forall t | 0 <= t < |n.streams| && t != s && Exposed(n.streams[t], c) ensures t in tail {
          assert Covered(n, t, c);
        }
        Commanded(n, c, cl.(readers := tail), s, Cmd.Cancel(c));
      } else {
        assert r.streams[cl.readers[0]] == n.streams[cl.readers[0]];
        assert !Covered(r, cl.readers[0], c);
      }
    }
  }

  lemma {:induction false} CancelEachKeeps(net: Net, c: Ptr)
    requires Inv(net) && c in net.clients && net.clients[c].phase != Zombie
    ensures Inv(net.(clients := net.clients[c := net.clients[c].(readers := [])],
                     streams := CancelEach(net.streams, net.clients[c].readers, c)))
    decreases if c in net.clients then |net.clients[c].readers| else 0
  {
    var cl := net.clients[c];
    if cl.readers == [] {
      assert net.clients[c := cl.(readers := [])] == net.clients;
    } else {
      var s, tail := cl.readers[0], cl.readers[1..];
      assert cl.readers == [s] + tail;
      forall t | 0 <= t < |net.streams| && t != s && Exposed(net.streams[t], c) ensures t in tail {
        assert Covered(net, t, c);
      }
      Commanded(net, c, cl.(readers := tail), s, Cmd.Cancel(c));
      var n := net.(clients := net.clients[c := cl.(readers := tail)], streams := Push(net.streams, s, Cmd.Cancel(c)));
      CancelEachKeeps(n, c);
      assert n.clients[c := cl.(readers := [])] == net.clients[c := cl.(readers := [])];
    }
  }

  /** A context with no reference left is named nowhere. */
  lemma NothingLeft(net: Net, c: Ptr)
    requires Inv(net) && (c in net.clients ==> References(net, c) == 0)
    ensures forall s :: 0 <= s < |net.streams| ==> Owed(net.streams[s], c) == 0 && !Exposed(net.streams[s], c)
  {
    forall s | 0 <= s < |net.streams| ensures Owed(net.streams[s], c) == 0 && !Exposed(net.streams[s], c) {
      assert Counted(net, c);
      PendingCovers(net.streams, s, c);
      assert Covered(net, s, c);
    }
  }

  /** A context without references can be freed. */
  lemma FreeKeeps(net: Net, c: Ptr)
    requires Shape(net) && c in net.clients && net.clients[c].refcount == 0 && net.clients[c].readers == []
    requires forall d :: d in net.clients && d != c ==> PhaseOk(net.clients[d])
    requires forall d :: Counted(net, d)
    requires forall t, d :: 0 <= t < |net.streams| ==> Covered(net, t, d)
    requires forall t :: 0 <= t < |net.streams| ==> WellFormed(net.streams[t].selectors)
    ensures Inv(net.(clients := net.clients - {c}))
  {
    var r := net.(clients := net.clients - {c});
    assert Counted(net, c);
    forall d ensures Counted(r, d) {
      assert Counted(net, d);
    }
    forall t, d | 0 <= t < |r.streams| ensures Covered(r, t, d) {
      assert Covered(net, t, d);
    }
  }

  lemma TerminateKeeps(net: Net, c: Ptr)
    requires Inv(net) && c in net.clients && net.clients[c].phase != Zombie
    ensures Inv(Terminate(net, c))
  {
    CancelEachKeeps(net, c);
    var cl := net.clients[c];
    var n := net.(clients := net.clients[c := cl.(readers := [])], streams := CancelEach(net.streams, cl.readers, c));
    RecordKeeps(n, c, Deregistered(cl));
    assert n.clients[c := Deregistered(cl)] == net.clients[c := Deregistered(cl)];
    DropKeeps(n.(clients := net.clients[c := Deregistered(cl)]), c);
  }

  lemma DropKeeps(net: Net, c: Ptr)
    requires Inv(net) && c in net.clients && net.clients[c].readers == []
    ensures Inv(net.(clients := Drop(net.clients, c)))
  {
    assert Counted(net, c);
    if net.clients[c].refcount == 0 {
      FreeKeeps(net, c);
    } else {
      var r := net.(clients := Drop(net.clients, c));
      forall d ensures Counted(r, d) {
        assert Counted(net, d);
      }
      forall t, d | 0 <= t < |r.streams| ensures Covered(r, t, d) {
        assert Covered(net, t, d);
      }
    }
  }

  /** Whoever is named at the head of a message pipe is still allocated and still referenced. */
  lemma HeadIsReferenced(net: Net, s: nat)
    requires Inv(net) && s < |net.streams| && net.streams[s].out != []
    ensures var c := net.streams[s].out[0].client; c in net.clients && net.clients[c].refcount >= 1
  {
    var out := net.streams[s].out;
    var c := out[0].client;
    assert Counted(net, c);
    assert Covered(net, s, c);
    PendingCovers(net.streams, s, c);
    assert out[0..] == out;
  }

  lemma ForwardKeeps(net: Net, s: nat)
    requires Inv(net) && s < |net.streams| && net.streams[s].out != []
    ensures net.streams[s].out[0].client in net.clients && Inv(Forward(net, s))
  {
    HeadIsReferenced(net, s);
    var st := net.streams[s].(out := net.streams[s].out[1..]);
    var o := net.streams[s].out[0];
    forall d ensures Owed(st, d) == Owed(net.streams[s], d) - (if o == Ack(d) then 1 else 0)
             ensures Exposed(st, d) ==> Exposed(net.streams[s], d) {
      PopOut(net.streams[s], d);
    }
    if o.Deliver? {
      ReplaceStream(net, s, st);
    } else {
      AckKeeps(net, s, st);
    }
  }

  /** The net after an ACK has been popped and its reference given back, before any freeing. */
  function Acknowledged(net: Net, s: nat, st: Stream, c: Ptr): Net
    requires s < |net.streams| && c in net.clients
  {
    net.(streams := net.streams[s := st],
         clients := net.clients[c := net.clients[c].(refcount := net.clients[c].refcount - 1)])
  }

  lemma AckCounts(net: Net, s: nat, st: Stream, c: Ptr, d: Ptr)
    requires s < |net.streams| && c in net.clients && Counted(net, d)
    requires Owed(st, d) == Owed(net.streams[s], d) - if d == c then 1 else 0
    ensures Counted(Acknowledged(net, s, st, c), d)
  {
    PendingUpdate(net.streams, s, st, d);
  }

  lemma AckKeeps(net: Net, s: nat, st: Stream)
    requires Inv(net) && s < |net.streams| && WellFormed(st.selectors)
    requires net.streams[s].out != [] && net.streams[s].out[0].Ack? && net.streams[s].out[0].client in net.clients
    requires net.clients[net.streams[s].out[0].client].refcount >= 1
    requires forall d :: Owed(st, d) == Owed(net.streams[s], d) - if d == net.streams[s].out[0].client then 1 else 0
    requires forall d :: Exposed(st, d) ==> Exposed(net.streams[s], d)
    ensures Inv(net.(streams := net.streams[s := st], clients := Put(net.clients, net.streams[s].out[0].client)))
  {
    var c := net.streams[s].out[0].client;
    var n := Acknowledged(net, s, st, c);
    forall d ensures Counted(n, d) {
      AckCounts(net, s, st, c, d);
    }
    forall t, d | 0 <= t < |n.streams| ensures Covered(n, t, d) {
      assert Covered(net, t, d);
    }
    if n.clients[c].refcount == 0 && n.clients[c].phase == Zombie {
      FreeKeeps(n, c);
      assert Put(net.clients, c) == n.clients - {c};
    }
  }

  // ---------------------------------------------------------------------------------------------
  // Whole runs

  lemma StepKeeps(rex: Matcher, net: Net, step: Step)
    requires Inv(net) && Enabled(net, step)
    requires step.StreamCancel? ==> CancelIsCovered(net, step.c, step.name)
    ensures !PopsFreedClient(net, step) && Inv(Next(rex, net, step))
  {
    match step
    case Connect(c) => ConnectKeeps(net, c);
    case Open(c, a) => RecordKeeps(net, c, net.clients[c].(phase := Connected, address := Some(a)));
    case StreamWrite(c, name) =>
      RequireKeeps(net, name);
      var (n, s) := Require(net, name);
      RecordKeeps(n, c, n.clients[c].(writer := Some(s)));
    case StreamRead(c, name, p) => ReadKeeps(net, c, name, p);
    case StreamCancel(c, name) => CancelKeepsIff(net, c, name);
    case StreamSend(c, m) =>
      if net.clients[c].writer.Some? {
        PublishKeeps(net, c, m);
      } else {
        TerminateKeeps(net, c);
      }
    case Leave(c) => TerminateKeeps(net, c);
    case ActorCommand(s) =>
      HandleCommand(net.streams[s], 0);
      forall d { HandleCommand(net.streams[s], d); }
      ReplaceStream(net, s, EngineCommand(net.streams[s]));
    case ActorMessage(s) =>
      forall d { HandleMessage(rex, net.streams[s], d); }
      ReplaceStream(net, s, EngineMessage(rex, net.streams[s]));
    case ServerForward(s) => ForwardKeeps(net, s);
  }

  lemma ConnectKeeps(net: Net, c: Ptr)
    requires Inv(net) && c !in net.clients
    ensures Inv(net.(clients := net.clients[c := NEW_CLIENT]))
  {
    var r := net.(clients := net.clients[c := NEW_CLIENT]);
    forall d ensures Counted(r, d) {
      assert Counted(net, d);
    }
    forall t, d | 0 <= t < |r.streams| ensures Covered(r, t, d) {
      assert Covered(net, t, d);
    }
  }

  /** A change of the phase, the writer or the address touches no reference. */
  lemma RecordKeeps(net: Net, c: Ptr, cl: Client)
    requires Inv(net) && c in net.clients && PhaseOk(cl)
    requires cl.refcount == net.clients[c].refcount && cl.readers == net.clients[c].readers
    requires cl.writer.Some? ==> cl.writer.value < |net.streams|
    ensures Inv(net.(clients := net.clients[c := cl]))
  {
    var r := net.(clients := net.clients[c := cl]);
    forall d ensures Counted(r, d) {
      assert Counted(net, d);
    }
    forall t, d | 0 <= t < |r.streams| ensures Covered(r, t, d) {
      assert Covered(net, t, d);
    }
  }

  lemma PublishKeeps(net: Net, c: Ptr, m: Message)
    requires Inv(net) && c in net.clients && net.clients[c].writer.Some?
    ensures Inv(Publish(net, c, m))
  {
    var s := net.clients[c].writer.value;
    ReplaceStream(net, s, net.streams[s].(pub := net.streams[s].pub + [Pub(c, m)]));
  }

  /** Every STREAM CANCEL on the way finds its dropped entry coverable. */
  predicate Guarded(rex: Matcher, net: Net, steps: seq<Step>)
    requires Shape(net)
    decreases |steps|
  {
    steps != [] && Enabled(net, steps[0]) && !PopsFreedClient(net, steps[0]) ==>
      && (steps[0].StreamCancel? ==> CancelIsCovered(net, steps[0].c, steps[0].name))
      && Guarded(rex, Next(rex, net, steps[0]), steps[1..])
  }

  /** In no interleaving does the server touch a freed context, and the invariant holds throughout. */
  lemma {:induction false} RunsAreSafe(rex: Matcher, net: Net, steps: seq<Step>)
    requires Inv(net) && Guarded(rex, net, steps)
    ensures !Exec(rex, net, steps).UseAfterFree?
    ensures Exec(rex, net, steps).Reached? ==> Inv(Exec(rex, net, steps).net)
    decreases |steps|
  {
    if steps != [] && Enabled(net, steps[0]) {
      StepKeeps(rex, net, steps[0]);
      RunsAreSafe(rex, Next(rex, net, steps[0]), steps[1..]);
    }
  }

  lemma InitialHolds()
    ensures Inv(INITIAL)
  {
  }

  // ---------------------------------------------------------------------------------------------
  // What the invariant means for messages in flight, for counts, and for departed clients

  /** A message in flight is covered by a reader entry, by a CANCEL behind the last COMPILE, or by an
      ACK behind the message; so its client is still allocated. */
  lemma InFlightIsCovered(net: Net, s: nat, i: nat)
    requires Inv(net) && s < |net.streams| && i < |net.streams[s].out| && net.streams[s].out[i].Deliver?
    ensures var st := net.streams[s]; var c := st.out[i].client;
            && c in net.clients && net.clients[c].refcount >= 1
            && (|| s in net.clients[c].readers
                || (Cmd.Cancel(c) in st.cmd && !LooseCompile(st.cmd, c))
                || Ack(c) in st.out[i + 1..])
  {
    hide Pending, LooseCompile, WellFormed;
    var st := net.streams[s];
    var c := st.out[i].client;
    assert Counted(net, c) && Covered(net, s, c);
    PendingCovers(net.streams, s, c);
    DeliveryIsLooseOrOwed(st, i, c);
  }

  lemma DeliveryIsLooseOrOwed(st: Stream, i: nat, c: Ptr)
    requires i < |st.out| && st.out[i].Deliver? && st.out[i].client == c
    ensures Ack(c) in st.out[i + 1..] || LooseDeliver(st.out, c)
    ensures Ack(c) in st.out[i + 1..] || Cmd.Cancel(c) in st.cmd ==> Owed(st, c) >= 1
  {
    assert st.out[i..] == [st.out[i]] + st.out[i + 1..];
    if Ack(c) in st.out[i + 1..] {
      assert Ack(c) in st.out;
    }
  }

  /** The stream says nothing about c, in any pipe or selector. */
  predicate Silent(st: Stream, c: Ptr) {
    && !Subscribed(st.selectors, c)
    && (forall i :: 0 <= i < |st.cmd| ==> st.cmd[i].client != c)
    && (forall i :: 0 <= i < |st.out| ==> st.out[i].client != c)
  }

  /** Deregistered: a zombie, or freed. */
  predicate Departed(net: Net, c: Ptr) {
    c in net.clients ==> net.clients[c].phase == Zombie
  }

  /** Once a stream owes a departed client no further ACK, it holds nothing for it. */
  lemma LastAckLeavesSilence(net: Net, s: nat, c: Ptr)
    requires Inv(net) && s < |net.streams| && Departed(net, c) && Owed(net.streams[s], c) == 0
    ensures Silent(net.streams[s], c)
  {
    var st := net.streams[s];
    assert Covered(net, s, c);
    forall i | 0 <= i < |st.cmd| ensures st.cmd[i].client != c {
      assert st.cmd[i] in st.cmd;
      assert forall x :: x in st.cmd[i..] ==> x in st.cmd;
    }
    forall i | 0 <= i < |st.out| ensures st.out[i].client != c {
      assert st.out[i] in st.out;
      assert forall x :: x in st.out[i..] ==> x in st.out;
    }
  }

  lemma {:induction false} CancelEachFor(ss: seq<Stream>, readers: seq<nat>, d: Ptr, s: nat, c: Ptr)
    requires forall i :: 0 <= i < |readers| ==> readers[i] < |ss|
    requires s < |ss| && d != c
    ensures Owed(CancelEach(ss, readers, d)[s], c) == Owed(ss[s], c)
    decreases |readers|
  {
    if readers != [] {
      PushCommand(ss[readers[0]], Cmd.Cancel(d), c);
      CancelEachFor(Push(ss, readers[0], Cmd.Cancel(d)), readers[1..], d, s, c);
    }
  }

  /** What another client does leaves a departed client's debts alone. */
  lemma OthersOweSame(net: Net, d: Ptr, name: string, p: string, s: nat, c: Ptr)
    requires Inv(net) && d in net.clients && s < |net.streams| && d != c
    ensures var r := StoreReader(net, d, name, p); s < |r.streams| && Owed(r.streams[s], c) == Owed(net.streams[s], c)
    ensures var r := CancelReader(net, d, name); s < |r.streams| && Owed(r.streams[s], c) == Owed(net.streams[s], c)
  {
    var (n, t) := Require(net, name);
    PushCommand(n.streams[t], Cmd.Compile(d, p), c);
    PushCommand(n.streams[t], Cmd.Cancel(d), c);
  }

  lemma TerminateOwesSame(net: Net, d: Ptr, s: nat, c: Ptr)
    requires Inv(net) && d in net.clients && s < |net.streams| && d != c
    ensures var r := Terminate(net, d);
            s < |r.streams| && Owed(r.streams[s], c) == Owed(net.streams[s], c) && (Departed(net, c) ==> Departed(r, c))
  {
    CancelEachFor(net.streams, net.clients[d].readers, d, s, c);
  }

  lemma ClientStepOwesLess(rex: Matcher, net: Net, step: Step, s: nat, c: Ptr)
    requires Inv(net) && Enabled(net, step) && !step.ActorCommand? && !step.ActorMessage? && !step.ServerForward?
    requires s < |net.streams| && Departed(net, c) && step != Connect(c)
    ensures var r := Next(rex, net, step);
            s < |r.streams| && Departed(r, c) && Owed(r.streams[s], c) <= Owed(net.streams[s], c)
  {
    match step
    case Connect(d) =>
    case Open(d, a) =>
    case StreamWrite(d, name) =>
    case StreamRead(d, name, p) => OthersOweSame(net, d, name, p, s, c);
    case StreamCancel(d, name) => OthersOweSame(net, d, name, "", s, c);
    case StreamSend(d, m) => TerminateOwesSame(net, d, s, c);
    case Leave(d) => TerminateOwesSame(net, d, s, c);
  }

  /** No step makes a stream owe a departed client more, so silence lasts until the address is reused. */
  lemma DepartedOwesLess(rex: Matcher, net: Net, step: Step, s: nat, c: Ptr)
    requires Inv(net) && Enabled(net, step) && !PopsFreedClient(net, step)
    requires s < |net.streams| && Departed(net, c) && step != Connect(c)
    ensures var r := Next(rex, net, step);
            s < |r.streams| && Departed(r, c) && Owed(r.streams[s], c) <= Owed(net.streams[s], c)
  {
    hide Owed, EngineCommand, EngineMessage;
    if step.ActorCommand? {
      HandleCommand(net.streams[step.s], c);
    } else if step.ActorMessage? {
      HandleMessage(rex, net.streams[step.s], c);
    } else if step.ServerForward? {
      PopOut(net.streams[step.s], c);
    } else {
      ClientStepOwesLess(rex, net, step, s, c);
    }
  }

  /** Nothing for a departed client leaves a stream after that stream's last ACK: over any run that
      does not hand its address out again, a stream that owes it nothing stays silent about it. */
  lemma {:induction false} SilenceLasts(rex: Matcher, net: Net, steps: seq<Step>, s: nat, c: Ptr)
    requires Inv(net) && Guarded(rex, net, steps) && s < |net.streams| && Departed(net, c)
    requires Owed(net.streams[s], c) == 0 && Connect(c) !in steps
    ensures var r := Exec(rex, net, steps);
            r.Reached? ==> s < |r.net.streams| && Silent(r.net.streams[s], c) && Departed(r.net, c)
    decreases |steps|
  {
    if steps == [] {
      LastAckLeavesSilence(net, s, c);
    } else if Enabled(net, steps[0]) {
      StepKeeps(rex, net, steps[0]);
      DepartedOwesLess(rex, net, steps[0], s, c);
      SilenceLasts(rex, Next(rex, net, steps[0]), steps[1..], s, c);
    }
  }

  /** Once every command and message pipe is empty, every departed client has been freed. */
  lemma {:induction false} DrainedPipesLeaveNoZombie(net: Net)
    requires Inv(net)
    requires forall s :: 0 <= s < |net.streams| ==> net.streams[s].cmd == [] && net.streams[s].out == []
    ensures forall c :: c in net.clients ==> net.clients[c].phase != Zombie
  {
    forall c | c in net.clients ensures net.clients[c].phase != Zombie {
      assert Counted(net, c);
      NothingPending(net.streams, c);
    }
  }

  lemma {:induction false} NothingPending(ss: seq<Stream>, c: Ptr)
    requires forall s :: 0 <= s < |ss| ==> ss[s].cmd == [] && ss[s].out == []
    ensures Pending(ss, c) == 0
  {
    if ss != [] {
      NothingPending(ss[..|ss| - 1], c);
    }
  }
}
