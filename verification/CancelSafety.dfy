/** When STREAM CANCEL is safe: what can follow it, and exactly when nothing that follows uses a freed context. */
module CancelSafety {
  import opened Messages
  import opened Options
  import opened Selectors
  import opened StreamNet
  import opened StreamSafety

  // ---------------------------------------------------------------------------------------------
  // Work left in the pipes

  function Load(st: Stream): nat {
    2 * |st.cmd| + |st.out|
  }

  function Work(ss: seq<Stream>): nat {
    if ss == [] then 0 else Work(ss[..|ss| - 1]) + Load(ss[|ss| - 1])
  }

  lemma {:induction false} WorkUpdate(ss: seq<Stream>, s: nat, st: Stream)
    requires s < |ss|
    ensures Work(ss[s := st]) == Work(ss) - Load(ss[s]) + Load(st)
  {
    var n := |ss| - 1;
    if s == n {
      assert ss[s := st][..n] == ss[..n];
    } else {
      WorkUpdate(ss[..n], s, st);
      assert ss[s := st][..n] == ss[..n][s := st];
    }
  }

  predicate Idle(st: Stream) {
    st.cmd == [] && st.out == []
  }

  /** Only stream t can still owe anything when all others are idle. */
  lemma {:induction false} PendingOnly(ss: seq<Stream>, t: nat, c: Ptr)
    requires forall s :: 0 <= s < |ss| && s != t ==> Idle(ss[s])
    ensures Pending(ss, c) == if t < |ss| then Owed(ss[t], c) else 0
  {
    if ss != [] {
      PendingOnly(ss[..|ss| - 1], t, c);
    }
  }

  // ---------------------------------------------------------------------------------------------
  // Two states from which emptying the pipes must end in a freed context

  /** More will be given back for c than it holds. */
  predicate Doomed(net: Net, c: Ptr) {
    if c in net.clients then net.clients[c].phase == Zombie && 0 < net.clients[c].refcount < Pending(net.streams, c)
    else Pending(net.streams, c) > 0
  }

  /** Everything owed to c will have been given back before stream t's last message for it comes out. */
  predicate Trapped(net: Net, t: nat, c: Ptr) {
    && t < |net.streams| && Cmd.Cancel(c) !in net.streams[t].cmd && LooseDeliver(net.streams[t].out, c)
    && (c in net.clients ==> net.clients[c].phase == Zombie && 0 < net.clients[c].refcount <= Pending(net.streams, c))
  }

  lemma CommandKeepsOwed(st: Stream, c: Ptr)
    requires st.cmd != []
    ensures Owed(EngineCommand(st), c) == Owed(st, c)
  {
    assert st.cmd == [st.cmd[0]] + st.cmd[1..];
  }

  lemma AckBehind(out: seq<Out>, d: Ptr, c: Ptr)
    requires LooseDeliver(out, c) && d != c
    ensures LooseDeliver(out + [Ack(d)], c)
  {
    var i :| 0 <= i < |out| && out[i].Deliver? && out[i].client == c && Ack(c) !in out[i..];
    var r := out + [Ack(d)];
    assert r[i..] == out[i..] + [Ack(d)];
    assert r[i].Deliver?;
  }

  /** A message popped in front of a loose one leaves it loose. */
  lemma PopBeforeLoose(out: seq<Out>, c: Ptr)
    requires LooseDeliver(out, c) && !(out[0].Deliver? && out[0].client == c && Ack(c) !in out)
    ensures LooseDeliver(out[1..], c)
  {
    var i :| 0 <= i < |out| && out[i].Deliver? && out[i].client == c && Ack(c) !in out[i..];
    assert out[0..] == out;
    assert out[1..][i - 1].Deliver? && out[1..][i - 1..] == out[i..];
  }

  lemma CommandStep(net: Net, s: nat, t: nat, c: Ptr)
    requires s < |net.streams| && net.streams[s].cmd != []
    ensures var n := net.(streams := net.streams[s := EngineCommand(net.streams[s])]);
            && (Doomed(net, c) ==> Doomed(n, c)) && (Trapped(net, t, c) ==> Trapped(n, t, c))
            && Work(n.streams) < Work(net.streams)
  {
    hide LooseDeliver, Owed, Pending, Work;
    var st := net.streams[s];
    CommandKeepsOwed(st, c);
    PendingUpdate(net.streams, s, EngineCommand(st), c);
    WorkUpdate(net.streams, s, EngineCommand(st));
    if Trapped(net, t, c) && s == t && st.cmd[0].Cancel? {
      AckBehind(st.out, st.cmd[0].client, c);
    }
  }

  lemma ForwardStep(net: Net, s: nat, t: nat, c: Ptr)
    requires Shape(net) && s < |net.streams| && net.streams[s].out != [] && net.streams[s].out[0].client in net.clients
    requires s == t ==> forall r :: 0 <= r < |net.streams| && r != t ==> Idle(net.streams[r])
    ensures var n := Forward(net, s);
            && (Doomed(net, c) ==> Doomed(n, c))
            && (Trapped(net, t, c) && (s == t ==> net.streams[t].cmd == []) ==> Trapped(n, t, c))
            && Work(n.streams) < Work(net.streams)
  {
    hide LooseDeliver, Owed, Pending, Work;
    var st := net.streams[s];
    var r := st.(out := st.out[1..]);
    PopOut(st, c);
    PendingUpdate(net.streams, s, r, c);
    WorkUpdate(net.streams, s, r);
    if Trapped(net, t, c) && s == t && st.cmd == [] {
      PendingOnly(net.streams, t, c);
      if st.out[0].Deliver? && st.out[0].client == c && Ack(c) !in st.out {
        NoAckNoDebt(st, c);
      } else {
        PopBeforeLoose(st.out, c);
      }
    }
  }

  lemma NoAckNoDebt(st: Stream, c: Ptr)
    requires st.cmd == [] && Ack(c) !in st.out
    ensures Owed(st, c) == 0
  {
  }

  // ---------------------------------------------------------------------------------------------
  // Emptying the pipes from such a state

  predicate NoCancels(steps: seq<Step>) {
    forall i :: 0 <= i < |steps| ==> !steps[i].StreamCancel?
  }

  lemma Prepend(rex: Matcher, net: Net, step: Step, rest: seq<Step>)
    requires Shape(net) && Enabled(net, step) && !step.StreamCancel? && NoCancels(rest)
    requires !PopsFreedClient(net, step) ==> Exec(rex, Next(rex, net, step), rest) == UseAfterFree
    ensures NoCancels([step] + rest) && Exec(rex, net, [step] + rest) == UseAfterFree
  {
    hide Next, Enabled;
    assert ([step] + rest)[1..] == rest;
  }

  /** Whatever else is on its way, working off the pipes ends in the use of a freed context. */
  lemma EmptyingUsesFreed(rex: Matcher, net: Net, t: nat, c: Ptr) returns (steps: seq<Step>)
    requires Shape(net) && (Doomed(net, c) || Trapped(net, t, c))
    ensures NoCancels(steps) && Exec(rex, net, steps) == UseAfterFree
    decreases Work(net.streams)
  {
    hide Doomed, Trapped, Exec, Work;
    var step, rest := ServerForward(0), [];
    if s: nat :| s < |net.streams| && net.streams[s].cmd != [] {
      step := ActorCommand(s);
      CommandStep(net, s, t, c);
      rest := EmptyingUsesFreed(rex, Next(rex, net, step), t, c);
    } else if s: nat :| s < |net.streams| && s != t && net.streams[s].out != [] {
      step := ServerForward(s);
      if !PopsFreedClient(net, step) {
        ForwardStep(net, s, t, c);
        rest := EmptyingUsesFreed(rex, Next(rex, net, step), t, c);
      }
    } else {
      step := ServerForward(t);
      SomethingLeft(net, t, c);
      if !PopsFreedClient(net, step) {
        ForwardStep(net, t, t, c);
        rest := EmptyingUsesFreed(rex, Next(rex, net, step), t, c);
      }
    }
    Prepend(rex, net, step, rest);
    steps := [step] + rest;
  }

  lemma SomethingLeft(net: Net, t: nat, c: Ptr)
    requires forall s :: 0 <= s < |net.streams| ==> net.streams[s].cmd == [] && (s != t ==> net.streams[s].out == [])
    requires Doomed(net, c) || Trapped(net, t, c)
    ensures t < |net.streams| && net.streams[t].out != []
  {
    PendingOnly(net.streams, t, c);
    if Trapped(net, t, c) {
      var i :| 0 <= i < |net.streams[t].out| && net.streams[t].out[i].Deliver?;
    }
  }

  // ---------------------------------------------------------------------------------------------
  // From an exposed client without a reader entry to a trap

  /** Every subject matches every pattern. */
  ghost predicate MatchesAll(rex: Matcher) {
    forall p, subject :: rex(p, subject)
  }

  lemma LooseHead(cmd: seq<Cmd>, c: Ptr)
    requires cmd != [] && LooseCompile(cmd, c)
    ensures LooseCompile(cmd[1..], c) || (cmd[0].Compile? && cmd[0].client == c && Cmd.Cancel(c) !in cmd)
  {
    var i :| 0 <= i < |cmd| && cmd[i].Compile? && cmd[i].client == c && Cmd.Cancel(c) !in cmd[i..];
    if i == 0 {
      assert cmd[0..] == cmd;
    } else {
      assert cmd[1..][i - 1].Compile? && cmd[1..][i - 1..] == cmd[i..];
    }
  }

  /** Handling a command ends no exposure. */
  lemma CommandKeepsExposed(st: Stream, c: Ptr)
    requires st.cmd != [] && WellFormed(st.selectors) && Exposed(st, c)
    ensures Exposed(EngineCommand(st), c)
  {
    hide LooseCompile, LooseDeliver, Subscribed, WellFormed, Selectors.Compile, Selectors.Cancel;
    assert st.cmd == [st.cmd[0]] + st.cmd[1..];
    if LooseCompile(st.cmd, c) {
      LooseHead(st.cmd, c);
    }
    match st.cmd[0]
    case Compile(d, p) => CompileExposes(st.selectors, d, p, c);
    case Cancel(d) =>
      CancelHides(st.selectors, d, c);
      if d != c && LooseDeliver(st.out, c) {
        AckBehind(st.out, d, c);
      }
  }

  lemma {:induction false} ListedGetsCopy(clients: seq<Ptr>, sender: Ptr, m: Message, c: Ptr)
    requires c in clients && c != sender
    ensures Deliver(c, m) in CopiesFor(clients, sender, m)
  {
    if clients[0] != c {
      ListedGetsCopy(clients[1..], sender, m, c);
    }
  }

  lemma {:induction false} SubscriberGetsCopy(rex: Matcher, sel: seq<Selector>, sender: Ptr, m: Message, c: Ptr)
    requires MatchesAll(rex) && Subscribed(sel, c) && c != sender
    ensures Deliver(c, m) in Copies(rex, sel, sender, m)
  {
    if c in sel[0].clients {
      ListedGetsCopy(sel[0].clients, sender, m, c);
    } else {
      var i :| 0 <= i < |sel| && c in sel[i].clients;
      assert sel[1..][i - 1] == sel[i];
      SubscriberGetsCopy(rex, sel[1..], sender, m, c);
    }
  }

  lemma LooseWithMore(out: seq<Out>, more: seq<Out>, c: Ptr)
    requires Ack(c) !in more
    requires LooseDeliver(out, c) || exists k :: 0 <= k < |more| && more[k].Deliver? && more[k].client == c
    ensures LooseDeliver(out + more, c)
  {
    var r := out + more;
    if LooseDeliver(out, c) {
      var i :| 0 <= i < |out| && out[i].Deliver? && out[i].client == c && Ack(c) !in out[i..];
      assert r[i..] == out[i..] + more && r[i] == out[i];
    } else {
      var k :| 0 <= k < |more| && more[k].Deliver? && more[k].client == c;
      assert r[|out| + k..] == more[k..] && r[|out| + k] == more[k];
    }
  }

  /** A publication by someone else leaves an exposed client with a loose message, whatever it found. */
  lemma PublicationLoosens(rex: Matcher, st: Stream, c: Ptr)
    requires MatchesAll(rex) && st.pub != [] && st.cmd == [] && Exposed(st, c)
    ensures Exposed(EngineMessage(rex, st), c)
    ensures st.pub[0].sender != c ==> LooseDeliver(EngineMessage(rex, st).out, c)
  {
    var p := st.pub[0];
    var more := Copies(rex, st.selectors, p.sender, p.msg);
    CopiesAreForSubscribers(rex, st.selectors, p.sender, p.msg);
    assert Ack(c) !in more;
    if LooseDeliver(st.out, c) {
      LooseWithMore(st.out, more, c);
    } else if p.sender != c {
      SubscriberGetsCopy(rex, st.selectors, p.sender, p.msg, c);
      LooseWithMore(st.out, more, c);
    }
  }

  /** A connected client whose count is exact, exposed in a stream it has no entry for, with someone else's publication
      on its way there, or already through. */
  predicate Armed(net: Net, t: nat, c: Ptr) {
    && IsConnected(net, c) && t < |net.streams| && WellFormed(net.streams[t].selectors)
    && t !in net.clients[c].readers
    && net.clients[c].refcount == |net.clients[c].readers| + Pending(net.streams, c)
    && var st := net.streams[t];
       && Exposed(st, c)
       && if st.pub != [] then st.pub[|st.pub| - 1].sender != c else st.cmd == [] && LooseDeliver(st.out, c)
  }

  lemma CommandKeepsArmed(net: Net, t: nat, c: Ptr)
    requires Armed(net, t, c) && net.streams[t].cmd != []
    ensures Armed(net.(streams := net.streams[t := EngineCommand(net.streams[t])]), t, c)
  {
    hide Exposed, Owed, Pending, WellFormed, LooseDeliver;
    var st := net.streams[t];
    CommandKeepsExposed(st, c);
    CommandKeepsOwed(st, c);
    HandleCommand(st, c);
    PendingUpdate(net.streams, t, EngineCommand(st), c);
  }

  lemma PublicationKeepsArmed(rex: Matcher, net: Net, t: nat, c: Ptr)
    requires MatchesAll(rex) && Armed(net, t, c) && net.streams[t].cmd == [] && net.streams[t].pub != []
    ensures Armed(net.(streams := net.streams[t := EngineMessage(rex, net.streams[t])]), t, c)
  {
    hide Exposed, Owed, Pending, WellFormed, LooseDeliver, Copies, MatchesAll;
    var st := net.streams[t];
    PublicationLoosens(rex, st, c);
    HandleMessage(rex, st, c);
    PendingUpdate(net.streams, t, EngineMessage(rex, st), c);
  }

  lemma {:induction false} CancelEachOwes(ss: seq<Stream>, readers: seq<nat>, c: Ptr)
    requires forall i :: 0 <= i < |readers| ==> readers[i] < |ss|
    ensures Pending(CancelEach(ss, readers, c), c) == Pending(ss, c) + |readers|
    ensures forall t :: 0 <= t < |ss| && t !in readers ==> CancelEach(ss, readers, c)[t] == ss[t]
    decreases |readers|
  {
    hide Exposed, Owed, Pending;
    if readers != [] {
      var s := readers[0];
      var st := ss[s].(cmd := ss[s].cmd + [Cmd.Cancel(c)]);
      PushCommand(ss[s], Cmd.Cancel(c), c);
      PendingUpdate(ss, s, st, c);
      CancelEachOwes(Push(ss, s, Cmd.Cancel(c)), readers[1..], c);
    }
  }

  lemma LeavingSprings(net: Net, t: nat, c: Ptr)
    requires Shape(net) && Armed(net, t, c) && net.streams[t].cmd == [] && net.streams[t].pub == []
    ensures Trapped(Terminate(net, c), t, c)
  {
    hide Exposed, Owed, Pending, WellFormed, LooseDeliver;
    CancelEachOwes(net.streams, net.clients[c].readers, c);
  }

  lemma ArmedUsesFreed(rex: Matcher, net: Net, t: nat, c: Ptr) returns (steps: seq<Step>)
    requires MatchesAll(rex) && Shape(net) && Armed(net, t, c)
    ensures NoCancels(steps) && Exec(rex, net, steps) == UseAfterFree
    decreases |net.streams[t].cmd| + |net.streams[t].pub|
  {
    hide Exec, MatchesAll, Exposed, LooseDeliver, Pending, WellFormed;
    var step, rest := Leave(c), [];
    if net.streams[t].cmd != [] {
      step := ActorCommand(t);
      CommandKeepsArmed(net, t, c);
      rest := ArmedUsesFreed(rex, Next(rex, net, step), t, c);
    } else if net.streams[t].pub != [] {
      step := ActorMessage(t);
      PublicationKeepsArmed(rex, net, t, c);
      rest := ArmedUsesFreed(rex, Next(rex, net, step), t, c);
    } else {
      LeavingSprings(net, t, c);
      rest := EmptyingUsesFreed(rex, Next(rex, net, step), t, c);
    }
    Prepend(rex, net, step, rest);
    steps := [step] + rest;
  }

  // ---------------------------------------------------------------------------------------------
  // Somebody else publishes

  predicate HasName(names: map<string, nat>, s: nat) {
    exists name :: name in names && names[name] == s
  }

  /** Every stream can be found by some name. */
  predicate Named(net: Net) {
    forall s :: 0 <= s < |net.streams| ==> HasName(net.names, s)
  }

  lemma RequireKeepsNamed(net: Net, name: string)
    requires NamesOk(net) && Named(net)
    ensures Named(Require(net, name).0)
  {
    var (n, _) := Require(net, name);
    if name !in net.names {
      forall s | 0 <= s < |n.streams| ensures HasName(n.names, s) {
        if s < |net.streams| {
          assert HasName(net.names, s);
          var x :| x in net.names && net.names[x] == s;
          assert x in n.names && n.names[x] == s;
        } else {
          assert name in n.names && n.names[name] == s;
        }
      }
    }
  }

  lemma StepKeepsNamed(rex: Matcher, net: Net, step: Step)
    requires Shape(net) && Named(net) && Enabled(net, step) && !PopsFreedClient(net, step)
    ensures Named(Next(rex, net, step))
  {
    if step.StreamWrite? || step.StreamRead? || step.StreamCancel? {
      RequireKeepsNamed(net, step.name);
    }
  }

  /** Over every run from the start, each stream keeps a name. */
  lemma {:induction false} RunsStayNamed(rex: Matcher, net: Net, steps: seq<Step>)
    requires Shape(net) && Named(net) && Exec(rex, net, steps).Reached?
    ensures Named(INITIAL) && Named(Exec(rex, net, steps).net)
    decreases |steps|
  {
    hide Next;
    if steps != [] {
      StepKeepsNamed(rex, net, steps[0]);
      RunsStayNamed(rex, Next(rex, net, steps[0]), steps[1..]);
    }
  }

  lemma {:induction false} UnusedPtr(used: set<Ptr>) returns (d: Ptr)
    ensures forall x <- used :: x < d
  {
    if used == {} {
      d := 0;
    } else {
      var x :| x in used;
      var e := UnusedPtr(used - {x});
      d := if x < e then e else x + 1;
      forall y | y in used ensures y < d {
        if y != x {
          assert y in used - {x};
        }
      }
    }
  }

  const NOTE := Message(0, "", "", "", 0)

  /** The net once client d has connected, opened, taken stream t for writing, and published on it. */
  function Announced(net: Net, d: Ptr, t: nat): Net
    requires t < |net.streams|
  {
    net.(clients := net.clients[d := Client(Connected, 0, [], Some(t), Some(""))],
         streams := net.streams[t := net.streams[t].(pub := net.streams[t].pub + [Pub(d, NOTE)])])
  }

  lemma Announce(rex: Matcher, net: Net, d: Ptr, t: nat, rest: seq<Step>) returns (steps: seq<Step>)
    requires Shape(net) && Named(net) && d !in net.clients && t < |net.streams| && NoCancels(rest)
    requires Shape(Announced(net, d, t)) && Exec(rex, Announced(net, d, t), rest) == UseAfterFree
    ensures NoCancels(steps) && Exec(rex, net, steps) == UseAfterFree
  {
    hide Exec, Named;
    var name := NameOf(net, t);
    var n1 := Next(rex, net, Connect(d));
    var n2 := Next(rex, n1, Step.Open(d, ""));
    var n3 := Next(rex, n2, StreamWrite(d, name));
    assert n3.clients == net.clients[d := Client(Connected, 0, [], Some(t), Some(""))];
    assert Next(rex, n3, StreamSend(d, NOTE)) == Announced(net, d, t);
    Prepend(rex, n3, StreamSend(d, NOTE), rest);
    var s3 := [StreamSend(d, NOTE)] + rest;
    Prepend(rex, n2, StreamWrite(d, name), s3);
    var s2 := [StreamWrite(d, name)] + s3;
    Prepend(rex, n1, Step.Open(d, ""), s2);
    var s1 := [Step.Open(d, "")] + s2;
    Prepend(rex, net, Connect(d), s1);
    steps := [Connect(d)] + s1;
  }

  lemma NameOf(net: Net, t: nat) returns (name: string)
    requires Named(net) && t < |net.streams|
    ensures name in net.names && net.names[name] == t
  {
    assert HasName(net.names, t);
    name :| name in net.names && net.names[name] == t;
  }

  // ---------------------------------------------------------------------------------------------
  // After a STREAM CANCEL whose dropped entry was needed

  lemma WithoutEntries(net: Net, c: Ptr, name: string)
    requires Inv(net) && IsConnected(net, c) && net.clients[c].readers == []
    ensures IsConnected(CancelReader(net, c, name), c) && Doomed(Terminate(CancelReader(net, c, name), c), c)
  {
    hide Owed, Pending, Exposed;
    RequireKeeps(net, name);
    var (n, s) := Require(net, name);
    var r := CancelReader(net, c, name);
    PushCommand(n.streams[s], Cmd.Cancel(c), c);
    PendingUpdate(n.streams, s, r.streams[s], c);
    assert Counted(n, c);
  }

  lemma WrongEntry(net: Net, c: Ptr, name: string, d: Ptr)
    requires Inv(net) && IsConnected(net, c) && !CancelIsCovered(net, c, name)
    requires net.clients[c].readers != [] && d !in net.clients && d != c
    ensures var r, t := CancelReader(net, c, name), net.clients[c].readers[0];
            t < |r.streams| && Armed(Announced(r, d, t), t, c) && Shape(Announced(r, d, t))
  {
    hide Owed, Pending, Exposed, WellFormed;
    RequireKeeps(net, name);
    var (n, s) := Require(net, name);
    var cl := net.clients[c];
    var t := cl.readers[0];
    var r := CancelReader(net, c, name);
    PushCommand(n.streams[s], Cmd.Cancel(c), c);
    PendingUpdate(n.streams, s, r.streams[s], c);
    assert Counted(n, c);
    assert r.streams[t] == n.streams[t];
    var st := Announced(r, d, t).streams[t];
    OneMorePublication(r.streams[t], Pub(d, NOTE), c);
    PendingUpdate(r.streams, t, st, c);
  }

  lemma OneMorePublication(st: Stream, p: Pub, c: Ptr)
    ensures var r := st.(pub := st.pub + [p]); Owed(r, c) == Owed(st, c) && (Exposed(st, c) ==> Exposed(r, c))
  {
  }

  /** If the entry was needed, some continuation without any other STREAM CANCEL uses a freed context. */
  lemma UncoveredCancelUsesFreed(rex: Matcher, net: Net, c: Ptr, name: string) returns (steps: seq<Step>)
    requires MatchesAll(rex) && Inv(net) && Named(net) && IsConnected(net, c) && !CancelIsCovered(net, c, name)
    ensures NoCancels(steps) && Exec(rex, CancelReader(net, c, name), steps) == UseAfterFree
  {
    hide Exec, Named, MatchesAll, Armed, Doomed, CancelIsCovered, CancelReader;
    var r := CancelReader(net, c, name);
    if net.clients[c].readers == [] {
      WithoutEntries(net, c, name);
      var rest := EmptyingUsesFreed(rex, Terminate(r, c), 0, c);
      Prepend(rex, r, Leave(c), rest);
      steps := [Leave(c)] + rest;
    } else {
      var d := UnusedPtr(net.clients.Keys + {c});
      var t := net.clients[c].readers[0];
      WrongEntry(net, c, name, d);
      StepKeepsNamed(rex, net, StreamCancel(c, name));
      CancelTouchesNoOther(net, c, name);
      var rest := ArmedUsesFreed(rex, Announced(r, d, t), t, c);
      steps := Announce(rex, r, d, t, rest);
    }
  }

  lemma CancelTouchesNoOther(net: Net, c: Ptr, name: string)
    requires Shape(net) && c in net.clients
    ensures CancelReader(net, c, name).clients.Keys == net.clients.Keys
  {
  }

  /** Nothing that follows STREAM CANCEL, short of another one, uses a freed context. */
  ghost predicate SafeCancel(rex: Matcher, net: Net, c: Ptr, name: string)
    requires Shape(net) && c in net.clients
  {
    forall steps :: NoCancels(steps) ==> Exec(rex, CancelReader(net, c, name), steps) != UseAfterFree
  }

  /** STREAM CANCEL exactly: nothing that follows it, short of another STREAM CANCEL, uses a freed context if and only
      if the entry it drops is for the named stream, is repeated, or covers nothing that is still to come. */
  lemma CancelIsSafeIff(rex: Matcher, net: Net, c: Ptr, name: string)
    requires MatchesAll(rex) && Inv(net) && Named(net) && IsConnected(net, c)
    ensures SafeCancel(rex, net, c, name) <==> CancelIsCovered(net, c, name)
  {
    hide Exec, Named, MatchesAll, CancelIsCovered, CancelReader;
    if CancelIsCovered(net, c, name) {
      CancelKeepsIff(net, c, name);
      forall steps | NoCancels(steps) ensures Exec(rex, CancelReader(net, c, name), steps) != UseAfterFree {
        WithoutCancelsGuarded(rex, CancelReader(net, c, name), steps);
        RunsAreSafe(rex, CancelReader(net, c, name), steps);
      }
    } else {
      var steps := UncoveredCancelUsesFreed(rex, net, c, name);
    }
  }

  lemma {:induction false} WithoutCancelsGuarded(rex: Matcher, net: Net, steps: seq<Step>)
    requires Shape(net) && NoCancels(steps)
    ensures Guarded(rex, net, steps)
    decreases |steps|
  {
    hide Next, Enabled;
    if steps != [] && Enabled(net, steps[0]) && !PopsFreedClient(net, steps[0]) {
      assert !steps[0].StreamCancel?;
      WithoutCancelsGuarded(rex, Next(rex, net, steps[0]), steps[1..]);
    }
  }

  // ---------------------------------------------------------------------------------------------
  // What the server can test before the call

  /** The server's own data tell that the first reader entry may go: it is for the stream to be cancelled, or repeated. */
  predicate EntryIsSpare(net: Net, c: Ptr, name: string)
    requires c in net.clients
  {
    var readers := net.clients[c].readers;
    readers != [] && ((name in net.names && readers[0] == net.names[name]) || readers[0] in readers[1..])
  }

  lemma SpareEntryIsCovered(net: Net, c: Ptr, name: string)
    requires Shape(net) && c in net.clients && EntryIsSpare(net, c, name)
    ensures CancelIsCovered(net, c, name)
  {
  }

  /** And no weaker test on that data would do: otherwise the pipes may be such that the cancel is unsafe. */
  lemma NoWeakerTest(net: Net, c: Ptr, name: string) returns (other: Net)
    requires Inv(net) && IsConnected(net, c) && !EntryIsSpare(net, c, name)
    ensures other.clients == net.clients && other.names == net.names && |other.streams| == |net.streams|
    ensures Inv(other) && !CancelIsCovered(other, c, name)
  {
    hide Owed, Pending, WellFormed;
    var cl := net.clients[c];
    if cl.readers == [] {
      other := net;
    } else {
      var t := cl.readers[0];
      forall s | 0 <= s < |net.streams| && Exposed(net.streams[s], c) ensures s in cl.readers {
        assert Covered(net, s, c);
      }
      Commanded(net, c, cl, t, Cmd.Compile(c, ""));
      other := net.(clients := net.clients[c := cl], streams := Push(net.streams, t, Cmd.Compile(c, "")));
      assert other.clients == net.clients;
      LastCompileIsLoose(net.streams[t].cmd, c);
      assert Require(other, name).0.streams[t] == other.streams[t];
    }
  }

  /** The same clients, reader entries and names; the streams behind their pipes are in any state. */
  predicate SameServer(net: Net, other: Net) {
    other.clients == net.clients && other.names == net.names && |other.streams| == |net.streams|
  }

  /** So the test is exact: it passes if and only if the cancel is safe whatever the actors are up to. */
  lemma ServerTestIsExact(rex: Matcher, net: Net, c: Ptr, name: string)
    requires MatchesAll(rex) && Inv(net) && Named(net) && IsConnected(net, c)
    ensures EntryIsSpare(net, c, name) <==>
            forall other: Net :: SameServer(net, other) && Inv(other) && Named(other) ==> SafeCancel(rex, other, c, name)
  {
    hide Exec, MatchesAll, CancelIsCovered, CancelReader, Owed, Pending, WellFormed;
    if EntryIsSpare(net, c, name) {
      forall other: Net | SameServer(net, other) && Inv(other) && Named(other) ensures SafeCancel(rex, other, c, name) {
        SpareEntryIsCovered(other, c, name);
        CancelIsSafeIff(rex, other, c, name);
      }
    } else {
      var other := NoWeakerTest(net, c, name);
      assert SameServer(net, other) && Named(other);
      CancelIsSafeIff(rex, other, c, name);
    }
  }

  lemma LastCompileIsLoose(cmd: seq<Cmd>, c: Ptr)
    ensures LooseCompile(cmd + [Cmd.Compile(c, "")], c)
  {
    var r := cmd + [Cmd.Compile(c, "")];
    assert r[|cmd|].Compile? && r[|cmd|..] == [Cmd.Compile(c, "")];
  }

  /** A run in which the server makes that test before every STREAM CANCEL. */
  predicate SpareCancels(rex: Matcher, net: Net, steps: seq<Step>)
    requires Shape(net)
    decreases |steps|
  {
    steps != [] && Enabled(net, steps[0]) && !PopsFreedClient(net, steps[0]) ==>
      && (steps[0].StreamCancel? ==> EntryIsSpare(net, steps[0].c, steps[0].name))
      && SpareCancels(rex, Next(rex, net, steps[0]), steps[1..])
  }

  lemma {:induction false} SpareCancelsAreGuarded(rex: Matcher, net: Net, steps: seq<Step>)
    requires Shape(net) && SpareCancels(rex, net, steps)
    ensures Guarded(rex, net, steps)
    decreases |steps|
  {
    hide Next;
    if steps != [] && Enabled(net, steps[0]) && !PopsFreedClient(net, steps[0]) {
      SpareCancelsAreGuarded(rex, Next(rex, net, steps[0]), steps[1..]);
    }
  }

  /** With that test no interleaving makes the server use a freed context. */
  lemma SpareCancelsAreSafe(rex: Matcher, net: Net, steps: seq<Step>)
    requires Inv(net) && SpareCancels(rex, net, steps)
    ensures Exec(rex, net, steps) != UseAfterFree
    ensures Exec(rex, net, steps).Reached? ==> Inv(Exec(rex, net, steps).net)
  {
    SpareCancelsAreGuarded(rex, net, steps);
    RunsAreSafe(rex, net, steps);
  }
}
