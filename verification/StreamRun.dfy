/** Every step of server and actors keeps the net where the list of steps puts it (src/mlm_server.c:119-197, 485-545,
    737-768, 1226-1240). */
module StreamRuns {
  import opened Messages
  import opened Options
  import opened Selectors
  import opened StreamNet
  import opened StreamOrder
  import opened StreamDeliveries
  import opened StreamTraces

  // ---------------------------------------------------------------------------------------------
  // One step

  lemma StreamsStep(rex: Matcher, ss: seq<Stream>, r: seq<Stream>, ns: seq<string>, steps: seq<Step>, step: Step)
    requires StreamsFit(rex, ss, ns, steps) && |r| == |ss|
    requires forall i :: 0 <= i < |ss| ==> r[i] == PlayOn(rex, ss[i], NewOps(steps, step, ns[i]))
    ensures StreamsFit(rex, r, ns, steps + [step])
  {
    hide Played, PlayOn, NewOps, OpsOn;
    forall i | 0 <= i < |ss| ensures r[i] == Played(rex, OpsOn(steps + [step], ns[i])) {
      PlayedStep(rex, steps, step, ns[i]);
    }
  }

  /** The step changes one stream, by one operation. */
  lemma OneStreamStep(rex: Matcher, ss: seq<Stream>, s: nat, op: Op, ns: seq<string>, steps: seq<Step>, step: Step)
    requires StreamsFit(rex, ss, ns, steps) && s < |ss|
    requires forall i :: 0 <= i < |ss| ==> NewOps(steps, step, ns[i]) == if i == s then [op] else []
    ensures StreamsFit(rex, ss[s := Advance(rex, NOTHING_YET.(st := ss[s]), op).st], ns, steps + [step])
  {
    hide Played, NewOps, OpsOn, PlayOn, Advance;
    var r := ss[s := Advance(rex, NOTHING_YET.(st := ss[s]), op).st];
    forall i | 0 <= i < |ss| ensures r[i] == PlayOn(rex, ss[i], NewOps(steps, step, ns[i])) {
      NothingPlayed(rex, ss[i]);
      OnePlayed(rex, ss[i], op);
    }
    StreamsStep(rex, ss, r, ns, steps, step);
  }

  lemma QuietStep(rex: Matcher, ss: seq<Stream>, ns: seq<string>, steps: seq<Step>, step: Step)
    requires StreamsFit(rex, ss, ns, steps)
    requires step.Connect? || step.Open? || step.StreamWrite?
    ensures StreamsFit(rex, ss, ns, steps + [step])
  {
    hide Played, OpsOn, PlayOn;
    forall i | 0 <= i < |ss| ensures ss[i] == PlayOn(rex, ss[i], NewOps(steps, step, ns[i])) {
      NothingPlayed(rex, ss[i]);
    }
    StreamsStep(rex, ss, ss, ns, steps, step);
  }

  /** Asking for a name finds its stream, or adds an empty one at the end. */
  lemma RequireFits(rex: Matcher, net: Net, steps: seq<Step>, step: Step)
    requires Traced(rex, net, steps) && NameIn(step).Some?
    ensures var (n, s) := Require(net, NameIn(step).value);
            var ns := Names(steps + [step]);
            && NamesFit(n, ns) && StreamsFit(rex, n.streams, ns, steps) && n.clients == net.clients
            && s < |ns| && ns[s] == NameIn(step).value && Names(steps) <= ns && Distinct(ns)
  {
    hide OpsOn;
    Snoc(steps, step);
    var name := NameIn(step).value;
    NamesDistinct(steps + [step]);
    if name !in net.names {
      UnnamedIsQuiet(steps, name);
      NewName(net, Names(steps), name);
    }
  }

  lemma NewName(net: Net, ns: seq<string>, name: string)
    requires NamesFit(net, ns) && name !in net.names
    ensures NamesFit(Require(net, name).0, ns + [name])
  {
    var n := Require(net, name).0;
    forall x ensures x in n.names <==> x in ns + [name] {}
  }

  lemma ClientGrows(cl: Client, ns: seq<string>, more: seq<string>, writer: Option<string>, readers: seq<string>)
    requires ClientFits(cl, ns, writer, readers) && ns <= more
    ensures ClientFits(cl, more, writer, readers)
  {
  }

  /** The records of the other clients, and the lists they are read from, stay as they were. */
  lemma OthersFit(clients: map<Ptr, Client>, r: map<Ptr, Client>, c: Ptr, steps: seq<Step>, step: Step)
    requires ClientsFit(clients, steps)
    requires forall d :: d in r && d != c ==> d in clients && r[d].writer == clients[d].writer && r[d].readers == clients[d].readers
    requires forall d :: d != c ==> WriterOf(steps + [step], d) == WriterOf(steps, d) && ReadersOf(steps + [step], d) == ReadersOf(steps, d)
    requires Names(steps) <= Names(steps + [step])
    requires c in r ==> ClientFits(r[c], Names(steps + [step]), WriterOf(steps + [step], c), ReadersOf(steps + [step], c))
    ensures ClientsFit(r, steps + [step])
  {
    hide WriterOf, ReadersOf, Names;
    forall d | d in r ensures ClientFits(r[d], Names(steps + [step]), WriterOf(steps + [step], d), ReadersOf(steps + [step], d)) {
      if d != c {
        ClientGrows(clients[d], Names(steps), Names(steps + [step]), WriterOf(steps, d), ReadersOf(steps, d));
      }
    }
  }

  /** The lists of the client that takes the step, read off with it. */
  lemma ListsOf(steps: seq<Step>, step: Step, c: Ptr)
    requires step.StreamWrite? || step.StreamRead? || step.StreamCancel?
    ensures WriterOf(steps + [step], c) == if step.StreamWrite? && step.c == c then Some(step.name) else WriterOf(steps, c)
    ensures var before := ReadersOf(steps, c);
            ReadersOf(steps + [step], c) ==
              if step.StreamRead? && step.c == c then before + [step.name]
              else if step.StreamCancel? && step.c == c && before != [] then before[1..]
              else before
  {
    Snoc(steps, step);
  }

  /** The client's record after a step on the stream at position s, against its lists. */
  lemma RecordFits(cl: Client, ns: seq<string>, more: seq<string>, writer: Option<string>, readers: seq<string>, s: nat)
    requires ClientFits(cl, ns, writer, readers) && ns <= more && s < |more|
    ensures ClientFits(cl.(writer := Some(s)), more, Some(more[s]), readers)
    ensures ClientFits(cl.(readers := cl.readers + [s], refcount := cl.refcount + 1), more, writer, readers + [more[s]])
    ensures ClientFits(cl.(readers := if cl.readers == [] then [] else cl.readers[1..]), more, writer, if readers == [] then [] else readers[1..])
  {
    ClientGrows(cl, ns, more, writer, readers);
    assert ToNames(more, cl.readers + [s]) == ToNames(more, cl.readers) + [more[s]];
    if cl.readers != [] {
      assert ToNames(more, cl.readers[1..]) == ToNames(more, cl.readers)[1..];
    }
  }

  lemma OneClientStep(clients: map<Ptr, Client>, steps: seq<Step>, step: Step, cl: Client, s: nat)
    requires step.StreamWrite? || step.StreamRead? || step.StreamCancel?
    requires ClientsFit(clients, steps) && step.c in clients
    requires Names(steps) <= Names(steps + [step]) && s < |Names(steps + [step])| && Names(steps + [step])[s] == step.name
    requires var was := clients[step.c];
             cl == if step.StreamWrite? then was.(writer := Some(s))
                   else if step.StreamRead? then was.(readers := was.readers + [s], refcount := was.refcount + 1)
                   else was.(readers := if was.readers == [] then [] else was.readers[1..])
    ensures ClientsFit(clients[step.c := cl], steps + [step])
  {
    hide WriterOf, ReadersOf, Names, ClientFits;
    forall d ensures WriterOf(steps + [step], d) == (if step.StreamWrite? && step.c == d then Some(step.name) else WriterOf(steps, d))
             ensures d != step.c ==> ReadersOf(steps + [step], d) == ReadersOf(steps, d) {
      ListsOf(steps, step, d);
    }
    ListsOf(steps, step, step.c);
    RecordFits(clients[step.c], Names(steps), Names(steps + [step]), WriterOf(steps, step.c), ReadersOf(steps, step.c), s);
    OthersFit(clients, clients[step.c := cl], step.c, steps, step);
  }

  lemma WriteTraced(rex: Matcher, net: Net, steps: seq<Step>, c: Ptr, name: string)
    requires Shape(net) && Traced(rex, net, steps) && c in net.clients
    ensures Traced(rex, StoreWriter(net, c, name), steps + [StreamWrite(c, name)])
  {
    hide OpsOn, Played, Names, WriterOf, ReadersOf, ClientFits;
    var step := StreamWrite(c, name);
    RequireFits(rex, net, steps, step);
    var (n, s) := Require(net, name);
    QuietStep(rex, n.streams, Names(steps + [step]), steps, step);
    OneClientStep(net.clients, steps, step, StoreWriter(net, c, name).clients[c], s);
  }

  lemma ReadTraced(rex: Matcher, net: Net, steps: seq<Step>, c: Ptr, name: string, p: string)
    requires Shape(net) && Traced(rex, net, steps) && c in net.clients
    ensures Traced(rex, StoreReader(net, c, name, p), steps + [StreamRead(c, name, p)])
  {
    hide OpsOn, Played, Names, WriterOf, ReadersOf, ClientFits;
    var step := StreamRead(c, name, p);
    RequireFits(rex, net, steps, step);
    var (n, s) := Require(net, name);
    OneStreamStep(rex, n.streams, s, Ask(Cmd.Compile(c, p)), Names(steps + [step]), steps, step);
    OneClientStep(net.clients, steps, step, StoreReader(net, c, name, p).clients[c], s);
  }

  lemma CancelTraced(rex: Matcher, net: Net, steps: seq<Step>, c: Ptr, name: string)
    requires Shape(net) && Traced(rex, net, steps) && c in net.clients
    ensures Traced(rex, CancelReader(net, c, name), steps + [StreamCancel(c, name)])
  {
    hide OpsOn, Played, Names, WriterOf, ReadersOf, ClientFits;
    var step := StreamCancel(c, name);
    RequireFits(rex, net, steps, step);
    var (n, s) := Require(net, name);
    OneStreamStep(rex, n.streams, s, Ask(Cmd.Cancel(c)), Names(steps + [step]), steps, step);
    OneClientStep(net.clients, steps, step, CancelReader(net, c, name).clients[c], s);
  }

  /** Steps that touch no name and no reader or writer entry. */
  lemma ListsStay(steps: seq<Step>, step: Step)
    requires step.Open? || (step.StreamSend? && WriterOf(steps, step.c).Some?) || step.ActorCommand? || step.ActorMessage? || step.ServerForward?
    ensures Names(steps + [step]) == Names(steps)
    ensures forall d :: WriterOf(steps + [step], d) == WriterOf(steps, d) && ReadersOf(steps + [step], d) == ReadersOf(steps, d)
  {
    Snoc(steps, step);
  }

  lemma ClientsStay(clients: map<Ptr, Client>, r: map<Ptr, Client>, steps: seq<Step>, step: Step)
    requires step.Open? || (step.StreamSend? && WriterOf(steps, step.c).Some?) || step.ActorCommand? || step.ActorMessage? || step.ServerForward?
    requires ClientsFit(clients, steps)
    requires forall d :: d in r ==> d in clients && r[d].writer == clients[d].writer && r[d].readers == clients[d].readers
    ensures Names(steps + [step]) == Names(steps) && ClientsFit(r, steps + [step])
  {
    hide WriterOf, ReadersOf, Names;
    ListsStay(steps, step);
    forall d | d in r ensures ClientFits(r[d], Names(steps), WriterOf(steps, d), ReadersOf(steps, d)) {
      assert ClientFits(clients[d], Names(steps), WriterOf(steps, d), ReadersOf(steps, d));
    }
  }

  lemma PublishStreams(rex: Matcher, ss: seq<Stream>, steps: seq<Step>, c: Ptr, m: Message, s: nat)
    requires StreamsFit(rex, ss, Names(steps), steps)
    requires WriterOf(steps, c).Some? && s < |ss| && Names(steps)[s] == WriterOf(steps, c).value
    ensures StreamsFit(rex, ss[s := ss[s].(pub := ss[s].pub + [Pub(c, m)])], Names(steps), steps + [StreamSend(c, m)])
  {
    hide OpsOn, Played, Names, WriterOf;
    NamesDistinct(steps);
    OneStreamStep(rex, ss, s, Send(Pub(c, m)), Names(steps), steps, StreamSend(c, m));
  }

  lemma PublishTraced(rex: Matcher, net: Net, steps: seq<Step>, c: Ptr, m: Message)
    requires Shape(net) && Traced(rex, net, steps) && c in net.clients && net.clients[c].writer.Some?
    ensures Traced(rex, Publish(net, c, m), steps + [StreamSend(c, m)])
  {
    hide StreamsFit, Names, WriterOf, ReadersOf;
    assert ClientFits(net.clients[c], Names(steps), WriterOf(steps, c), ReadersOf(steps, c));
    PublishStreams(rex, net.streams, steps, c, m, net.clients[c].writer.value);
    ClientsStay(net.clients, net.clients, steps, StreamSend(c, m));
  }

  /** A step of the actor or of the server on the stream at position s. */
  lemma PipeTraced(rex: Matcher, net: Net, steps: seq<Step>, step: Step, op: Op, clients: map<Ptr, Client>)
    requires Shape(net) && Traced(rex, net, steps)
    requires (step.ActorCommand? && op == HandleCommand) || (step.ActorMessage? && op == HandleMessage) || (step.ServerForward? && op == Take)
    requires step.s < |net.streams|
    requires forall d :: d in clients ==> d in net.clients && clients[d].writer == net.clients[d].writer && clients[d].readers == net.clients[d].readers
    ensures Traced(rex, net.(clients := clients, streams := net.streams[step.s := Advance(rex, NOTHING_YET.(st := net.streams[step.s]), op).st]),
                   steps + [step])
  {
    hide StreamsFit, ClientsFit, Names, Advance;
    PipeStreams(rex, net.streams, steps, step, op);
    ClientsStay(net.clients, clients, steps, step);
  }

  lemma PipeStreams(rex: Matcher, ss: seq<Stream>, steps: seq<Step>, step: Step, op: Op)
    requires StreamsFit(rex, ss, Names(steps), steps)
    requires (step.ActorCommand? && op == HandleCommand) || (step.ActorMessage? && op == HandleMessage) || (step.ServerForward? && op == Take)
    requires step.s < |ss|
    ensures StreamsFit(rex, ss[step.s := Advance(rex, NOTHING_YET.(st := ss[step.s]), op).st], Names(steps + [step]), steps + [step])
  {
    hide OpsOn, Played, Advance;
    ListsStay(steps, step);
    NamesDistinct(steps);
    OneStreamStep(rex, ss, step.s, op, Names(steps), steps, step);
  }

  // ---------------------------------------------------------------------------------------------
  // Departure

  lemma {:induction false} CancelEachAt(ss: seq<Stream>, readers: seq<nat>, c: Ptr, i: nat)
    requires i < |ss| && forall k :: 0 <= k < |readers| ==> readers[k] < |ss|
    ensures CancelEach(ss, readers, c)[i] == ss[i].(cmd := ss[i].cmd + Times(Cmd.Cancel(c), Count(readers, i)))
    decreases |readers|
  {
    if readers == [] {
      assert ss[i].cmd + [] == ss[i].cmd;
    } else {
      var r := Push(ss, readers[0], Cmd.Cancel(c));
      CancelEachAt(r, readers[1..], c, i);
      if readers[0] == i {
        assert ss[i].cmd + [Cmd.Cancel(c)] + Times(Cmd.Cancel(c), Count(readers[1..], i)) == ss[i].cmd + Times(Cmd.Cancel(c), Count(readers, i));
      }
    }
  }

  lemma {:induction false} CountByName(ns: seq<string>, readers: seq<nat>, i: nat)
    requires Distinct(ns) && i < |ns| && forall k :: 0 <= k < |readers| ==> readers[k] < |ns|
    ensures Count(ToNames(ns, readers), ns[i]) == Count(readers, i)
  {
    if readers != [] {
      CountByName(ns, readers[1..], i);
      assert ToNames(ns, readers)[1..] == ToNames(ns, readers[1..]);
    }
  }

  lemma DepartOps(steps: seq<Step>, step: Step, c: Ptr, name: string)
    requires LeavesBy(steps, step) == Some(c)
    ensures NewOps(steps, step, name) == Times(Ask(Cmd.Cancel(c)), Count(ReadersOf(steps, c), name))
  {
  }

  lemma DepartStreams(rex: Matcher, net: Net, steps: seq<Step>, step: Step, c: Ptr)
    requires Shape(net) && Traced(rex, net, steps) && c in net.clients && LeavesBy(steps, step) == Some(c)
    ensures StreamsFit(rex, CancelEach(net.streams, net.clients[c].readers, c), Names(steps), steps + [step])
  {
    hide OpsOn, Played, CancelEach, Names, ReadersOf, WriterOf, Run;
    NamesDistinct(steps);
    var ns, readers := Names(steps), net.clients[c].readers;
    var r := CancelEach(net.streams, readers, c);
    assert ClientFits(net.clients[c], ns, WriterOf(steps, c), ReadersOf(steps, c));
    forall i: nat | i < |net.streams| ensures r[i] == PlayOn(rex, net.streams[i], NewOps(steps, step, ns[i])) {
      CancelEachAt(net.streams, readers, c, i);
      CountByName(ns, readers, i);
      AsksQueueUp(rex, NOTHING_YET.(st := net.streams[i]), Cmd.Cancel(c), Count(readers, i));
      DepartOps(steps, step, c, ns[i]);
    }
    StreamsStep(rex, net.streams, r, ns, steps, step);
  }

  lemma DepartClients(clients: map<Ptr, Client>, r: map<Ptr, Client>, steps: seq<Step>, step: Step, c: Ptr)
    requires ClientsFit(clients, steps) && c in clients && LeavesBy(steps, step) == Some(c)
    requires forall d :: d in r && d != c ==> d in clients && r[d] == clients[d]
    requires c in r ==> r[c].writer == clients[c].writer && r[c].readers == []
    ensures Names(steps + [step]) == Names(steps) && ClientsFit(r, steps + [step])
  {
    Snoc(steps, step);
    assert ClientFits(clients[c], Names(steps), WriterOf(steps, c), ReadersOf(steps, c));
    OthersFit(clients, r, c, steps, step);
  }

  lemma DepartTraced(rex: Matcher, net: Net, steps: seq<Step>, step: Step, c: Ptr)
    requires Shape(net) && Traced(rex, net, steps) && c in net.clients && LeavesBy(steps, step) == Some(c)
    ensures Traced(rex, Terminate(net, c), steps + [step])
  {
    hide StreamsFit, ClientsFit, CancelEach, Names;
    DepartStreams(rex, net, steps, step, c);
    DepartClients(net.clients, Terminate(net, c).clients, steps, step, c);
  }

  lemma ConnectTraced(rex: Matcher, net: Net, steps: seq<Step>, c: Ptr)
    requires Traced(rex, net, steps) && c !in net.clients
    ensures Traced(rex, net.(clients := net.clients[c := NEW_CLIENT]), steps + [Connect(c)])
  {
    hide OpsOn, Played;
    var step := Connect(c);
    Snoc(steps, step);
    QuietStep(rex, net.streams, Names(steps), steps, step);
    OthersFit(net.clients, net.clients[c := NEW_CLIENT], c, steps, step);
  }

  lemma OpenTraced(rex: Matcher, net: Net, steps: seq<Step>, c: Ptr, a: string)
    requires Traced(rex, net, steps) && c in net.clients
    ensures Traced(rex, net.(clients := net.clients[c := net.clients[c].(phase := Connected, address := Some(a))]), steps + [Open(c, a)])
  {
    hide StreamsFit, ClientsFit, Names;
    QuietStep(rex, net.streams, Names(steps), steps, Open(c, a));
    ClientsStay(net.clients, net.clients[c := net.clients[c].(phase := Connected, address := Some(a))], steps, Open(c, a));
  }

  lemma StepTraced(rex: Matcher, net: Net, steps: seq<Step>, step: Step)
    requires Shape(net) && Traced(rex, net, steps) && Enabled(net, step) && !PopsFreedClient(net, step)
    ensures Traced(rex, Next(rex, net, step), steps + [step])
  {
    hide Traced, EngineCommand, EngineMessage;
    match step
    case Connect(c) => ConnectTraced(rex, net, steps, c);
    case Open(c, a) => OpenTraced(rex, net, steps, c, a);
    case StreamWrite(c, name) => WriteTraced(rex, net, steps, c, name);
    case StreamRead(c, name, p) => ReadTraced(rex, net, steps, c, name, p);
    case StreamCancel(c, name) => CancelTraced(rex, net, steps, c, name);
    case StreamSend(c, m) =>
      if net.clients[c].writer.Some? {
        PublishTraced(rex, net, steps, c, m);
      } else {
        NoWriter(rex, net, steps, c);
        DepartTraced(rex, net, steps, step, c);
      }
    case Leave(c) => DepartTraced(rex, net, steps, step, c);
    case ActorCommand(s) => PipeTraced(rex, net, steps, step, HandleCommand, net.clients);
    case ActorMessage(s) => PipeTraced(rex, net, steps, step, HandleMessage, net.clients);
    case ServerForward(s) => PipeTraced(rex, net, steps, step, Take, Forward(net, s).clients);
  }

  lemma NoWriter(rex: Matcher, net: Net, steps: seq<Step>, c: Ptr)
    requires Traced(rex, net, steps) && c in net.clients && net.clients[c].writer.None?
    ensures WriterOf(steps, c).None?
  {
  }

  // ---------------------------------------------------------------------------------------------
  // Runs

  lemma {:induction false} RunTraced(rex: Matcher, net: Net, before: seq<Step>, steps: seq<Step>)
    requires Shape(net) && Traced(rex, net, before) && Exec(rex, net, steps).Reached?
    ensures Traced(rex, Exec(rex, net, steps).net, before + steps)
    decreases |steps|
  {
    hide Traced, Next;
    if steps == [] {
      assert before + steps == before;
    } else {
      StepTraced(rex, net, before, steps[0]);
      RunTraced(rex, Next(rex, net, steps[0]), before + [steps[0]], steps[1..]);
      assert before + [steps[0]] + steps[1..] == before + steps;
    }
  }

  /** Over every run from the start: there is one stream for each name that was asked for, and it stands where the
      operations that the steps mean for that name put it. A client writes to the stream it took last and has one reader
      entry for each STREAM READ, less the first for each STREAM CANCEL. */
  lemma StreamsFollowTheSteps(rex: Matcher, steps: seq<Step>)
    requires Exec(rex, INITIAL, steps).Reached?
    ensures Traced(rex, Exec(rex, INITIAL, steps).net, steps)
  {
    hide Exec;
    assert Traced(rex, INITIAL, []);
    RunTraced(rex, INITIAL, [], steps);
    assert [] + steps == steps;
  }

  /** And so what each client has been sent by the stream of a name is what the steps call for; the pairs still in the
      pipe are the end of it. */
  lemma ReadersGetWhatStepsCallFor(rex: Matcher, steps: seq<Step>, name: string, d: Ptr)
    requires Exec(rex, INITIAL, steps).Reached? && name in Names(steps)
    ensures var net := Exec(rex, INITIAL, steps).net;
            var h := Run(rex, NOTHING_YET, OpsOn(steps, name));
            && name in net.names && net.names[name] < |net.streams| && h.taken <= |h.emitted|
            && net.streams[net.names[name]].out == h.emitted[h.taken..]
            && ForClient(h.emitted, d) == Expected(rex, OpsOn(steps, name), d)
  {
    hide Exec, Run, OpsOn, Names, Expected;
    StreamsFollowTheSteps(rex, steps);
    ClientsGetWhatTheyAskedFor(rex, OpsOn(steps, name), d);
  }
}
