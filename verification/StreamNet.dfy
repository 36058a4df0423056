/** The stream engine actors and the server as one state machine over FIFO pipes
    (src/mlm_stream_simple.c, src/mlm_server.c, src/mlm_server_engine.inc). Every handler is one
    atomic step; any interleaving of steps is a run. */
module StreamNet {
  import opened Messages
  import opened Options
  import opened Selectors

  datatype Cmd = Compile(client: Ptr, pattern: string) | Cancel(client: Ptr)

  datatype Pub = Pub(sender: Ptr, msg: Message)

  /** One stream: the actor's selectors, and its pipes. `cmd` and `pub` run towards the actor,
      `out` is the actor's half of the message pipe, towards the server. */
  datatype Stream = Stream(cmd: seq<Cmd>, pub: seq<Pub>, selectors: seq<Selector>, out: seq<Out>)

  const EMPTY_STREAM := Stream([], [], [], [])

  datatype Phase = Start | Connected | Zombie

  /** A client context. Streams are named by their position in the server's list of streams;
      `address` is None until CONNECTION OPEN has been handled. */
  datatype Client = Client(phase: Phase, refcount: int, readers: seq<nat>, writer: Option<nat>, address: Option<string>)

  const NEW_CLIENT := Client(Start, 0, [], None, None)

  /** `clients` holds the contexts that have not been freed. */
  datatype Net = Net(clients: map<Ptr, Client>, names: map<string, nat>, streams: seq<Stream>)

  // ---------------------------------------------------------------------------------------------
  // Steps of the actor

  function EngineCommand(st: Stream): Stream
    requires st.cmd != []
  {
    match st.cmd[0]
    case Compile(c, p) => st.(cmd := st.cmd[1..], selectors := Selectors.Compile(st.selectors, c, p))
    case Cancel(c) => st.(cmd := st.cmd[1..], selectors := Selectors.Cancel(st.selectors, c), out := st.out + [Ack(c)])
  }

  function EngineMessage(rex: Matcher, st: Stream): Stream
    requires st.pub != []
  {
    st.(pub := st.pub[1..], out := st.out + Copies(rex, st.selectors, st.pub[0].sender, st.pub[0].msg))
  }

  // ---------------------------------------------------------------------------------------------
  // Steps of the server

  function Push(ss: seq<Stream>, s: nat, cmd: Cmd): seq<Stream>
    requires s < |ss|
  {
    ss[s := ss[s].(cmd := ss[s].cmd + [cmd])]
  }

  /** s_stream_require: look the name up, creating the stream when it is missing. */
  function Require(net: Net, name: string): (Net, nat) {
    if name in net.names then (net, net.names[name])
    else (net.(names := net.names[name := |net.streams|], streams := net.streams + [EMPTY_STREAM]), |net.streams|)
  }

  predicate NamesOk(net: Net) {
    forall name :: name in net.names ==> net.names[name] < |net.streams|
  }

  /** Indices stay inside the list of streams. */
  predicate Shape(net: Net) {
    && NamesOk(net)
    && (forall c :: c in net.clients ==> net.clients[c].writer.Some? ==> net.clients[c].writer.value < |net.streams|)
    && (forall c, i :: c in net.clients && 0 <= i < |net.clients[c].readers| ==> net.clients[c].readers[i] < |net.streams|)
  }

  predicate IsConnected(net: Net, c: Ptr) {
    c in net.clients && net.clients[c].phase == Connected
  }

  function StoreWriter(net: Net, c: Ptr, name: string): (r: Net)
    requires Shape(net) && c in net.clients
    ensures Shape(r)
  {
    var (n, s) := Require(net, name);
    n.(clients := n.clients[c := n.clients[c].(writer := Some(s))])
  }

  function StoreReader(net: Net, c: Ptr, name: string, pattern: string): (r: Net)
    requires Shape(net) && c in net.clients
    ensures Shape(r)
  {
    var (n, s) := Require(net, name);
    var cl := n.clients[c];
    n.(clients := n.clients[c := cl.(readers := cl.readers + [s], refcount := cl.refcount + 1)],
       streams := Push(n.streams, s, Compile(c, pattern)))
  }

  /** cancel_stream_reader: CANCEL goes to the named stream, the head of `readers` is dropped. */
  function CancelReader(net: Net, c: Ptr, name: string): (r: Net)
    requires Shape(net) && c in net.clients
    ensures Shape(r)
  {
    var (n, s) := Require(net, name);
    var cl := n.clients[c];
    n.(clients := n.clients[c := cl.(readers := if cl.readers == [] then [] else cl.readers[1..])],
       streams := Push(n.streams, s, Cancel(c)))
  }

  function Publish(net: Net, c: Ptr, m: Message): (r: Net)
    requires Shape(net) && c in net.clients && net.clients[c].writer.Some?
    ensures Shape(r)
  {
    var s := net.clients[c].writer.value;
    net.(streams := net.streams[s := net.streams[s].(pub := net.streams[s].pub + [Pub(c, m)])])
  }

  /** One CANCEL per entry of `readers`, in order. */
  function CancelEach(ss: seq<Stream>, readers: seq<nat>, c: Ptr): (r: seq<Stream>)
    requires forall i :: 0 <= i < |readers| ==> readers[i] < |ss|
    ensures |r| == |ss|
    decreases |readers|
  {
    if readers == [] then ss else CancelEach(Push(ss, readers[0], Cancel(c)), readers[1..], c)
  }

  /** Removal of a client from the engine's table: freed at once without references, else a zombie. */
  function Drop(clients: map<Ptr, Client>, c: Ptr): map<Ptr, Client>
    requires c in clients
  {
    if clients[c].refcount == 0 then clients - {c} else clients[c := clients[c].(phase := Zombie)]
  }

  /** The record after deregister_the_client: leaving the address table frees a non-empty address. */
  function Deregistered(cl: Client): Client {
    cl.(readers := [], address := if cl.address == Some("") then cl.address else None)
  }

  /** deregister_the_client, then terminate. */
  function Terminate(net: Net, c: Ptr): (r: Net)
    requires Shape(net) && c in net.clients
    ensures Shape(r)
  {
    var cl := net.clients[c];
    net.(clients := Drop(net.clients[c := Deregistered(cl)], c), streams := CancelEach(net.streams, cl.readers, c))
  }

  /** engine_client_put. */
  function Put(clients: map<Ptr, Client>, c: Ptr): map<Ptr, Client>
    requires c in clients
  {
    var cl := clients[c].(refcount := clients[c].refcount - 1);
    if cl.refcount == 0 && cl.phase == Zombie then clients - {c} else clients[c := cl]
  }

  /** s_forward_stream_traffic: the server pops one pair from a stream's message pipe. */
  function Forward(net: Net, s: nat): (r: Net)
    requires Shape(net) && s < |net.streams| && net.streams[s].out != []
    requires net.streams[s].out[0].client in net.clients
    ensures Shape(r)
  {
    var st := net.streams[s];
    net.(streams := net.streams[s := st.(out := st.out[1..])],
         clients := if st.out[0].Ack? then Put(net.clients, st.out[0].client) else net.clients)
  }

  // ---------------------------------------------------------------------------------------------
  // Runs

  datatype Step =
    | Connect(c: Ptr)
    | Open(c: Ptr, address: string)
    | StreamWrite(c: Ptr, name: string)
    | StreamRead(c: Ptr, name: string, pattern: string)
    | StreamCancel(c: Ptr, name: string)
    | StreamSend(c: Ptr, msg: Message)
    | Leave(c: Ptr)
    | ActorCommand(s: nat)
    | ActorMessage(s: nat)
    | ServerForward(s: nat)

  /** When a step can be taken. A new context may take any address that is not in use. */
  predicate Enabled(net: Net, step: Step) {
    match step
    case Connect(c) => c !in net.clients
    case Open(c, _) => c in net.clients && net.clients[c].phase == Start
    case StreamWrite(c, _) => IsConnected(net, c)
    case StreamRead(c, _, _) => IsConnected(net, c)
    case StreamCancel(c, name) => IsConnected(net, c)
    case StreamSend(c, _) => IsConnected(net, c)
    case Leave(c) => c in net.clients && net.clients[c].phase != Zombie
    case ActorCommand(s) => s < |net.streams| && net.streams[s].cmd != []
    case ActorMessage(s) => s < |net.streams| && net.streams[s].pub != []
    case ServerForward(s) => s < |net.streams| && net.streams[s].out != []
  }

  /** The server pops a pair whose client context has been freed. */
  predicate PopsFreedClient(net: Net, step: Step)
    requires Enabled(net, step)
  {
    step.ServerForward? && net.streams[step.s].out[0].client !in net.clients
  }

  /** The state after a step; a send without a writer raises the exception event, which terminates. */
  function Next(rex: Matcher, net: Net, step: Step): (r: Net)
    requires Shape(net) && Enabled(net, step) && !PopsFreedClient(net, step)
    ensures Shape(r)
  {
    match step
    case Connect(c) => net.(clients := net.clients[c := NEW_CLIENT])
    case Open(c, a) => net.(clients := net.clients[c := net.clients[c].(phase := Connected, address := Some(a))])
    case StreamWrite(c, name) => StoreWriter(net, c, name)
    case StreamRead(c, name, p) => StoreReader(net, c, name, p)
    case StreamCancel(c, name) => CancelReader(net, c, name)
    case StreamSend(c, m) => if net.clients[c].writer.Some? then Publish(net, c, m) else Terminate(net, c)
    case Leave(c) => Terminate(net, c)
    case ActorCommand(s) => net.(streams := net.streams[s := EngineCommand(net.streams[s])])
    case ActorMessage(s) => net.(streams := net.streams[s := EngineMessage(rex, net.streams[s])])
    case ServerForward(s) => Forward(net, s)
  }

  const INITIAL := Net(map[], map[], [])

  datatype Outcome = Reached(net: Net) | UseAfterFree | Blocked

  /** A run: any interleaving of steps, until one cannot be taken or uses a freed context. */
  function Exec(rex: Matcher, net: Net, steps: seq<Step>): Outcome
    requires Shape(net)
    decreases |steps|
  {
    if steps == [] then Reached(net)
    else if !Enabled(net, steps[0]) then Blocked
    else if PopsFreedClient(net, steps[0]) then UseAfterFree
    else Exec(rex, Next(rex, net, steps[0]), steps[1..])
  }
}
