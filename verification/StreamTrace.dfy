/** The streams of a run, told from its steps alone: which names have streams, what each stream was asked, and who
    reads and writes which (src/mlm_server.c:119-197, 485-545, 737-768, 1226-1240). */
module StreamTraces {
  import opened Messages
  import opened Options
  import opened Selectors
  import opened StreamNet
  import opened StreamOrder
  import opened StreamDeliveries

  // ---------------------------------------------------------------------------------------------
  // Read off the list of steps

  /** The name of the stream a step asks for. */
  function NameIn(step: Step): Option<string> {
    match step
    case StreamWrite(_, name) => Some(name)
    case StreamRead(_, name, _) => Some(name)
    case StreamCancel(_, name) => Some(name)
    case _ => None
  }

  /** All names asked for, each once, in the order of their first mention. */
  function Names(steps: seq<Step>): seq<string> {
    if steps == [] then []
    else
      var ns, n := Names(Initial(steps)), NameIn(Last(steps));
      if n.Some? && n.value !in ns then ns + [n.value] else ns
  }

  /** The stream a client has taken for writing, since it connected. */
  function WriterOf(steps: seq<Step>, c: Ptr): Option<string> {
    if steps == [] then None
    else
      match Last(steps)
      case Connect(d) => if d == c then None else WriterOf(Initial(steps), c)
      case StreamWrite(d, name) => if d == c then Some(name) else WriterOf(Initial(steps), c)
      case _ => WriterOf(Initial(steps), c)
  }

  /** The client that a step takes out of service: one that leaves, or sends without a writer. */
  function LeavesBy(steps: seq<Step>, step: Step): Option<Ptr> {
    match step
    case Leave(c) => Some(c)
    case StreamSend(c, _) => if WriterOf(steps, c).None? then Some(c) else None
    case _ => None
  }

  /** The reader entries of a client, by name: one for each STREAM READ, less the first for each STREAM CANCEL. */
  function ReadersOf(steps: seq<Step>, c: Ptr): seq<string> {
    if steps == [] then []
    else
      var before := ReadersOf(Initial(steps), c);
      match Last(steps)
      case Connect(d) => if d == c then [] else before
      case StreamRead(d, name, _) => if d == c then before + [name] else before
      case StreamCancel(d, _) => if d == c && before != [] then before[1..] else before
      case _ => if LeavesBy(Initial(steps), Last(steps)) == Some(c) then [] else before
  }

  function Count<T(==)>(s: seq<T>, x: T): nat {
    if s == [] then 0 else (if s[0] == x then 1 else 0) + Count(s[1..], x)
  }

  predicate IsNamed(steps: seq<Step>, s: nat, name: string) {
    s < |Names(steps)| && Names(steps)[s] == name
  }

  /** What a step after the others means for the stream of one name. */
  function NewOps(steps: seq<Step>, step: Step, name: string): seq<Op> {
    match step
    case StreamRead(c, n, p) => if n == name then [Ask(Cmd.Compile(c, p))] else []
    case StreamCancel(c, n) => if n == name then [Ask(Cmd.Cancel(c))] else []
    case StreamSend(c, m) =>
      if WriterOf(steps, c) == Some(name) then [Send(Pub(c, m))]
      else if WriterOf(steps, c).None? then Times(Ask(Cmd.Cancel(c)), Count(ReadersOf(steps, c), name))
      else []
    case Leave(c) => Times(Ask(Cmd.Cancel(c)), Count(ReadersOf(steps, c), name))
    case ActorCommand(s) => if IsNamed(steps, s, name) then [HandleCommand] else []
    case ActorMessage(s) => if IsNamed(steps, s, name) then [HandleMessage] else []
    case ServerForward(s) => if IsNamed(steps, s, name) then [Take] else []
    case _ => []
  }

  function OpsOn(steps: seq<Step>, name: string): seq<Op> {
    if steps == [] then [] else OpsOn(Initial(steps), name) + NewOps(Initial(steps), Last(steps), name)
  }

  // ---------------------------------------------------------------------------------------------
  // What the net must then look like

  function ToNames(ns: seq<string>, readers: seq<nat>): seq<string>
    requires forall i :: 0 <= i < |readers| ==> readers[i] < |ns|
  {
    seq(|readers|, i requires 0 <= i < |readers| => ns[readers[i]])
  }

  ghost predicate NamesFit(net: Net, ns: seq<string>) {
    && |net.streams| == |ns|
    && (forall name :: name in net.names <==> name in ns)
    && (forall i :: 0 <= i < |ns| ==> ns[i] in net.names && net.names[ns[i]] == i)
  }

  predicate ClientFits(cl: Client, ns: seq<string>, writer: Option<string>, readers: seq<string>) {
    && (cl.writer.Some? <==> writer.Some?) && (writer.Some? ==> cl.writer.value < |ns| && ns[cl.writer.value] == writer.value)
    && (forall i :: 0 <= i < |cl.readers| ==> cl.readers[i] < |ns|) && ToNames(ns, cl.readers) == readers
  }

  predicate ClientsFit(clients: map<Ptr, Client>, steps: seq<Step>) {
    forall c :: c in clients ==> ClientFits(clients[c], Names(steps), WriterOf(steps, c), ReadersOf(steps, c))
  }

  predicate StreamsFit(rex: Matcher, ss: seq<Stream>, ns: seq<string>, steps: seq<Step>) {
    |ss| == |ns| && forall i :: 0 <= i < |ss| ==> ss[i] == Played(rex, OpsOn(steps, ns[i]))
  }

  function Played(rex: Matcher, ops: seq<Op>): Stream {
    Run(rex, NOTHING_YET, ops).st
  }

  ghost predicate Traced(rex: Matcher, net: Net, steps: seq<Step>) {
    NamesFit(net, Names(steps)) && ClientsFit(net.clients, steps) && StreamsFit(rex, net.streams, Names(steps), steps)
  }

  // ---------------------------------------------------------------------------------------------
  // Names asked for so far

  lemma Snoc(steps: seq<Step>, step: Step)
    ensures Initial(steps + [step]) == steps && Last(steps + [step]) == step
  {
  }

  /** Writers and readers are of streams that were asked for. */
  lemma {:induction false} OnlyNamed(steps: seq<Step>, c: Ptr)
    ensures WriterOf(steps, c).Some? ==> WriterOf(steps, c).value in Names(steps)
    ensures forall name :: name in ReadersOf(steps, c) ==> name in Names(steps)
  {
    if steps != [] {
      OnlyNamed(Initial(steps), c);
    }
  }

  lemma {:induction false} CountNone(s: seq<string>, x: string)
    requires x !in s
    ensures Count(s, x) == 0
  {
    if s != [] {
      CountNone(s[1..], x);
    }
  }

  /** Nothing happens on a stream before its name is mentioned. */
  lemma {:induction false} UnnamedIsQuiet(steps: seq<Step>, name: string)
    requires name !in Names(steps)
    ensures OpsOn(steps, name) == []
  {
    if steps != [] {
      var before, step := Initial(steps), Last(steps);
      UnnamedIsQuiet(before, name);
      if step.StreamSend? || step.Leave? {
        OnlyNamed(before, step.c);
        CountNone(ReadersOf(before, step.c), name);
      }
    }
  }

  lemma {:induction false} NamesDistinct(steps: seq<Step>)
    ensures Distinct(Names(steps))
  {
    if steps != [] {
      NamesDistinct(Initial(steps));
    }
  }

  // ---------------------------------------------------------------------------------------------
  // Playing operations

  lemma {:induction false} RunSplit(rex: Matcher, h: History, a: seq<Op>, b: seq<Op>)
    ensures Run(rex, h, a + b) == Run(rex, Run(rex, h, a), b)
    decreases |a|
  {
    hide Advance;
    if a == [] {
      assert a + b == b;
    } else {
      assert (a + b)[1..] == a[1..] + b;
      RunSplit(rex, Advance(rex, h, a[0]), a[1..], b);
    }
  }

  lemma {:induction false} AsksQueueUp(rex: Matcher, h: History, cmd: Cmd, n: nat)
    ensures Run(rex, h, Times(Ask(cmd), n)).st == h.st.(cmd := h.st.cmd + Times(cmd, n))
    decreases n
  {
    if n > 0 {
      AsksQueueUp(rex, h.(st := h.st.(cmd := h.st.cmd + [cmd])), cmd, n - 1);
      assert h.st.cmd + [cmd] + Times(cmd, n - 1) == h.st.cmd + Times(cmd, n);
    } else {
      assert h.st.cmd + [] == h.st.cmd;
    }
  }

  lemma OneMore(rex: Matcher, h: History, op: Op)
    ensures Run(rex, h, [op]) == Advance(rex, h, op)
  {
    assert [op][1..] == [];
  }

  /** The stream after the operations of one more step. */
  function PlayOn(rex: Matcher, st: Stream, ops: seq<Op>): Stream {
    Run(rex, NOTHING_YET.(st := st), ops).st
  }

  lemma {:induction false} StateOnly(rex: Matcher, h: History, g: History, ops: seq<Op>)
    requires h.st == g.st
    ensures Run(rex, h, ops).st == Run(rex, g, ops).st
    decreases |ops|
  {
    if ops != [] {
      StateOnly(rex, Advance(rex, h, ops[0]), Advance(rex, g, ops[0]), ops[1..]);
    }
  }

  lemma PlayedStep(rex: Matcher, steps: seq<Step>, step: Step, name: string)
    ensures Played(rex, OpsOn(steps + [step], name)) == PlayOn(rex, Played(rex, OpsOn(steps, name)), NewOps(steps, step, name))
  {
    hide Advance;
    Snoc(steps, step);
    var ops := OpsOn(steps, name);
    RunSplit(rex, NOTHING_YET, ops, NewOps(steps, step, name));
    var h := Run(rex, NOTHING_YET, ops);
    StateOnly(rex, h, NOTHING_YET.(st := h.st), NewOps(steps, step, name));
  }

  lemma NothingPlayed(rex: Matcher, st: Stream)
    ensures PlayOn(rex, st, []) == st
  {
  }

  lemma OnePlayed(rex: Matcher, st: Stream, op: Op)
    ensures PlayOn(rex, st, [op]) == Advance(rex, NOTHING_YET.(st := st), op).st
  {
    OneMore(rex, NOTHING_YET.(st := st), op);
  }
}
