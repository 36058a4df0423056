/** cancel_stream_reader in general (src/mlm_server.c:1226-1239): it sends CANCEL to the named stream
    but drops the head of `readers`, whichever stream that entry is for. One concrete run. */
module StreamCancel {
  import opened Messages
  import opened Options
  import opened Selectors
  import opened StreamNet

  /** Client 1 reads "a" and cancels "b"; its context is freed while "a" still lists it. */
  const READ_A: seq<Step> := [Connect(1), Open(1, "x"), StreamRead(1, "a", "")]
  const CANCEL_B: seq<Step> := [StreamCancel(1, "b"), ActorCommand(1)]
  const LEAVE: seq<Step> := [ServerForward(1), Leave(1)]
  /** Client 2 then publishes on "a". */
  const PUBLISH_A: seq<Step> := [Connect(2), Open(2, "y"), StreamWrite(2, "a"), StreamSend(2, NEWS)]
  const DELIVER_A: seq<Step> := [ActorCommand(0), ActorMessage(0), ServerForward(0)]
  const NEWS := Message(0, "y", "a", "", 0)

  const NAMES := map["a" := 0, "b" := 1]
  const ASKED := EMPTY_STREAM.(cmd := [Cmd.Compile(1, "")])
  const WRITTEN := ASKED.(pub := [Pub(2, NEWS)])

  const AFTER_READ := Net(map[1 := Client(Connected, 1, [0], None, Some("x"))], map["a" := 0], [ASKED])
  const AFTER_CANCEL := Net(map[1 := Client(Connected, 1, [], None, Some("x"))], NAMES, [ASKED, EMPTY_STREAM.(out := [Ack(1)])])
  const AFTER_LEAVE := Net(map[], NAMES, [ASKED, EMPTY_STREAM])
  const AFTER_PUBLISH := Net(map[2 := Client(Connected, 0, [], Some(0), Some("y"))], NAMES, [WRITTEN, EMPTY_STREAM])

  lemma Reading(rex: Matcher)
    ensures Exec(rex, INITIAL, READ_A) == Reached(AFTER_READ)
  {
    var n2 := Next(rex, Next(rex, INITIAL, Connect(1)), Open(1, "x"));
    assert n2 == Net(map[1 := Client(Connected, 0, [], None, Some("x"))], map[], []);
    Alone(EMPTY_STREAM);
    Alone(Cmd.Compile(1, ""));
    Alone(0);
    assert Next(rex, n2, StreamRead(1, "a", "")) == AFTER_READ;
  }

  lemma Cancelling(rex: Matcher)
    ensures Shape(AFTER_READ) && Exec(rex, AFTER_READ, CANCEL_B) == Reached(AFTER_CANCEL)
  {
    assert "a"[0] != "b"[0];
    Alone(Cmd.Cancel(1));
    Alone(Ack(1));
    var n := Next(rex, AFTER_READ, StreamCancel(1, "b"));
    assert n.streams == [ASKED, EMPTY_STREAM.(cmd := [Cmd.Cancel(1)])];
    assert n == AFTER_CANCEL.(streams := [ASKED, EMPTY_STREAM.(cmd := [Cmd.Cancel(1)])]);
    assert EngineCommand(EMPTY_STREAM.(cmd := [Cmd.Cancel(1)])) == EMPTY_STREAM.(out := [Ack(1)]);
    assert Next(rex, n, ActorCommand(1)).streams == AFTER_CANCEL.streams;
  }

  lemma Leaving(rex: Matcher)
    ensures Shape(AFTER_CANCEL) && Exec(rex, AFTER_CANCEL, LEAVE) == Reached(AFTER_LEAVE)
  {
    var n := Next(rex, AFTER_CANCEL, ServerForward(1));
    assert [Ack(1)][1..] == [];
    assert n.streams == [ASKED, EMPTY_STREAM];
    assert n.clients == map[1 := Client(Connected, 0, [], None, Some("x"))];
    assert Next(rex, n, Leave(1)) == AFTER_LEAVE;
  }

  lemma Publishing(rex: Matcher)
    ensures Shape(AFTER_LEAVE) && Exec(rex, AFTER_LEAVE, PUBLISH_A) == Reached(AFTER_PUBLISH)
  {
    var n2 := Next(rex, Next(rex, AFTER_LEAVE, Connect(2)), Open(2, "y"));
    assert n2 == AFTER_LEAVE.(clients := map[2 := Client(Connected, 0, [], None, Some("y"))]);
    var n3 := Next(rex, n2, StreamWrite(2, "a"));
    assert n3 == AFTER_LEAVE.(clients := map[2 := Client(Connected, 0, [], Some(0), Some("y"))]);
    Alone(Pub(2, NEWS));
    assert Next(rex, n3, StreamSend(2, NEWS)).streams == AFTER_PUBLISH.streams;
    assert PUBLISH_A[1..][1..] == [StreamWrite(2, "a"), StreamSend(2, NEWS)];
    assert PUBLISH_A[1..][1..][1..] == [StreamSend(2, NEWS)];
    assert Exec(rex, n3, [StreamSend(2, NEWS)]) == Reached(AFTER_PUBLISH);
    assert Exec(rex, n2, [StreamWrite(2, "a"), StreamSend(2, NEWS)]) == Reached(AFTER_PUBLISH);
  }

  lemma Delivering(rex: Matcher)
    requires rex("", "")
    ensures Shape(AFTER_PUBLISH) && Exec(rex, AFTER_PUBLISH, DELIVER_A) == UseAfterFree
  {
    var n := Next(rex, AFTER_PUBLISH, ActorCommand(0));
    assert n.streams[0] == WRITTEN.(cmd := [], selectors := [Selector("", [1])]);
    Copied(rex, n);
  }

  /** Once the COMPILE has been handled, the publication goes to the freed context of client 1. */
  lemma Copied(rex: Matcher, n: Net)
    requires rex("", "") && Shape(n) && |n.streams| > 0 && 1 !in n.clients
    requires n.streams[0] == WRITTEN.(cmd := [], selectors := [Selector("", [1])])
    ensures Exec(rex, n, DELIVER_A[1..]) == UseAfterFree
  {
    Alone(Deliver(1, NEWS));
    var m := Next(rex, n, ActorMessage(0));
    assert m.streams[0].out == [Deliver(1, NEWS)];
  }

  /** So a STREAM CANCEL of another stream can make the server deliver to a freed client context. */
  lemma CancelOfAnotherStreamIsUnsafe(rex: Matcher)
    requires rex("", "")
    ensures Exec(rex, INITIAL, READ_A + (CANCEL_B + (LEAVE + (PUBLISH_A + DELIVER_A)))) == UseAfterFree
  {
    Reading(rex);
    Cancelling(rex);
    Leaving(rex);
    Publishing(rex);
    Delivering(rex);
    ExecSplit(rex, AFTER_LEAVE, PUBLISH_A, DELIVER_A);
    ExecSplit(rex, AFTER_CANCEL, LEAVE, PUBLISH_A + DELIVER_A);
    ExecSplit(rex, AFTER_READ, CANCEL_B, LEAVE + (PUBLISH_A + DELIVER_A));
    ExecSplit(rex, INITIAL, READ_A, CANCEL_B + (LEAVE + (PUBLISH_A + DELIVER_A)));
  }

  lemma {:induction false} ExecSplit(rex: Matcher, net: Net, xs: seq<Step>, ys: seq<Step>)
    requires Shape(net) && Exec(rex, net, xs).Reached?
    ensures Shape(Exec(rex, net, xs).net)
    ensures Exec(rex, net, xs + ys) == Exec(rex, Exec(rex, net, xs).net, ys)
    decreases |xs|
  {
    if xs == [] {
      assert xs + ys == ys;
    } else {
      assert (xs + ys)[1..] == xs[1..] + ys;
      ExecSplit(rex, Next(rex, net, xs[0]), xs[1..], ys);
    }
  }

  lemma Alone<T>(x: T)
    ensures [] + [x] == [x]
  {
  }
}
