/** What a stream sends to each client, told from the operations on it alone (src/mlm_stream_simple.c:111-226). */
module StreamDeliveries {
  import opened Messages
  import opened Selectors
  import opened StreamNet
  import opened StreamOrder

  // ---------------------------------------------------------------------------------------------
  // Read off the list of operations

  function Initial<T>(s: seq<T>): seq<T>
    requires s != []
  {
    s[..|s| - 1]
  }

  function Last<T>(s: seq<T>): T
    requires s != []
  {
    s[|s| - 1]
  }

  /** The commands given to the actor. */
  function Asked(ops: seq<Op>): seq<Cmd> {
    if ops == [] then [] else if Last(ops).Ask? then Asked(Initial(ops)) + [Last(ops).cmd] else Asked(Initial(ops))
  }

  /** How many of them it has taken up. */
  function Done(ops: seq<Op>): (n: nat)
    ensures n <= |Asked(ops)|
  {
    if ops == [] then 0
    else Done(Initial(ops)) + if Last(ops).HandleCommand? && Done(Initial(ops)) < |Asked(Initial(ops))| then 1 else 0
  }

  function Handled(ops: seq<Op>): seq<Cmd> {
    Asked(ops)[..Done(ops)]
  }

  /** The publications sent to the stream. */
  function Published(ops: seq<Op>): seq<Pub> {
    if ops == [] then [] else if Last(ops).Send? then Published(Initial(ops)) + [Last(ops).pub] else Published(Initial(ops))
  }

  function Read(ops: seq<Op>): (n: nat)
    ensures n <= |Published(ops)|
  {
    if ops == [] then 0
    else Read(Initial(ops)) + if Last(ops).HandleMessage? && Read(Initial(ops)) < |Published(Initial(ops))| then 1 else 0
  }

  /** Some COMPILE of p for d is among the commands, and no CANCEL for d behind it. */
  predicate Live(cmds: seq<Cmd>, p: string, d: Ptr) {
    exists i :: 0 <= i < |cmds| && cmds[i] == Cmd.Compile(d, p) && NotCancelledAfter(cmds, i, d)
  }

  predicate NotCancelledAfter(cmds: seq<Cmd>, i: nat, d: Ptr) {
    forall j :: i < j < |cmds| ==> cmds[j] != Cmd.Cancel(d)
  }

  /** The patterns a client has asked for and not cancelled that match a subject. */
  ghost function Matching(rex: Matcher, cmds: seq<Cmd>, d: Ptr, subject: string): set<string> {
    set i | 0 <= i < |cmds| && cmds[i].Compile? && Live(cmds, cmds[i].pattern, d) && rex(cmds[i].pattern, subject) :: cmds[i].pattern
  }

  function Times<T>(x: T, n: nat): seq<T> {
    if n == 0 then [] else [x] + Times(x, n - 1)
  }

  /** What the last operation makes the actor send to d. */
  ghost function Due(rex: Matcher, ops: seq<Op>, last: Op, d: Ptr): seq<Out> {
    match last
    case HandleCommand => if Done(ops) < |Asked(ops)| && Asked(ops)[Done(ops)] == Cmd.Cancel(d) then [Ack(d)] else []
    case HandleMessage =>
      if Read(ops) < |Published(ops)| && Published(ops)[Read(ops)].sender != d then
        var m := Published(ops)[Read(ops)].msg;
        Times(Deliver(d, m), |Matching(rex, Handled(ops), d, m.subject)|)
      else []
    case _ => []
  }

  ghost function Expected(rex: Matcher, ops: seq<Op>, d: Ptr): seq<Out> {
    if ops == [] then [] else Expected(rex, Initial(ops), d) + Due(rex, Initial(ops), Last(ops), d)
  }

  function ForClient(out: seq<Out>, d: Ptr): seq<Out> {
    if out == [] then [] else (if out[0].client == d then [out[0]] else []) + ForClient(out[1..], d)
  }

  // ---------------------------------------------------------------------------------------------
  // The selectors are the patterns asked for and not cancelled

  lemma {:induction false} RunLast(rex: Matcher, h: History, ops: seq<Op>)
    requires ops != []
    ensures Run(rex, h, ops) == Advance(rex, Run(rex, h, Initial(ops)), Last(ops))
    decreases |ops|
  {
    hide Advance;
    if |ops| > 1 {
      assert Initial(ops)[1..] == Initial(ops[1..]);
      RunLast(rex, Advance(rex, h, ops[0]), ops[1..]);
    }
  }

  lemma LiveAfter(cmds: seq<Cmd>, cmd: Cmd, p: string, d: Ptr)
    ensures Live(cmds + [cmd], p, d) <==>
            if cmd == Cmd.Compile(d, p) then true else if cmd == Cmd.Cancel(d) then false else Live(cmds, p, d)
  {
    var r := cmds + [cmd];
    if cmd == Cmd.Compile(d, p) {
      assert r[|cmds|] == cmd && NotCancelledAfter(r, |cmds|, d);
    } else if Live(r, p, d) {
      var i :| 0 <= i < |r| && r[i] == Cmd.Compile(d, p) && NotCancelledAfter(r, i, d);
      assert r[|cmds|] == cmd;
      assert cmds[i] == r[i];
      forall j | i < j < |cmds| ensures cmds[j] != Cmd.Cancel(d) { assert r[j] == cmds[j]; }
      assert NotCancelledAfter(cmds, i, d);
    } else if cmd != Cmd.Cancel(d) && Live(cmds, p, d) {
      var i :| 0 <= i < |cmds| && cmds[i] == Cmd.Compile(d, p) && NotCancelledAfter(cmds, i, d);
      assert r[i] == cmds[i] && NotCancelledAfter(r, i, d);
    }
  }

  /** The selector lists stand for the live patterns. */
  ghost predicate Follows(sel: seq<Selector>, cmds: seq<Cmd>) {
    WellFormed(sel) && forall p, d :: Holds(sel, p, d) <==> Live(cmds, p, d)
  }

  lemma CommandFollows(st: Stream, cmds: seq<Cmd>)
    requires st.cmd != [] && Follows(st.selectors, cmds)
    ensures Follows(EngineCommand(st).selectors, cmds + [st.cmd[0]])
  {
    hide Live, Holds, WellFormed, Selectors.Compile, Selectors.Cancel;
    var cmd, sel := st.cmd[0], EngineCommand(st).selectors;
    match cmd {
      case Compile(c, p) => CompileAddsOnePair(st.selectors, c, p);
      case Cancel(c) => CancelRemovesClient(st.selectors, c);
    }
    forall p, d ensures Holds(sel, p, d) <==> Live(cmds + [cmd], p, d) {
      LiveAfter(cmds, cmd, p, d);
    }
  }

  /** The pipes are what was given and not taken up, and the selectors what was handled asks for. */
  ghost predicate Stands(st: Stream, ops: seq<Op>) {
    && st.cmd == Asked(ops)[Done(ops)..] && st.pub == Published(ops)[Read(ops)..]
    && Follows(st.selectors, Handled(ops))
  }

  lemma NothingFollows()
    ensures Follows([], [])
  {
  }

  lemma AskStands(h: History, ops: seq<Op>)
    requires ops != [] && Last(ops).Ask? && Stands(h.st, Initial(ops))
    ensures Stands(h.st.(cmd := h.st.cmd + [Last(ops).cmd]), ops)
  {
    hide Follows;
    var b := Initial(ops);
    assert Asked(ops)[..Done(ops)] == Asked(b)[..Done(b)];
    assert Asked(ops)[Done(ops)..] == Asked(b)[Done(b)..] + [Last(ops).cmd];
  }

  lemma SendStands(h: History, ops: seq<Op>)
    requires ops != [] && Last(ops).Send? && Stands(h.st, Initial(ops))
    ensures Stands(h.st.(pub := h.st.pub + [Last(ops).pub]), ops)
  {
    hide Follows;
    var b := Initial(ops);
    assert Published(ops)[Read(ops)..] == Published(b)[Read(b)..] + [Last(ops).pub];
  }

  lemma CommandStands(h: History, ops: seq<Op>)
    requires ops != [] && Last(ops).HandleCommand? && Stands(h.st, Initial(ops))
    ensures h.st.cmd != [] <==> Done(Initial(ops)) < |Asked(Initial(ops))|
    ensures h.st.cmd != [] ==> h.st.cmd[0] == Asked(Initial(ops))[Done(Initial(ops))]
    ensures Stands(if h.st.cmd == [] then h.st else EngineCommand(h.st), ops)
  {
    hide Follows, Selectors.Compile, Selectors.Cancel;
    var b := Initial(ops);
    if h.st.cmd != [] {
      assert h.st.cmd[0] == Asked(b)[Done(b)];
      CommandFollows(h.st, Handled(b));
      assert Asked(b)[..Done(b) + 1] == Asked(b)[..Done(b)] + [Asked(b)[Done(b)]];
      assert Asked(b)[Done(b)..][1..] == Asked(b)[Done(b) + 1..];
    }
  }

  lemma MessageStands(rex: Matcher, h: History, ops: seq<Op>)
    requires ops != [] && Last(ops).HandleMessage? && Stands(h.st, Initial(ops))
    ensures h.st.pub != [] <==> Read(Initial(ops)) < |Published(Initial(ops))|
    ensures h.st.pub != [] ==> h.st.pub[0] == Published(Initial(ops))[Read(Initial(ops))]
    ensures Stands(if h.st.pub == [] then h.st else EngineMessage(rex, h.st), ops)
  {
    hide Follows, Copies;
    var b := Initial(ops);
    if h.st.pub != [] {
      assert Published(b)[Read(b)..][1..] == Published(b)[Read(b) + 1..];
    }
  }

  lemma AdvanceStands(rex: Matcher, h: History, ops: seq<Op>)
    requires ops != [] && Stands(h.st, Initial(ops))
    ensures Stands(Advance(rex, h, Last(ops)).st, ops)
  {
    hide EngineCommand, EngineMessage, Copies;
    match Last(ops)
    case Ask(cmd) => hide Stands; AskStands(h, ops);
    case Send(pub) => hide Stands; SendStands(h, ops);
    case HandleCommand => hide Stands; CommandStands(h, ops);
    case HandleMessage => hide Stands; MessageStands(rex, h, ops);
    case Take => hide Follows;
  }

  /** Over any run of a new stream: a client stands under a pattern exactly when, among the commands handled, some
      COMPILE of that pattern for it has no CANCEL for it behind it. */
  lemma {:induction false} SelectorsFollowCommands(rex: Matcher, ops: seq<Op>)
    ensures Stands(Run(rex, NOTHING_YET, ops).st, ops)
  {
    hide Follows, Advance;
    if ops == [] {
      NothingFollows();
    } else {
      SelectorsFollowCommands(rex, Initial(ops));
      RunLast(rex, NOTHING_YET, ops);
      AdvanceStands(rex, Run(rex, NOTHING_YET, Initial(ops)), ops);
    }
  }

  // ---------------------------------------------------------------------------------------------
  // What is sent

  ghost function Standing(rex: Matcher, sel: seq<Selector>, d: Ptr, subject: string): set<string> {
    set i | 0 <= i < |sel| && d in sel[i].clients && rex(sel[i].pattern, subject) :: sel[i].pattern
  }

  lemma {:induction false} PairsAreStanding(rex: Matcher, sel: seq<Selector>, subject: string, d: Ptr)
    requires WellFormed(sel)
    ensures MatchingPairs(rex, sel, subject, d) == |Standing(rex, sel, d, subject)|
  {
    if sel == [] {
      assert Standing(rex, sel, d, subject) == {};
    } else {
      var p, rest := sel[0].pattern, Standing(rex, sel[1..], d, subject);
      PairsAreStanding(rex, sel[1..], subject, d);
      var here := d in sel[0].clients && rex(p, subject);
      StandingFirst(rex, sel, d, subject);
      assert p !in rest;
    }
  }

  lemma StandingFirst(rex: Matcher, sel: seq<Selector>, d: Ptr, subject: string)
    requires sel != []
    ensures Standing(rex, sel, d, subject) ==
            (if d in sel[0].clients && rex(sel[0].pattern, subject) then {sel[0].pattern} else {}) + Standing(rex, sel[1..], d, subject)
  {
    var rest := sel[1..];
    forall p ensures p in Standing(rex, sel, d, subject) <==>
              (d in sel[0].clients && rex(sel[0].pattern, subject) && p == sel[0].pattern) || p in Standing(rex, rest, d, subject) {
      if p in Standing(rex, rest, d, subject) {
        var i :| 0 <= i < |rest| && d in rest[i].clients && rex(rest[i].pattern, subject) && rest[i].pattern == p;
        assert sel[i + 1] == rest[i];
      }
      if p in Standing(rex, sel, d, subject) {
        var i :| 0 <= i < |sel| && d in sel[i].clients && rex(sel[i].pattern, subject) && sel[i].pattern == p;
        if i > 0 {
          assert rest[i - 1] == sel[i];
        }
      }
    }
  }

  lemma StandingIsMatching(rex: Matcher, sel: seq<Selector>, cmds: seq<Cmd>, d: Ptr, subject: string)
    requires Follows(sel, cmds)
    ensures Standing(rex, sel, d, subject) == Matching(rex, cmds, d, subject)
  {
    hide WellFormed;
    forall p ensures p in Standing(rex, sel, d, subject) <==> p in Matching(rex, cmds, d, subject) {
      assert p in Standing(rex, sel, d, subject) <==> Holds(sel, p, d) && rex(p, subject);
      assert p in Matching(rex, cmds, d, subject) <==> Live(cmds, p, d) && rex(p, subject);
    }
  }

  lemma {:induction false} ForClientSplit(a: seq<Out>, b: seq<Out>, d: Ptr)
    ensures ForClient(a + b, d) == ForClient(a, d) + ForClient(b, d)
  {
    if a == [] {
      assert a + b == b;
    } else {
      assert (a + b)[1..] == a[1..] + b;
      ForClientSplit(a[1..], b, d);
    }
  }

  lemma {:induction false} OnlyCopies(out: seq<Out>, m: Message, d: Ptr)
    requires forall k :: 0 <= k < |out| ==> out[k].Deliver? && out[k].msg == m
    ensures ForClient(out, d) == Times(Deliver(d, m), CopiesTo(out, d))
  {
    if out != [] {
      OnlyCopies(out[1..], m, d);
    }
  }

  /** Handling a publication sends each client one copy per pattern it has asked for, not cancelled, and that matches. */
  lemma CopiesAreDue(rex: Matcher, sel: seq<Selector>, cmds: seq<Cmd>, sender: Ptr, m: Message, d: Ptr)
    requires Follows(sel, cmds)
    ensures ForClient(Copies(rex, sel, sender, m), d) ==
            if d == sender then [] else Times(Deliver(d, m), |Matching(rex, cmds, d, m.subject)|)
  {
    hide Copies, MatchingPairs, Standing, Matching, CopiesTo, Holds, Live;
    CopiesAreForSubscribers(rex, sel, sender, m);
    OnlyCopies(Copies(rex, sel, sender, m), m, d);
    OneCopyPerPair(rex, sel, sender, m, d);
    PairsAreStanding(rex, sel, m.subject, d);
    StandingIsMatching(rex, sel, cmds, d, m.subject);
  }

  /** What an operation adds to the record of what was sent. */
  lemma AdvanceIsDue(rex: Matcher, h: History, ops: seq<Op>, d: Ptr)
    requires ops != [] && Stands(h.st, Initial(ops))
    ensures ForClient(Advance(rex, h, Last(ops)).emitted, d) == ForClient(h.emitted, d) + Due(rex, Initial(ops), Last(ops), d)
  {
    hide Follows, Copies, Matching, EngineCommand, EngineMessage;
    var b := Initial(ops);
    match Last(ops)
    case Ask(cmd) =>
    case Send(pub) =>
    case HandleCommand =>
      CommandStands(h, ops);
      if h.st.cmd != [] {
        ForClientSplit(h.emitted, if h.st.cmd[0].Cancel? then [Ack(h.st.cmd[0].client)] else [], d);
      }
    case HandleMessage =>
      MessageStands(rex, h, ops);
      if h.st.pub != [] {
        var pub := h.st.pub[0];
        ForClientSplit(h.emitted, Copies(rex, h.st.selectors, pub.sender, pub.msg), d);
        CopiesAreDue(rex, h.st.selectors, Handled(b), pub.sender, pub.msg, d);
      }
    case Take =>
  }

  /** Over any run of a new stream, each client is sent exactly what the operations call for, in their order; what the
      server has not taken yet is the unread end of it. */
  lemma {:induction false} ClientsGetWhatTheyAskedFor(rex: Matcher, ops: seq<Op>, d: Ptr)
    ensures var h := Run(rex, NOTHING_YET, ops);
            && ForClient(h.emitted, d) == Expected(rex, ops, d)
            && h.taken <= |h.emitted| && h.st.out == h.emitted[h.taken..]
  {
    hide Advance, Stands, Due, InOrder;
    if ops != [] {
      ClientsGetWhatTheyAskedFor(rex, Initial(ops), d);
      SelectorsFollowCommands(rex, Initial(ops));
      RunLast(rex, NOTHING_YET, ops);
      AdvanceIsDue(rex, Run(rex, NOTHING_YET, Initial(ops)), ops, d);
    }
    EmittedThenTaken(rex, ops);
  }

  lemma EmittedThenTaken(rex: Matcher, ops: seq<Op>)
    ensures var h := Run(rex, NOTHING_YET, ops); h.taken <= |h.emitted| && h.st.out == h.emitted[h.taken..]
  {
    hide Run;
    NewStreamsKeepOrder(rex, ops);
  }
}
