/** The protocol's messages and their wire form (src/mlm_proto.c): what is sent, and what receiving makes of a frame. */
module Proto {
  import opened Options

  // The bound of every type below is the width of the C type.
  type Octet = n: nat | n < 0x100
  type Number2 = n: nat | n < 0x1_0000
  type Number4 = n: nat | n < 0x1_0000_0000

  /** What a 256-byte field holds up to its terminating NUL. */
  type Text = s: seq<Octet> | |s| <= 255 && 0 !in s witness []

  /** Message content: NULL, or a list of frames. */
  datatype Content = Null | Frames(frames: seq<seq<Octet>>)

  datatype Fields = Fields(address: Text, stream: Text, pattern: Text, subject: Text, sender: Text, tracker: Text,
                           timeout: Number4, statusCode: Number2, statusReason: Text, amount: Number2)

  datatype Message = Message(routingId: Option<seq<Octet>>, id: int, fields: Fields, content: Content)

  const CONNECTION_OPEN := 1
  const CONNECTION_PING := 2
  const CONNECTION_PONG := 3
  const CONNECTION_CLOSE := 4
  const STREAM_WRITE := 5
  const STREAM_READ := 6
  const STREAM_SEND := 7
  const STREAM_DELIVER := 8
  const MAILBOX_SEND := 9
  const MAILBOX_DELIVER := 10
  const SERVICE_SEND := 11
  const SERVICE_OFFER := 12
  const SERVICE_DELIVER := 13
  const OK := 14
  const ERROR := 15
  const CREDIT := 16
  const CONFIRM := 17
  const STREAM_CANCEL := 18

  predicate Known(id: int) {
    CONNECTION_OPEN <= id <= STREAM_CANCEL
  }

  predicate HasContent(id: int) {
    || id == STREAM_SEND || id == STREAM_DELIVER || id == MAILBOX_SEND || id == MAILBOX_DELIVER
    || id == SERVICE_SEND || id == SERVICE_DELIVER
  }

  // ---------------------------------------------------------------------------------------------
  // The layout of each message kind

  datatype Item = Protocol | Version | Address | Stream | Pattern | Subject | Sender | Tracker | StatusReason
                | Timeout | StatusCode | Amount

  datatype Layout = Done | Then(item: Item, rest: Layout)

  function LayoutOf(id: int): Layout {
    if id == CONNECTION_OPEN then Then(Protocol, Then(Version, Then(Address, Done)))
    else if id == STREAM_WRITE || id == STREAM_CANCEL then Then(Stream, Done)
    else if id == STREAM_READ then Then(Stream, Then(Pattern, Done))
    else if id == STREAM_SEND then Then(Subject, Done)
    else if id == STREAM_DELIVER then Then(Address, Then(Sender, Then(Subject, Done)))
    else if id == MAILBOX_SEND || id == SERVICE_SEND then
      Then(Address, Then(Subject, Then(Tracker, Then(Timeout, Done))))
    else if id == MAILBOX_DELIVER || id == SERVICE_DELIVER then
      Then(Sender, Then(Address, Then(Subject, Then(Tracker, Done))))
    else if id == SERVICE_OFFER then Then(Address, Then(Pattern, Done))
    else if id == OK || id == ERROR then Then(StatusCode, Then(StatusReason, Done))
    else if id == CREDIT then Then(Amount, Done)
    else if id == CONFIRM then Then(Tracker, Then(StatusCode, Then(StatusReason, Done)))
    else Done
  }

  /** The eight octets of "MALAMUTE". */
  const MALAMUTE: Text := [77, 65, 76, 65, 77, 85, 84, 69]
  const SIGNATURE: Number2 := 0xAAA8

  predicate IsText(it: Item) {
    it.Protocol? || it.Address? || it.Stream? || it.Pattern? || it.Subject? || it.Sender? || it.Tracker? || it.StatusReason?
  }

  function TextOf(it: Item, f: Fields): Text
    requires IsText(it)
  {
    match it
    case Protocol => MALAMUTE
    case Address => f.address
    case Stream => f.stream
    case Pattern => f.pattern
    case Subject => f.subject
    case Sender => f.sender
    case Tracker => f.tracker
    case StatusReason => f.statusReason
  }

  /** The value of a 2-byte item. */
  function NumberOf(it: Item, f: Fields): Number2
    requires it.Version? || it.StatusCode? || it.Amount?
  {
    match it
    case Version => 1
    case StatusCode => f.statusCode
    case Amount => f.amount
  }

  function WithText(it: Item, f: Fields, s: Text): Fields
    requires IsText(it)
  {
    match it
    case Protocol => f
    case Address => f.(address := s)
    case Stream => f.(stream := s)
    case Pattern => f.(pattern := s)
    case Subject => f.(subject := s)
    case Sender => f.(sender := s)
    case Tracker => f.(tracker := s)
    case StatusReason => f.(statusReason := s)
  }

  function WithNumber(it: Item, f: Fields, n: Number2): Fields
    requires it.Version? || it.StatusCode? || it.Amount?
  {
    match it
    case Version => f
    case StatusCode => f.(statusCode := n)
    case Amount => f.(amount := n)
  }

  // ---------------------------------------------------------------------------------------------
  // Writing

  function Octets2(n: Number2): seq<Octet> {
    [n / 0x100, n % 0x100]
  }

  function Octets4(n: Number4): seq<Octet> {
    Octets2(n / 0x1_0000) + Octets2(n % 0x1_0000)
  }

  function EncodeItem(it: Item, f: Fields): seq<Octet> {
    if IsText(it) then [|TextOf(it, f)|] + TextOf(it, f)
    else if it.Timeout? then Octets4(f.timeout)
    else Octets2(NumberOf(it, f))
  }

  function EncodeAll(l: Layout, f: Fields): seq<Octet> {
    if l.Done? then [] else EncodeItem(l.item, f) + EncodeAll(l.rest, f)
  }

  function Header(id: int): seq<Octet> {
    Octets2(SIGNATURE) + [id % 0x100]
  }

  function Encode(id: int, f: Fields): seq<Octet> {
    Header(id) + EncodeAll(LayoutOf(id), f)
  }

  /** One part of a message on the socket, and whether more parts of it follow. */
  datatype Part = Part(data: seq<Octet>, more: bool)

  /** Every part but the last says that more follow. */
  function Flagged(frames: seq<seq<Octet>>): seq<Part> {
    if frames == [] then [] else [Part(frames[0], |frames| > 1)] + Flagged(frames[1..])
  }

  /** The frames that follow the first: a missing content is sent as one empty frame. */
  function ContentFrames(m: Message): seq<seq<Octet>> {
    if !HasContent(m.id) then []
    else if m.content.Null? then [[]]
    else m.content.frames
  }

  /** A router socket is told the routing id first. */
  function Sent(m: Message, router: bool): seq<Part> {
    (if router && m.routingId.Some? then [Part(m.routingId.value, true)] else [])
    + Flagged([Encode(m.id, m.fields)] + ContentFrames(m))
  }

  // ---------------------------------------------------------------------------------------------
  // Reading

  /** How far reading an item or a layout got: complete, past the end of the frame, or a wrong constant. */
  datatype Parse = Success(f: Fields, pos: nat) | Short(f: Fields, pos: nat) | Refused(f: Fields, pos: nat)

  /** A C string ends at its first NUL. */
  function UpToNul(s: seq<Octet>): (t: Text)
    requires |s| <= 255
    ensures |t| <= |s| && t == s[..|t|]
    ensures |t| == |s| <==> 0 !in s
  {
    if s == [] || s[0] == 0 then [] else [s[0]] + UpToNul(s[1..])
  }

  function Value2(b: seq<Octet>, pos: nat): Number2
    requires pos + 2 <= |b|
  {
    var hi: int, lo: int := b[pos], b[pos + 1];
    hi * 0x100 + lo
  }

  function Value4(b: seq<Octet>, pos: nat): Number4
    requires pos + 4 <= |b|
  {
    var hi: int, lo: int := Value2(b, pos), Value2(b, pos + 2);
    hi * 0x1_0000 + lo
  }

  function ParseText(it: Item, f: Fields, b: seq<Octet>, pos: nat): Parse
    requires pos <= |b| && IsText(it)
  {
    if pos + 1 > |b| then Short(f, pos)
    else if pos + 1 + b[pos] > |b| then Short(f, pos + 1)
    else
      var s := UpToNul(b[pos + 1..pos + 1 + b[pos]]);
      if it.Protocol? && s != MALAMUTE then Refused(f, pos + 1 + b[pos])
      else Success(WithText(it, f, s), pos + 1 + b[pos])
  }

  function ParseItem(it: Item, f: Fields, b: seq<Octet>, pos: nat): (p: Parse)
    requires pos <= |b|
    ensures pos <= p.pos <= |b|
  {
    if IsText(it) then ParseText(it, f, b, pos)
    else if it.Timeout? then
      if pos + 4 > |b| then Short(f, pos) else Success(f.(timeout := Value4(b, pos)), pos + 4)
    else if pos + 2 > |b| then Short(f, pos)
    else if it.Version? && Value2(b, pos) != 1 then Refused(f, pos + 2)
    else Success(WithNumber(it, f, Value2(b, pos)), pos + 2)
  }

  /** The read pointer never passes the ceiling, whatever the frame holds. */
  function ParseAll(l: Layout, f: Fields, b: seq<Octet>, pos: nat): (p: Parse)
    requires pos <= |b|
    ensures pos <= p.pos <= |b|
    decreases l
  {
    if l.Done? then Success(f, pos)
    else
      var p := ParseItem(l.item, f, b, pos);
      if p.Success? then ParseAll(l.rest, p.f, b, p.pos) else p
  }

  /** The result of a receive: its return code, whether it got to the successful return, and the parts left unread. */
  datatype Receipt = Receipt(rc: int, complete: bool, m: Message, left: seq<seq<Octet>>)

  /** Reading the fields of a message whose id is known, and the content frames after the data frame. */
  function ReadBody(m: Message, b: seq<Octet>, rest: seq<seq<Octet>>): Receipt
    requires |b| >= 3
  {
    var p := ParseAll(LayoutOf(m.id), m.fields, b, 3);
    var n := m.(fields := p.f);
    if p.Short? then Receipt(0, false, n, rest)
    else if p.Refused? then Receipt(-2, false, n, rest)
    else if HasContent(m.id) then Receipt(0, true, n.(content := Frames(rest)), [])
    else Receipt(0, true, n, rest)
  }

  /** Reading the data frame b, with the frames that follow it. */
  function ReadFrame(m: Message, b: seq<Octet>, rest: seq<seq<Octet>>): Receipt {
    if |b| < 2 then Receipt(0, false, m, rest)
    else if Value2(b, 0) != SIGNATURE then Receipt(-2, false, m, rest)
    else if |b| < 3 then Receipt(0, false, m, rest)
    else if !Known(b[2]) then Receipt(-2, false, m.(id := b[2]), rest)
    else ReadBody(m.(id := b[2]), b, rest)
  }

  /** Receiving the parts of one message; a router socket gives the routing id first. No part at all stands for a
      receive that was interrupted: the old routing id is gone by then. */
  function Received(m: Message, router: bool, parts: seq<seq<Octet>>): Receipt {
    if parts == [] then Receipt(-1, false, if router then m.(routingId := None) else m, [])
    else if !router then ReadFrame(m, parts[0], parts[1..])
    else
      var n := m.(routingId := Some(parts[0]));
      if |parts| == 1 then Receipt(-1, false, n, []) else ReadFrame(n, parts[1], parts[2..])
  }
}
