/** The textual form as the source writes and reads it, kind by kind (src/mlm_proto.c:264-973 and 1592-1990): the two
    switches spell out their items separately, and each is proved against the layouts. */
module ProtoTrees {
  import opened Options
  import opened Proto
  import opened ProtoDigits
  import opened ProtoText
  import opened Protos

  // ---------------------------------------------------------------------------------------------
  // Export

  /** "1", the version as the source prints it. */
  const ONE: CString := [49]

  method PutConnectionOpen(self: MlmProto) returns (c: map<string, CString>)
    requires self.id == CONNECTION_OPEN
    ensures c == ExportAll(LayoutOf(self.id), self.Values(), map[])
  {
    c := map[];
    c := c["protocol" := PROTOCOL_TEXT];
    c := c["version" := ONE];
    c := c["address" := self.address];
  }

  method PutStreamName(self: MlmProto) returns (c: map<string, CString>)
    requires self.id == STREAM_WRITE || self.id == STREAM_CANCEL
    ensures c == ExportAll(LayoutOf(self.id), self.Values(), map[])
  {
    c := map[];
    c := c["stream" := self.stream];
  }

  method PutStreamRead(self: MlmProto) returns (c: map<string, CString>)
    requires self.id == STREAM_READ
    ensures c == ExportAll(LayoutOf(self.id), self.Values(), map[])
  {
    c := map[];
    c := c["stream" := self.stream];
    c := c["pattern" := self.pattern];
  }

  method PutStreamSend(self: MlmProto) returns (c: map<string, CString>)
    requires self.id == STREAM_SEND
    ensures c == ExportAll(LayoutOf(self.id), self.Values(), map[])
  {
    c := map[];
    c := c["subject" := self.subject];
  }

  method PutStreamDeliver(self: MlmProto) returns (c: map<string, CString>)
    requires self.id == STREAM_DELIVER
    ensures c == ExportAll(LayoutOf(self.id), self.Values(), map[])
  {
    c := map[];
    c := c["address" := self.address];
    c := c["sender" := self.sender];
    c := c["subject" := self.subject];
  }

  method PutSend(self: MlmProto) returns (c: map<string, CString>)
    requires self.id == MAILBOX_SEND || self.id == SERVICE_SEND
    ensures c == ExportAll(LayoutOf(self.id), self.Values(), map[])
  {
    c := map[];
    c := c["address" := self.address];
    c := c["subject" := self.subject];
    c := c["tracker" := self.tracker];
    c := c["timeout" := Print(self.timeout)];
  }

  method PutDeliver(self: MlmProto) returns (c: map<string, CString>)
    requires self.id == MAILBOX_DELIVER || self.id == SERVICE_DELIVER
    ensures c == ExportAll(LayoutOf(self.id), self.Values(), map[])
  {
    c := map[];
    c := c["sender" := self.sender];
    c := c["address" := self.address];
    c := c["subject" := self.subject];
    c := c["tracker" := self.tracker];
  }

  method PutServiceOffer(self: MlmProto) returns (c: map<string, CString>)
    requires self.id == SERVICE_OFFER
    ensures c == ExportAll(LayoutOf(self.id), self.Values(), map[])
  {
    c := map[];
    c := c["address" := self.address];
    c := c["pattern" := self.pattern];
  }

  method PutStatus(self: MlmProto) returns (c: map<string, CString>)
    requires self.id == OK || self.id == ERROR
    ensures c == ExportAll(LayoutOf(self.id), self.Values(), map[])
  {
    c := map[];
    c := c["status_code" := Print(self.statusCode)];
    c := c["status_reason" := self.statusReason];
  }

  method PutCredit(self: MlmProto) returns (c: map<string, CString>)
    requires self.id == CREDIT
    ensures c == ExportAll(LayoutOf(self.id), self.Values(), map[])
  {
    c := map[];
    c := c["amount" := Print(self.amount)];
  }

  method PutConfirm(self: MlmProto) returns (c: map<string, CString>)
    requires self.id == CONFIRM
    ensures c == ExportAll(LayoutOf(self.id), self.Values(), map[])
  {
    c := map[];
    c := c["tracker" := self.tracker];
    c := c["status_code" := Print(self.statusCode)];
    c := c["status_reason" := self.statusReason];
  }

  /** The section of a kind that has one, with the content as hexadecimal text where the kind carries it. */
  method PutSection(self: MlmProto, encode: Content -> seq<Octet>) returns (section: Option<map<string, CString>>)
    ensures section == ExportSection(self.View(), encode)
  {
    var c: map<string, CString>;
    if self.id == CONNECTION_OPEN {
      c := PutConnectionOpen(self);
    } else if self.id == STREAM_WRITE || self.id == STREAM_CANCEL {
      c := PutStreamName(self);
    } else if self.id == STREAM_READ {
      c := PutStreamRead(self);
    } else if self.id == STREAM_SEND {
      c := PutStreamSend(self);
    } else if self.id == STREAM_DELIVER {
      c := PutStreamDeliver(self);
    } else if self.id == MAILBOX_SEND || self.id == SERVICE_SEND {
      c := PutSend(self);
    } else if self.id == MAILBOX_DELIVER || self.id == SERVICE_DELIVER {
      c := PutDeliver(self);
    } else if self.id == SERVICE_OFFER {
      c := PutServiceOffer(self);
    } else if self.id == OK || self.id == ERROR {
      c := PutStatus(self);
    } else if self.id == CREDIT {
      c := PutCredit(self);
    } else if self.id == CONFIRM {
      c := PutConfirm(self);
    } else {
      return None;
    }
    if HasContent(self.id) {
      var hex := StrFromBytes(encode(self.content));
      c := c["content" := hex];
    }
    section := Some(c);
  }

  method NameOfKind(id: int) returns (name: string)
    requires Known(id)
    ensures name == NAMES[id - 1]
  {
    if id == CONNECTION_OPEN {
      name := "MLM_PROTO_CONNECTION_OPEN";
    } else if id == CONNECTION_PING {
      name := "MLM_PROTO_CONNECTION_PING";
    } else if id == CONNECTION_PONG {
      name := "MLM_PROTO_CONNECTION_PONG";
    } else if id == CONNECTION_CLOSE {
      name := "MLM_PROTO_CONNECTION_CLOSE";
    } else if id == STREAM_WRITE {
      name := "MLM_PROTO_STREAM_WRITE";
    } else if id == STREAM_READ {
      name := "MLM_PROTO_STREAM_READ";
    } else if id == STREAM_SEND {
      name := "MLM_PROTO_STREAM_SEND";
    } else if id == STREAM_DELIVER {
      name := "MLM_PROTO_STREAM_DELIVER";
    } else if id == MAILBOX_SEND {
      name := "MLM_PROTO_MAILBOX_SEND";
    } else if id == MAILBOX_DELIVER {
      name := "MLM_PROTO_MAILBOX_DELIVER";
    } else if id == SERVICE_SEND {
      name := "MLM_PROTO_SERVICE_SEND";
    } else if id == SERVICE_OFFER {
      name := "MLM_PROTO_SERVICE_OFFER";
    } else if id == SERVICE_DELIVER {
      name := "MLM_PROTO_SERVICE_DELIVER";
    } else if id == OK {
      name := "MLM_PROTO_OK";
    } else if id == ERROR {
      name := "MLM_PROTO_ERROR";
    } else if id == CREDIT {
      name := "MLM_PROTO_CREDIT";
    } else if id == CONFIRM {
      name := "MLM_PROTO_CONFIRM";
    } else {
      name := "MLM_PROTO_STREAM_CANCEL";
    }
  }

  /** mlm_proto_zpl. */
  method Zpl(self: MlmProto, encode: Content -> seq<Octet>) returns (root: Config)
    ensures root == Export(self.View(), encode)
  {
    if !Known(self.id) {
      return Config(None, None, None);
    }
    var name := NameOfKind(self.id);
    var routingId: Option<CString> := None;
    if self.routingId.Some? {
      var hex := StrFromBytes(self.routingId.value);
      routingId := Some(hex);
    }
    var section := PutSection(self, encode);
    root := Config(Some(name), routingId, section);
  }

  // ---------------------------------------------------------------------------------------------
  // Import

  /** How the import of an item or a kind went; after anything but Taken the message is given up. */
  datatype Got = Taken | Absent | Overlong

  predicate Follows(r: Filled, g: Got, f: Fields) {
    match r
    case Filled(x) => g == Taken && f == x
    case Missing => g == Absent
    case Unterminated => g == Overlong
  }

  method TakeAddress(self: MlmProto, c: map<string, CString>) returns (g: Got)
    modifies self`address
    ensures Follows(ImportItem(Address, old(self.Values()), c), g, self.Values())
  {
    if "address" !in c {
      return Absent;
    }
    if |c["address"]| > 255 {
      return Overlong;
    }
    self.address := c["address"];
    g := Taken;
  }

  method TakeStream(self: MlmProto, c: map<string, CString>) returns (g: Got)
    modifies self`stream
    ensures Follows(ImportItem(Stream, old(self.Values()), c), g, self.Values())
  {
    if "stream" !in c {
      return Absent;
    }
    if |c["stream"]| > 255 {
      return Overlong;
    }
    self.stream := c["stream"];
    g := Taken;
  }

  method TakePattern(self: MlmProto, c: map<string, CString>) returns (g: Got)
    modifies self`pattern
    ensures Follows(ImportItem(Pattern, old(self.Values()), c), g, self.Values())
  {
    if "pattern" !in c {
      return Absent;
    }
    if |c["pattern"]| > 255 {
      return Overlong;
    }
    self.pattern := c["pattern"];
    g := Taken;
  }

  method TakeSubject(self: MlmProto, c: map<string, CString>) returns (g: Got)
    modifies self`subject
    ensures Follows(ImportItem(Subject, old(self.Values()), c), g, self.Values())
  {
    if "subject" !in c {
      return Absent;
    }
    if |c["subject"]| > 255 {
      return Overlong;
    }
    self.subject := c["subject"];
    g := Taken;
  }

  method TakeSender(self: MlmProto, c: map<string, CString>) returns (g: Got)
    modifies self`sender
    ensures Follows(ImportItem(Sender, old(self.Values()), c), g, self.Values())
  {
    if "sender" !in c {
      return Absent;
    }
    if |c["sender"]| > 255 {
      return Overlong;
    }
    self.sender := c["sender"];
    g := Taken;
  }

  method TakeTracker(self: MlmProto, c: map<string, CString>) returns (g: Got)
    modifies self`tracker
    ensures Follows(ImportItem(Tracker, old(self.Values()), c), g, self.Values())
  {
    if "tracker" !in c {
      return Absent;
    }
    if |c["tracker"]| > 255 {
      return Overlong;
    }
    self.tracker := c["tracker"];
    g := Taken;
  }

  method TakeStatusReason(self: MlmProto, c: map<string, CString>) returns (g: Got)
    modifies self`statusReason
    ensures Follows(ImportItem(StatusReason, old(self.Values()), c), g, self.Values())
  {
    if "status_reason" !in c {
      return Absent;
    }
    if |c["status_reason"]| > 255 {
      return Overlong;
    }
    self.statusReason := c["status_reason"];
    g := Taken;
  }

  method TakeTimeout(self: MlmProto, c: map<string, CString>) returns (g: Got)
    modifies self`timeout
    ensures Follows(ImportItem(Timeout, old(self.Values()), c), g, self.Values())
  {
    hide Strtoll;
    if "timeout" !in c {
      return Absent;
    }
    var s := c["timeout"];
    var (uvalue, es) := Strtoll(s);
    if es != |s| {
      return Absent;
    }
    self.timeout := uvalue % 0x1_0000_0000;
    g := Taken;
  }

  method TakeStatusCode(self: MlmProto, c: map<string, CString>) returns (g: Got)
    modifies self`statusCode
    ensures Follows(ImportItem(StatusCode, old(self.Values()), c), g, self.Values())
  {
    hide Strtoll;
    if "status_code" !in c {
      return Absent;
    }
    var s := c["status_code"];
    var (uvalue, es) := Strtoll(s);
    if es != |s| {
      return Absent;
    }
    self.statusCode := uvalue % 0x1_0000;
    g := Taken;
  }

  method TakeAmount(self: MlmProto, c: map<string, CString>) returns (g: Got)
    modifies self`amount
    ensures Follows(ImportItem(Amount, old(self.Values()), c), g, self.Values())
  {
    hide Strtoll;
    if "amount" !in c {
      return Absent;
    }
    var s := c["amount"];
    var (uvalue, es) := Strtoll(s);
    if es != |s| {
      return Absent;
    }
    self.amount := uvalue % 0x1_0000;
    g := Taken;
  }

  method TakeConnectionOpenFields(self: MlmProto, c: map<string, CString>) returns (g: Got)
    requires self.id == CONNECTION_OPEN
    modifies self`address
    ensures Follows(ImportAll(LayoutOf(self.id), old(self.Values()), c), g, self.Values())
  {
    hide ImportItem;
    ghost var l := LayoutOf(self.id);
    SkippedItem(l, self.Values(), c);
    SkippedItem(l.rest, self.Values(), c);
    ImportFirst(l.rest.rest, self.Values(), c);
    g := TakeAddress(self, c);
  }

  method TakeStreamNameFields(self: MlmProto, c: map<string, CString>) returns (g: Got)
    requires self.id == STREAM_WRITE || self.id == STREAM_CANCEL
    modifies self`stream
    ensures Follows(ImportAll(LayoutOf(self.id), old(self.Values()), c), g, self.Values())
  {
    hide ImportItem;
    ghost var l := LayoutOf(self.id);
    ImportFirst(l, self.Values(), c);
    g := TakeStream(self, c);
  }

  method TakeStreamReadFields(self: MlmProto, c: map<string, CString>) returns (g: Got)
    requires self.id == STREAM_READ
    modifies self`stream, self`pattern
    ensures Follows(ImportAll(LayoutOf(self.id), old(self.Values()), c), g, self.Values())
  {
    hide ImportItem;
    ghost var l := LayoutOf(self.id);
    ImportFirst(l, self.Values(), c);
    g := TakeStream(self, c);
    if g != Taken {
      return;
    }
    ImportFirst(l.rest, self.Values(), c);
    g := TakePattern(self, c);
  }

  method TakeStreamSendFields(self: MlmProto, c: map<string, CString>) returns (g: Got)
    requires self.id == STREAM_SEND
    modifies self`subject
    ensures Follows(ImportAll(LayoutOf(self.id), old(self.Values()), c), g, self.Values())
  {
    hide ImportItem;
    ghost var l := LayoutOf(self.id);
    ImportFirst(l, self.Values(), c);
    g := TakeSubject(self, c);
  }

  method TakeStreamDeliverFields(self: MlmProto, c: map<string, CString>) returns (g: Got)
    requires self.id == STREAM_DELIVER
    modifies self`address, self`sender, self`subject
    ensures Follows(ImportAll(LayoutOf(self.id), old(self.Values()), c), g, self.Values())
  {
    hide ImportItem;
    ghost var l := LayoutOf(self.id);
    ImportFirst(l, self.Values(), c);
    g := TakeAddress(self, c);
    if g != Taken {
      return;
    }
    ImportFirst(l.rest, self.Values(), c);
    g := TakeSender(self, c);
    if g != Taken {
      return;
    }
    ImportFirst(l.rest.rest, self.Values(), c);
    g := TakeSubject(self, c);
  }

  method TakeSendFields(self: MlmProto, c: map<string, CString>) returns (g: Got)
    requires self.id == MAILBOX_SEND || self.id == SERVICE_SEND
    modifies self`address, self`subject, self`tracker, self`timeout
    ensures Follows(ImportAll(LayoutOf(self.id), old(self.Values()), c), g, self.Values())
  {
    hide ImportItem;
    ghost var l := LayoutOf(self.id);
    ImportFirst(l, self.Values(), c);
    g := TakeAddress(self, c);
    if g != Taken {
      return;
    }
    ImportFirst(l.rest, self.Values(), c);
    g := TakeSubject(self, c);
    if g != Taken {
      return;
    }
    ImportFirst(l.rest.rest, self.Values(), c);
    g := TakeTracker(self, c);
    if g != Taken {
      return;
    }
    ImportFirst(l.rest.rest.rest, self.Values(), c);
    g := TakeTimeout(self, c);
  }

  method TakeDeliverFields(self: MlmProto, c: map<string, CString>) returns (g: Got)
    requires self.id == MAILBOX_DELIVER || self.id == SERVICE_DELIVER
    modifies self`sender, self`address, self`subject, self`tracker
    ensures Follows(ImportAll(LayoutOf(self.id), old(self.Values()), c), g, self.Values())
  {
    hide ImportItem;
    ghost var l := LayoutOf(self.id);
    ImportFirst(l, self.Values(), c);
    g := TakeSender(self, c);
    if g != Taken {
      return;
    }
    ImportFirst(l.rest, self.Values(), c);
    g := TakeAddress(self, c);
    if g != Taken {
      return;
    }
    ImportFirst(l.rest.rest, self.Values(), c);
    g := TakeSubject(self, c);
    if g != Taken {
      return;
    }
    ImportFirst(l.rest.rest.rest, self.Values(), c);
    g := TakeTracker(self, c);
  }

  method TakeServiceOfferFields(self: MlmProto, c: map<string, CString>) returns (g: Got)
    requires self.id == SERVICE_OFFER
    modifies self`address, self`pattern
    ensures Follows(ImportAll(LayoutOf(self.id), old(self.Values()), c), g, self.Values())
  {
    hide ImportItem;
    ghost var l := LayoutOf(self.id);
    ImportFirst(l, self.Values(), c);
    g := TakeAddress(self, c);
    if g != Taken {
      return;
    }
    ImportFirst(l.rest, self.Values(), c);
    g := TakePattern(self, c);
  }

  method TakeStatusFields(self: MlmProto, c: map<string, CString>) returns (g: Got)
    requires self.id == OK || self.id == ERROR
    modifies self`statusCode, self`statusReason
    ensures Follows(ImportAll(LayoutOf(self.id), old(self.Values()), c), g, self.Values())
  {
    hide ImportItem;
    ghost var l := LayoutOf(self.id);
    ImportFirst(l, self.Values(), c);
    g := TakeStatusCode(self, c);
    if g != Taken {
      return;
    }
    ImportFirst(l.rest, self.Values(), c);
    g := TakeStatusReason(self, c);
  }

  method TakeCreditFields(self: MlmProto, c: map<string, CString>) returns (g: Got)
    requires self.id == CREDIT
    modifies self`amount
    ensures Follows(ImportAll(LayoutOf(self.id), old(self.Values()), c), g, self.Values())
  {
    hide ImportItem;
    ghost var l := LayoutOf(self.id);
    ImportFirst(l, self.Values(), c);
    g := TakeAmount(self, c);
  }

  method TakeConfirmFields(self: MlmProto, c: map<string, CString>) returns (g: Got)
    requires self.id == CONFIRM
    modifies self`tracker, self`statusCode, self`statusReason
    ensures Follows(ImportAll(LayoutOf(self.id), old(self.Values()), c), g, self.Values())
  {
    hide ImportItem;
    ghost var l := LayoutOf(self.id);
    ImportFirst(l, self.Values(), c);
    g := TakeTracker(self, c);
    if g != Taken {
      return;
    }
    ImportFirst(l.rest, self.Values(), c);
    g := TakeStatusCode(self, c);
    if g != Taken {
      return;
    }
    ImportFirst(l.rest.rest, self.Values(), c);
    g := TakeStatusReason(self, c);
  }

  lemma ImportFirst(l: Layout, f: Fields, c: map<string, CString>)
    requires l.Then?
    ensures var r := ImportItem(l.item, f, c); ImportAll(l, f, c) == if r.Filled? then ImportAll(l.rest, r.f, c) else r
  {
  }

  /** The protocol name and the version are written, and not looked at when read. */
  lemma SkippedItem(l: Layout, f: Fields, c: map<string, CString>)
    requires l.Then? && (l.item.Protocol? || l.item.Version?)
    ensures ImportAll(l, f, c) == ImportAll(l.rest, f, c)
  {
  }

  method TakeFields(self: MlmProto, c: map<string, CString>) returns (g: Got)
    modifies self`address, self`stream, self`pattern, self`subject, self`sender, self`tracker, self`timeout, self`statusCode, self`statusReason, self`amount
    ensures Follows(ImportAll(LayoutOf(self.id), old(self.Values()), c), g, self.Values())
  {
    g := Taken;
    if self.id == CONNECTION_OPEN {
      g := TakeConnectionOpenFields(self, c);
    } else if self.id == STREAM_WRITE || self.id == STREAM_CANCEL {
      g := TakeStreamNameFields(self, c);
    } else if self.id == STREAM_READ {
      g := TakeStreamReadFields(self, c);
    } else if self.id == STREAM_SEND {
      g := TakeStreamSendFields(self, c);
    } else if self.id == STREAM_DELIVER {
      g := TakeStreamDeliverFields(self, c);
    } else if self.id == MAILBOX_SEND || self.id == SERVICE_SEND {
      g := TakeSendFields(self, c);
    } else if self.id == MAILBOX_DELIVER || self.id == SERVICE_DELIVER {
      g := TakeDeliverFields(self, c);
    } else if self.id == SERVICE_OFFER {
      g := TakeServiceOfferFields(self, c);
    } else if self.id == OK || self.id == ERROR {
      g := TakeStatusFields(self, c);
    } else if self.id == CREDIT {
      g := TakeCreditFields(self, c);
    } else if self.id == CONFIRM {
      g := TakeConfirmFields(self, c);
    }
  }

  method KindOfName(name: string) returns (id: int)
    ensures id == IdOf(name, 0)
  {
    hide IdOf;
    id := 0;
    if name == "MLM_PROTO_CONNECTION_OPEN" {
      id := CONNECTION_OPEN;
    } else if name == "MLM_PROTO_CONNECTION_PING" {
      id := CONNECTION_PING;
    } else if name == "MLM_PROTO_CONNECTION_PONG" {
      id := CONNECTION_PONG;
    } else if name == "MLM_PROTO_CONNECTION_CLOSE" {
      id := CONNECTION_CLOSE;
    } else if name == "MLM_PROTO_STREAM_WRITE" {
      id := STREAM_WRITE;
    } else if name == "MLM_PROTO_STREAM_READ" {
      id := STREAM_READ;
    } else if name == "MLM_PROTO_STREAM_SEND" {
      id := STREAM_SEND;
    } else if name == "MLM_PROTO_STREAM_DELIVER" {
      id := STREAM_DELIVER;
    } else if name == "MLM_PROTO_MAILBOX_SEND" {
      id := MAILBOX_SEND;
    } else if name == "MLM_PROTO_MAILBOX_DELIVER" {
      id := MAILBOX_DELIVER;
    } else if name == "MLM_PROTO_SERVICE_SEND" {
      id := SERVICE_SEND;
    } else if name == "MLM_PROTO_SERVICE_OFFER" {
      id := SERVICE_OFFER;
    } else if name == "MLM_PROTO_SERVICE_DELIVER" {
      id := SERVICE_DELIVER;
    } else if name == "MLM_PROTO_OK" {
      id := OK;
    } else if name == "MLM_PROTO_ERROR" {
      id := ERROR;
    } else if name == "MLM_PROTO_CREDIT" {
      id := CREDIT;
    } else if name == "MLM_PROTO_CONFIRM" {
      id := CONFIRM;
    } else if name == "MLM_PROTO_STREAM_CANCEL" {
      id := STREAM_CANCEL;
    }
    if id != 0 {
      NameIsKnown(id);
    } else {
      UnknownName(name, 0);
    }
  }

  lemma {:induction false} UnknownName(name: string, n: nat)
    requires name !in NAMES
    ensures IdOf(name, n) == 0
    decreases |NAMES| - n
  {
    if n < |NAMES| {
      UnknownName(name, n + 1);
    }
  }

  /** The outcome of an import that gives up its message. */
  function Refusal(r: Imported): Option<Imported> {
    if r.Made? then None else Some(r)
  }

  /** The content of the kinds that carry one: its hexadecimal text is decoded. */
  method TakeContent(self: MlmProto, c: map<string, CString>, decode: seq<Octet> -> Content) returns (why: Option<Imported>)
    modifies self`content
    ensures why == Refusal(ImportContent(old(self.View()), c, decode))
    ensures why.None? ==> ImportContent(old(self.View()), c, decode) == Made(self.View())
  {
    if !HasContent(self.id) {
      return None;
    }
    if "content" !in c {
      return Some(NullReturn);
    }
    var bvalue := BytesFromStr(c["content"]);
    match bvalue {
      case Bytes(b) =>
        self.content := decode(b);
        why := None;
      case OddLength => why := Some(NullReturn);
      case Aborted => why := Some(Stopped);
      case Unset => why := Some(Open);
    }
  }

  /** The section of a kind that has one. */
  method TakeSection(self: MlmProto, section: Option<map<string, CString>>, decode: seq<Octet> -> Content)
    returns (why: Option<Imported>)
    modifies self
    ensures why == Refusal(ImportSection(old(self.View()), section, decode))
    ensures why.None? ==> ImportSection(old(self.View()), section, decode) == Made(self.View())
  {
    hide ImportAll, ImportContent;
    if self.id == CONNECTION_PING || self.id == CONNECTION_PONG || self.id == CONNECTION_CLOSE || !Known(self.id) {
      return None;
    }
    if section.None? {
      return Some(NullReturn);
    }
    var g := TakeFields(self, section.value);
    match g {
      case Taken => why := TakeContent(self, section.value, decode);
      case Absent => why := Some(NullReturn);
      case Overlong => why := Some(Open);
    }
  }

  /** mlm_proto_new_zpl: a new message, or why there is none. */
  method NewZpl(config: Config, decode: seq<Octet> -> Content) returns (self: MlmProto?, why: Option<Imported>)
    ensures why == Refusal(Import(config, decode)) && (self == null <==> why.Some?)
    ensures self != null ==> fresh(self) && Import(config, decode) == Made(self.View())
  {
    hide IdOf, Unhex, ImportSection;
    if config.message.None? {
      return null, Some(NullReturn);
    }
    var id := KindOfName(config.message.value);
    if id == 0 {
      return null, Some(NullReturn);
    }
    var made := new MlmProto();
    made.id := id;
    if config.routingId.Some? {
      var bvalue := BytesFromStr(config.routingId.value);
      match bvalue {
        case Bytes(b) => made.routingId := Some(b);
        case OddLength => return null, Some(NullReturn);
        case Aborted => return null, Some(Stopped);
        case Unset => return null, Some(Open);
      }
    }
    why := TakeSection(made, config.content, decode);
    self := if why.None? then made else null;
  }
}
