/** The eighteen messages byte by byte, as include/mlm_proto.h:28-167 lists them, and their trees entry by entry. Kinds
    are given as numbers here, and nothing is taken from the layouts. */
module ProtoGrammars {
  import opened Options
  import opened Proto
  import opened ProtoCodec
  import opened ProtoDigits
  import opened ProtoText

  function Str(t: Text): seq<Octet> {
    [|t|] + t
  }

  function TwoOctets(n: Number2): seq<Octet> {
    [n / 0x100, n % 0x100]
  }

  function FourOctets(n: Number4): seq<Octet> {
    [n / 0x100_0000 % 0x100, n / 0x1_0000 % 0x100, n / 0x100 % 0x100, n % 0x100]
  }

  function Body(id: nat, f: Fields): seq<Octet> {
    if id == 1 then Str([77, 65, 76, 65, 77, 85, 84, 69]) + [0, 1] + Str(f.address)
    else if id == 5 then Str(f.stream)
    else if id == 6 then Str(f.stream) + Str(f.pattern)
    else if id == 7 then Str(f.subject)
    else if id == 8 then Str(f.address) + Str(f.sender) + Str(f.subject)
    else if id == 9 || id == 11 then Str(f.address) + Str(f.subject) + Str(f.tracker) + FourOctets(f.timeout)
    else if id == 10 || id == 13 then Str(f.sender) + Str(f.address) + Str(f.subject) + Str(f.tracker)
    else if id == 12 then Str(f.address) + Str(f.pattern)
    else if id == 14 || id == 15 then TwoOctets(f.statusCode) + Str(f.statusReason)
    else if id == 16 then TwoOctets(f.amount)
    else if id == 17 then Str(f.tracker) + TwoOctets(f.statusCode) + Str(f.statusReason)
    else if id == 18 then Str(f.stream)
    else []
  }

  function Wire(id: Octet, f: Fields): seq<Octet> {
    [0xAA, 0xA8, id] + Body(id, f)
  }

  predicate WithBody(id: int) {
    id in {7, 8, 9, 10, 11, 13}
  }

  // ---------------------------------------------------------------------------------------------
  // Sending

  lemma FirstItem(l: Layout, f: Fields)
    requires l.Then?
    ensures EncodeAll(l, f) == EncodeItem(l.item, f) + EncodeAll(l.rest, f)
    ensures EncodeAll(Done, f) == []
  {
  }

  lemma OneItem(a: Item, f: Fields)
    ensures EncodeAll(Then(a, Done), f) == EncodeItem(a, f)
  {
    FirstItem(Then(a, Done), f);
  }

  lemma TwoItems(a: Item, b: Item, f: Fields)
    ensures EncodeAll(Then(a, Then(b, Done)), f) == EncodeItem(a, f) + EncodeItem(b, f)
  {
    FirstItem(Then(a, Then(b, Done)), f);
    OneItem(b, f);
  }

  lemma ThreeItems(a: Item, b: Item, c: Item, f: Fields)
    ensures EncodeAll(Then(a, Then(b, Then(c, Done))), f) == EncodeItem(a, f) + EncodeItem(b, f) + EncodeItem(c, f)
  {
    hide EncodeItem;
    FirstItem(Then(a, Then(b, Then(c, Done))), f);
    TwoItems(b, c, f);
    assert EncodeItem(a, f) + (EncodeItem(b, f) + EncodeItem(c, f)) == EncodeItem(a, f) + EncodeItem(b, f) + EncodeItem(c, f);
  }

  lemma FourItems(a: Item, b: Item, c: Item, d: Item, f: Fields)
    ensures EncodeAll(Then(a, Then(b, Then(c, Then(d, Done)))), f) ==
            EncodeItem(a, f) + EncodeItem(b, f) + EncodeItem(c, f) + EncodeItem(d, f)
  {
    hide EncodeItem;
    var x, y, z, w := EncodeItem(a, f), EncodeItem(b, f), EncodeItem(c, f), EncodeItem(d, f);
    FirstItem(Then(a, Then(b, Then(c, Then(d, Done)))), f);
    ThreeItems(b, c, d, f);
    assert x + (y + z + w) == x + y + z + w;
  }

  lemma TextItem(it: Item, f: Fields)
    requires IsText(it)
    ensures EncodeItem(it, f) == Str(TextOf(it, f))
  {
  }

  lemma NumberItems(f: Fields)
    ensures EncodeItem(Version, f) == [0, 1] && EncodeItem(StatusCode, f) == TwoOctets(f.statusCode)
    ensures EncodeItem(Amount, f) == TwoOctets(f.amount) && EncodeItem(Timeout, f) == FourOctets(f.timeout)
  {
    Octets4ByByte(f.timeout);
  }

  lemma BodyIsEncoded(id: nat, f: Fields)
    requires 1 <= id <= 18
    ensures EncodeAll(LayoutOf(id), f) == Body(id, f)
  {
    hide EncodeItem, EncodeAll, Str, TwoOctets, FourOctets;
    NumberItems(f);
    if id == 1 { ThreeItems(Protocol, Version, Address, f); TextItem(Protocol, f); TextItem(Address, f); }
    else if id == 5 || id == 18 { OneItem(Stream, f); TextItem(Stream, f); }
    else if id == 6 { TwoItems(Stream, Pattern, f); TextItem(Stream, f); TextItem(Pattern, f); }
    else if id == 7 { OneItem(Subject, f); TextItem(Subject, f); }
    else if id == 8 { ThreeItems(Address, Sender, Subject, f); TextItem(Address, f); TextItem(Sender, f); TextItem(Subject, f); }
    else if id == 9 || id == 11 {
      FourItems(Address, Subject, Tracker, Timeout, f);
      TextItem(Address, f); TextItem(Subject, f); TextItem(Tracker, f);
    } else if id == 10 || id == 13 {
      FourItems(Sender, Address, Subject, Tracker, f);
      TextItem(Sender, f); TextItem(Address, f); TextItem(Subject, f); TextItem(Tracker, f);
    } else if id == 12 { TwoItems(Address, Pattern, f); TextItem(Address, f); TextItem(Pattern, f); }
    else if id == 14 || id == 15 { TwoItems(StatusCode, StatusReason, f); TextItem(StatusReason, f); }
    else if id == 16 { OneItem(Amount, f); }
    else if id == 17 { ThreeItems(Tracker, StatusCode, StatusReason, f); TextItem(Tracker, f); TextItem(StatusReason, f); }
    else { NoItems(f); }
  }

  lemma NoItems(f: Fields)
    ensures EncodeAll(Done, f) == []
  {
  }

  lemma WireIsEncoded(id: nat, f: Fields)
    requires 1 <= id <= 18
    ensures Encode(id, f) == Wire(id, f)
  {
    hide Body, EncodeAll, LayoutOf;
    BodyIsEncoded(id, f);
  }

  /** What is sent, for every message of the eighteen kinds: one data frame with the octets listed, and behind it the
      content frames for the kinds 7, 8, 9, 10, 11 and 13 (one empty frame for no content), and nothing for the others. */
  lemma SentFollowsGrammar(m: Message)
    requires 1 <= m.id <= 18
    ensures Data(Sent(m, false)) ==
            [Wire(m.id, m.fields)] + if !WithBody(m.id) then [] else if m.content.Null? then [[]] else m.content.frames
  {
    hide Wire, Encode;
    WireIsEncoded(m.id, m.fields);
    DataOfFlagged([Encode(m.id, m.fields)] + ContentFrames(m));
    assert Sent(m, false) == Flagged([Encode(m.id, m.fields)] + ContentFrames(m));
  }

  // ---------------------------------------------------------------------------------------------
  // Receiving

  /** The receiver's fields after a message of a kind with the fields f. */
  function FieldsRead(id: nat, f: Fields, g: Fields): Fields {
    if id == 1 then g.(address := f.address)
    else if id == 5 || id == 18 then g.(stream := f.stream)
    else if id == 6 then g.(stream := f.stream, pattern := f.pattern)
    else if id == 7 then g.(subject := f.subject)
    else if id == 8 then g.(address := f.address, sender := f.sender, subject := f.subject)
    else if id == 9 || id == 11 then g.(address := f.address, subject := f.subject, tracker := f.tracker, timeout := f.timeout)
    else if id == 10 || id == 13 then g.(sender := f.sender, address := f.address, subject := f.subject, tracker := f.tracker)
    else if id == 12 then g.(address := f.address, pattern := f.pattern)
    else if id == 14 || id == 15 then g.(statusCode := f.statusCode, statusReason := f.statusReason)
    else if id == 16 then g.(amount := f.amount)
    else if id == 17 then g.(tracker := f.tracker, statusCode := f.statusCode, statusReason := f.statusReason)
    else g
  }

  lemma OverlayFirst(l: Layout, f: Fields, g: Fields)
    requires l.Then?
    ensures Overlay(l, f, g) == Overlay(l.rest, f, ItemFrom(l.item, f, g))
  {
  }

  lemma OverlayIsFields(id: nat, f: Fields, g: Fields)
    requires 1 <= id <= 18
    ensures Overlay(LayoutOf(id), f, g) == FieldsRead(id, f, g)
  {
    var l := LayoutOf(id);
    if l.Then? {
      var g1 := ItemFrom(l.item, f, g);
      OverlayFirst(l, f, g);
      if l.rest.Then? {
        var g2 := ItemFrom(l.rest.item, f, g1);
        OverlayFirst(l.rest, f, g1);
        if l.rest.rest.Then? {
          OverlayFirst(l.rest.rest, f, g2);
          if l.rest.rest.rest.Then? {
            OverlayFirst(l.rest.rest.rest, f, ItemFrom(l.rest.rest.item, f, g2));
          }
        }
      }
    }
  }

  /** Receiving parts put together by the list: the fields of the kind come in, the frames behind the first are the
      content for the kinds 7, 8, 9, 10, 11 and 13, and are left alone for the others. */
  lemma GrammarIsReceived(id: nat, f: Fields, g: Message, frames: seq<seq<Octet>>)
    requires 1 <= id <= 18
    ensures var n := g.(id := id, fields := FieldsRead(id, f, g.fields));
            Received(g, false, [Wire(id, f)] + frames) ==
            if WithBody(id) then Receipt(0, true, n.(content := Frames(frames)), []) else Receipt(0, true, n, frames)
  {
    hide Wire, Encode, ReadFrame, FieldsRead, Overlay;
    var parts := [Wire(id, f)] + frames;
    assert parts[0] == Wire(id, f) && parts[1..] == frames;
    WireIsEncoded(id, f);
    assert Encode(id, f) + [] == Encode(id, f);
    FrameRoundTrip(id, f, g, [], frames);
    OverlayIsFields(id, f, g.fields);
  }

  /** The first string or the version of CONNECTION OPEN is there, and is not what it must be. */
  predicate BadOpening(b: seq<Octet>) {
    && |b| >= 4 && 4 + b[3] <= |b|
    && var length: int := b[3];
       var end := 4 + length;
       UpToNul(b[4..end]) != [77, 65, 76, 65, 77, 85, 84, 69] || (end + 2 <= |b| && b[end..end + 2] != [0, 1])
  }

  lemma {:induction false} OnlyOpeningIsRefused(l: Layout, f: Fields, b: seq<Octet>, pos: nat)
    requires pos <= |b| && !Carries(l, Protocol) && !Carries(l, Version)
    ensures !ParseAll(l, f, b, pos).Refused?
  {
    if l.Then? {
      ParseFirst(l, f, b, pos);
      var p := ParseItem(l.item, f, b, pos);
      if p.Success? {
        OnlyOpeningIsRefused(l.rest, p.f, b, p.pos);
      }
    }
  }

  lemma OpeningIsRefusedIff(f: Fields, b: seq<Octet>)
    requires |b| >= 3
    ensures ParseAll(LayoutOf(1), f, b, 3).Refused? <==> BadOpening(b)
  {
    var l := LayoutOf(1);
    ParseFirst(l, f, b, 3);
    var p := ParseItem(Protocol, f, b, 3);
    if p.Success? {
      ParseFirst(l.rest, f, b, p.pos);
      var q := ParseItem(Version, f, b, p.pos);
      if q.Success? {
        OnlyOpeningIsRefused(l.rest.rest, q.f, b, q.pos);
      }
    }
  }

  /** A frame is refused, with -2, exactly when its signature is wrong, its kind is none of the eighteen, or it is a
      CONNECTION OPEN for another protocol or version. */
  lemma RefusedIff(m: Message, b: seq<Octet>, rest: seq<seq<Octet>>)
    ensures ReadFrame(m, b, rest).rc == -2 <==>
            |b| >= 2 && ((b[0] != 0xAA || b[1] != 0xA8) || (|b| >= 3 && (b[2] == 0 || b[2] > 18 || (b[2] == 1 && BadOpening(b)))))
  {
    hide BadOpening, ParseAll;
    if |b| >= 3 && Value2(b, 0) == SIGNATURE && Known(b[2]) {
      if b[2] == 1 {
        OpeningIsRefusedIff(m.fields, b);
      } else {
        OnlyOpeningIsRefused(LayoutOf(b[2]), m.fields, b, 3);
      }
    }
  }

  // ---------------------------------------------------------------------------------------------
  // The tree

  function NameOf(id: int): string {
    match id
    case 1 => "MLM_PROTO_CONNECTION_OPEN"
    case 2 => "MLM_PROTO_CONNECTION_PING"
    case 3 => "MLM_PROTO_CONNECTION_PONG"
    case 4 => "MLM_PROTO_CONNECTION_CLOSE"
    case 5 => "MLM_PROTO_STREAM_WRITE"
    case 6 => "MLM_PROTO_STREAM_READ"
    case 7 => "MLM_PROTO_STREAM_SEND"
    case 8 => "MLM_PROTO_STREAM_DELIVER"
    case 9 => "MLM_PROTO_MAILBOX_SEND"
    case 10 => "MLM_PROTO_MAILBOX_DELIVER"
    case 11 => "MLM_PROTO_SERVICE_SEND"
    case 12 => "MLM_PROTO_SERVICE_OFFER"
    case 13 => "MLM_PROTO_SERVICE_DELIVER"
    case 14 => "MLM_PROTO_OK"
    case 15 => "MLM_PROTO_ERROR"
    case 16 => "MLM_PROTO_CREDIT"
    case 17 => "MLM_PROTO_CONFIRM"
    case _ => "MLM_PROTO_STREAM_CANCEL"
  }

  function Entries(id: int, f: Fields): map<string, CString> {
    if id == 1 then map["protocol" := [109, 97, 108, 97, 109, 117, 116, 101], "version" := [49], "address" := f.address]
    else if id == 5 || id == 18 then map["stream" := f.stream]
    else if id == 6 then map["stream" := f.stream, "pattern" := f.pattern]
    else if id == 7 then map["subject" := f.subject]
    else if id == 8 then map["address" := f.address, "sender" := f.sender, "subject" := f.subject]
    else if id == 9 || id == 11 then
      map["address" := f.address, "subject" := f.subject, "tracker" := f.tracker, "timeout" := Print(f.timeout)]
    else if id == 10 || id == 13 then map["sender" := f.sender, "address" := f.address, "subject" := f.subject, "tracker" := f.tracker]
    else if id == 12 then map["address" := f.address, "pattern" := f.pattern]
    else if id == 14 || id == 15 then map["status_code" := Print(f.statusCode), "status_reason" := f.statusReason]
    else if id == 16 then map["amount" := Print(f.amount)]
    else if id == 17 then map["tracker" := f.tracker, "status_code" := Print(f.statusCode), "status_reason" := f.statusReason]
    else map[]
  }

  lemma ExportFirst(l: Layout, f: Fields, c: map<string, CString>)
    ensures ExportAll(l, f, c) == if l.Done? then c else ExportAll(l.rest, f, c[Key(l.item) := ExportItem(l.item, f)])
  {
  }

  lemma OneIsPrinted()
    ensures Print(1) == [49]
  {
  }

  lemma EntriesAreExported(id: int, f: Fields)
    requires 1 <= id <= 18
    ensures ExportAll(LayoutOf(id), f, map[]) == Entries(id, f)
  {
    OneIsPrinted();
    hide Print, ExportAll;
    var l := LayoutOf(id);
    var c0: map<string, CString> := map[];
    ExportFirst(l, f, c0);
    if l.Then? {
      var c1 := c0[Key(l.item) := ExportItem(l.item, f)];
      ExportFirst(l.rest, f, c1);
      if l.rest.Then? {
        var c2 := c1[Key(l.rest.item) := ExportItem(l.rest.item, f)];
        ExportFirst(l.rest.rest, f, c2);
        if l.rest.rest.Then? {
          var c3 := c2[Key(l.rest.rest.item) := ExportItem(l.rest.rest.item, f)];
          ExportFirst(l.rest.rest.rest, f, c3);
          if l.rest.rest.rest.Then? {
            ExportFirst(Done, f, c3[Key(l.rest.rest.rest.item) := ExportItem(l.rest.rest.rest.item, f)]);
          }
        }
      }
    }
  }

  /** The tree of every message of the eighteen kinds: its name, the routing id if there is one, and the entries listed;
      the kinds 2, 3 and 4 have no section, and 7, 8, 9, 10, 11 and 13 a content entry. */
  lemma ExportFollowsGrammar(m: Message, encode: Content -> seq<Octet>)
    requires 1 <= m.id <= 18
    ensures var r := Export(m, encode);
            && r.message == Some(NameOf(m.id))
            && r.routingId == (if m.routingId.Some? then Some(Hex(m.routingId.value)) else None)
            && r.content == if m.id in {2, 3, 4} then None
                            else if WithBody(m.id) then Some(Entries(m.id, m.fields)["content" := Hex(encode(m.content))])
                            else Some(Entries(m.id, m.fields))
  {
    hide Entries, ExportAll, Hex;
    EntriesAreExported(m.id, m.fields);
    NamesAreListed(m.id);
  }

  lemma NamesAreListed(id: int)
    requires 1 <= id <= 18
    ensures NAMES[id - 1] == NameOf(id)
  {
  }
}
