/** The textual form of a message: a tree of named strings (src/mlm_proto.c:264-973 and 1592-1990). */
module ProtoText {
  import opened Options
  import opened Proto
  import opened ProtoCodec
  import opened ProtoDigits

  /** The tree under "mlm_proto": its message and routing_id items, and its content section. */
  datatype Config = Config(message: Option<string>, routingId: Option<CString>, content: Option<map<string, CString>>)

  const NAMES: seq<string> := [
    "MLM_PROTO_CONNECTION_OPEN", "MLM_PROTO_CONNECTION_PING", "MLM_PROTO_CONNECTION_PONG", "MLM_PROTO_CONNECTION_CLOSE",
    "MLM_PROTO_STREAM_WRITE", "MLM_PROTO_STREAM_READ", "MLM_PROTO_STREAM_SEND", "MLM_PROTO_STREAM_DELIVER",
    "MLM_PROTO_MAILBOX_SEND", "MLM_PROTO_MAILBOX_DELIVER", "MLM_PROTO_SERVICE_SEND", "MLM_PROTO_SERVICE_OFFER",
    "MLM_PROTO_SERVICE_DELIVER", "MLM_PROTO_OK", "MLM_PROTO_ERROR", "MLM_PROTO_CREDIT", "MLM_PROTO_CONFIRM",
    "MLM_PROTO_STREAM_CANCEL"]

  /** The id of a name, or 0: the comparisons are made in order, from the n-th on. */
  function IdOf(name: string, n: nat): int
    decreases |NAMES| - n
  {
    if n >= |NAMES| then 0 else if NAMES[n] == name then n + 1 else IdOf(name, n + 1)
  }

  function Key(it: Item): string {
    match it
    case Protocol => "protocol"
    case Version => "version"
    case Address => "address"
    case Stream => "stream"
    case Pattern => "pattern"
    case Subject => "subject"
    case Sender => "sender"
    case Tracker => "tracker"
    case StatusReason => "status_reason"
    case Timeout => "timeout"
    case StatusCode => "status_code"
    case Amount => "amount"
  }

  // ---------------------------------------------------------------------------------------------
  // Export

  /** "malamute": the text names the protocol in lower case. */
  const PROTOCOL_TEXT: CString := [109, 97, 108, 97, 109, 117, 116, 101]

  function ExportItem(it: Item, f: Fields): CString {
    if it.Protocol? then PROTOCOL_TEXT
    else if IsText(it) then TextOf(it, f)
    else if it.Timeout? then Print(f.timeout)
    else Print(NumberOf(it, f))
  }

  function ExportAll(l: Layout, f: Fields, c: map<string, CString>): map<string, CString>
    decreases l
  {
    if l.Done? then c else ExportAll(l.rest, f, c[Key(l.item) := ExportItem(l.item, f)])
  }

  /** The content frames are written as one encoded byte string, in hexadecimal. */
  function ExportSection(m: Message, encode: Content -> seq<Octet>): Option<map<string, CString>> {
    if LayoutOf(m.id).Done? then None
    else
      var c := ExportAll(LayoutOf(m.id), m.fields, map[]);
      Some(if HasContent(m.id) then c["content" := Hex(encode(m.content))] else c)
  }

  function Export(m: Message, encode: Content -> seq<Octet>): Config {
    if !Known(m.id) then Config(None, None, None)
    else
      Config(Some(NAMES[m.id - 1]),
             if m.routingId.Some? then Some(Hex(m.routingId.value)) else None,
             ExportSection(m, encode))
  }

  // ---------------------------------------------------------------------------------------------
  // Import

  /** A message, a NULL return, a failed assertion, or a value the source leaves open: a byte from an unset variable,
      or a string without terminator. */
  datatype Imported = Made(m: Message) | NullReturn | Stopped | Open

  /** Importing the fields of a layout: None for a NULL return. */
  datatype Filled = Filled(f: Fields) | Missing | Unterminated

  function ImportItem(it: Item, f: Fields, c: map<string, CString>): Filled {
    if it.Protocol? || it.Version? then Filled(f)
    else if Key(it) !in c then Missing
    else
      var s := c[Key(it)];
      if IsText(it) then
        if |s| <= 255 then Filled(WithText(it, f, s)) else Unterminated
      else if Number(s).None? then Missing
      else if it.Timeout? then Filled(f.(timeout := Number(s).value % 0x1_0000_0000))
      else Filled(WithNumber(it, f, Number(s).value % 0x1_0000))
  }

  function ImportAll(l: Layout, f: Fields, c: map<string, CString>): Filled
    decreases l
  {
    if l.Done? then Filled(f)
    else
      var r := ImportItem(l.item, f, c);
      if r.Filled? then ImportAll(l.rest, r.f, c) else r
  }

  const BLANK := Fields([], [], [], [], [], [], 0, 0, [], 0)

  function ImportContent(m: Message, c: map<string, CString>, decode: seq<Octet> -> Content): Imported {
    if !HasContent(m.id) then Made(m)
    else if "content" !in c then NullReturn
    else
      match Unhex(c["content"])
      case Bytes(b) => Made(m.(content := decode(b)))
      case OddLength => NullReturn
      case Aborted => Stopped
      case Unset => Open
  }

  function ImportSection(m: Message, section: Option<map<string, CString>>, decode: seq<Octet> -> Content): Imported {
    if LayoutOf(m.id).Done? then Made(m)
    else if section.None? then NullReturn
    else
      match ImportAll(LayoutOf(m.id), m.fields, section.value)
      case Filled(f) => ImportContent(m.(fields := f), section.value, decode)
      case Missing => NullReturn
      case Unterminated => Open
  }

  function Import(config: Config, decode: seq<Octet> -> Content): Imported {
    if config.message.None? then NullReturn
    else
      var id := IdOf(config.message.value, 0);
      if id == 0 then NullReturn
      else
        match config.routingId
        case None => ImportSection(Message(None, id, BLANK, Null), config.content, decode)
        case Some(s) =>
          match Unhex(s)
          case Bytes(b) => ImportSection(Message(Some(b), id, BLANK, Null), config.content, decode)
          case OddLength => NullReturn
          case Aborted => Stopped
          case Unset => Open
  }

  // ---------------------------------------------------------------------------------------------
  // The round trip

  lemma NameIsKnown(id: int)
    requires Known(id)
    ensures IdOf(NAMES[id - 1], 0) == id
  {
    SearchName(id - 1, 0);
  }

  lemma NamesDiffer(i: nat, j: nat)
    requires i < j < |NAMES|
    ensures NAMES[i] != NAMES[j]
  {
  }

  lemma {:induction false} SearchName(k: nat, n: nat)
    requires n <= k < |NAMES|
    ensures IdOf(NAMES[k], n) == k + 1
    decreases k - n
  {
    if n < k {
      NamesDiffer(n, k);
      SearchName(k, n + 1);
    }
  }

  lemma KeysDiffer(a: Item, b: Item)
    ensures Key(a) == Key(b) ==> a == b
    ensures Key(a) != "content"
  {
  }

  /** What an item is written as does not depend on items written after it. */
  lemma {:induction false} ExportKeeps(l: Layout, f: Fields, c: map<string, CString>, key: string)
    requires forall it: Item :: Carries(l, it) ==> Key(it) != key
    ensures key in ExportAll(l, f, c) <==> key in c
    ensures key in c ==> ExportAll(l, f, c)[key] == c[key]
    decreases l
  {
    if l.Then? {
      assert Carries(l, l.item);
      ExportKeeps(l.rest, f, c[Key(l.item) := ExportItem(l.item, f)], key);
    }
  }

  lemma {:induction false} ExportHolds(l: Layout, f: Fields, c: map<string, CString>, it: Item)
    requires Carries(l, it) && Once(l)
    ensures Key(it) in ExportAll(l, f, c) && ExportAll(l, f, c)[Key(it)] == ExportItem(it, f)
    decreases l
  {
    var d := c[Key(l.item) := ExportItem(l.item, f)];
    if l.item == it {
      forall other: Item | Carries(l.rest, other) ensures Key(other) != Key(it) { KeysDiffer(other, it); }
      ExportKeeps(l.rest, f, d, Key(it));
    } else {
      ExportHolds(l.rest, f, d, it);
    }
  }

  lemma ImportOfExportItem(it: Item, f: Fields, g: Fields, c: map<string, CString>)
    requires Key(it) in c && c[Key(it)] == ExportItem(it, f)
    ensures ImportItem(it, g, c) == Filled(ItemFrom(it, f, g))
  {
    hide Number, Print;
    if it.Timeout? {
      NumberOfPrint(f.timeout);
    } else if !IsText(it) {
      NumberOfPrint(NumberOf(it, f));
    }
  }

  lemma {:induction false} ImportOfExport(l: Layout, f: Fields, g: Fields, c: map<string, CString>)
    requires forall it: Item :: Carries(l, it) ==> Key(it) in c && c[Key(it)] == ExportItem(it, f)
    ensures ImportAll(l, g, c) == Filled(Overlay(l, f, g))
    decreases l
  {
    if l.Then? {
      assert Carries(l, l.item);
      ImportOfExportItem(l.item, f, g, c);
      forall it: Item | Carries(l.rest, it) ensures Key(it) in c && c[Key(it)] == ExportItem(it, f) {
        assert Carries(l, it);
      }
      ImportOfExport(l.rest, f, ItemFrom(l.item, f, g), c);
    }
  }

  lemma SectionHolds(m: Message, encode: Content -> seq<Octet>)
    requires LayoutOf(m.id).Then?
    ensures forall it: Item :: Carries(LayoutOf(m.id), it) ==>
              Key(it) in ExportSection(m, encode).value && ExportSection(m, encode).value[Key(it)] == ExportItem(it, m.fields)
  {
    LayoutsCarryItemsOnce(m.id);
    forall it: Item | Carries(LayoutOf(m.id), it)
      ensures Key(it) in ExportSection(m, encode).value && ExportSection(m, encode).value[Key(it)] == ExportItem(it, m.fields)
    {
      ExportHolds(LayoutOf(m.id), m.fields, map[], it);
      KeysDiffer(it, it);
    }
  }

  lemma SectionRoundTrip(m: Message, n: Message, encode: Content -> seq<Octet>, decode: seq<Octet> -> Content)
    requires n.id == m.id && LayoutOf(m.id).Then?
    requires HasContent(m.id) ==> decode(encode(m.content)) == m.content
    ensures ImportSection(n, ExportSection(m, encode), decode) ==
            Made(n.(fields := Overlay(LayoutOf(m.id), m.fields, n.fields), content := if HasContent(m.id) then m.content else n.content))
  {
    SectionHolds(m, encode);
    ImportOfExport(LayoutOf(m.id), m.fields, n.fields, ExportSection(m, encode).value);
    UnhexOfHex(encode(m.content));
  }

  /** Exporting a message of any known kind and importing the tree restores id, routing id, content and every field of the kind. */
  lemma TextRoundTrip(m: Message, encode: Content -> seq<Octet>, decode: seq<Octet> -> Content)
    requires Known(m.id)
    requires HasContent(m.id) ==> decode(encode(m.content)) == m.content
    ensures Import(Export(m, encode), decode) ==
            Made(Message(m.routingId, m.id, Overlay(LayoutOf(m.id), m.fields, BLANK), if HasContent(m.id) then m.content else Null))
  {
    NameIsKnown(m.id);
    if m.routingId.Some? {
      UnhexOfHex(m.routingId.value);
    }
    if LayoutOf(m.id).Then? {
      SectionRoundTrip(m, Message(m.routingId, m.id, BLANK, Null), encode, decode);
    } else {
      KindsWithoutFields(m.id);
    }
  }

  lemma KindsWithoutFields(id: int)
    requires LayoutOf(id).Done?
    ensures !HasContent(id)
  {
  }

  // ---------------------------------------------------------------------------------------------
  // Numbers of an imported tree

  predicate IsNumeric(it: Item) {
    it.Timeout? || it.StatusCode? || it.Amount?
  }

  /** One more than the largest value of a numeric field. */
  function Width(it: Item): nat
    requires IsNumeric(it)
  {
    if it.Timeout? then 0x1_0000_0000 else 0x1_0000
  }

  function Stored(it: Item, f: Fields): nat
    requires IsNumeric(it)
  {
    if it.Timeout? then f.timeout else NumberOf(it, f)
  }

  /** For every numeric field and every tree: a number read is stored modulo the width of the field, so the stored
      value is the number read exactly when it lies in the range of the field. */
  lemma NumberIsKeptIffInRange(it: Item, f: Fields, c: map<string, CString>)
    requires IsNumeric(it) && Key(it) in c && Number(c[Key(it)]).Some?
    ensures ImportItem(it, f, c).Filled?
    ensures var v := Number(c[Key(it)]).value;
            var n := Stored(it, ImportItem(it, f, c).f);
            n == v % Width(it) && (n == v <==> 0 <= v < Width(it))
  {
    hide Number;
  }

  /** For every numeric field and every tree: the import goes on exactly when the text is a decimal number or empty. */
  lemma NumberIsTakenIff(it: Item, f: Fields, c: map<string, CString>)
    requires IsNumeric(it)
    ensures ImportItem(it, f, c).Filled? <==> Key(it) in c && (c[Key(it)] == [] || Decimal(c[Key(it)]))
  {
    hide Number, Decimal;
    if Key(it) in c {
      NumberIffDecimalOrEmpty(c[Key(it)]);
    }
  }

  /** A value beyond the range comes in as another one: 65536 as amount 0. */
  lemma WideNumberChanges(f: Fields, c: map<string, CString>)
    requires "amount" in c && c["amount"] == Print(0x1_0000)
    ensures ImportItem(Amount, f, c) == Filled(f.(amount := 0))
  {
    hide Number, Print;
    NumberOfPrint(0x1_0000);
  }

  /** So does a negative one: -1 as timeout 4294967295. */
  lemma NegativeNumberChanges(f: Fields, c: map<string, CString>)
    requires "timeout" in c && c["timeout"] == MINUS_ONE
    ensures ImportItem(Timeout, f, c) == Filled(f.(timeout := 0xFFFF_FFFF))
  {
    hide Number;
    MinusOneIsRead();
  }
}
