/** Sending and receiving undo each other; what a frame can and cannot be read as. */
module ProtoCodec {
  import opened Options
  import opened Proto

  // ---------------------------------------------------------------------------------------------
  // One item

  /** The fields a reader ends up with: those of the layout as sent, and the others as they were. */
  ghost function ItemFrom(it: Item, f: Fields, g: Fields): Fields {
    if IsText(it) then WithText(it, g, TextOf(it, f))
    else if it.Timeout? then g.(timeout := f.timeout)
    else WithNumber(it, g, NumberOf(it, f))
  }

  ghost function Overlay(l: Layout, f: Fields, g: Fields): Fields {
    if l.Done? then g else Overlay(l.rest, f, ItemFrom(l.item, f, g))
  }

  lemma TextItself(t: Text)
    ensures UpToNul(t) == t
  {
  }

  lemma Number2Back(n: Number2, b: seq<Octet>, pos: nat)
    requires pos + 2 <= |b| && b[pos..pos + 2] == Octets2(n)
    ensures Value2(b, pos) == n
  {
    assert b[pos] == b[pos..pos + 2][0] && b[pos + 1] == b[pos..pos + 2][1];
  }

  lemma Number4Back(n: Number4, b: seq<Octet>, pos: nat)
    requires pos + 4 <= |b| && b[pos..pos + 4] == Octets4(n)
    ensures Value4(b, pos) == n
  {
    assert b[pos..pos + 2] == b[pos..pos + 4][..2] == Octets2(n / 0x1_0000);
    assert b[pos + 2..pos + 4] == b[pos..pos + 4][2..] == Octets2(n % 0x1_0000);
    Number2Back(n / 0x1_0000, b, pos);
    Number2Back(n % 0x1_0000, b, pos + 2);
  }

  lemma TextBytes(t: Text, b: seq<Octet>, pos: nat)
    requires pos <= |b| && [|t|] + t <= b[pos..]
    ensures pos + 1 + |t| <= |b| && b[pos] == |t| && b[pos + 1..pos + 1 + |t|] == t
  {
    var e := [|t|] + t;
    assert b[pos..pos + |e|] == e;
    assert b[pos] == e[0];
    assert b[pos + 1..pos + 1 + |t|] == e[1..];
  }

  lemma TextRoundTrip(it: Item, t: Text, g: Fields, b: seq<Octet>, pos: nat)
    requires pos <= |b| && [|t|] + t <= b[pos..] && IsText(it) && (it.Protocol? ==> t == MALAMUTE)
    ensures ParseText(it, g, b, pos) == Success(WithText(it, g, t), pos + 1 + |t|)
  {
    TextBytes(t, b, pos);
    TextItself(t);
  }

  lemma ItemRoundTrip(it: Item, f: Fields, g: Fields, b: seq<Octet>, pos: nat)
    requires pos <= |b| && EncodeItem(it, f) <= b[pos..]
    ensures ParseItem(it, g, b, pos) == Success(ItemFrom(it, f, g), pos + |EncodeItem(it, f)|)
  {
    var e := EncodeItem(it, f);
    if IsText(it) {
      TextRoundTrip(it, TextOf(it, f), g, b, pos);
    } else {
      assert b[pos..pos + |e|] == e;
      if it.Timeout? {
        Number4Back(f.timeout, b, pos);
      } else {
        Number2Back(NumberOf(it, f), b, pos);
      }
    }
  }

  // ---------------------------------------------------------------------------------------------
  // A whole layout

  /** Reading a layout is reading its first item, then the rest. */
  lemma ParseFirst(l: Layout, f: Fields, b: seq<Octet>, pos: nat)
    requires pos <= |b| && l.Then?
    ensures var p := ParseItem(l.item, f, b, pos);
            ParseAll(l, f, b, pos) == if p.Success? then ParseAll(l.rest, p.f, b, p.pos) else p
  {
  }

  lemma {:induction false} LayoutRoundTrip(l: Layout, f: Fields, g: Fields, b: seq<Octet>, pos: nat)
    requires pos <= |b| && EncodeAll(l, f) <= b[pos..]
    ensures ParseAll(l, g, b, pos) == Success(Overlay(l, f, g), pos + |EncodeAll(l, f)|)
  {
    hide ParseItem, EncodeItem, ItemFrom;
    if l.Then? {
      var e, r := EncodeItem(l.item, f), EncodeAll(l.rest, f);
      Advance(e, r, b, pos);
      ItemRoundTrip(l.item, f, g, b, pos);
      LayoutRoundTrip(l.rest, f, ItemFrom(l.item, f, g), b, pos + |e|);
      ParseFirst(l, g, b, pos);
    }
  }

  /** Bytes ahead that start with e and r: past e, those that start with r. */
  lemma Advance(e: seq<Octet>, r: seq<Octet>, b: seq<Octet>, pos: nat)
    requires pos <= |b| && e + r <= b[pos..]
    ensures pos + |e| <= |b| && e <= b[pos..] && r <= b[pos + |e|..]
  {
    var c := b[pos..];
    assert e == (e + r)[..|e|] == c[..|e|];
    assert r == (e + r)[|e|..] == c[|e|..|e| + |r|];
    assert b[pos + |e|..] == c[|e|..];
  }

  lemma HeaderReads(id: int, r: seq<Octet>)
    ensures var b := Header(id) + r; |b| >= 3 && Value2(b, 0) == SIGNATURE && b[2] == id % 0x100 && b[3..] == r
  {
  }

  /** The encoded bytes, and anything after them, read back as the fields sent. */
  lemma FrameRoundTrip(id: int, f: Fields, m: Message, tail: seq<Octet>, rest: seq<seq<Octet>>)
    requires Known(id)
    ensures ReadFrame(m, Encode(id, f) + tail, rest) ==
            var n := m.(id := id, fields := Overlay(LayoutOf(id), f, m.fields));
            if HasContent(id) then Receipt(0, true, n.(content := Frames(rest)), []) else Receipt(0, true, n, rest)
    ensures ParseAll(LayoutOf(id), m.fields, Encode(id, f) + tail, 3).pos == |Encode(id, f)|
  {
    hide ParseItem, EncodeItem, LayoutOf;
    var b, e := Encode(id, f) + tail, EncodeAll(LayoutOf(id), f);
    assert b == Header(id) + (e + tail);
    HeaderReads(id, e + tail);
    LayoutRoundTrip(LayoutOf(id), f, m.fields, b, 3);
  }

  // ---------------------------------------------------------------------------------------------
  // Sending, then receiving

  ghost function Data(parts: seq<Part>): seq<seq<Octet>> {
    if parts == [] then [] else [parts[0].data] + Data(parts[1..])
  }

  lemma {:induction false} DataOfFlagged(frames: seq<seq<Octet>>)
    ensures Data(Flagged(frames)) == frames
    ensures |Flagged(frames)| == |frames|
  {
    if frames != [] {
      DataOfFlagged(frames[1..]);
    }
  }

  /** Sending one more frame, flagged when others follow it. */
  lemma FlaggedFirst(before: seq<Part>, frame: seq<Octet>, others: seq<seq<Octet>>)
    ensures before + Flagged([frame] + others) == (before + [Part(frame, |others| != 0)]) + Flagged(others)
  {
    assert ([frame] + others)[1..] == others;
  }

  lemma {:induction false} DataOfSum(a: seq<Part>, b: seq<Part>)
    ensures Data(a + b) == Data(a) + Data(b)
  {
    if a == [] {
      assert a + b == b;
    } else {
      DataOfSum(a[1..], b);
      assert (a + b)[1..] == a[1..] + b;
    }
  }

  lemma {:induction false} FlaggedAt(frames: seq<seq<Octet>>, k: nat)
    requires k < |frames|
    ensures |Flagged(frames)| == |frames|
    ensures Flagged(frames)[k] == Part(frames[k], k < |frames| - 1)
  {
    DataOfFlagged(frames);
    if k > 0 {
      FlaggedAt(frames[1..], k - 1);
    }
  }

  /** The last part, and only the last, is sent without the flag that more follow. */
  lemma OnlyTheLastPartEnds(m: Message, router: bool, k: nat)
    requires k < |Sent(m, router)|
    ensures Sent(m, router)[k].more <==> k < |Sent(m, router)| - 1
  {
    var frames := [Encode(m.id, m.fields)] + ContentFrames(m);
    var first := if router && m.routingId.Some? then 1 else 0;
    DataOfFlagged(frames);
    if k >= first {
      FlaggedAt(frames, k - first);
    }
  }

  /** What the receiver holds afterwards: the message as sent, and stale values in fields its kind does not carry. */
  ghost function Arrived(m: Message, g: Message): Message {
    Message(g.routingId, m.id, Overlay(LayoutOf(m.id), m.fields, g.fields),
            if HasContent(m.id) then Frames(ContentFrames(m)) else g.content)
  }

  /** Receiving what was sent gives the message and its content frames back, for each of the kinds. */
  lemma SentIsReceived(m: Message, g: Message)
    requires Known(m.id)
    ensures Data(Sent(m, false)) != []
    ensures Received(g, false, Data(Sent(m, false))) == Receipt(0, true, Arrived(m, g), [])
  {
    var b, frames := Encode(m.id, m.fields), ContentFrames(m);
    DataOfFlagged([b] + frames);
    assert Sent(m, false) == Flagged([b] + frames);
    assert ([b] + frames)[1..] == frames;
    FrameRoundTrip(m.id, m.fields, g, [], frames);
    assert b + [] == b;
  }

  /** A router socket puts the sender's routing id in front, and the receiver keeps it. */
  lemma RoutedIsReceived(m: Message, g: Message, peer: seq<Octet>)
    requires Known(m.id)
    ensures Received(g, true, [peer] + Data(Sent(m, false))) ==
            Receipt(0, true, Arrived(m, g.(routingId := Some(peer))), [])
  {
    SentIsReceived(m, g.(routingId := Some(peer)));
    var parts := [peer] + Data(Sent(m, false));
    assert parts[1] == Data(Sent(m, false))[0] && parts[2..] == Data(Sent(m, false))[1..];
  }

  /** A router socket takes the first part for itself: it names the peer, and what is left reaches the peer as sent. */
  lemma RouterSendsToPeer(m: Message, g: Message)
    requires Known(m.id) && m.routingId.Some?
    ensures var parts := Data(Sent(m, true));
            |parts| >= 2 && parts[0] == m.routingId.value && Received(g, false, parts[1..]) == Receipt(0, true, Arrived(m, g), [])
  {
    var first := [Part(m.routingId.value, true)];
    SentIsReceived(m, g);
    DataOfSum(first, Sent(m, false));
    assert Sent(m, true) == first + Sent(m, false);
    assert first[1..] == [] && Data(first) == [m.routingId.value];
  }

  // ---------------------------------------------------------------------------------------------
  // The layout's fields do come from the sender, and nothing else does

  ghost predicate Carries(l: Layout, it: Item) {
    l.Then? && (l.item == it || Carries(l.rest, it))
  }

  ghost predicate SameItem(it: Item, f: Fields, g: Fields) {
    if IsText(it) then TextOf(it, f) == TextOf(it, g)
    else if it.Timeout? then f.timeout == g.timeout
    else NumberOf(it, f) == NumberOf(it, g)
  }

  lemma {:induction false} OverlayItem(l: Layout, f: Fields, g: Fields, it: Item)
    ensures SameItem(it, Overlay(l, f, g), if Carries(l, it) then f else g)
  {
    if l.Then? {
      OverlayItem(l.rest, f, ItemFrom(l.item, f, g), it);
    }
  }

  // ---------------------------------------------------------------------------------------------
  // The size computed before writing

  function TextSize(t: Text): nat { 1 + |t| }

  /** The sum made before the frame is allocated. */
  function FrameSize(id: int, f: Fields): nat {
    3 + if id == CONNECTION_OPEN then 1 + |MALAMUTE| + 2 + TextSize(f.address)
    else if id == STREAM_WRITE || id == STREAM_CANCEL then TextSize(f.stream)
    else if id == STREAM_READ then TextSize(f.stream) + TextSize(f.pattern)
    else if id == STREAM_SEND then TextSize(f.subject)
    else if id == STREAM_DELIVER then TextSize(f.address) + TextSize(f.sender) + TextSize(f.subject)
    else if id == MAILBOX_SEND || id == SERVICE_SEND then
      TextSize(f.address) + TextSize(f.subject) + TextSize(f.tracker) + 4
    else if id == MAILBOX_DELIVER || id == SERVICE_DELIVER then
      TextSize(f.sender) + TextSize(f.address) + TextSize(f.subject) + TextSize(f.tracker)
    else if id == SERVICE_OFFER then TextSize(f.address) + TextSize(f.pattern)
    else if id == OK || id == ERROR then 2 + TextSize(f.statusReason)
    else if id == CREDIT then 2
    else if id == CONFIRM then TextSize(f.tracker) + 2 + TextSize(f.statusReason)
    else 0
  }

  ghost function ItemSize(it: Item, f: Fields): nat {
    if IsText(it) then TextSize(TextOf(it, f)) else if it.Timeout? then 4 else 2
  }

  ghost function LayoutSize(l: Layout, f: Fields): nat {
    if l.Done? then 0 else ItemSize(l.item, f) + LayoutSize(l.rest, f)
  }

  lemma {:induction false} LayoutSizeIsExact(l: Layout, f: Fields)
    ensures |EncodeAll(l, f)| == LayoutSize(l, f)
  {
    if l.Then? {
      LayoutSizeIsExact(l.rest, f);
    }
  }

  /** The size of a layout of at most four items, item by item. */
  lemma SizeByItems(l: Layout, f: Fields)
    ensures l.Done? ==> LayoutSize(l, f) == 0
    ensures l.Then? ==> LayoutSize(l, f) == ItemSize(l.item, f) + LayoutSize(l.rest, f)
  {
  }

  lemma LongSizes(id: int, f: Fields)
    requires id == CONNECTION_OPEN || id == STREAM_DELIVER || id == CONFIRM || MAILBOX_SEND <= id <= SERVICE_SEND || id == SERVICE_DELIVER
    ensures FrameSize(id, f) == 3 + LayoutSize(LayoutOf(id), f)
  {
    var l := LayoutOf(id);
    SizeByItems(l.rest.rest, f);
    SizeByItems(l.rest, f);
  }

  /** The frame allocated is exactly as long as what is then written into it. */
  lemma SizeIsExact(id: int, f: Fields)
    ensures FrameSize(id, f) == |Encode(id, f)|
  {
    LayoutSizeIsExact(LayoutOf(id), f);
    if id == CONNECTION_OPEN || id == STREAM_DELIVER || id == CONFIRM || MAILBOX_SEND <= id <= SERVICE_SEND || id == SERVICE_DELIVER {
      LongSizes(id, f);
    } else if LayoutOf(id).Then? {
      SizeByItems(LayoutOf(id).rest, f);
    }
  }

  // ---------------------------------------------------------------------------------------------
  // Writing one item after the other

  lemma ShiftedTwice(n: nat)
    ensures n / 0x1_0000 / 0x100 == n / 0x100_0000
  {
  }

  lemma SecondOctet(n: nat)
    ensures n % 0x1_0000 / 0x100 == n / 0x100 % 0x100
  {
  }

  lemma FirstOctet(n: nat)
    ensures n % 0x1_0000 % 0x100 == n % 0x100
  {
  }

  lemma Octets4ByByte(n: Number4)
    ensures Octets4(n) == [n / 0x100_0000 % 0x100, n / 0x1_0000 % 0x100, n / 0x100 % 0x100, n % 0x100]
  {
    ShiftedTwice(n);
    SecondOctet(n);
    FirstOctet(n);
  }

  ghost function Extended(h: seq<Octet>, l: Layout, f: Fields): seq<Octet>
    decreases l
  {
    if l.Done? then h else Extended(h + EncodeItem(l.item, f), l.rest, f)
  }

  lemma ExtendedFirst(h: seq<Octet>, l: Layout, f: Fields)
    requires l.Then?
    ensures Extended(h, l, f) == Extended(h + EncodeItem(l.item, f), l.rest, f)
  {
  }

  /** Writing four items one behind the other. */
  lemma FourItems(h: seq<Octet>, a: Item, b: Item, c: Item, d: Item, f: Fields)
    ensures Extended(h, Then(a, Then(b, Then(c, Then(d, Done)))), f) ==
            h + EncodeItem(a, f) + EncodeItem(b, f) + EncodeItem(c, f) + EncodeItem(d, f)
  {
    hide EncodeItem;
    ExtendedFirst(h, Then(a, Then(b, Then(c, Then(d, Done)))), f);
    ExtendedFirst(h + EncodeItem(a, f), Then(b, Then(c, Then(d, Done))), f);
    ExtendedFirst(h + EncodeItem(a, f) + EncodeItem(b, f), Then(c, Then(d, Done)), f);
  }

  lemma {:induction false} ExtendedByLayout(h: seq<Octet>, l: Layout, f: Fields)
    ensures Extended(h, l, f) == h + EncodeAll(l, f)
    decreases l
  {
    if l.Then? {
      ExtendedByLayout(h + EncodeItem(l.item, f), l.rest, f);
    }
  }

  // ---------------------------------------------------------------------------------------------
  // The converse: reading any frame, then encoding what was read

  /** No string of the layout, as it lies in the frame, holds a zero octet. */
  ghost predicate Clean(l: Layout, f: Fields, b: seq<Octet>, pos: nat)
    requires pos <= |b|
  {
    if l.Done? then true
    else
      var p := ParseItem(l.item, f, b, pos);
      p.Success? && (IsText(l.item) ==> 0 !in b[pos + 1..p.pos]) && Clean(l.rest, p.f, b, p.pos)
  }

  /** No item occurs twice in a layout, so nothing read later overwrites it. */
  ghost predicate Once(l: Layout) {
    l.Then? ==> !Carries(l.rest, l.item) && Once(l.rest)
  }

  lemma LayoutsCarryItemsOnce(id: int)
    ensures Once(LayoutOf(id))
  {
  }

  lemma Octets2OfValue(b: seq<Octet>, pos: nat)
    requires pos + 2 <= |b|
    ensures Octets2(Value2(b, pos)) == b[pos..pos + 2]
  {
  }

  lemma Octets4OfValue(b: seq<Octet>, pos: nat)
    requires pos + 4 <= |b|
    ensures Octets4(Value4(b, pos)) == b[pos..pos + 4]
  {
    Octets2OfValue(b, pos);
    Octets2OfValue(b, pos + 2);
    assert Value4(b, pos) / 0x1_0000 == Value2(b, pos) && Value4(b, pos) % 0x1_0000 == Value2(b, pos + 2);
  }

  /** An item read writes back as its own bytes; a string with a zero octet gets a smaller length octet. */
  lemma ItemConverse(it: Item, f: Fields, b: seq<Octet>, pos: nat)
    requires pos <= |b| && ParseItem(it, f, b, pos).Success?
    ensures var p := ParseItem(it, f, b, pos);
            var e := EncodeItem(it, p.f);
            if IsText(it) && 0 in b[pos + 1..p.pos] then e != [] && e[0] != b[pos] && pos < p.pos else e == b[pos..p.pos]
  {
    var p := ParseItem(it, f, b, pos);
    if IsText(it) {
      var raw := b[pos + 1..p.pos];
      assert p.pos == pos + 1 + b[pos] && |raw| == b[pos];
      assert TextOf(it, p.f) == UpToNul(raw);
      assert b[pos..p.pos] == [b[pos]] + raw;
    } else if it.Timeout? {
      Octets4OfValue(b, pos);
    } else {
      Octets2OfValue(b, pos);
    }
  }

  lemma {:induction false} ItemIsKept(l: Layout, f: Fields, b: seq<Octet>, pos: nat, it: Item)
    requires pos <= |b| && !Carries(l, it)
    ensures SameItem(it, f, ParseAll(l, f, b, pos).f)
  {
    hide ParseItem;
    if l.Then? {
      var p := ParseItem(l.item, f, b, pos);
      ParsedItemIsKept(l.item, f, b, pos, it);
      ParseFirst(l, f, b, pos);
      if p.Success? {
        hide ParseAll;
        ItemIsKept(l.rest, p.f, b, p.pos, it);
      }
    }
  }

  lemma ParsedItemIsKept(other: Item, f: Fields, b: seq<Octet>, pos: nat, it: Item)
    requires pos <= |b| && other != it
    ensures SameItem(it, f, ParseItem(other, f, b, pos).f)
  {
  }

  lemma SameItemEncodesSame(it: Item, f: Fields, g: Fields)
    requires SameItem(it, f, g)
    ensures EncodeItem(it, f) == EncodeItem(it, g)
  {
  }

  lemma {:induction false} LayoutConverse(l: Layout, f: Fields, b: seq<Octet>, pos: nat)
    requires pos <= |b| && ParseAll(l, f, b, pos).Success? && Once(l)
    ensures var p := ParseAll(l, f, b, pos);
            EncodeAll(l, p.f) == b[pos..p.pos] <==> Clean(l, f, b, pos)
  {
    if l.Then? {
      var p := ParseItem(l.item, f, b, pos);
      var q := ParseAll(l.rest, p.f, b, p.pos);
      LayoutConverse(l.rest, p.f, b, p.pos);
      ItemConverse(l.item, f, b, pos);
      ItemIsKept(l.rest, p.f, b, p.pos, l.item);
      SameItemEncodesSame(l.item, p.f, q.f);
      JoinConverse(EncodeItem(l.item, p.f), EncodeAll(l.rest, q.f), b, pos, p.pos, q.pos);
    }
  }

  /** Bytes put together agree with a stretch of the frame exactly when both pieces do, or the first octet already differs. */
  lemma JoinConverse(e: seq<Octet>, r: seq<Octet>, b: seq<Octet>, i: nat, j: nat, k: nat)
    requires i <= j <= k <= |b|
    ensures e == b[i..j] ==> (e + r == b[i..k] <==> r == b[j..k])
    ensures i < j && e != [] && e[0] != b[i] ==> e + r != b[i..k]
  {
    if e == b[i..j] {
      assert b[i..k] == b[i..j] + b[j..k];
      assert (e + r)[|e|..] == r && b[i..k][|e|..] == b[j..k];
    }
    if i < j && e != [] && e[0] != b[i] {
      assert (e + r)[0] == e[0] && b[i..k][0] == b[i];
    }
  }

  lemma HeaderConverse(b: seq<Octet>)
    requires |b| >= 3 && Value2(b, 0) == SIGNATURE
    ensures b[0..3] == Header(b[2])
  {
    Octets2OfValue(b, 0);
    assert b[0..3] == b[0..2] + [b[2]];
  }

  /** Any frame that is read to the end: encoding the result gives back the bytes read exactly when no string held a zero octet. */
  lemma ReadThenEncode(m: Message, b: seq<Octet>, rest: seq<seq<Octet>>)
    requires ReadFrame(m, b, rest).complete
    ensures var r := ReadFrame(m, b, rest).m;
            var p := ParseAll(LayoutOf(r.id), m.fields, b, 3);
            p.pos <= |b| && (Encode(r.id, r.fields) == b[..p.pos] <==> Clean(LayoutOf(r.id), m.fields, b, 3))
  {
    var r := ReadFrame(m, b, rest).m;
    var l := LayoutOf(r.id);
    var p := ParseAll(l, m.fields, b, 3);
    LayoutsCarryItemsOnce(r.id);
    LayoutConverse(l, m.fields, b, 3);
    HeaderConverse(b);
    JoinConverse(Header(r.id), EncodeAll(l, r.fields), b, 0, 3, p.pos);
    assert b[0..p.pos] == b[..p.pos];
  }

  /** STREAM WRITE with a name of one zero octet. */
  const ZERO_NAME: seq<Octet> := [0xAA, 0xA8, 5, 1, 0]

  /** It is read to the end, as a message that writes back with an empty name. */
  lemma ZeroOctetIsLost(m: Message, rest: seq<seq<Octet>>)
    ensures var r := ReadFrame(m, ZERO_NAME, rest);
            && r.complete && !Clean(LayoutOf(r.m.id), m.fields, ZERO_NAME, 3)
            && r.m.fields == m.fields.(stream := []) && Encode(r.m.id, r.m.fields) == [0xAA, 0xA8, 5, 0]
  {
    var l := LayoutOf(STREAM_WRITE);
    ParseFirst(l, m.fields, ZERO_NAME, 3);
    assert ZERO_NAME[4..5] == [0] && UpToNul([0]) == [];
    var f := m.fields.(stream := []);
    assert ParseItem(Stream, m.fields, ZERO_NAME, 3) == Success(f, 5);
    assert ParseAll(Done, f, ZERO_NAME, 5) == Success(f, 5);
    assert EncodeAll(l, f) == [0];
  }

  /** No encoding is a proper prefix of another: a reader always knows where the fields end. */
  lemma NoEncodingExtendsAnother(id: int, f: Fields, jd: int, g: Fields)
    requires Known(id) && Known(jd) && Encode(id, f) <= Encode(jd, g)
    ensures id == jd && Encode(id, f) == Encode(jd, g)
  {
    var a, b := Encode(id, f), Encode(jd, g);
    var m := Message(None, id, f, Null);
    FrameRoundTrip(jd, g, m, [], []);
    FrameRoundTrip(id, f, m, b[|a|..], []);
    assert b + [] == b && a + b[|a|..] == b;
  }

  // ---------------------------------------------------------------------------------------------
  // Return codes

  lemma CutHeader(id: int, r: seq<Octet>, n: nat)
    requires n < |Header(id) + r|
    ensures var b := (Header(id) + r)[..n];
            && (n >= 2 ==> Value2(b, 0) == SIGNATURE)
            && (n >= 3 ==> b[2] == id % 0x100 && b[3..] == r[..n - 3])
  {
    var b := (Header(id) + r)[..n];
    if n >= 3 {
      assert b[3..] == r[..n - 3];
    }
  }

  /** A frame cut short anywhere is reported with the code of success, although the parse did not get to the end. */
  lemma CutFrameReturnsZero(id: int, f: Fields, m: Message, n: nat, rest: seq<seq<Octet>>)
    requires Known(id) && n < |Encode(id, f)|
    ensures var r := ReadFrame(m, Encode(id, f)[..n], rest); r.rc == 0 && !r.complete
  {
    hide ParseAll, EncodeAll, LayoutOf;
    var b := Encode(id, f)[..n];
    CutHeader(id, EncodeAll(LayoutOf(id), f), n);
    if n >= 3 {
      CutBodyIsShort(m.(id := b[2]), f, b, rest);
    }
  }

  lemma CutBodyIsShort(m: Message, f: Fields, b: seq<Octet>, rest: seq<seq<Octet>>)
    requires 3 <= |b| < 3 + |EncodeAll(LayoutOf(m.id), f)|
    requires b[3..] == EncodeAll(LayoutOf(m.id), f)[..|b| - 3]
    ensures ReadBody(m, b, rest).rc == 0 && !ReadBody(m, b, rest).complete
  {
    hide ParseAll, EncodeAll, LayoutOf;
    CutLayoutIsShort(LayoutOf(m.id), f, m.fields, b, 3);
  }

  lemma {:induction false} CutLayoutIsShort(l: Layout, f: Fields, g: Fields, b: seq<Octet>, pos: nat)
    requires pos <= |b| < pos + |EncodeAll(l, f)| && b[pos..] == EncodeAll(l, f)[..|b| - pos]
    ensures ParseAll(l, g, b, pos).Short?
  {
    hide ParseItem, EncodeItem, ItemFrom;
    var e, r := EncodeItem(l.item, f), EncodeAll(l.rest, f);
    var c := b[pos..];
    ParseFirst(l, g, b, pos);
    if |e| <= |c| {
      assert c[..|e|] == (e + r)[..|e|] == e;
      assert b[pos + |e|..] == c[|e|..] == (e + r)[|e|..|c|] == r[..|c| - |e|];
      ItemRoundTrip(l.item, f, g, b, pos);
      CutLayoutIsShort(l.rest, f, ItemFrom(l.item, f, g), b, pos + |e|);
    } else {
      assert c == (e + r)[..|c|] == e[..|c|];
      CutItemIsShort(l.item, f, g, b, pos);
    }
  }

  lemma CutItemIsShort(it: Item, f: Fields, g: Fields, b: seq<Octet>, pos: nat)
    requires pos <= |b| && |b| - pos < |EncodeItem(it, f)| && b[pos..] == EncodeItem(it, f)[..|b| - pos]
    ensures ParseItem(it, g, b, pos).Short?
  {
    if IsText(it) && pos < |b| {
      assert b[pos] == b[pos..][0] == |TextOf(it, f)|;
    }
  }

  /** The frame is as long as its own length octets ask for, from an item of its layout on. */
  predicate LongEnough(l: Layout, b: seq<Octet>, pos: nat)
    decreases l
  {
    if l.Done? then true
    else if IsText(l.item) then
      pos + 1 <= |b| && pos + 1 + b[pos] <= |b| && LongEnough(l.rest, b, pos + 1 + b[pos])
    else
      var width := if l.item.Timeout? then 4 else 2;
      pos + width <= |b| && LongEnough(l.rest, b, pos + width)
  }

  lemma {:induction false} ShortIffNotLongEnough(l: Layout, f: Fields, b: seq<Octet>, pos: nat)
    requires pos <= |b| && !ParseAll(l, f, b, pos).Refused?
    ensures ParseAll(l, f, b, pos).Success? <==> LongEnough(l, b, pos)
  {
    if l.Then? {
      ParseFirst(l, f, b, pos);
      var p := ParseItem(l.item, f, b, pos);
      if p.Success? {
        ShortIffNotLongEnough(l.rest, p.f, b, p.pos);
      }
    }
  }

  /** Return code 0 stands for success exactly on frames that are long enough; -2 always for a refused frame. */
  lemma ZeroIsSuccessIff(m: Message, b: seq<Octet>, rest: seq<seq<Octet>>)
    ensures var r := ReadFrame(m, b, rest);
            && (r.complete ==> r.rc == 0) && (r.rc == 0 || r.rc == -2)
            && (r.rc == 0 ==> (r.complete <==> |b| >= 3 && LongEnough(LayoutOf(b[2]), b, 3)))
  {
    if |b| >= 3 {
      var p := ParseAll(LayoutOf(b[2]), m.fields, b, 3);
      if !p.Refused? {
        ShortIffNotLongEnough(LayoutOf(b[2]), m.fields, b, 3);
      }
    }
  }
}
