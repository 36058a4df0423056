/** The message class (src/mlm_proto.c): its fields, the read and write pointer, and the two big switches. */
module Protos {
  import opened Options
  import opened Proto
  import opened ProtoCodec

  /** Where a GET macro leaves the parse: it goes on, or it jumps to the error return. */
  datatype Jump = Continue | Malformed(rc: int)

  function JumpOf(p: Parse): Jump {
    if p.Success? then Continue else if p.Short? then Malformed(0) else Malformed(-2)
  }

  class MlmProto {
    var routingId: Option<seq<Octet>>
    var id: int
    var needle: nat      // Read/write pointer for serialization, as an offset into the frame
    var ceiling: nat     // Valid upper limit for read pointer
    var address: Text
    var stream: Text
    var pattern: Text
    var subject: Text
    var content: Content
    var sender: Text
    var tracker: Text
    var timeout: Number4
    var statusCode: Number2
    var statusReason: Text
    var amount: Number2

    function Values(): Fields
      reads this
    {
      Fields(address, stream, pattern, subject, sender, tracker, timeout, statusCode, statusReason, amount)
    }

    ghost function View(): Message
      reads this
    {
      Message(routingId, id, Values(), content)
    }

    constructor ()
      ensures View() == Message(None, 0, Fields([], [], [], [], [], [], 0, 0, [], 0), Null)
    {
      routingId, id, needle, ceiling, content := None, 0, 0, 0, Null;
      address, stream, pattern, subject, sender, tracker := [], [], [], [], [], [];
      timeout, statusCode, statusReason, amount := 0, 0, [], 0;
    }

    // -------------------------------------------------------------------------------------------
    // Writing

    method PutNumber1(frame: array<Octet>, host: int)
      requires needle + 1 <= frame.Length
      modifies `needle, frame
      ensures needle == old(needle) + 1
      ensures frame[..needle] == old(frame[..needle]) + [host % 0x100]
    {
      frame[needle] := host % 0x100;
      needle := needle + 1;
    }

    method PutNumber2(frame: array<Octet>, host: Number2)
      requires needle + 2 <= frame.Length
      modifies `needle, frame
      ensures needle == old(needle) + 2
      ensures frame[..needle] == old(frame[..needle]) + Octets2(host)
    {
      frame[needle] := host / 0x100 % 0x100;
      frame[needle + 1] := host % 0x100;
      needle := needle + 2;
    }

    method PutNumber4(frame: array<Octet>, host: Number4)
      requires needle + 4 <= frame.Length
      modifies `needle, frame
      ensures needle == old(needle) + 4
      ensures frame[..needle] == old(frame[..needle]) + Octets4(host)
    {
      Octets4ByByte(host);
      frame[needle] := host / 0x100_0000 % 0x100;
      frame[needle + 1] := host / 0x1_0000 % 0x100;
      frame[needle + 2] := host / 0x100 % 0x100;
      frame[needle + 3] := host % 0x100;
      needle := needle + 4;
    }

    method PutString(frame: array<Octet>, host: Text)
      requires needle + 1 + |host| <= frame.Length
      modifies `needle, frame
      ensures needle == old(needle) + 1 + |host|
      ensures frame[..needle] == old(frame[..needle]) + ([|host|] + host)
    {
      PutNumber1(frame, |host|);
      forall i | 0 <= i < |host| {
        frame[needle + i] := host[i];
      }
      needle := needle + |host|;
    }

    method PutConnectionOpen(frame: array<Octet>)
      requires id == CONNECTION_OPEN
      requires needle + FrameSize(id, Values()) - 3 <= frame.Length
      modifies `needle, frame
      ensures needle == old(needle) + FrameSize(id, Values()) - 3
      ensures frame[..needle] == Extended(old(frame[..needle]), LayoutOf(id), Values())
    {
      PutString(frame, MALAMUTE);
      PutNumber2(frame, 1);
      PutString(frame, address);
    }

    method PutStreamName(frame: array<Octet>)
      requires id == STREAM_WRITE || id == STREAM_CANCEL
      requires needle + FrameSize(id, Values()) - 3 <= frame.Length
      modifies `needle, frame
      ensures needle == old(needle) + FrameSize(id, Values()) - 3
      ensures frame[..needle] == Extended(old(frame[..needle]), LayoutOf(id), Values())
    {
      PutString(frame, stream);
    }

    method PutStreamRead(frame: array<Octet>)
      requires id == STREAM_READ
      requires needle + FrameSize(id, Values()) - 3 <= frame.Length
      modifies `needle, frame
      ensures needle == old(needle) + FrameSize(id, Values()) - 3
      ensures frame[..needle] == Extended(old(frame[..needle]), LayoutOf(id), Values())
    {
      PutString(frame, stream);
      PutString(frame, pattern);
    }

    method PutStreamSend(frame: array<Octet>)
      requires id == STREAM_SEND
      requires needle + FrameSize(id, Values()) - 3 <= frame.Length
      modifies `needle, frame
      ensures needle == old(needle) + FrameSize(id, Values()) - 3
      ensures frame[..needle] == Extended(old(frame[..needle]), LayoutOf(id), Values())
    {
      PutString(frame, subject);
    }

    method PutStreamDeliver(frame: array<Octet>)
      requires id == STREAM_DELIVER
      requires needle + FrameSize(id, Values()) - 3 <= frame.Length
      modifies `needle, frame
      ensures needle == old(needle) + FrameSize(id, Values()) - 3
      ensures frame[..needle] == Extended(old(frame[..needle]), LayoutOf(id), Values())
    {
      PutString(frame, address);
      PutString(frame, sender);
      PutString(frame, subject);
    }

    method PutSubjectAndTracker(frame: array<Octet>)
      requires needle + TextSize(subject) + TextSize(tracker) <= frame.Length
      modifies `needle, frame
      ensures needle == old(needle) + TextSize(subject) + TextSize(tracker)
      ensures frame[..needle] == old(frame[..needle]) + EncodeItem(Subject, Values()) + EncodeItem(Tracker, Values())
    {
      PutString(frame, subject);
      PutString(frame, tracker);
    }

    method PutSend(frame: array<Octet>)
      requires id == MAILBOX_SEND || id == SERVICE_SEND
      requires needle + FrameSize(id, Values()) - 3 <= frame.Length
      modifies `needle, frame
      ensures needle == old(needle) + FrameSize(id, Values()) - 3
      ensures frame[..needle] == Extended(old(frame[..needle]), LayoutOf(id), Values())
    {
      hide Extended;
      FourItems(frame[..needle], Address, Subject, Tracker, Timeout, Values());
      PutString(frame, address);
      PutSubjectAndTracker(frame);
      PutNumber4(frame, timeout);
    }

    method PutDeliver(frame: array<Octet>)
      requires id == MAILBOX_DELIVER || id == SERVICE_DELIVER
      requires needle + FrameSize(id, Values()) - 3 <= frame.Length
      modifies `needle, frame
      ensures needle == old(needle) + FrameSize(id, Values()) - 3
      ensures frame[..needle] == Extended(old(frame[..needle]), LayoutOf(id), Values())
    {
      hide Extended;
      FourItems(frame[..needle], Sender, Address, Subject, Tracker, Values());
      PutString(frame, sender);
      PutString(frame, address);
      PutSubjectAndTracker(frame);
    }

    method PutServiceOffer(frame: array<Octet>)
      requires id == SERVICE_OFFER
      requires needle + FrameSize(id, Values()) - 3 <= frame.Length
      modifies `needle, frame
      ensures needle == old(needle) + FrameSize(id, Values()) - 3
      ensures frame[..needle] == Extended(old(frame[..needle]), LayoutOf(id), Values())
    {
      PutString(frame, address);
      PutString(frame, pattern);
    }

    method PutStatus(frame: array<Octet>)
      requires id == OK || id == ERROR
      requires needle + FrameSize(id, Values()) - 3 <= frame.Length
      modifies `needle, frame
      ensures needle == old(needle) + FrameSize(id, Values()) - 3
      ensures frame[..needle] == Extended(old(frame[..needle]), LayoutOf(id), Values())
    {
      PutNumber2(frame, statusCode);
      PutString(frame, statusReason);
    }

    method PutCredit(frame: array<Octet>)
      requires id == CREDIT
      requires needle + FrameSize(id, Values()) - 3 <= frame.Length
      modifies `needle, frame
      ensures needle == old(needle) + FrameSize(id, Values()) - 3
      ensures frame[..needle] == Extended(old(frame[..needle]), LayoutOf(id), Values())
    {
      PutNumber2(frame, amount);
    }

    method PutConfirm(frame: array<Octet>)
      requires id == CONFIRM
      requires needle + FrameSize(id, Values()) - 3 <= frame.Length
      modifies `needle, frame
      ensures needle == old(needle) + FrameSize(id, Values()) - 3
      ensures frame[..needle] == Extended(old(frame[..needle]), LayoutOf(id), Values())
    {
      PutString(frame, tracker);
      PutNumber2(frame, statusCode);
      PutString(frame, statusReason);
    }

    method PutBody(frame: array<Octet>)
      requires needle + FrameSize(id, Values()) - 3 <= frame.Length
      modifies `needle, frame
      ensures needle == old(needle) + FrameSize(id, Values()) - 3
      ensures frame[..needle] == Extended(old(frame[..needle]), LayoutOf(id), Values())
    {
      if id == CONNECTION_OPEN {
        PutConnectionOpen(frame);
      } else if id == STREAM_WRITE || id == STREAM_CANCEL {
        PutStreamName(frame);
      } else if id == STREAM_READ {
        PutStreamRead(frame);
      } else if id == STREAM_SEND {
        PutStreamSend(frame);
      } else if id == STREAM_DELIVER {
        PutStreamDeliver(frame);
      } else if id == MAILBOX_SEND || id == SERVICE_SEND {
        PutSend(frame);
      } else if id == MAILBOX_DELIVER || id == SERVICE_DELIVER {
        PutDeliver(frame);
      } else if id == SERVICE_OFFER {
        PutServiceOffer(frame);
      } else if id == OK || id == ERROR {
        PutStatus(frame);
      } else if id == CREDIT {
        PutCredit(frame);
      } else if id == CONFIRM {
        PutConfirm(frame);
      }
    }

    /** The data frame: allocated at the size computed beforehand, and filled to its last octet. */
    method PutFrame() returns (frame: array<Octet>)
      modifies `needle
      ensures fresh(frame) && needle == frame.Length && frame[..] == Encode(id, Values())
    {
      frame := new Octet[FrameSize(id, Values())];
      needle := 0;
      PutNumber2(frame, SIGNATURE);
      PutNumber1(frame, id);
      assert frame[..needle] == Header(id);
      PutBody(frame);
      ExtendedByLayout(Header(id), LayoutOf(id), Values());
    }

    /** The content frames, each flagged while frames are left to send; without content, one empty frame. */
    method SendContent(before: seq<Part>, left: nat) returns (parts: seq<Part>)
      requires HasContent(id) && left == |ContentFrames(View())|
      ensures parts == before + Flagged(ContentFrames(View()))
    {
      parts := before;
      var nbrFrames := left;
      if content.Frames? {
        var k := 0;
        while k < |content.frames|
          invariant k <= |content.frames| && nbrFrames == |content.frames| - k
          invariant parts + Flagged(content.frames[k..]) == before + Flagged(content.frames)
        {
          FlaggedFirst(parts, content.frames[k], content.frames[k + 1..]);
          assert content.frames[k..] == [content.frames[k]] + content.frames[k + 1..];
          nbrFrames := nbrFrames - 1;
          parts := parts + [Part(content.frames[k], nbrFrames != 0)];
          k := k + 1;
        }
      } else {
        parts := parts + [Part([], false)];
      }
    }

    method Send(router: bool) returns (parts: seq<Part>)
      modifies `needle
      ensures parts == Sent(View(), router)
    {
      parts := [];
      if router && routingId.Some? {
        parts := [Part(routingId.value, true)];
      }
      var frame := PutFrame();
      var haveContent := false;
      var nbrFrames := 1;
      if HasContent(id) {
        nbrFrames := nbrFrames + if content.Frames? then |content.frames| else 1;
        haveContent := true;
      }
      FlaggedFirst(parts, frame[..], ContentFrames(View()));
      nbrFrames := nbrFrames - 1;
      parts := parts + [Part(frame[..], nbrFrames != 0)];
      if haveContent {
        parts := SendContent(parts, nbrFrames);
      }
    }

    // -------------------------------------------------------------------------------------------
    // Reading

    method GetNumber1(b: seq<Octet>) returns (j: Jump, host: Octet)
      requires needle <= ceiling == |b|
      modifies `needle
      ensures if old(needle) + 1 > |b| then j == Malformed(0) && needle == old(needle)
              else j == Continue && needle == old(needle) + 1 && host == b[old(needle)]
    {
      if needle + 1 > ceiling {
        return Malformed(0), 0;
      }
      j, host := Continue, b[needle];
      needle := needle + 1;
    }

    method GetNumber2(b: seq<Octet>) returns (j: Jump, host: Number2)
      requires needle <= ceiling == |b|
      modifies `needle
      ensures if old(needle) + 2 > |b| then j == Malformed(0) && needle == old(needle)
              else j == Continue && needle == old(needle) + 2 && host == Value2(b, old(needle))
    {
      if needle + 2 > ceiling {
        return Malformed(0), 0;
      }
      var hi: int, lo: int := b[needle], b[needle + 1];
      j, host := Continue, hi * 0x100 + lo;
      needle := needle + 2;
    }

    method GetNumber4(b: seq<Octet>) returns (j: Jump, host: Number4)
      requires needle <= ceiling == |b|
      modifies `needle
      ensures if old(needle) + 4 > |b| then j == Malformed(0) && needle == old(needle)
              else j == Continue && needle == old(needle) + 4 && host == Value4(b, old(needle))
    {
      if needle + 4 > ceiling {
        return Malformed(0), 0;
      }
      var b0: int, b1: int, b2: int, b3: int := b[needle], b[needle + 1], b[needle + 2], b[needle + 3];
      j, host := Continue, b0 * 0x100_0000 + b1 * 0x1_0000 + b2 * 0x100 + b3;
      needle := needle + 4;
    }

    /** Copies a string and its terminator; the field then holds the string up to its first NUL. */
    method GetString(b: seq<Octet>) returns (j: Jump, host: Text)
      requires needle <= ceiling == |b|
      modifies `needle
      ensures var n := old(needle);
              if n + 1 > |b| then j == Malformed(0) && needle == n
              else if n + 1 + b[n] > |b| then j == Malformed(0) && needle == n + 1
              else j == Continue && needle == n + 1 + b[n] && host == UpToNul(b[n + 1..n + 1 + b[n]])
    {
      var stringSize: Octet;
      j, stringSize := GetNumber1(b);
      if j.Malformed? {
        return j, [];
      }
      if needle + stringSize > ceiling {
        return Malformed(0), [];
      }
      host := UpToNul(b[needle..needle + stringSize]);
      needle := needle + stringSize;
    }

    // One application of a GET macro for each item of a layout.

    method GetProtocol(b: seq<Octet>) returns (j: Jump)
      requires needle <= ceiling == |b|
      modifies `needle
      ensures var p := ParseItem(Protocol, old(Values()), b, old(needle)); Values() == p.f && needle == p.pos && j == JumpOf(p)
    {
      var protocol: Text;
      j, protocol := GetString(b);
      if j.Continue? && protocol != MALAMUTE {
        j := Malformed(-2);
      }
    }

    method GetVersion(b: seq<Octet>) returns (j: Jump)
      requires needle <= ceiling == |b|
      modifies `needle
      ensures var p := ParseItem(Version, old(Values()), b, old(needle)); Values() == p.f && needle == p.pos && j == JumpOf(p)
    {
      var version: Number2;
      j, version := GetNumber2(b);
      if j.Continue? && version != 1 {
        j := Malformed(-2);
      }
    }

    method GetAddress(b: seq<Octet>) returns (j: Jump)
      requires needle <= ceiling == |b|
      modifies `needle, `address
      ensures var p := ParseItem(Address, old(Values()), b, old(needle)); Values() == p.f && needle == p.pos && j == JumpOf(p)
    {
      var host: Text;
      j, host := GetString(b);
      if j.Continue? {
        address := host;
      }
    }

    method GetStream(b: seq<Octet>) returns (j: Jump)
      requires needle <= ceiling == |b|
      modifies `needle, `stream
      ensures var p := ParseItem(Stream, old(Values()), b, old(needle)); Values() == p.f && needle == p.pos && j == JumpOf(p)
    {
      var host: Text;
      j, host := GetString(b);
      if j.Continue? {
        stream := host;
      }
    }

    method GetPattern(b: seq<Octet>) returns (j: Jump)
      requires needle <= ceiling == |b|
      modifies `needle, `pattern
      ensures var p := ParseItem(Pattern, old(Values()), b, old(needle)); Values() == p.f && needle == p.pos && j == JumpOf(p)
    {
      var host: Text;
      j, host := GetString(b);
      if j.Continue? {
        pattern := host;
      }
    }

    method GetSubject(b: seq<Octet>) returns (j: Jump)
      requires needle <= ceiling == |b|
      modifies `needle, `subject
      ensures var p := ParseItem(Subject, old(Values()), b, old(needle)); Values() == p.f && needle == p.pos && j == JumpOf(p)
    {
      var host: Text;
      j, host := GetString(b);
      if j.Continue? {
        subject := host;
      }
    }

    method GetSender(b: seq<Octet>) returns (j: Jump)
      requires needle <= ceiling == |b|
      modifies `needle, `sender
      ensures var p := ParseItem(Sender, old(Values()), b, old(needle)); Values() == p.f && needle == p.pos && j == JumpOf(p)
    {
      var host: Text;
      j, host := GetString(b);
      if j.Continue? {
        sender := host;
      }
    }

    method GetTracker(b: seq<Octet>) returns (j: Jump)
      requires needle <= ceiling == |b|
      modifies `needle, `tracker
      ensures var p := ParseItem(Tracker, old(Values()), b, old(needle)); Values() == p.f && needle == p.pos && j == JumpOf(p)
    {
      var host: Text;
      j, host := GetString(b);
      if j.Continue? {
        tracker := host;
      }
    }

    method GetStatusReason(b: seq<Octet>) returns (j: Jump)
      requires needle <= ceiling == |b|
      modifies `needle, `statusReason
      ensures var p := ParseItem(StatusReason, old(Values()), b, old(needle)); Values() == p.f && needle == p.pos && j == JumpOf(p)
    {
      var host: Text;
      j, host := GetString(b);
      if j.Continue? {
        statusReason := host;
      }
    }

    method GetTimeout(b: seq<Octet>) returns (j: Jump)
      requires needle <= ceiling == |b|
      modifies `needle, `timeout
      ensures var p := ParseItem(Timeout, old(Values()), b, old(needle)); Values() == p.f && needle == p.pos && j == JumpOf(p)
    {
      var host: Number4;
      j, host := GetNumber4(b);
      if j.Continue? {
        timeout := host;
      }
    }

    method GetStatusCode(b: seq<Octet>) returns (j: Jump)
      requires needle <= ceiling == |b|
      modifies `needle, `statusCode
      ensures var p := ParseItem(StatusCode, old(Values()), b, old(needle)); Values() == p.f && needle == p.pos && j == JumpOf(p)
    {
      var host: Number2;
      j, host := GetNumber2(b);
      if j.Continue? {
        statusCode := host;
      }
    }

    method GetAmount(b: seq<Octet>) returns (j: Jump)
      requires needle <= ceiling == |b|
      modifies `needle, `amount
      ensures var p := ParseItem(Amount, old(Values()), b, old(needle)); Values() == p.f && needle == p.pos && j == JumpOf(p)
    {
      var host: Number2;
      j, host := GetNumber2(b);
      if j.Continue? {
        amount := host;
      }
    }

    // One case of the receiving switch for each layout.

    method GetConnectionOpen(b: seq<Octet>) returns (j: Jump)
      requires needle <= ceiling == |b| && (id == CONNECTION_OPEN)
      modifies `needle, `address
      ensures var p := ParseAll(LayoutOf(id), old(Values()), b, old(needle)); Values() == p.f && needle == p.pos && j == JumpOf(p)
    {
      hide ParseItem;
      ghost var l := LayoutOf(id);
      ParseFirst(l, Values(), b, needle);
      j := GetProtocol(b);
      if j.Malformed? {
        return;
      }
      assert ParseAll(l, old(Values()), b, old(needle)) == ParseAll(l.rest, Values(), b, needle);
      ParseFirst(l.rest, Values(), b, needle);
      j := GetVersion(b);
      if j.Malformed? {
        return;
      }
      assert ParseAll(l, old(Values()), b, old(needle)) == ParseAll(l.rest.rest, Values(), b, needle);
      ParseFirst(l.rest.rest, Values(), b, needle);
      j := GetAddress(b);
    }

    method GetStreamName(b: seq<Octet>) returns (j: Jump)
      requires needle <= ceiling == |b| && (id == STREAM_WRITE || id == STREAM_CANCEL)
      modifies `needle, `stream
      ensures var p := ParseAll(LayoutOf(id), old(Values()), b, old(needle)); Values() == p.f && needle == p.pos && j == JumpOf(p)
    {
      hide ParseItem;
      ghost var l := LayoutOf(id);
      ParseFirst(l, Values(), b, needle);
      j := GetStream(b);
    }

    method GetStreamRead(b: seq<Octet>) returns (j: Jump)
      requires needle <= ceiling == |b| && (id == STREAM_READ)
      modifies `needle, `stream, `pattern
      ensures var p := ParseAll(LayoutOf(id), old(Values()), b, old(needle)); Values() == p.f && needle == p.pos && j == JumpOf(p)
    {
      hide ParseItem;
      ghost var l := LayoutOf(id);
      ParseFirst(l, Values(), b, needle);
      j := GetStream(b);
      if j.Malformed? {
        return;
      }
      assert ParseAll(l, old(Values()), b, old(needle)) == ParseAll(l.rest, Values(), b, needle);
      ParseFirst(l.rest, Values(), b, needle);
      j := GetPattern(b);
    }

    method GetStreamSend(b: seq<Octet>) returns (j: Jump)
      requires needle <= ceiling == |b| && (id == STREAM_SEND)
      modifies `needle, `subject
      ensures var p := ParseAll(LayoutOf(id), old(Values()), b, old(needle)); Values() == p.f && needle == p.pos && j == JumpOf(p)
    {
      hide ParseItem;
      ghost var l := LayoutOf(id);
      ParseFirst(l, Values(), b, needle);
      j := GetSubject(b);
    }

    method GetStreamDeliver(b: seq<Octet>) returns (j: Jump)
      requires needle <= ceiling == |b| && (id == STREAM_DELIVER)
      modifies `needle, `address, `sender, `subject
      ensures var p := ParseAll(LayoutOf(id), old(Values()), b, old(needle)); Values() == p.f && needle == p.pos && j == JumpOf(p)
    {
      hide ParseItem;
      ghost var l := LayoutOf(id);
      ParseFirst(l, Values(), b, needle);
      j := GetAddress(b);
      if j.Malformed? {
        return;
      }
      assert ParseAll(l, old(Values()), b, old(needle)) == ParseAll(l.rest, Values(), b, needle);
      ParseFirst(l.rest, Values(), b, needle);
      j := GetSender(b);
      if j.Malformed? {
        return;
      }
      assert ParseAll(l, old(Values()), b, old(needle)) == ParseAll(l.rest.rest, Values(), b, needle);
      ParseFirst(l.rest.rest, Values(), b, needle);
      j := GetSubject(b);
    }

    method GetSend(b: seq<Octet>) returns (j: Jump)
      requires needle <= ceiling == |b| && (id == MAILBOX_SEND || id == SERVICE_SEND)
      modifies `needle, `address, `subject, `tracker, `timeout
      ensures var p := ParseAll(LayoutOf(id), old(Values()), b, old(needle)); Values() == p.f && needle == p.pos && j == JumpOf(p)
    {
      hide ParseItem;
      ghost var l := LayoutOf(id);
      ParseFirst(l, Values(), b, needle);
      j := GetAddress(b);
      if j.Malformed? {
        return;
      }
      assert ParseAll(l, old(Values()), b, old(needle)) == ParseAll(l.rest, Values(), b, needle);
      ParseFirst(l.rest, Values(), b, needle);
      j := GetSubject(b);
      if j.Malformed? {
        return;
      }
      assert ParseAll(l, old(Values()), b, old(needle)) == ParseAll(l.rest.rest, Values(), b, needle);
      ParseFirst(l.rest.rest, Values(), b, needle);
      j := GetTracker(b);
      if j.Malformed? {
        return;
      }
      assert ParseAll(l, old(Values()), b, old(needle)) == ParseAll(l.rest.rest.rest, Values(), b, needle);
      ParseFirst(l.rest.rest.rest, Values(), b, needle);
      j := GetTimeout(b);
    }

    method GetDeliver(b: seq<Octet>) returns (j: Jump)
      requires needle <= ceiling == |b| && (id == MAILBOX_DELIVER || id == SERVICE_DELIVER)
      modifies `needle, `sender, `address, `subject, `tracker
      ensures var p := ParseAll(LayoutOf(id), old(Values()), b, old(needle)); Values() == p.f && needle == p.pos && j == JumpOf(p)
    {
      hide ParseItem;
      ghost var l := LayoutOf(id);
      ParseFirst(l, Values(), b, needle);
      j := GetSender(b);
      if j.Malformed? {
        return;
      }
      assert ParseAll(l, old(Values()), b, old(needle)) == ParseAll(l.rest, Values(), b, needle);
      ParseFirst(l.rest, Values(), b, needle);
      j := GetAddress(b);
      if j.Malformed? {
        return;
      }
      assert ParseAll(l, old(Values()), b, old(needle)) == ParseAll(l.rest.rest, Values(), b, needle);
      ParseFirst(l.rest.rest, Values(), b, needle);
      j := GetSubject(b);
      if j.Malformed? {
        return;
      }
      assert ParseAll(l, old(Values()), b, old(needle)) == ParseAll(l.rest.rest.rest, Values(), b, needle);
      ParseFirst(l.rest.rest.rest, Values(), b, needle);
      j := GetTracker(b);
    }

    method GetServiceOffer(b: seq<Octet>) returns (j: Jump)
      requires needle <= ceiling == |b| && (id == SERVICE_OFFER)
      modifies `needle, `address, `pattern
      ensures var p := ParseAll(LayoutOf(id), old(Values()), b, old(needle)); Values() == p.f && needle == p.pos && j == JumpOf(p)
    {
      hide ParseItem;
      ghost var l := LayoutOf(id);
      ParseFirst(l, Values(), b, needle);
      j := GetAddress(b);
      if j.Malformed? {
        return;
      }
      assert ParseAll(l, old(Values()), b, old(needle)) == ParseAll(l.rest, Values(), b, needle);
      ParseFirst(l.rest, Values(), b, needle);
      j := GetPattern(b);
    }

    method GetStatus(b: seq<Octet>) returns (j: Jump)
      requires needle <= ceiling == |b| && (id == OK || id == ERROR)
      modifies `needle, `statusCode, `statusReason
      ensures var p := ParseAll(LayoutOf(id), old(Values()), b, old(needle)); Values() == p.f && needle == p.pos && j == JumpOf(p)
    {
      hide ParseItem;
      ghost var l := LayoutOf(id);
      ParseFirst(l, Values(), b, needle);
      j := GetStatusCode(b);
      if j.Malformed? {
        return;
      }
      assert ParseAll(l, old(Values()), b, old(needle)) == ParseAll(l.rest, Values(), b, needle);
      ParseFirst(l.rest, Values(), b, needle);
      j := GetStatusReason(b);
    }

    method GetCredit(b: seq<Octet>) returns (j: Jump)
      requires needle <= ceiling == |b| && (id == CREDIT)
      modifies `needle, `amount
      ensures var p := ParseAll(LayoutOf(id), old(Values()), b, old(needle)); Values() == p.f && needle == p.pos && j == JumpOf(p)
    {
      hide ParseItem;
      ghost var l := LayoutOf(id);
      ParseFirst(l, Values(), b, needle);
      j := GetAmount(b);
    }

    method GetConfirm(b: seq<Octet>) returns (j: Jump)
      requires needle <= ceiling == |b| && (id == CONFIRM)
      modifies `needle, `tracker, `statusCode, `statusReason
      ensures var p := ParseAll(LayoutOf(id), old(Values()), b, old(needle)); Values() == p.f && needle == p.pos && j == JumpOf(p)
    {
      hide ParseItem;
      ghost var l := LayoutOf(id);
      ParseFirst(l, Values(), b, needle);
      j := GetTracker(b);
      if j.Malformed? {
        return;
      }
      assert ParseAll(l, old(Values()), b, old(needle)) == ParseAll(l.rest, Values(), b, needle);
      ParseFirst(l.rest, Values(), b, needle);
      j := GetStatusCode(b);
      if j.Malformed? {
        return;
      }
      assert ParseAll(l, old(Values()), b, old(needle)) == ParseAll(l.rest.rest, Values(), b, needle);
      ParseFirst(l.rest.rest, Values(), b, needle);
      j := GetStatusReason(b);
    }

    method GetBody(b: seq<Octet>) returns (j: Jump)
      requires needle <= ceiling == |b|
      modifies `needle, `address, `stream, `pattern, `subject, `sender, `tracker, `timeout, `statusCode, `statusReason, `amount
      ensures var p := ParseAll(LayoutOf(id), old(Values()), b, old(needle)); Values() == p.f && needle == p.pos && j == JumpOf(p)
    {
      j := Continue;
      if id == CONNECTION_OPEN {
        j := GetConnectionOpen(b);
      } else if id == STREAM_WRITE || id == STREAM_CANCEL {
        j := GetStreamName(b);
      } else if id == STREAM_READ {
        j := GetStreamRead(b);
      } else if id == STREAM_SEND {
        j := GetStreamSend(b);
      } else if id == STREAM_DELIVER {
        j := GetStreamDeliver(b);
      } else if id == MAILBOX_SEND || id == SERVICE_SEND {
        j := GetSend(b);
      } else if id == MAILBOX_DELIVER || id == SERVICE_DELIVER {
        j := GetDeliver(b);
      } else if id == SERVICE_OFFER {
        j := GetServiceOffer(b);
      } else if id == OK || id == ERROR {
        j := GetStatus(b);
      } else if id == CREDIT {
        j := GetCredit(b);
      } else if id == CONFIRM {
        j := GetConfirm(b);
      }
    }

    /** Parses the fields, and takes the frames that follow as the content of the kinds that have one. */
    method ReadFields(b: seq<Octet>, rest: seq<seq<Octet>>) returns (rc: int, complete: bool, left: seq<seq<Octet>>)
      requires needle == 3 <= ceiling == |b|
      modifies this
      ensures Receipt(rc, complete, View(), left) == ReadBody(old(View()), b, rest)
      ensures needle <= ceiling == |b|
    {
      rc, complete, left := 0, false, rest;
      var j := GetBody(b);
      if j.Malformed? {
        rc := j.rc;
        return;
      }
      if HasContent(id) {
        content := Frames(rest);
        left := [];
      }
      complete := true;
    }

    /** Parses the data frame: signature, message id, and the rest by kind. */
    method ReadFrom(b: seq<Octet>, rest: seq<seq<Octet>>) returns (rc: int, complete: bool, left: seq<seq<Octet>>)
      modifies this
      ensures Receipt(rc, complete, View(), left) == ReadFrame(old(View()), b, rest)
      ensures needle <= ceiling == |b|
    {
      rc, complete, left := 0, false, rest;
      needle, ceiling := 0, |b|;
      var j, signature := GetNumber2(b);
      if j.Malformed? {
        return;
      }
      if signature != SIGNATURE {
        rc := -2;
        return;
      }
      var kind: Octet;
      j, kind := GetNumber1(b);
      if j.Malformed? {
        return;
      }
      id := kind;
      if !Known(id) {
        rc := -2;
        return;
      }
      rc, complete, left := ReadFields(b, rest);
    }

    method Recv(router: bool, parts: seq<seq<Octet>>) returns (rc: int, complete: bool, left: seq<seq<Octet>>)
      modifies this
      ensures Receipt(rc, complete, View(), left) == Received(old(View()), router, parts)
    {
      var rest := parts;
      if router {
        routingId := None;
      }
      if rest == [] {
        return -1, false, rest;
      }
      if router {
        routingId := Some(rest[0]);
        rest := rest[1..];
        if rest == [] {
          return -1, false, rest;
        }
      }
      rc, complete, left := ReadFrom(rest[0], rest[1..]);
    }
  }
}
