/** The bitmap class (src/zbits.c): each method against the finite set the bitmap stands for. */
module Bitmaps {
  import opened BitLogic
  import opened BitTables
  import opened BitSets
  import opened BitWords

  class Zbits {
    const data: array<bv8>   // Data block
    const bits: nat          // Bitmap size in bits
    const size: nat          // Bitmap size in bytes
    var used: nat            // Number of bytes actually used
    var cursor: nat          // Cursor for first/next

    ghost predicate Shape() {
      bits == 8 * size && size % 8 == 0 && data.Length == size
    }

    ghost predicate Valid()
      reads this, data
    {
      && Shape()
      && used <= size
      && ZeroFrom(data[..], used)
      && (cursor < bits || cursor == 0)
    }

    ghost function Contents(): set<nat>
      reads data
    {
      Members(data[..])
    }

    constructor (n: nat)
      requires n % 64 == 0
      ensures Valid() && bits == n && fresh(data)
      ensures Contents() == {} && used == 0 && cursor == 0
    {
      data := new bv8[n / 8](_ => 0);
      bits, size, used, cursor := n, n / 8, 0, 0;
      new;
      ZeroTail(data[..], 0);
    }

    method Get(index: nat) returns (r: bool)
      requires Valid() && index < bits
      ensures r <==> index in Contents()
    {
      var byteNbr, bitNbr := index / 8, index % 8;
      r := data[byteNbr] & BIT_SET[bitNbr] != 0;
    }

    method Poke(n: nat, byte: bv8)
      requires Shape() && n < size
      modifies data
      ensures data[..] == old(data[..])[n := byte]
    {
      data[n] := byte;
    }

    method Set(index: nat)
      requires Valid() && index < bits
      modifies data, `used
      ensures Valid() && Contents() == old(Contents()) + {index}
      ensures used == if old(used) < index / 8 + 1 then index / 8 + 1 else old(used)
    {
      var byteNbr, bitNbr := index / 8, index % 8;
      var byte := data[byteNbr] | BIT_SET[bitNbr];
      SetMember(data[..], index, byte);
      SetRaises(data[..], used, byteNbr, byte, if used < byteNbr + 1 then byteNbr + 1 else used);
      Poke(byteNbr, byte);
      if used < byteNbr + 1 {
        used := byteNbr + 1;
      }
    }

    method Clear(index: nat)
      requires Valid() && index < bits
      modifies data
      ensures Valid() && Contents() == old(Contents()) - {index}
    {
      var byteNbr, bitNbr := index / 8, index % 8;
      var byte := data[byteNbr] & BIT_CLEAR[bitNbr];
      ClearMember(data[..], index, byte);
      Poke(byteNbr, byte);
    }

    /** Sets every byte of the data block from a position on. */
    method Fill(from: nat, value: bv8)
      requires Shape() && from <= size
      modifies data
      ensures data[..from] == old(data[..from])
      ensures forall k :: from <= k < size ==> data[..][k] == value
    {
      for i := from to size
        invariant forall k :: 0 <= k < from ==> data[k] == old(data[k])
        invariant forall k :: from <= k < i ==> data[k] == value
      {
        data[i] := value;
      }
    }

    method Erase()
      requires Valid()
      modifies data, `used
      ensures Valid() && Contents() == {} && used == 0
    {
      used := 0;
      Fill(0, 0);
      ZeroTail(data[..], 0);
    }

    method Ones() returns (bitsSet: nat)
      requires Valid()
      ensures bitsSet == |Contents()|
    {
      bitsSet := 0;
      var curSize := 0;
      while curSize < used
        invariant curSize <= used
        invariant bitsSet == |MembersBelow(data[..], 8 * curSize)|
      {
        CountStep(data[..], curSize);
        bitsSet := bitsSet + CountOn(data[curSize]);
        curSize := curSize + 1;
      }
      ZeroTail(data[..], used);
    }

    // -------------------------------------------------------------------------------------------
    // Eight bytes at a time

    /** Writes the eight bytes of a word. */
    method Store(at: nat, word: seq<bv8>)
      requires Shape() && at + 8 <= size && |word| == 8
      modifies data
      ensures data[..] == old(data[..at]) + word + old(data[at + 8..])
    {
      forall i | 0 <= i < 8 {
        data[at + i] := word[i];
      }
    }

    method AndWord(source: Zbits, at: nat, ghost was: seq<bv8>, ghost other: seq<bv8>)
      requires Shape() && source.Shape() && at + 8 <= size && at + 8 <= source.size
      requires if source == this then was == other else source.data != data && source.data[..] == other
      requires Combined(AndOp, data[..], was, other, at)
      modifies data
      ensures Combined(AndOp, data[..], was, other, at + 8)
    {
      ghost var d, now := data[..], source.data[..];
      var a, b := data[at..at + 8], source.data[at..at + 8];
      AndBytes(a, b);
      Store(at, Bytes(Word(a) & Word(b)));
      WordStep(AndOp, d, data[..], was, other, now, at);
    }

    method OrWord(source: Zbits, at: nat, ghost was: seq<bv8>, ghost other: seq<bv8>)
      requires Shape() && source.Shape() && at + 8 <= size && at + 8 <= source.size
      requires if source == this then was == other else source.data != data && source.data[..] == other
      requires Combined(OrOp, data[..], was, other, at)
      modifies data
      ensures Combined(OrOp, data[..], was, other, at + 8)
    {
      ghost var d, now := data[..], source.data[..];
      var a, b := data[at..at + 8], source.data[at..at + 8];
      OrBytes(a, b);
      Store(at, Bytes(Word(a) | Word(b)));
      WordStep(OrOp, d, data[..], was, other, now, at);
    }

    method XorWord(source: Zbits, at: nat, ghost was: seq<bv8>, ghost other: seq<bv8>)
      requires Shape() && source.Shape() && at + 8 <= size && at + 8 <= source.size
      requires if source == this then was == other else source.data != data && source.data[..] == other
      requires Combined(XorOp, data[..], was, other, at)
      modifies data
      ensures Combined(XorOp, data[..], was, other, at + 8)
    {
      ghost var d, now := data[..], source.data[..];
      var a, b := data[at..at + 8], source.data[at..at + 8];
      XorBytes(a, b);
      Store(at, Bytes(Word(a) ^ Word(b)));
      WordStep(XorOp, d, data[..], was, other, now, at);
    }

    method NotWord(at: nat, ghost was: seq<bv8>)
      requires Shape() && at + 8 <= size && Combined(NotOp, data[..], was, was, at)
      modifies data
      ensures Combined(NotOp, data[..], was, was, at + 8)
    {
      ghost var d := data[..];
      var a := data[at..at + 8];
      NotBytes(a);
      Store(at, Bytes(!Word(a)));
      WordStep(NotOp, d, data[..], was, was, d, at);
    }

    // A bitmap may be combined with itself.

    /** The loop over words: the first dataSize bytes, rounded up to a word, are combined. */
    method AndWords(source: Zbits, dataSize: nat) returns (curSize: nat)
      requires Shape() && source.Shape() && dataSize <= size && dataSize <= source.size
      requires source == this || source.data != data
      modifies data
      ensures dataSize <= curSize && Combined(AndOp, data[..], old(data[..]), old(source.data[..]), curSize)
    {
      hide AndOp, Combined;
      ghost var was, other := data[..], source.data[..];
      NoneCombined(AndOp, was, other);
      curSize := 0;
      while curSize < dataSize
        invariant curSize % 8 == 0 && Combined(AndOp, data[..], was, other, curSize)
        invariant source == this || source.data[..] == other
      {
        WholeWords(dataSize, curSize, size);
        WholeWords(dataSize, curSize, source.size);
        AndWord(source, curSize, was, other);
        curSize := curSize + 8;
      }
    }

    method And(source: Zbits)
      requires Valid() && source.Valid() && source.used <= size
      requires source == this || source.data != data
      modifies data
      ensures Valid() && Contents() == old(Contents()) * old(source.Contents())
    {
      var dataSize := if used < source.used then used else source.used;
      ghost var was, other := data[..], source.data[..];
      var curSize := AndWords(source, dataSize);
      ghost var d := data[..];
      Fill(curSize, 0);
      AndDone(d, data[..], was, other, curSize, used, source.used);
    }

    /** The loop over words: the first dataSize bytes, rounded up to a word, are combined, unless the source bitmap ends
        before; the loop then reads past its end. */
    method OrWords(source: Zbits, dataSize: nat) returns (curSize: nat, past: bool)
      requires Shape() && source.Shape() && dataSize <= size
      requires source == this || source.data != data
      modifies data
      ensures past <==> dataSize > source.size
      ensures !past ==> dataSize <= curSize && Combined(OrOp, data[..], old(data[..]), old(source.data[..]), curSize)
    {
      hide OrOp, Combined;
      ghost var was, other := data[..], source.data[..];
      NoneCombined(OrOp, was, other);
      curSize := 0;
      while curSize < dataSize
        invariant curSize % 8 == 0 && curSize <= source.size && Combined(OrOp, data[..], was, other, curSize)
        invariant source == this || source.data[..] == other
      {
        if curSize == source.size {
          return curSize, true;
        }
        WholeWords(dataSize, curSize, size);
        WholeWords(source.size, curSize, source.size);
        OrWord(source, curSize, was, other);
        curSize := curSize + 8;
      }
      past := false;
    }

    method Or(source: Zbits) returns (past: bool)
      requires Valid() && source.Valid() && source.used <= size
      requires source == this || source.data != data
      modifies data, `used
      ensures past <==> old(used) > source.size
      ensures used == if past || old(used) > old(source.used) then old(used) else old(source.used)
      ensures !past ==> Valid() && Contents() == old(Contents()) + old(source.Contents())
    {
      var dataSize := if used > source.used then used else source.used;
      ghost var was, other := data[..], source.data[..];
      var curSize;
      curSize, past := OrWords(source, dataSize);
      if past {
        return;
      }
      OrDone(data[..], was, other, curSize, used, source.used, dataSize);
      used := dataSize;
    }

    /** The loop over words: the first dataSize bytes, rounded up to a word, are combined, unless the source bitmap ends
        before; the loop then reads past its end. */
    method XorWords(source: Zbits, dataSize: nat) returns (curSize: nat, past: bool)
      requires Shape() && source.Shape() && dataSize <= size
      requires source == this || source.data != data
      modifies data
      ensures past <==> dataSize > source.size
      ensures !past ==> dataSize <= curSize && Combined(XorOp, data[..], old(data[..]), old(source.data[..]), curSize)
    {
      hide XorOp, Combined;
      ghost var was, other := data[..], source.data[..];
      NoneCombined(XorOp, was, other);
      curSize := 0;
      while curSize < dataSize
        invariant curSize % 8 == 0 && curSize <= source.size && Combined(XorOp, data[..], was, other, curSize)
        invariant source == this || source.data[..] == other
      {
        if curSize == source.size {
          return curSize, true;
        }
        WholeWords(dataSize, curSize, size);
        WholeWords(source.size, curSize, source.size);
        XorWord(source, curSize, was, other);
        curSize := curSize + 8;
      }
      past := false;
    }

    method Xor(source: Zbits) returns (past: bool)
      requires Valid() && source.Valid() && source.used <= size
      requires source == this || source.data != data
      modifies data, `used
      ensures past <==> old(used) > source.size
      ensures used == if past || old(used) > old(source.used) then old(used) else old(source.used)
      ensures !past ==> Valid() && Contents() == (old(Contents()) - old(source.Contents())) + (old(source.Contents()) - old(Contents()))
    {
      var dataSize := if used > source.used then used else source.used;
      ghost var was, other := data[..], source.data[..];
      var curSize;
      curSize, past := XorWords(source, dataSize);
      if past {
        return;
      }
      XorDone(data[..], was, other, curSize, used, source.used, dataSize);
      used := dataSize;
    }

    method NotWords(dataSize: nat) returns (curSize: nat)
      requires Shape() && dataSize <= size
      modifies data
      ensures dataSize <= curSize && Combined(NotOp, data[..], old(data[..]), old(data[..]), curSize)
    {
      hide NotOp, Combined;
      ghost var was := data[..];
      NoneCombined(NotOp, was, was);
      curSize := 0;
      while curSize < dataSize
        invariant curSize % 8 == 0 && Combined(NotOp, data[..], was, was, curSize)
      {
        WholeWords(dataSize, curSize, size);
        NotWord(curSize, was);
        curSize := curSize + 8;
      }
    }

    method Not()
      requires Valid()
      modifies data, `used
      ensures Valid() && Contents() == Indices(bits) - old(Contents()) && used == size
    {
      ghost var was := data[..];
      var curSize := NotWords(used);
      ghost var d := data[..];
      Fill(curSize, 0xFF);
      NotDone(d, data[..], was, curSize, used);
      used := size;
    }

    // -------------------------------------------------------------------------------------------
    // Searching: past means that the loop reads a byte behind the data block, and nothing is said about the answer

    /** Passes the bytes with nothing above c, up to the watermark. */
    method SkipClear(c: nat) returns (byteNbr: nat, curByte: bv8, past: bool)
      requires Valid() && c < bits
      ensures past <==> !StaysInside(data[..], used, c)
      ensures c / 8 <= byteNbr < size && Ahead(data[..], c, byteNbr, curByte)
      ensures !past ==> curByte != 0 || byteNbr >= used
    {
      hide Ahead, FirstOn, Members;
      byteNbr := c / 8;
      var bitNbr := c % 8;
      curByte := data[byteNbr] & CLEAR_TRAILING[bitNbr];
      StartAhead(data[..], c);
      while curByte == 0 && byteNbr < used
        invariant c / 8 <= byteNbr < size && Ahead(data[..], c, byteNbr, curByte)
        decreases used - byteNbr
      {
        PassAhead(data[..], c, byteNbr);
        if byteNbr + 1 == size {
          NothingBehindEnd(data[..], c);
          return byteNbr, curByte, true;
        }
        byteNbr := byteNbr + 1;
        curByte := data[byteNbr];
      }
      past := false;
      if curByte != 0 {
        FoundAhead(data[..], c, byteNbr, curByte);
      }
    }

    method Next() returns (r: int, past: bool)
      requires Valid() && cursor < bits
      modifies `cursor
      ensures Valid() && (past <==> used == size && forall m <- Contents() :: m <= old(cursor))
      ensures !past ==> IsNext(Contents(), old(cursor), r)
      ensures cursor == if !past && r >= 0 then r else old(cursor)
    {
      hide Ahead, IsNext, FirstOn;
      ghost var s := Contents();
      var byteNbr, curByte;
      byteNbr, curByte, past := SkipClear(cursor);
      if past {
        return -1, true;
      }
      if curByte > 0 {
        FoundAhead(data[..], cursor, byteNbr, curByte);
        cursor := byteNbr * 8 + FirstOn(curByte);
        r := cursor;
        assert Contents() == s;
      } else {
        NoneAhead(data[..], cursor, byteNbr, used);
        r := -1;
      }
    }

    method Prev() returns (r: int)
      requires Valid() && cursor < bits
      modifies `cursor
      ensures Valid() && IsPrev(Contents(), old(cursor), r)
      ensures cursor == if r >= 0 then r else old(cursor)
    {
      hide Behind, LastOn;
      ghost var d := data[..];
      var byteNbr, bitNbr := cursor / 8, cursor % 8;
      var curByte := data[byteNbr] & CLEAR_LEADING[bitNbr];
      StartBehind(d, cursor);
      while curByte == 0 && byteNbr > 0
        invariant byteNbr <= cursor / 8
        invariant cursor == old(cursor) && Behind(d, cursor, byteNbr, curByte)
        decreases byteNbr
      {
        PassBehind(d, cursor, byteNbr);
        byteNbr := byteNbr - 1;
        curByte := data[byteNbr];
      }
      if curByte > 0 {
        FoundBehind(d, cursor, byteNbr, curByte);
        cursor := byteNbr * 8 + LastOn(curByte);
        return cursor;
      } else {
        NoneBehind(d, cursor);
        return -1;
      }
    }

    method First() returns (r: int, past: bool)
      requires Valid() && bits > 0
      modifies `cursor
      ensures Valid() && (past <==> used == size && Contents() == {})
      ensures !past ==> IsNext(Contents(), -1, r)
      ensures cursor == if !past && r >= 0 then r else 0
    {
      cursor, past := 0, false;
      var here := Get(cursor);
      if here {
        r := cursor;
      } else {
        r, past := Next();
      }
    }

    /** The greatest member, or -1 when there is none: exactly when the top bit is not set. */
    method Last() returns (r: int)
      requires Valid() && bits > 0
      modifies `cursor
      ensures Valid()
      ensures IsPrev(Contents(), bits, r) <==> bits - 1 !in Contents()
      ensures bits - 1 in Contents() ==> r == 0 && cursor == bits - 1
    {
      cursor := bits - 1;
      var top := Get(cursor);
      if top {
        r := 0;
      } else {
        r := Prev();
      }
    }

    /** Passes the bytes with no zero from c on, up to the watermark. */
    method SkipFull(c: nat) returns (byteNbr: nat, curByte: bv8, past: bool)
      requires Valid() && c < bits
      ensures past <==> forall i: nat :: c <= i < bits ==> i in Contents()
      ensures c / 8 <= byteNbr < size && Full(data[..], c, byteNbr, curByte)
      ensures !past ==> curByte != 255
    {
      hide Full, FirstOn, Members;
      byteNbr := c / 8;
      var bitNbr := c % 8;
      curByte := data[byteNbr] | SET_TRAILING[bitNbr];
      StartFull(data[..], c);
      while curByte == 255 && byteNbr < used
        invariant c / 8 <= byteNbr < size && Full(data[..], c, byteNbr, curByte)
        decreases used - byteNbr
      {
        PassFull(data[..], c, byteNbr);
        if byteNbr + 1 == size {
          return byteNbr, curByte, true;
        }
        byteNbr := byteNbr + 1;
        curByte := data[byteNbr];
      }
      past := false;
      if byteNbr >= used {
        BeyondIsFree(data[..], c, byteNbr, used, curByte);
      }
      FoundFree(data[..], c, byteNbr, curByte);
      ghost var free: nat := 8 * byteNbr + FirstOn(255 - curByte);
      assert free !in Contents();
    }

    method NextZero() returns (r: int, past: bool)
      requires Valid() && cursor < bits
      modifies `cursor
      ensures Valid() && (past <==> forall i: nat :: old(cursor) <= i < bits ==> i in Contents())
      ensures !past ==> IsFree(Contents(), old(cursor), r) && r < bits && cursor == r
      ensures past ==> cursor == old(cursor)
    {
      hide Full, IsFree, FirstOn;
      ghost var s := Contents();
      var byteNbr, curByte;
      byteNbr, curByte, past := SkipFull(cursor);
      if past {
        return -1, true;
      }
      if curByte < 255 {
        FoundFree(data[..], cursor, byteNbr, curByte);
        cursor := byteNbr * 8 + FirstOn(255 - curByte);
        r := cursor;
        assert Contents() == s;
      } else {
        r := -1;
      }
    }

    method FirstZero() returns (r: int, past: bool)
      requires Valid() && bits > 0
      modifies `cursor
      ensures Valid() && (past <==> Contents() == Indices(bits))
      ensures !past ==> IsFree(Contents(), 0, r) && r < bits && cursor == r
    {
      cursor, past := 0, false;
      var here := Get(cursor);
      if !here {
        r := cursor;
      } else {
        r, past := NextZero();
      }
    }

    /** Takes the least free index, and only that one; in a full bitmap the search leaves the data block. */
    method Insert() returns (bit: int, past: bool)
      requires Valid() && bits > 0
      modifies data, `used, `cursor
      ensures Valid() && (past <==> old(Contents()) == Indices(bits))
      ensures !past ==> IsFree(old(Contents()), 0, bit) && bit < bits && Contents() == old(Contents()) + {bit}
      ensures past ==> Contents() == old(Contents())
    {
      bit, past := FirstZero();
      if !past && bit >= 0 {
        Set(bit);
      }
    }
  }
}
