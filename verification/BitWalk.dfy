/** Walking over a bitmap with first, next and prev, and bitmaps on which a search leaves the data block. */
module BitWalks {
  import opened BitLogic
  import opened BitSets
  import opened BitRuns
  import opened Bitmaps

  /** First, and then next until -1: the answers are an ascent through all members. The last search leaves the data
      block exactly when every byte is in use; the members have all been listed by then. */
  method ListMembers(b: Zbits) returns (w: seq<int>, past: bool)
    requires b.Valid() && b.bits > 0
    modifies b`cursor
    ensures b.Valid() && (past <==> b.used == b.size)
    ensures Ascent(b.Contents(), -1, if past then w + [-1] else w)
  {
    hide IsNext;
    ghost var s := b.Contents();
    var r;
    r, past := b.First();
    assert b.Contents() == s;
    w := if past then [] else [r];
    NothingAbove(s, -1, r, past, b.used == b.size);
    AscentStarts(s, if past then -1 else r);
    while !past && r != -1
      invariant b.Valid() && b.Contents() == s && (!past && r != -1 ==> b.cursor == r && 0 <= r < b.bits)
      invariant past || r == -1 ==> Ascent(s, -1, if past then w + [-1] else w) && (past <==> b.used == b.size)
      invariant !past && r != -1 ==> forall rest :: Ascent(s, r, rest) ==> Ascent(s, -1, w + rest)
      decreases if past || r == -1 then -1 else b.bits - r
    {
      ghost var last, before := r, w;
      r, past := b.Next();
      assert b.Contents() == s;
      w := if past then w else w + [r];
      NothingAbove(s, last, r, past, b.used == b.size);
      AscentGoesOn(s, last, if past then -1 else r, before);
    }
  }

  /** A search that leaves the block has found nothing, and one that answers -1 inside it had a byte unused. */
  lemma NothingAbove(s: set<nat>, c: int, r: int, past: bool, full: bool)
    requires c >= -1 && (past <==> full && forall m <- s :: m <= c) && (!past ==> IsNext(s, c, r))
    ensures past ==> IsNext(s, c, -1)
    ensures !past && r == -1 ==> !full
    ensures !past && r != -1 ==> r > c && r in s
  {
  }

  lemma AscentStarts(s: set<nat>, r: int)
    requires IsNext(s, -1, r)
    ensures r == -1 ==> Ascent(s, -1, [r])
    ensures r != -1 ==> forall rest :: Ascent(s, r, rest) ==> Ascent(s, -1, [r] + rest)
  {
    forall rest | r != -1 && Ascent(s, r, rest) ensures Ascent(s, -1, [r] + rest) {
      assert ([r] + rest)[1..] == rest;
    }
  }

  lemma AscentGoesOn(s: set<nat>, last: int, r: int, w: seq<int>)
    requires last != -1 && IsNext(s, last, r)
    requires forall rest :: Ascent(s, last, rest) ==> Ascent(s, -1, w + rest)
    ensures r == -1 ==> Ascent(s, -1, w + [r])
    ensures r != -1 ==> forall rest :: Ascent(s, r, rest) ==> Ascent(s, -1, (w + [r]) + rest)
  {
    if r == -1 {
      assert Ascent(s, last, [r]);
    } else {
      forall rest | Ascent(s, r, rest) ensures Ascent(s, -1, (w + [r]) + rest) {
        assert ([r] + rest)[1..] == rest;
        assert Ascent(s, last, [r] + rest);
        assert w + ([r] + rest) == (w + [r]) + rest;
      }
    }
  }

  /** Prev until -1, from any cursor: a descent through the members below it. */
  method ListMembersBelow(b: Zbits) returns (w: seq<int>)
    requires b.Valid() && b.cursor < b.bits
    modifies b`cursor
    ensures b.Valid() && Descent(b.Contents(), old(b.cursor), w)
  {
    ghost var s, c := b.Contents(), b.cursor;
    var r := b.Prev();
    w := [r];
    DescentStarts(s, c, r);
    while r != -1
      invariant b.Valid() && b.Contents() == s && (r != -1 ==> b.cursor == r && 0 <= r < b.bits)
      invariant r == -1 ==> Descent(s, c, w)
      invariant r != -1 ==> forall rest :: Descent(s, r, rest) ==> Descent(s, c, w + rest)
      decreases r
    {
      ghost var last, before := r, w;
      r := b.Prev();
      w := w + [r];
      DescentGoesOn(s, c, last, r, before);
    }
  }

  lemma DescentStarts(s: set<nat>, c: int, r: int)
    requires IsPrev(s, c, r)
    ensures r == -1 ==> Descent(s, c, [r])
    ensures r != -1 ==> forall rest :: Descent(s, r, rest) ==> Descent(s, c, [r] + rest)
  {
    forall rest | r != -1 && Descent(s, r, rest) ensures Descent(s, c, [r] + rest) {
      assert ([r] + rest)[1..] == rest;
    }
  }

  lemma DescentGoesOn(s: set<nat>, c: int, last: int, r: int, w: seq<int>)
    requires last != -1 && IsPrev(s, last, r)
    requires forall rest :: Descent(s, last, rest) ==> Descent(s, c, w + rest)
    ensures r == -1 ==> Descent(s, c, w + [r])
    ensures r != -1 ==> forall rest :: Descent(s, r, rest) ==> Descent(s, c, (w + [r]) + rest)
  {
    if r == -1 {
      assert Descent(s, last, [r]);
    } else {
      forall rest | Descent(s, r, rest) ensures Descent(s, c, (w + [r]) + rest) {
        assert ([r] + rest)[1..] == rest;
        assert Descent(s, last, [r] + rest);
        assert w + ([r] + rest) == (w + [r]) + rest;
      }
    }
  }

  // ---------------------------------------------------------------------------------------------
  // Reachable bitmaps on which a search leaves the data block

  /** With its top bit set and found, a bitmap of 64 bits has every byte in use: the next search leaves the block. */
  method TopBitFound() returns (b: Zbits, past: bool)
    ensures fresh(b) && b.Valid() && b.bits == 64 && b.Contents() == {63} && b.cursor == 63
    ensures past
  {
    b := new Zbits(64);
    b.Set(63);
    var r;
    r, past := b.First();
    assert 63 in b.Contents();
    r, past := b.Next();
  }

  /** A bitmap that has been inverted when empty is full: the insert that should answer -1 leaves the block. */
  method AllBitsSet() returns (b: Zbits, past: bool)
    ensures fresh(b) && b.Valid() && b.bits == 64 && b.Contents() == Indices(64)
    ensures past
  {
    hide Members, Indices;
    b := new Zbits(64);
    b.Not();
    var bit;
    bit, past := b.Insert();
  }
}
