/** The 256-entry tables of the bitmap class (src/zbits.c:40-103), in rows of sixteen, and what they mean. */
module BitTables {
  import opened BitLogic

  /** How many bits are set in a byte. */
  const BIT_COUNT: seq<seq<nat>> := [
    [0, 1, 1, 2, 1, 2, 2, 3, 1, 2, 2, 3, 2, 3, 3, 4],
    [1, 2, 2, 3, 2, 3, 3, 4, 2, 3, 3, 4, 3, 4, 4, 5],
    [1, 2, 2, 3, 2, 3, 3, 4, 2, 3, 3, 4, 3, 4, 4, 5],
    [2, 3, 3, 4, 3, 4, 4, 5, 3, 4, 4, 5, 4, 5, 5, 6],
    [1, 2, 2, 3, 2, 3, 3, 4, 2, 3, 3, 4, 3, 4, 4, 5],
    [2, 3, 3, 4, 3, 4, 4, 5, 3, 4, 4, 5, 4, 5, 5, 6],
    [2, 3, 3, 4, 3, 4, 4, 5, 3, 4, 4, 5, 4, 5, 5, 6],
    [3, 4, 4, 5, 4, 5, 5, 6, 4, 5, 5, 6, 5, 6, 6, 7],
    [1, 2, 2, 3, 2, 3, 3, 4, 2, 3, 3, 4, 3, 4, 4, 5],
    [2, 3, 3, 4, 3, 4, 4, 5, 3, 4, 4, 5, 4, 5, 5, 6],
    [2, 3, 3, 4, 3, 4, 4, 5, 3, 4, 4, 5, 4, 5, 5, 6],
    [3, 4, 4, 5, 4, 5, 5, 6, 4, 5, 5, 6, 5, 6, 6, 7],
    [2, 3, 3, 4, 3, 4, 4, 5, 3, 4, 4, 5, 4, 5, 5, 6],
    [3, 4, 4, 5, 4, 5, 5, 6, 4, 5, 5, 6, 5, 6, 6, 7],
    [3, 4, 4, 5, 4, 5, 5, 6, 4, 5, 5, 6, 5, 6, 6, 7],
    [4, 5, 5, 6, 5, 6, 6, 7, 5, 6, 6, 7, 6, 7, 7, 8]
  ]

  /** Index of the first set bit. */
  const FIRST_BIT_ON: seq<seq<nat>> := [
    [0, 0, 1, 0, 2, 0, 1, 0, 3, 0, 1, 0, 2, 0, 1, 0],
    [4, 0, 1, 0, 2, 0, 1, 0, 3, 0, 1, 0, 2, 0, 1, 0],
    [5, 0, 1, 0, 2, 0, 1, 0, 3, 0, 1, 0, 2, 0, 1, 0],
    [4, 0, 1, 0, 2, 0, 1, 0, 3, 0, 1, 0, 2, 0, 1, 0],
    [6, 0, 1, 0, 2, 0, 1, 0, 3, 0, 1, 0, 2, 0, 1, 0],
    [4, 0, 1, 0, 2, 0, 1, 0, 3, 0, 1, 0, 2, 0, 1, 0],
    [5, 0, 1, 0, 2, 0, 1, 0, 3, 0, 1, 0, 2, 0, 1, 0],
    [4, 0, 1, 0, 2, 0, 1, 0, 3, 0, 1, 0, 2, 0, 1, 0],
    [7, 0, 1, 0, 2, 0, 1, 0, 3, 0, 1, 0, 2, 0, 1, 0],
    [4, 0, 1, 0, 2, 0, 1, 0, 3, 0, 1, 0, 2, 0, 1, 0],
    [5, 0, 1, 0, 2, 0, 1, 0, 3, 0, 1, 0, 2, 0, 1, 0],
    [4, 0, 1, 0, 2, 0, 1, 0, 3, 0, 1, 0, 2, 0, 1, 0],
    [6, 0, 1, 0, 2, 0, 1, 0, 3, 0, 1, 0, 2, 0, 1, 0],
    [4, 0, 1, 0, 2, 0, 1, 0, 3, 0, 1, 0, 2, 0, 1, 0],
    [5, 0, 1, 0, 2, 0, 1, 0, 3, 0, 1, 0, 2, 0, 1, 0],
    [4, 0, 1, 0, 2, 0, 1, 0, 3, 0, 1, 0, 2, 0, 1, 0]
  ]

  /** Index of the last set bit. */
  const LAST_BIT_ON: seq<seq<nat>> := [
    [0, 0, 1, 1, 2, 2, 2, 2, 3, 3, 3, 3, 3, 3, 3, 3],
    [4, 4, 4, 4, 4, 4, 4, 4, 4, 4, 4, 4, 4, 4, 4, 4],
    [5, 5, 5, 5, 5, 5, 5, 5, 5, 5, 5, 5, 5, 5, 5, 5],
    [5, 5, 5, 5, 5, 5, 5, 5, 5, 5, 5, 5, 5, 5, 5, 5],
    [6, 6, 6, 6, 6, 6, 6, 6, 6, 6, 6, 6, 6, 6, 6, 6],
    [6, 6, 6, 6, 6, 6, 6, 6, 6, 6, 6, 6, 6, 6, 6, 6],
    [6, 6, 6, 6, 6, 6, 6, 6, 6, 6, 6, 6, 6, 6, 6, 6],
    [6, 6, 6, 6, 6, 6, 6, 6, 6, 6, 6, 6, 6, 6, 6, 6],
    [7, 7, 7, 7, 7, 7, 7, 7, 7, 7, 7, 7, 7, 7, 7, 7],
    [7, 7, 7, 7, 7, 7, 7, 7, 7, 7, 7, 7, 7, 7, 7, 7],
    [7, 7, 7, 7, 7, 7, 7, 7, 7, 7, 7, 7, 7, 7, 7, 7],
    [7, 7, 7, 7, 7, 7, 7, 7, 7, 7, 7, 7, 7, 7, 7, 7],
    [7, 7, 7, 7, 7, 7, 7, 7, 7, 7, 7, 7, 7, 7, 7, 7],
    [7, 7, 7, 7, 7, 7, 7, 7, 7, 7, 7, 7, 7, 7, 7, 7],
    [7, 7, 7, 7, 7, 7, 7, 7, 7, 7, 7, 7, 7, 7, 7, 7],
    [7, 7, 7, 7, 7, 7, 7, 7, 7, 7, 7, 7, 7, 7, 7, 7]
  ]

  lemma FirstRows(h: nat, l: nat)
    requires h < 16 && l < 16
    ensures |FIRST_BIT_ON| == 16 && |FIRST_BIT_ON[h]| == 16
    ensures FIRST_BIT_ON[h][l] == if l > 0 then FIRST_BIT_ON[0][l] else if h > 0 then 4 + FIRST_BIT_ON[0][h] else 0
  {
  }
  lemma LastRows(h: nat, l: nat)
    requires h < 16 && l < 16
    ensures |LAST_BIT_ON| == 16 && |LAST_BIT_ON[h]| == 16
    ensures LAST_BIT_ON[h][l] == if h > 0 then 4 + LAST_BIT_ON[0][h] else LAST_BIT_ON[0][l]
  {
  }
  lemma CountRows(h: nat, l: nat)
    requires h < 16 && l < 16
    ensures |BIT_COUNT| == 16 && |BIT_COUNT[h]| == 16
    ensures BIT_COUNT[h][l] == BIT_COUNT[0][h] + BIT_COUNT[0][l]
  {
  }

  /** A byte by its two nibbles: row and column of a table. */
  lemma Nibbles(b: bv8)
    ensures b as nat / 16 == (b >> 4) as nat < 16 && b as nat % 16 == (b & 15) as nat < 16
    ensures b != 0 ==> b & 15 != 0 || b >> 4 != 0
  {
  }

  lemma NibbleBits(b: bv8, k: nat)
    requires k < 8
    ensures Bit(b, k) == if k < 4 then Bit(b & 15, k) else Bit(b >> 4, k - 4)
  {
  }

  lemma NibbleFirst(x: bv8)
    requires 0 < x < 16
    ensures |FIRST_BIT_ON| == 16 && |FIRST_BIT_ON[0]| == 16
    ensures var k := FIRST_BIT_ON[0][x as nat]; k < 4 && Bit(x, k) && forall j :: 0 <= j < k ==> !Bit(x, j)
  {
  }

  lemma NibbleLast(x: bv8)
    requires 0 < x < 16
    ensures |LAST_BIT_ON| == 16 && |LAST_BIT_ON[0]| == 16
    ensures var k := LAST_BIT_ON[0][x as nat]; k < 4 && Bit(x, k) && forall j :: k < j < 4 ==> !Bit(x, j)
  {
  }

  function Digit(bit: bool): nat {
    if bit then 1 else 0
  }

  lemma NibbleCount(x: bv8)
    requires x < 16
    ensures |BIT_COUNT| == 16 && |BIT_COUNT[0]| == 16
    ensures BIT_COUNT[0][x as nat] == Digit(Bit(x, 0)) + Digit(Bit(x, 1)) + Digit(Bit(x, 2)) + Digit(Bit(x, 3))
  {
  }

  function FirstOn(b: bv8): nat {
    FirstRows(b as nat / 16, b as nat % 16);
    FIRST_BIT_ON[b as nat / 16][b as nat % 16]
  }

  function LastOn(b: bv8): nat {
    LastRows(b as nat / 16, b as nat % 16);
    LAST_BIT_ON[b as nat / 16][b as nat % 16]
  }

  function CountOn(b: bv8): nat {
    CountRows(b as nat / 16, b as nat % 16);
    BIT_COUNT[b as nat / 16][b as nat % 16]
  }

  /** Number of set bits below position k. */
  function OnesBelow(b: bv8, k: nat): nat
    requires k <= 8
  {
    if k == 0 then 0 else OnesBelow(b, k - 1) + Digit(Bit(b, k - 1))
  }

  lemma FirstOnIsFirst(b: bv8)
    requires b != 0
    ensures FirstOn(b) < 8 && Bit(b, FirstOn(b)) && forall j :: 0 <= j < FirstOn(b) ==> !Bit(b, j)
  {
    Nibbles(b);
    FirstRows(b as nat / 16, b as nat % 16);
    if b & 15 != 0 {
      NibbleFirst(b & 15);
    } else {
      NibbleFirst(b >> 4);
    }
    forall k | 0 <= k < 8 { NibbleBits(b, k); }
  }

  lemma LastOnIsLast(b: bv8)
    requires b != 0
    ensures LastOn(b) < 8 && Bit(b, LastOn(b)) && forall j :: LastOn(b) < j < 8 ==> !Bit(b, j)
  {
    Nibbles(b);
    LastRows(b as nat / 16, b as nat % 16);
    if b >> 4 != 0 {
      NibbleLast(b >> 4);
    } else {
      NibbleLast(b & 15);
    }
    forall k | 0 <= k < 8 { NibbleBits(b, k); }
  }

  lemma CountOnCounts(b: bv8)
    ensures CountOn(b) == OnesBelow(b, 8)
  {
    hide Bit, Digit;
    Nibbles(b);
    CountRows(b as nat / 16, b as nat % 16);
    NibbleCount(b & 15);
    NibbleCount(b >> 4);
    LowOnes(b);
    HighOnes(b);
    OnesOfByte(b);
  }

  lemma LowOnes(b: bv8)
    ensures Digit(Bit(b & 15, 0)) + Digit(Bit(b & 15, 1)) + Digit(Bit(b & 15, 2)) + Digit(Bit(b & 15, 3)) ==
            Digit(Bit(b, 0)) + Digit(Bit(b, 1)) + Digit(Bit(b, 2)) + Digit(Bit(b, 3))
  {
    NibbleBits(b, 0); NibbleBits(b, 1); NibbleBits(b, 2); NibbleBits(b, 3);
  }

  lemma HighOnes(b: bv8)
    ensures Digit(Bit(b >> 4, 0)) + Digit(Bit(b >> 4, 1)) + Digit(Bit(b >> 4, 2)) + Digit(Bit(b >> 4, 3)) ==
            Digit(Bit(b, 4)) + Digit(Bit(b, 5)) + Digit(Bit(b, 6)) + Digit(Bit(b, 7))
  {
    NibbleBits(b, 4); NibbleBits(b, 5); NibbleBits(b, 6); NibbleBits(b, 7);
  }

  lemma OnesOfByte(b: bv8)
    ensures OnesBelow(b, 8) == Digit(Bit(b, 0)) + Digit(Bit(b, 1)) + Digit(Bit(b, 2)) + Digit(Bit(b, 3))
                               + Digit(Bit(b, 4)) + Digit(Bit(b, 5)) + Digit(Bit(b, 6)) + Digit(Bit(b, 7))
  {
    OnesStep(b, 0); OnesStep(b, 1); OnesStep(b, 2); OnesStep(b, 3);
    OnesStep(b, 4); OnesStep(b, 5); OnesStep(b, 6); OnesStep(b, 7);
  }

  lemma OnesStep(b: bv8, k: nat)
    requires k < 8
    ensures OnesBelow(b, k + 1) == OnesBelow(b, k) + Digit(Bit(b, k))
  {
  }
}
