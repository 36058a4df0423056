/** Bits, bytes and words of the bitmap class (src/zbits.c): the 8-entry tables and the masks. */
module BitLogic {
  /** Lookup for the value of a byte when the nth bit is set, or cleared. */
  const BIT_SET: seq<bv8> := [0x01, 0x02, 0x04, 0x08, 0x10, 0x20, 0x40, 0x80]
  const BIT_CLEAR: seq<bv8> := [0xFE, 0xFD, 0xFB, 0xF7, 0xEF, 0xDF, 0xBF, 0x7F]

  predicate Bit(b: bv8, k: nat)
    requires k < 8
  {
    b & BIT_SET[k] != 0
  }

  // ---------------------------------------------------------------------------------------------
  // Bits of changed and masked bytes

  /** The mask that clears bits 0..n of a byte, or sets them to look for a zero. */
  const CLEAR_TRAILING: seq<bv8> := [254, 252, 248, 240, 224, 192, 128, 0]
  const CLEAR_LEADING: seq<bv8> := [0, 1, 3, 7, 15, 31, 63, 127]
  const SET_TRAILING: seq<bv8> := [0, 1, 3, 7, 15, 31, 63, 127]

  lemma SetBit(b: bv8, n: nat, k: nat)
    requires n < 8 && k < 8
    ensures Bit(b | BIT_SET[n], k) == (Bit(b, k) || k == n)
  {
  }

  lemma OtherBit(n: bv8, k: bv8, b: bv8)
    requires n == 1 || n == 2 || n == 4 || n == 8 || n == 16 || n == 32 || n == 64 || n == 128
    requires k == 1 || k == 2 || k == 4 || k == 8 || k == 16 || k == 32 || k == 64 || k == 128
    ensures (b & !n & k != 0) == (b & k != 0 && k != n)
  {
  }

  lemma ClearBit(b: bv8, n: nat, k: nat)
    requires n < 8 && k < 8
    ensures Bit(b & BIT_CLEAR[n], k) == (Bit(b, k) && k != n)
  {
    assert BIT_CLEAR[n] == !BIT_SET[n];
    OtherBit(BIT_SET[n], BIT_SET[k], b);
  }

  lemma ClearTrailing(b: bv8, n: nat, k: nat)
    requires n < 8 && k < 8
    ensures Bit(b & CLEAR_TRAILING[n], k) == (Bit(b, k) && k > n)
  {
  }

  lemma ClearLeading(b: bv8, n: nat, k: nat)
    requires n < 8 && k < 8
    ensures Bit(b & CLEAR_LEADING[n], k) == (Bit(b, k) && k < n)
  {
  }

  lemma SetTrailing(b: bv8, n: nat, k: nat)
    requires n < 8 && k < 8
    ensures Bit(b | SET_TRAILING[n], k) == (Bit(b, k) || k < n)
  {
  }

  lemma BitAnd(a: bv8, b: bv8, k: nat)
    requires k < 8
    ensures Bit(a & b, k) == (Bit(a, k) && Bit(b, k))
  {
  }

  lemma BitOr(a: bv8, b: bv8, k: nat)
    requires k < 8
    ensures Bit(a | b, k) == (Bit(a, k) || Bit(b, k))
  {
  }

  lemma OneBitMask(m: bv8, a: bv8, b: bv8)
    requires m == 1 || m == 2 || m == 4 || m == 8 || m == 16 || m == 32 || m == 64 || m == 128
    ensures ((a ^ b) & m != 0) == ((a & m != 0) != (b & m != 0))
  {
  }

  lemma BitXor(a: bv8, b: bv8, k: nat)
    requires k < 8
    ensures Bit(a ^ b, k) == (Bit(a, k) != Bit(b, k))
  {
    OneBitMask(BIT_SET[k], a, b);
  }

  lemma BitNot(a: bv8, k: nat)
    requires k < 8
    ensures Bit(!a, k) == !Bit(a, k)
  {
  }

  /** 255 - b complements a byte. */
  lemma Complement(a: bv8)
    ensures 255 - a == !a
  {
  }

  // ---------------------------------------------------------------------------------------------
  // Words of eight bytes

  /** The 64-bit word stored in eight bytes, and the bytes of a word. */
  function Word(d: seq<bv8>): bv64
    requires |d| == 8
  {
    d[0] as bv64 | (d[1] as bv64 << 8) | (d[2] as bv64 << 16) | (d[3] as bv64 << 24)
    | (d[4] as bv64 << 32) | (d[5] as bv64 << 40) | (d[6] as bv64 << 48) | (d[7] as bv64 << 56)
  }

  function Octet(w: bv64): bv8 {
    (w & 0xFF) as bv8
  }

  function Bytes(w: bv64): seq<bv8> {
    [Octet(w), Octet(w >> 8), Octet(w >> 16), Octet(w >> 24), Octet(w >> 32), Octet(w >> 40), Octet(w >> 48), Octet(w >> 56)]
  }

  function AndOp(x: bv8, y: bv8): bv8 { x & y }
  function OrOp(x: bv8, y: bv8): bv8 { x | y }
  function XorOp(x: bv8, y: bv8): bv8 { x ^ y }
  function NotOp(x: bv8, y: bv8): bv8 { !x }

  /** Eight bytes combined one by one. */
  function Each(op: (bv8, bv8) -> bv8, a: seq<bv8>, b: seq<bv8>): seq<bv8>
    requires |a| == |b| == 8
  {
    [op(a[0], b[0]), op(a[1], b[1]), op(a[2], b[2]), op(a[3], b[3]), op(a[4], b[4]), op(a[5], b[5]), op(a[6], b[6]), op(a[7], b[7])]
  }

  lemma EachAt(op: (bv8, bv8) -> bv8, a: seq<bv8>, b: seq<bv8>, k: nat)
    requires |a| == |b| == 8 && k < 8
    ensures Each(op, a, b)[k] == op(a[k], b[k])
  {
  }

  lemma AndBytes(a: seq<bv8>, b: seq<bv8>)
    requires |a| == |b| == 8
    ensures Bytes(Word(a) & Word(b)) == Each(AndOp, a, b)
  {
  }

  lemma OrBytes(a: seq<bv8>, b: seq<bv8>)
    requires |a| == |b| == 8
    ensures Bytes(Word(a) | Word(b)) == Each(OrOp, a, b)
  {
  }

  lemma XorBytes(a: seq<bv8>, b: seq<bv8>)
    requires |a| == |b| == 8
    ensures Bytes(Word(a) ^ Word(b)) == Each(XorOp, a, b)
  {
  }

  lemma NotBytes(a: seq<bv8>)
    requires |a| == 8
    ensures Bytes(!Word(a)) == Each(NotOp, a, a)
  {
  }
}
