/** The finite set a byte string stands for: bit n of the string is set exactly when n is a member. */
module BitSets {
  import opened BitLogic
  import opened BitTables

  predicate Holds(d: seq<bv8>, i: nat)
    requires i < 8 * |d|
  {
    Bit(d[i / 8], i % 8)
  }

  function Members(d: seq<bv8>): set<nat> {
    set i: nat | i < 8 * |d| && Holds(d, i)
  }

  function MembersBelow(d: seq<bv8>, m: nat): set<nat>
    requires m <= 8 * |d|
  {
    set i: nat | i < m && Holds(d, i)
  }

  // ---------------------------------------------------------------------------------------------
  // Changing one byte, and combining bytes

  /** One byte replaced: the members in other bytes stay. */
  lemma ReplaceByte(d: seq<bv8>, n: nat, b: bv8, i: nat)
    requires n < |d|
    ensures i in Members(d[n := b]) <==> i < 8 * |d| && if i / 8 == n then Bit(b, i % 8) else i in Members(d)
  {
    hide Bit;
  }

  lemma SetAt(d: seq<bv8>, i: nat, b: bv8, j: nat)
    requires i < 8 * |d| && b == d[i / 8] | BIT_SET[i % 8]
    ensures j in Members(d[i / 8 := b]) <==> j in Members(d) || j == i
  {
    hide Bit;
    ReplaceByte(d, i / 8, b, j);
    SetBit(d[i / 8], i % 8, j % 8);
    if j / 8 == i / 8 {
      assert j in Members(d) <==> Bit(d[i / 8], j % 8);
    }
  }

  lemma ClearAt(d: seq<bv8>, i: nat, b: bv8, j: nat)
    requires i < 8 * |d| && b == d[i / 8] & BIT_CLEAR[i % 8]
    ensures j in Members(d[i / 8 := b]) <==> j in Members(d) && j != i
  {
    hide Bit;
    ReplaceByte(d, i / 8, b, j);
    ClearBit(d[i / 8], i % 8, j % 8);
    if j / 8 == i / 8 {
      assert j in Members(d) <==> Bit(d[i / 8], j % 8);
    }
  }

  lemma SetMember(d: seq<bv8>, i: nat, b: bv8)
    requires i < 8 * |d| && b == d[i / 8] | BIT_SET[i % 8]
    ensures Members(d[i / 8 := b]) == Members(d) + {i}
  {
    hide Members;
    var after, want := Members(d[i / 8 := b]), Members(d) + {i};
    forall j | j in after ensures j in want { SetAt(d, i, b, j); }
    forall j | j in want ensures j in after { SetAt(d, i, b, j); }
  }

  lemma ClearMember(d: seq<bv8>, i: nat, b: bv8)
    requires i < 8 * |d| && b == d[i / 8] & BIT_CLEAR[i % 8]
    ensures Members(d[i / 8 := b]) == Members(d) - {i}
  {
    hide Members;
    var after, want := Members(d[i / 8 := b]), Members(d) - {i};
    forall j | j in after ensures j in want { ClearAt(d, i, b, j); }
    forall j | j in want ensures j in after { ClearAt(d, i, b, j); }
  }

  /** A byte string read past its end gives zeros. */
  function At(d: seq<bv8>, k: nat): bv8 {
    if k < |d| then d[k] else 0
  }

  lemma ZeroByte(k: nat)
    requires k < 8
    ensures !Bit(0, k)
  {
  }

  lemma MemberAt(d: seq<bv8>, i: nat)
    ensures i in Members(d) <==> Bit(At(d, i / 8), i % 8)
  {
    if i >= 8 * |d| {
      ZeroByte(i % 8);
    }
  }

  lemma Intersection(d: seq<bv8>, a: seq<bv8>, b: seq<bv8>)
    requires forall k: nat :: At(d, k) == At(a, k) & At(b, k)
    ensures Members(d) == Members(a) * Members(b)
  {
    forall i: nat ensures i in Members(d) <==> i in Members(a) && i in Members(b) {
      MemberAt(d, i); MemberAt(a, i); MemberAt(b, i);
      BitAnd(At(a, i / 8), At(b, i / 8), i % 8);
    }
  }

  lemma Union(d: seq<bv8>, a: seq<bv8>, b: seq<bv8>)
    requires forall k: nat :: At(d, k) == At(a, k) | At(b, k)
    ensures Members(d) == Members(a) + Members(b)
  {
    forall i: nat ensures i in Members(d) <==> i in Members(a) || i in Members(b) {
      MemberAt(d, i); MemberAt(a, i); MemberAt(b, i);
      BitOr(At(a, i / 8), At(b, i / 8), i % 8);
    }
  }

  lemma SymmetricDifference(d: seq<bv8>, a: seq<bv8>, b: seq<bv8>)
    requires forall k: nat :: At(d, k) == At(a, k) ^ At(b, k)
    ensures Members(d) == (Members(a) - Members(b)) + (Members(b) - Members(a))
  {
    forall i: nat ensures i in Members(d) <==> (i in Members(a)) != (i in Members(b)) {
      MemberAt(d, i); MemberAt(a, i); MemberAt(b, i);
      BitXor(At(a, i / 8), At(b, i / 8), i % 8);
    }
  }

  /** All indices of a bitmap of n bits. */
  ghost function Indices(n: nat): (s: set<nat>)
    ensures forall i: nat :: i in s <==> i < n
    ensures |s| == n
  {
    if n == 0 then {} else Indices(n - 1) + {n - 1}
  }

  lemma ComplementSet(d: seq<bv8>, a: seq<bv8>)
    requires |d| == |a| && forall k :: 0 <= k < |d| ==> d[k] == !a[k]
    ensures Members(d) == Indices(8 * |a|) - Members(a)
  {
    forall i: nat | i < 8 * |a| ensures i in Members(d) <==> i !in Members(a) {
      BitNot(a[i / 8], i % 8);
    }
  }

  // ---------------------------------------------------------------------------------------------
  // Counting

  lemma BelowStep(d: seq<bv8>, m: nat)
    requires m < 8 * |d|
    ensures |MembersBelow(d, m + 1)| == |MembersBelow(d, m)| + Digit(Holds(d, m))
  {
    if Holds(d, m) {
      assert MembersBelow(d, m + 1) == MembersBelow(d, m) + {m};
    } else {
      assert MembersBelow(d, m + 1) == MembersBelow(d, m);
    }
  }

  lemma {:induction false} BelowByte(d: seq<bv8>, n: nat, k: nat)
    requires n < |d| && k <= 8
    ensures |MembersBelow(d, 8 * n + k)| == |MembersBelow(d, 8 * n)| + OnesBelow(d[n], k)
  {
    if k > 0 {
      BelowByte(d, n, k - 1);
      BelowStep(d, 8 * n + (k - 1));
      assert (8 * n + (k - 1)) / 8 == n && (8 * n + (k - 1)) % 8 == k - 1;
    }
  }

  /** One more byte adds its entry of the bit-count table to the cardinality. */
  lemma CountStep(d: seq<bv8>, n: nat)
    requires n < |d|
    ensures |MembersBelow(d, 8 * (n + 1))| == |MembersBelow(d, 8 * n)| + CountOn(d[n])
  {
    BelowByte(d, n, 8);
    CountOnCounts(d[n]);
  }

  /** Every byte at or beyond the watermark is zero. */
  predicate ZeroFrom(d: seq<bv8>, used: nat) {
    forall k :: used <= k < |d| ==> d[k] == 0
  }

  /** Setting bit i keeps every byte from the raised watermark on at zero. */
  lemma SetRaises(d: seq<bv8>, used: nat, n: nat, b: bv8, top: nat)
    requires n < |d| && ZeroFrom(d, used) && used <= top && n < top
    ensures ZeroFrom(d[n := b], top)
  {
  }

  lemma ZeroTail(d: seq<bv8>, n: nat)
    requires n <= |d| && ZeroFrom(d, n)
    ensures MembersBelow(d, 8 * n) == Members(d)
  {
    forall i: nat | 8 * n <= i < 8 * |d| ensures !Holds(d, i) {
      ZeroByte(i % 8);
    }
  }

  // ---------------------------------------------------------------------------------------------
  // Searching

  /** r is the least member above c, or -1 when there is none. */
  ghost predicate IsNext(s: set<nat>, c: int, r: int) {
    if r == -1 then forall m <- s :: m <= c
    else r >= 0 && c < r && r in s && forall m <- s :: m <= c || r <= m
  }

  /** r is the greatest member below c, or -1 when there is none. */
  ghost predicate IsPrev(s: set<nat>, c: int, r: int) {
    if r == -1 then forall m <- s :: c <= m
    else 0 <= r < c && r in s && forall m <- s :: c <= m || m <= r
  }

  /** r is the least index from c on that is not a member. */
  ghost predicate IsFree(s: set<nat>, c: nat, r: int) {
    c <= r && r !in s && forall m: nat :: c <= m < r ==> m in s
  }

  /** The byte under search: what is left of byte n of the string once everything up to c is hidden. */
  ghost predicate Ahead(d: seq<bv8>, c: nat, n: nat, b: bv8)
    requires n < |d|
  {
    && (forall k: nat :: k < 8 ==> Bit(b, k) == (Bit(d[n], k) && 8 * n + k > c))
    && (forall i: nat :: c < i < 8 * n ==> i !in Members(d))
  }

  ghost predicate Behind(d: seq<bv8>, c: nat, n: nat, b: bv8)
    requires n < |d|
  {
    && (forall k: nat :: k < 8 ==> Bit(b, k) == (Bit(d[n], k) && 8 * n + k < c))
    && (forall i: nat :: 8 * (n + 1) <= i < c ==> i !in Members(d))
  }

  lemma StartAhead(d: seq<bv8>, c: nat)
    requires c < 8 * |d|
    ensures Ahead(d, c, c / 8, d[c / 8] & CLEAR_TRAILING[c % 8])
  {
    forall k: nat | k < 8
      ensures Bit(d[c / 8] & CLEAR_TRAILING[c % 8], k) == (Bit(d[c / 8], k) && 8 * (c / 8) + k > c)
    {
      ClearTrailing(d[c / 8], c % 8, k);
    }
  }

  /** A byte with nothing left is passed: nothing up to its end lies above the cursor. */
  lemma PassAhead(d: seq<bv8>, c: nat, n: nat)
    requires n < |d| && c < 8 * (n + 1) && Ahead(d, c, n, 0)
    ensures forall i: nat :: c < i < 8 * (n + 1) ==> i !in Members(d)
    ensures n + 1 < |d| ==> Ahead(d, c, n + 1, d[n + 1])
  {
    forall i: nat | c < i < 8 * (n + 1) ensures i !in Members(d) {
      if 8 * n <= i {
        var k := i % 8;
        assert i / 8 == n;
        ZeroByte(k);
        assert Bit(0, k) == (Bit(d[n], k) && 8 * n + k > c);
      }
    }
  }

  /** A search for a set bit above c that walks up to the watermark stays inside the string. */
  ghost predicate StaysInside(d: seq<bv8>, used: nat, c: nat) {
    used < |d| || c / 8 >= used || exists m <- Members(d) :: m > c
  }

  lemma NothingBehindEnd(d: seq<bv8>, c: nat)
    requires forall i: nat :: c < i < 8 * |d| ==> i !in Members(d)
    ensures forall m <- Members(d) :: m <= c
  {
  }

  /** A byte beyond the watermark with nothing left ends the search. */
  lemma NoneAhead(d: seq<bv8>, c: nat, n: nat, used: nat)
    requires n < |d| && c < 8 * (n + 1) && Ahead(d, c, n, 0)
    requires used <= n && ZeroFrom(d, used)
    ensures IsNext(Members(d), c, -1)
  {
    PassAhead(d, c, n);
    ZeroTail(d, n);
  }

  lemma FoundAhead(d: seq<bv8>, c: nat, n: nat, b: bv8)
    requires n < |d| && b != 0 && Ahead(d, c, n, b)
    ensures IsNext(Members(d), c, 8 * n + FirstOn(b)) && 8 * n + FirstOn(b) < 8 * |d|
  {
    hide Bit, FirstOn;
    FirstOnIsFirst(b);
    var r := 8 * n + FirstOn(b);
    assert r / 8 == n && r % 8 == FirstOn(b);
    assert r in Members(d);
    forall m | m in Members(d) ensures m <= c || r <= m {
      if 8 * n <= m < 8 * (n + 1) {
        var k := m % 8;
        assert m / 8 == n;
        assert Bit(b, k) == (Bit(d[n], k) && 8 * n + k > c);
      }
    }
  }

  lemma StartBehind(d: seq<bv8>, c: nat)
    requires c < 8 * |d|
    ensures Behind(d, c, c / 8, d[c / 8] & CLEAR_LEADING[c % 8])
  {
    forall k: nat | k < 8
      ensures Bit(d[c / 8] & CLEAR_LEADING[c % 8], k) == (Bit(d[c / 8], k) && 8 * (c / 8) + k < c)
    {
      ClearLeading(d[c / 8], c % 8, k);
    }
  }

  lemma PassBehind(d: seq<bv8>, c: nat, n: nat)
    requires n < |d| && 8 * n <= c && Behind(d, c, n, 0)
    ensures forall i: nat :: 8 * n <= i < c ==> i !in Members(d)
    ensures n > 0 ==> Behind(d, c, n - 1, d[n - 1])
  {
    forall i: nat | 8 * n <= i < c ensures i !in Members(d) {
      if i < 8 * (n + 1) {
        var k := i % 8;
        assert i / 8 == n;
        ZeroByte(k);
        assert Bit(0, k) == (Bit(d[n], k) && 8 * n + k < c);
      }
    }
  }

  lemma NoneBehind(d: seq<bv8>, c: nat)
    requires 0 < |d| && Behind(d, c, 0, 0)
    ensures IsPrev(Members(d), c, -1)
  {
    PassBehind(d, c, 0);
  }

  lemma FoundBehind(d: seq<bv8>, c: nat, n: nat, b: bv8)
    requires n < |d| && b != 0 && Behind(d, c, n, b)
    ensures IsPrev(Members(d), c, 8 * n + LastOn(b))
  {
    hide Bit, LastOn;
    LastOnIsLast(b);
    var r := 8 * n + LastOn(b);
    assert r / 8 == n && r % 8 == LastOn(b);
    assert r in Members(d);
    forall m | m in Members(d) ensures c <= m || m <= r {
      if 8 * n <= m < 8 * (n + 1) {
        var k := m % 8;
        assert m / 8 == n;
        assert Bit(b, k) == (Bit(d[n], k) && 8 * n + k < c);
      }
    }
  }

  /** The byte under a search for a zero: byte n with everything below c taken as set. */
  ghost predicate Full(d: seq<bv8>, c: nat, n: nat, b: bv8)
    requires n < |d|
  {
    && (forall k: nat :: k < 8 ==> Bit(b, k) == (Bit(d[n], k) || 8 * n + k < c))
    && (forall i: nat :: c <= i < 8 * n ==> i in Members(d))
  }

  lemma StartFull(d: seq<bv8>, c: nat)
    requires c < 8 * |d|
    ensures Full(d, c, c / 8, d[c / 8] | SET_TRAILING[c % 8])
  {
    forall k: nat | k < 8
      ensures Bit(d[c / 8] | SET_TRAILING[c % 8], k) == (Bit(d[c / 8], k) || 8 * (c / 8) + k < c)
    {
      SetTrailing(d[c / 8], c % 8, k);
    }
  }

  lemma AllSet(k: nat)
    requires k < 8
    ensures Bit(255, k)
  {
  }

  lemma PassFull(d: seq<bv8>, c: nat, n: nat)
    requires n < |d| && c < 8 * (n + 1) && Full(d, c, n, 255)
    ensures forall i: nat :: c <= i < 8 * (n + 1) ==> i in Members(d)
    ensures n + 1 < |d| ==> Full(d, c, n + 1, d[n + 1])
  {
    forall i: nat | c <= i < 8 * (n + 1) ensures i in Members(d) {
      if 8 * n <= i {
        var k := i % 8;
        assert i / 8 == n;
        AllSet(k);
        assert Bit(255, k) == (Bit(d[n], k) || 8 * n + k < c);
      }
    }
  }

  /** A byte at or beyond the watermark always has a zero left. */
  lemma BeyondIsFree(d: seq<bv8>, c: nat, n: nat, used: nat, b: bv8)
    requires n < |d| && c / 8 <= n && used <= n && ZeroFrom(d, used)
    requires Full(d, c, n, b)
    ensures b != 255
  {
    ZeroByte(7);
    AllSet(7);
    assert !Bit(b, 7);
  }

  lemma FoundFree(d: seq<bv8>, c: nat, n: nat, b: bv8)
    requires n < |d| && b != 255 && Full(d, c, n, b)
    ensures IsFree(Members(d), c, 8 * n + FirstOn(255 - b)) && 8 * n + FirstOn(255 - b) < 8 * |d|
  {
    hide Bit, FirstOn;
    Complement(b);
    FirstOnIsFirst(!b);
    var f := FirstOn(!b);
    var r := 8 * n + f;
    assert r / 8 == n && r % 8 == f;
    BitNot(b, f);
    assert r !in Members(d);
    forall m: nat | c <= m < r ensures m in Members(d) {
      if m >= 8 * n {
        var k := m % 8;
        assert m / 8 == n && k < f;
        BitNot(b, k);
        assert Bit(b, k) == (Bit(d[n], k) || 8 * n + k < c);
      }
    }
  }
}
