/** Two byte strings combined in steps of eight bytes (src/zbits.c:231-232, 249-250, 267-268, 284-285). */
module BitWords {
  import opened BitLogic
  import opened BitSets

  /** The first n bytes of d are combined, and the others are still what they were. */
  ghost predicate Combined(op: (bv8, bv8) -> bv8, d: seq<bv8>, was: seq<bv8>, other: seq<bv8>, n: nat) {
    && |d| == |was| && n <= |was| && n <= |other|
    && (forall k :: 0 <= k < n ==> d[k] == op(was[k], other[k]))
    && (forall k :: n <= k < |d| ==> d[k] == was[k])
  }

  lemma NoneCombined(op: (bv8, bv8) -> bv8, was: seq<bv8>, other: seq<bv8>)
    ensures Combined(op, was, was, other, 0)
  {
  }

  lemma WordStep(op: (bv8, bv8) -> bv8, d: seq<bv8>, e: seq<bv8>, was: seq<bv8>, other: seq<bv8>, now: seq<bv8>, n: nat)
    requires Combined(op, d, was, other, n) && n + 8 <= |was| && n + 8 <= |other|
    requires now == other || (now == d && was == other)
    requires e == d[..n] + Each(op, d[n..n + 8], now[n..n + 8]) + d[n + 8..]
    ensures Combined(op, e, was, other, n + 8)
  {
    forall k | n <= k < n + 8 ensures e[k] == op(was[k], other[k]) {
      EachAt(op, d[n..n + 8], now[n..n + 8], k - n);
    }
  }

  /** Whole words: a loop that stops at or after n bytes stays inside any whole number of words that holds n bytes. */
  lemma WholeWords(n: nat, cur: nat, size: nat)
    requires cur % 8 == 0 && size % 8 == 0 && cur < n <= size
    ensures cur + 8 <= size
  {
  }

  lemma ZeroAnd(x: bv8)
    ensures AndOp(x, 0) == 0 && AndOp(0, x) == 0
  {
  }

  lemma ZeroOr(x: bv8)
    ensures OrOp(x, 0) == x && OrOp(0, x) == x
  {
  }

  lemma ZeroXor(x: bv8)
    ensures XorOp(x, 0) == x && XorOp(0, x) == x
  {
  }

  lemma NotZero()
    ensures NotOp(0, 0) == 0xFF
  {
  }

  /** The AND loop, and zeros from where it stopped. */
  lemma AndDone(d: seq<bv8>, e: seq<bv8>, was: seq<bv8>, other: seq<bv8>, n: nat, used: nat, theirs: nat)
    requires Combined(AndOp, d, was, other, n) && (used <= n || theirs <= n)
    requires ZeroFrom(was, used) && ZeroFrom(other, theirs)
    requires |e| == |d| && e[..n] == d[..n] && ZeroFrom(e, n)
    ensures Members(e) == Members(was) * Members(other) && ZeroFrom(e, used)
  {
    forall k: nat ensures At(e, k) == At(was, k) & At(other, k) && (k >= used ==> At(e, k) == 0) {
      ZeroAnd(At(was, k));
      ZeroAnd(At(other, k));
      if k < n {
        assert e[..n][k] == d[..n][k];
      }
    }
    Intersection(e, was, other);
    forall k | used <= k < |e| ensures e[k] == 0 { assert At(e, k) == 0; }
  }

  lemma OrDone(e: seq<bv8>, was: seq<bv8>, other: seq<bv8>, n: nat, used: nat, theirs: nat, top: nat)
    requires Combined(OrOp, e, was, other, n) && used <= top <= n && theirs <= top
    requires ZeroFrom(was, used) && ZeroFrom(other, theirs)
    ensures Members(e) == Members(was) + Members(other) && ZeroFrom(e, top)
  {
    forall k: nat ensures At(e, k) == At(was, k) | At(other, k) && (k >= top ==> At(e, k) == 0) {
      ZeroOr(At(was, k));
      ZeroOr(At(other, k));
    }
    Union(e, was, other);
    forall k | top <= k < |e| ensures e[k] == 0 { assert At(e, k) == 0; }
  }

  lemma XorDone(e: seq<bv8>, was: seq<bv8>, other: seq<bv8>, n: nat, used: nat, theirs: nat, top: nat)
    requires Combined(XorOp, e, was, other, n) && used <= top <= n && theirs <= top
    requires ZeroFrom(was, used) && ZeroFrom(other, theirs)
    ensures Members(e) == (Members(was) - Members(other)) + (Members(other) - Members(was)) && ZeroFrom(e, top)
  {
    forall k: nat ensures At(e, k) == At(was, k) ^ At(other, k) && (k >= top ==> At(e, k) == 0) {
      ZeroXor(At(was, k));
      ZeroXor(At(other, k));
    }
    SymmetricDifference(e, was, other);
    forall k | top <= k < |e| ensures e[k] == 0 { assert At(e, k) == 0; }
  }

  lemma NotDone(d: seq<bv8>, e: seq<bv8>, was: seq<bv8>, n: nat, used: nat)
    requires Combined(NotOp, d, was, was, n) && used <= n && ZeroFrom(was, used)
    requires |e| == |d| && e[..n] == d[..n] && forall k :: n <= k < |e| ==> e[k] == 0xFF
    ensures Members(e) == Indices(8 * |was|) - Members(was)
  {
    NotZero();
    forall k | 0 <= k < |e| ensures e[k] == !was[k] {
      if k < n {
        assert e[..n][k] == d[..n][k];
      }
    }
    ComplementSet(e, was);
  }
}
