/** Whole runs over a bitmap: enumerating its members, and using it to hand out indices. */
module BitRuns {
  import opened BitLogic
  import opened BitSets

  // ---------------------------------------------------------------------------------------------
  // A search that runs off the end

  /** Where the loop of a search stops, starting with byte b at position n; None when it reads past the end. */
  datatype Stop = Stop(n: nat) | PastEnd

  function Scan(d: seq<bv8>, used: nat, n: nat, b: bv8): Stop
    decreases |d| - n
  {
    if b == 0 && n < used then
      if n + 1 < |d| then Scan(d, used, n + 1, d[n + 1]) else PastEnd
    else
      Stop(n)
  }

  lemma {:induction false} ScanAhead(d: seq<bv8>, used: nat, c: nat, n: nat, b: bv8)
    requires c / 8 <= n < |d| && used <= |d| && Ahead(d, c, n, b)
    ensures Scan(d, used, n, b).PastEnd? <==> n < used == |d| && forall m <- Members(d) :: m <= c
    decreases |d| - n
  {
    if b == 0 {
      PassAhead(d, c, n);
      if n + 1 < |d| {
        ScanAhead(d, used, c, n + 1, d[n + 1]);
      }
    } else {
      FoundAhead(d, c, n, b);
    }
  }

  /** The search for the next member reads past the data block exactly when its guard fails. */
  lemma NextEscapesIff(d: seq<bv8>, used: nat, c: nat)
    requires c < 8 * |d| && used <= |d|
    ensures Scan(d, used, c / 8, d[c / 8] & CLEAR_TRAILING[c % 8]).PastEnd? <==> !StaysInside(d, used, c)
  {
    StartAhead(d, c);
    ScanAhead(d, used, c, c / 8, d[c / 8] & CLEAR_TRAILING[c % 8]);
  }

  // ---------------------------------------------------------------------------------------------
  // Enumeration

  /** The answers of repeated calls of next, from position c until the first -1. */
  ghost predicate Ascent(s: set<nat>, c: int, w: seq<int>)
    decreases |w|
  {
    w != [] && IsNext(s, c, w[0]) && if w[0] == -1 then |w| == 1 else Ascent(s, w[0], w[1..])
  }

  ghost predicate Descent(s: set<nat>, c: int, w: seq<int>)
    decreases |w|
  {
    w != [] && IsPrev(s, c, w[0]) && if w[0] == -1 then |w| == 1 else Descent(s, w[0], w[1..])
  }

  /** Repeated next gives every member above the start once, in ascending order, and then -1. */
  lemma {:induction false} AscentListsMembers(s: set<nat>, c: int, w: seq<int>)
    requires c >= -1 && Ascent(s, c, w)
    ensures w[|w| - 1] == -1
    ensures forall i :: 0 <= i < |w| - 1 ==> w[i] in s && w[i] > c
    ensures forall i, j :: 0 <= i < j < |w| - 1 ==> w[i] < w[j]
    ensures forall m <- s :: m > c ==> m in w
    decreases |w|
  {
    if w[0] != -1 {
      var rest := w[1..];
      AscentListsMembers(s, w[0], rest);
      forall i | 0 <= i < |w| - 1 ensures w[i] in s && w[i] > c { if i > 0 { assert w[i] == rest[i - 1]; } }
      forall i, j | 0 <= i < j < |w| - 1 ensures w[i] < w[j] {
        assert w[j] == rest[j - 1];
        if i > 0 { assert w[i] == rest[i - 1]; }
      }
      forall m | m in s && m > c ensures m in w { if m != w[0] { assert m in rest; } }
    }
  }

  lemma {:induction false} DescentListsMembers(s: set<nat>, c: int, w: seq<int>)
    requires Descent(s, c, w)
    ensures w[|w| - 1] == -1
    ensures forall i :: 0 <= i < |w| - 1 ==> w[i] in s && w[i] < c
    ensures forall i, j :: 0 <= i < j < |w| - 1 ==> w[i] > w[j]
    ensures forall m <- s :: m < c ==> m in w
    decreases |w|
  {
    if w[0] != -1 {
      var rest := w[1..];
      DescentListsMembers(s, w[0], rest);
      forall i | 0 <= i < |w| - 1 ensures w[i] in s && w[i] < c { if i > 0 { assert w[i] == rest[i - 1]; } }
      forall i, j | 0 <= i < j < |w| - 1 ensures w[i] > w[j] {
        assert w[j] == rest[j - 1];
        if i > 0 { assert w[i] == rest[i - 1]; }
      }
      forall m | m in s && m < c ensures m in w { if m != w[0] { assert m in rest; } }
    }
  }

  /** As many answers as members: first and then next to the end visits each member exactly once. */
  lemma AscentHasEveryMemberOnce(s: set<nat>, w: seq<int>)
    requires Ascent(s, -1, w)
    ensures |w| == |s| + 1
  {
    AscentListsMembers(s, -1, w);
    AscendingLength(s, w[..|w| - 1]);
  }

  lemma {:induction false} AscendingLength(s: set<nat>, w: seq<int>)
    requires forall i, j :: 0 <= i < j < |w| ==> w[i] < w[j]
    requires forall i :: 0 <= i < |w| ==> w[i] in s
    requires forall m <- s :: m in w
    ensures |w| == |s|
  {
    if w != [] {
      var last: nat := w[|w| - 1];
      AscendingLength(s - {last}, w[..|w| - 1]);
    } else {
      assert s == {};
    }
  }

  // ---------------------------------------------------------------------------------------------
  // The bitmap as an allocator

  datatype Event = Taken(index: nat) | Given(index: nat)

  /** One insert of a bitmap that is not full, or one clear. */
  ghost predicate Allowed(bits: nat, s: set<nat>, e: Event) {
    e.index < bits && (e.Taken? ==> IsFree(s, 0, e.index))
  }

  ghost function Apply(s: set<nat>, e: Event): set<nat> {
    if e.Taken? then s + {e.index} else s - {e.index}
  }

  ghost function After(run: seq<Event>): set<nat> {
    if run == [] then {} else Apply(After(run[..|run| - 1]), run[|run| - 1])
  }

  ghost predicate IsRun(bits: nat, run: seq<Event>) {
    forall k :: 0 <= k < |run| ==> Allowed(bits, After(run[..k]), run[k])
  }

  /** The indices handed out and not given back, in the order they were handed out. */
  ghost function Live(run: seq<Event>): seq<nat> {
    if run == [] then []
    else
      var before := Live(run[..|run| - 1]);
      var e := run[|run| - 1];
      if e.Taken? then before + [e.index] else Drop(before, e.index)
  }

  ghost function Drop(xs: seq<nat>, x: nat): seq<nat> {
    if xs == [] then [] else (if xs[0] == x then [] else [xs[0]]) + Drop(xs[1..], x)
  }

  ghost predicate Distinct(xs: seq<nat>) {
    forall i, j :: 0 <= i < j < |xs| ==> xs[i] != xs[j]
  }

  lemma {:induction false} DropRemoves(xs: seq<nat>, x: nat, y: nat)
    ensures y in Drop(xs, x) <==> y in xs && y != x
  {
    if xs != [] {
      DropRemoves(xs[1..], x, y);
      assert xs == [xs[0]] + xs[1..];
    }
  }

  lemma {:induction false} DropKeepsDistinct(xs: seq<nat>, x: nat)
    requires Distinct(xs)
    ensures Distinct(Drop(xs, x))
    ensures forall y :: y in Drop(xs, x) <==> y in xs && y != x
  {
    forall y ensures y in Drop(xs, x) <==> y in xs && y != x { DropRemoves(xs, x, y); }
    if xs != [] {
      DropKeepsDistinct(xs[1..], x);
      assert xs[0] !in xs[1..];
    }
  }

  lemma PrefixIsRun(bits: nat, run: seq<Event>)
    requires run != [] && IsRun(bits, run)
    ensures IsRun(bits, run[..|run| - 1])
    ensures Allowed(bits, After(run[..|run| - 1]), run[|run| - 1])
  {
    var before := run[..|run| - 1];
    forall k | 0 <= k < |before| ensures Allowed(bits, After(before[..k]), before[k]) {
      assert before[..k] == run[..k];
    }
  }

  /** Over any run, no index is out twice, and the bitmap is exactly the set of indices that are out. */
  lemma {:induction false} LiveIndicesAreDistinct(bits: nat, run: seq<Event>)
    requires IsRun(bits, run)
    ensures Distinct(Live(run))
    ensures forall x :: x in Live(run) <==> x in After(run)
    ensures After(run) <= Indices(bits)
  {
    if run != [] {
      PrefixIsRun(bits, run);
      LiveIndicesAreDistinct(bits, run[..|run| - 1]);
      DropKeepsDistinct(Live(run[..|run| - 1]), run[|run| - 1].index);
    }
  }

  /** The most indices that were out at any one time. */
  ghost function Peak(run: seq<Event>): nat {
    if run == [] then 0
    else var before := Peak(run[..|run| - 1]); if |After(run)| > before then |After(run)| else before
  }

  /** Indices stay packed: all are below the largest number that was ever out at one time. */
  lemma {:induction false} IndicesStayBelowPeak(bits: nat, run: seq<Event>)
    requires IsRun(bits, run)
    ensures forall x <- After(run) :: x < Peak(run)
    ensures |After(run)| <= Peak(run)
  {
    if run != [] {
      var before, e := run[..|run| - 1], run[|run| - 1];
      PrefixIsRun(bits, run);
      IndicesStayBelowPeak(bits, before);
      if e.Taken? {
        LeastFreeIsAtMostCount(After(before), e.index);
      } else {
        assert After(run) <= After(before);
      }
    }
  }

  lemma LeastFreeIsAtMostCount(s: set<nat>, r: nat)
    requires IsFree(s, 0, r)
    ensures r <= |s| && |s + {r}| == |s| + 1
  {
    var below := Indices(r);
    assert below <= s;
    SubsetCount(below, s);
  }

  lemma {:induction false} SubsetCount(a: set<nat>, b: set<nat>)
    requires a <= b
    ensures |a| <= |b|
  {
    if a != {} {
      var x :| x in a;
      SubsetCount(a - {x}, b - {x});
    }
  }

  /** An index that was given back and not handed out since is out of the bitmap. */
  lemma {:induction false} GivenStaysFree(run: seq<Event>, p: nat)
    requires p < |run| && run[p].Given?
    requires forall k :: p < k < |run| ==> run[k] != Taken(run[p].index)
    ensures run[p].index !in After(run)
  {
    if p < |run| - 1 {
      GivenStaysFree(run[..|run| - 1], p);
    }
  }

  /** Lowest first: whatever is handed out lies at or below every index given back and still free. */
  lemma FreedAreReusedLowestFirst(bits: nat, run: seq<Event>, p: nat, q: nat)
    requires IsRun(bits, run) && p < q < |run| && run[p].Given? && run[q].Taken?
    requires forall k :: p < k < q ==> run[k] != Taken(run[p].index)
    ensures run[q].index <= run[p].index
  {
    GivenStaysFree(run[..q], p);
    assert Allowed(bits, After(run[..q]), run[q]);
  }

  /** Handing out without giving back goes strictly upwards. */
  lemma {:induction false} ConsecutiveTakesAscend(bits: nat, run: seq<Event>, p: nat, q: nat)
    requires IsRun(bits, run) && p < q < |run|
    requires forall k :: p <= k <= q ==> run[k].Taken?
    ensures run[p].index < run[q].index
    decreases q - p
  {
    assert Allowed(bits, After(run[..q]), run[q]) && Allowed(bits, After(run[..q - 1]), run[q - 1]);
    assert run[..q][..q - 1] == run[..q - 1];
    if p < q - 1 {
      ConsecutiveTakesAscend(bits, run, p, q - 1);
    }
  }

  /** Room left means an index below the capacity, so an insert can only fail on a full bitmap. */
  lemma FreeIndexExists(bits: nat, s: set<nat>)
    requires s <= Indices(bits)
    ensures (exists r: nat :: r < bits && IsFree(s, 0, r)) <==> |s| < bits
  {
    if |s| < bits {
      if Indices(bits) <= s {
        SubsetCount(Indices(bits), s);
      }
      var r: nat :| r < bits && r !in s;
      LeastFree(s, r);
    } else {
      EqualSets(s, Indices(bits));
    }
  }

  lemma {:induction false} LeastFree(s: set<nat>, r: nat)
    requires r !in s
    ensures exists m: nat :: m <= r && IsFree(s, 0, m)
    decreases r
  {
    if !IsFree(s, 0, r) {
      var m: nat :| m < r && m !in s;
      LeastFree(s, m);
    }
  }

  lemma EqualSets(a: set<nat>, b: set<nat>)
    requires a <= b && |a| >= |b|
    ensures a == b
  {
    if exists x :: x in b && x !in a {
      var x :| x in b && x !in a;
      SubsetCount(a, b - {x});
    }
  }
}
