/** Hexadecimal and decimal text: the loops that write and read them, and how far they undo each other. */
module ProtoDigits {
  import opened Options
  import opened Proto
  import Sequences

  /** A C string: the octets before its terminating NUL. */
  type CString = s: seq<Octet> | 0 !in s witness []

  // ---------------------------------------------------------------------------------------------
  // Two hexadecimal digits an octet

  /** A digit as "%02x" prints it: '0'..'9' and 'a'..'f'. */
  function HexDigit(n: nat): Octet
    requires n < 16
  {
    if n < 10 then 48 + n else 87 + n
  }

  function Hex(b: seq<Octet>): CString {
    if b == [] then [] else [HexDigit(b[0] / 16), HexDigit(b[0] % 16)] + Hex(b[1..])
  }

  /** The value of a hexadecimal digit, of either case. */
  function DigitValue(c: Octet): (v: Option<nat>)
    ensures v.Some? ==> v.value < 16
  {
    if 48 <= c <= 57 then Some(c - 48)
    else if 97 <= c <= 102 then Some(c - 87)
    else if 65 <= c <= 70 then Some(c - 55)
    else None
  }

  predicate IsSpace(c: Octet) {
    9 <= c <= 13 || c == 32
  }

  /** What sscanf with "%x" makes of two characters: a value, one wrapped around zero by its sign, or nothing. */
  datatype Scanned = Value(v: nat) | Negative | Nothing

  function Single(c: Octet): Scanned {
    if DigitValue(c).Some? then Value(DigitValue(c).value) else Nothing
  }

  /** Blanks and a sign may come first; "0x" announces digits that do not follow; a second non-digit ends the number. */
  function ScanHex(a: Octet, b: Octet): (r: Scanned)
    ensures r.Value? ==> r.v < 256
  {
    if IsSpace(a) || a == 43 then Single(b)
    else if a == 45 then
      if DigitValue(b).Some? && DigitValue(b).value > 0 then Negative else Single(b)
    else if DigitValue(a).None? then Nothing
    else if DigitValue(b).Some? then Value(DigitValue(a).value * 16 + DigitValue(b).value)
    else if a == 48 && (b == 120 || b == 88) then Nothing
    else Single(a)
  }

  /** Bytes, a refused length, the failed assertion on a value above 255, or a byte taken from an unset variable. */
  datatype Unhexed = Bytes(b: seq<Octet>) | OddLength | Aborted | Unset

  function Pairs(s: seq<Octet>): Unhexed
    requires |s| % 2 == 0
  {
    if s == [] then Bytes([])
    else
      match ScanHex(s[0], s[1])
      case Negative => Aborted
      case Nothing => Unset
      case Value(v) =>
        var rest := Pairs(s[2..]);
        if rest.Bytes? then Bytes([v] + rest.b) else rest
  }

  function Unhex(s: CString): Unhexed {
    if |s| % 2 != 0 then OddLength else Pairs(s)
  }

  /** Bytes read so far, followed by what the rest of the string gives. */
  ghost function Joined(mem: seq<Octet>, rest: Unhexed): Unhexed {
    if rest.Bytes? then Bytes(mem + rest.b) else rest
  }

  lemma PairsStep(s: seq<Octet>, mem: seq<Octet>)
    requires |s| >= 2 && |s| % 2 == 0
    ensures match ScanHex(s[0], s[1])
            case Negative => Joined(mem, Pairs(s)) == Aborted
            case Nothing => Joined(mem, Pairs(s)) == Unset
            case Value(v) => Joined(mem, Pairs(s)) == Joined(mem + [v], Pairs(s[2..]))
  {
    hide ScanHex;
    var r := ScanHex(s[0], s[1]);
    if r.Value? {
      var rest := Pairs(s[2..]);
      assert Pairs(s) == if rest.Bytes? then Bytes([r.v] + rest.b) else rest;
      if rest.Bytes? {
        Sequences.Regroup(mem, [r.v], rest.b);
      }
    }
  }

  /** Writes a byte string two digits at a time. */
  method StrFromBytes(mem: seq<Octet>) returns (dst: CString)
    ensures dst == Hex(mem)
  {
    hide HexDigit;
    dst := [];
    var i := 0;
    while i != |mem|
      invariant i <= |mem|
      invariant dst + Hex(mem[i..]) == Hex(mem)
    {
      assert mem[i..][1..] == mem[i + 1..];
      dst := dst + [HexDigit(mem[i] / 16), HexDigit(mem[i] % 16)];
      i := i + 1;
    }
  }

  /** Reads a string two digits at a time into half as many bytes. */
  method BytesFromStr(str: CString) returns (dst: Unhexed)
    ensures dst == Unhex(str)
  {
    hide ScanHex;
    if |str| % 2 != 0 {
      return OddLength;
    }
    var strlen2 := |str| / 2;
    var mem: seq<Octet> := [];
    var i := 0;
    while i != strlen2
      invariant i <= strlen2 && |mem| == i
      invariant Pairs(str) == Joined(mem, Pairs(str[2 * i..]))
    {
      var uint := ScanHex(str[2 * i], str[2 * i + 1]);
      PairsStep(str[2 * i..], mem);
      assert str[2 * i..][2..] == str[2 * (i + 1)..];
      if uint.Nothing? {
        return Unset;
      }
      if uint.Negative? {
        return Aborted;
      }
      mem := mem + [uint.v];
      i := i + 1;
    }
    dst := Bytes(mem);
  }

  lemma HexDigitBack(n: nat)
    requires n < 256
    ensures ScanHex(HexDigit(n / 16), HexDigit(n % 16)) == Value(n)
  {
  }

  lemma {:induction false} HexLength(b: seq<Octet>)
    ensures |Hex(b)| == 2 * |b|
  {
    if b != [] {
      HexLength(b[1..]);
    }
  }

  /** Reading back what was written gives every byte string again. */
  lemma {:induction false} UnhexOfHex(b: seq<Octet>)
    ensures Unhex(Hex(b)) == Bytes(b)
  {
    HexLength(b);
    if b != [] {
      UnhexOfHex(b[1..]);
      HexDigitBack(b[0]);
      assert Hex(b)[2..] == Hex(b[1..]);
      assert b == [b[0]] + b[1..];
    }
  }

  /** The digits that "%02x" prints. */
  predicate LowerHex(c: Octet) {
    48 <= c <= 57 || 97 <= c <= 102
  }

  lemma PairBack(a: Octet, b: Octet)
    ensures var r := ScanHex(a, b);
            (r.Value? && HexDigit(r.v / 16) == a && HexDigit(r.v % 16) == b) <==> LowerHex(a) && LowerHex(b)
  {
  }

  /** For every text: it is read, and written back as it was, exactly when it is made of pairs of lower-case digits. */
  lemma {:induction false} HexOfUnhex(s: CString)
    ensures (Unhex(s).Bytes? && Hex(Unhex(s).b) == s) <==> |s| % 2 == 0 && forall c <- s :: LowerHex(c)
  {
    hide ScanHex, HexDigit, LowerHex;
    if s != [] && |s| % 2 == 0 {
      HexOfUnhex(s[2..]);
      PairBack(s[0], s[1]);
      var r := ScanHex(s[0], s[1]);
      assert forall c: Octet :: c in s <==> c == s[0] || c == s[1] || c in s[2..] by {
        assert s == [s[0], s[1]] + s[2..];
      }
      if Unhex(s).Bytes? {
        var b := Unhex(s).b;
        assert b[0] == r.v && b[1..] == Unhex(s[2..]).b;
        assert Hex(b) == [HexDigit(r.v / 16), HexDigit(r.v % 16)] + Hex(b[1..]);
        SplitTwo(Hex(b), s);
      }
    }
  }

  lemma SplitTwo(a: seq<Octet>, b: seq<Octet>)
    requires |a| >= 2 && |b| >= 2
    ensures a == b <==> a[0] == b[0] && a[1] == b[1] && a[2..] == b[2..]
  {
    assert a == [a[0], a[1]] + a[2..];
    assert b == [b[0], b[1]] + b[2..];
  }

  /** "0123456789abcdef", and the same with capitals. */
  const LOWER: seq<Octet> := [48, 49, 50, 51, 52, 53, 54, 55, 56, 57, 97, 98, 99, 100, 101, 102]
  const UPPER: seq<Octet> := [48, 49, 50, 51, 52, 53, 54, 55, 56, 57, 65, 66, 67, 68, 69, 70]

  predicate IsHexOf(c: Octet, n: nat) {
    n < 16 && (c == LOWER[n] || c == UPPER[n])
  }

  predicate NoHex(c: Octet) {
    c !in LOWER && c !in UPPER
  }

  /** A byte is written as the two digits of its value, and a pair is read: two digits of either case as that value; one
      digit before a character that is none (unless that makes "0x"), or behind a blank or a plus, as itself; behind a
      minus as zero or as a negative number; and no other pair holds a number. */
  lemma PairsByClass(a: Octet, b: Octet, m: nat, n: nat)
    requires m < 16 && n < 16
    ensures Hex([16 * m + n]) == [LOWER[m], LOWER[n]]
    ensures IsHexOf(a, m) && IsHexOf(b, n) ==> ScanHex(a, b) == Value(16 * m + n)
    ensures IsHexOf(a, m) && NoHex(b) ==> ScanHex(a, b) == if m == 0 && (b == 120 || b == 88) then Nothing else Value(m)
    ensures a in {9, 10, 11, 12, 13, 32, 43} && IsHexOf(b, n) ==> ScanHex(a, b) == Value(n)
    ensures a == 45 && IsHexOf(b, n) ==> ScanHex(a, b) == if n == 0 then Value(0) else Negative
    ensures NoHex(a) && (NoHex(b) || a !in {9, 10, 11, 12, 13, 32, 43, 45}) ==> ScanHex(a, b) == Nothing
  {
    hide IsHexOf, NoHex, DigitValue, HexDigit, LOWER;
    DigitOf(a, m);
    DigitOf(b, n);
    NoDigit(a);
    NoDigit(b);
    WrittenDigit(m);
    WrittenDigit(n);
    assert [16 * m + n][1..] == [];
  }

  lemma DigitOf(c: Octet, n: nat)
    ensures IsHexOf(c, n) ==> DigitValue(c) == Some(n) && c !in {9, 10, 11, 12, 13, 32, 43, 45, 120, 88}
    ensures IsHexOf(c, n) ==> (c == 48 <==> n == 0)
  {
  }

  lemma NoDigit(c: Octet)
    ensures DigitValue(c).None? <==> NoHex(c)
    ensures c in {9, 10, 11, 12, 13, 32, 43, 45} ==> NoHex(c)
  {
  }

  lemma WrittenDigit(n: nat)
    requires n < 16
    ensures HexDigit(n) == LOWER[n]
  {
  }

  /** Texts that are read but not written back: a digit with something behind it, a blank in front, a sign. */
  lemma OtherTextsAreRead()
    ensures Unhex([49, 103]) == Bytes([1]) && Hex([1]) == [48, 49]
    ensures Unhex([32, 49]) == Bytes([1]) && Unhex([45, 49]) == Aborted && Unhex([103, 103]) == Unset
  {
    assert forall a: Octet, b: Octet :: [a, b][2..] == [];
    assert [1][1..] == [];
  }

  // ---------------------------------------------------------------------------------------------
  // Decimal numbers

  const MAX_LLONG := 0x7FFF_FFFF_FFFF_FFFF

  predicate IsDigit(c: Octet) {
    48 <= c <= 57
  }

  predicate AllDigits(s: seq<Octet>) {
    forall i :: 0 <= i < |s| ==> IsDigit(s[i])
  }

  /** A number as "%ld" prints it. */
  function Print(n: nat): CString {
    if n < 10 then [48 + n] else Print(n / 10) + [48 + n % 10]
  }

  function DigitsValue(s: seq<Octet>): nat
    requires AllDigits(s)
  {
    if s == [] then 0
    else
      var last: int := s[|s| - 1];
      DigitsValue(s[..|s| - 1]) * 10 + (last - 48)
  }

  /** The position after the white space, and after the digits, from k on. */
  function AfterSpace(s: seq<Octet>, k: nat): (e: nat)
    requires k <= |s|
    ensures k <= e <= |s|
    decreases |s| - k
  {
    if k < |s| && IsSpace(s[k]) then AfterSpace(s, k + 1) else k
  }

  function AfterDigits(s: seq<Octet>, k: nat): (e: nat)
    requires k <= |s|
    ensures k <= e <= |s| && AllDigits(s[k..e])
    decreases |s| - k
  {
    if k < |s| && IsDigit(s[k]) then AfterDigits(s, k + 1) else k
  }

  function Clamp(v: int): int {
    if v > MAX_LLONG then MAX_LLONG else if v < -MAX_LLONG - 1 then -MAX_LLONG - 1 else v
  }

  /** strtoll in base 10: its value, and where it stopped; without a digit it stops where it began. */
  function Strtoll(s: CString): (int, nat) {
    var k := AfterSpace(s, 0);
    var signed := k < |s| && (s[k] == 43 || s[k] == 45);
    var first := if signed then k + 1 else k;
    var e := AfterDigits(s, first);
    if e == first then (0, 0)
    else
      var v: int := DigitsValue(s[first..e]);
      (Clamp(if signed && s[k] == 45 then -v else v), e)
  }

  /** A number is taken when the whole string was consumed. */
  function Number(s: CString): Option<int> {
    var (v, e) := Strtoll(s);
    if e == |s| then Some(v) else None
  }

  predicate Canonical(s: seq<Octet>) {
    s != [] && AllDigits(s) && (|s| == 1 || s[0] != 48)
  }

  lemma {:induction false} AllDigitsRun(s: CString, k: nat)
    requires k <= |s| && AllDigits(s)
    ensures AfterDigits(s, k) == |s|
    decreases |s| - k
  {
    if k < |s| {
      AllDigitsRun(s, k + 1);
    }
  }

  lemma PlainNumber(s: CString)
    requires s != [] && AllDigits(s)
    ensures Number(s) == Some(Clamp(DigitsValue(s)))
  {
    AllDigitsRun(s, 0);
    assert s[0..|s|] == s;
    assert IsDigit(s[0]);
  }

  lemma {:induction false} PrintIsCanonical(n: nat)
    ensures Canonical(Print(n)) && DigitsValue(Print(n)) == n
    ensures Print(n)[0] == 48 ==> n == 0
  {
    if n >= 10 {
      PrintIsCanonical(n / 10);
      assert Print(n)[..|Print(n)| - 1] == Print(n / 10);
    }
  }

  lemma {:induction false} CanonicalPrints(s: CString)
    requires Canonical(s)
    ensures Print(DigitsValue(s)) == s
    ensures s[0] != 48 ==> DigitsValue(s) > 0
  {
    if |s| > 1 {
      var front := s[..|s| - 1];
      CanonicalPrints(front);
      var d: int := s[|s| - 1];
      var n := DigitsValue(s);
      assert s == front + [s[|s| - 1]];
      assert n == DigitsValue(front) * 10 + (d - 48);
      assert n / 10 == DigitsValue(front) && n % 10 == d - 48;
    } else {
      assert s[..0] == [];
    }
  }

  /** Every number below 2^63 is read back as printed. */
  lemma NumberOfPrint(n: nat)
    requires n <= MAX_LLONG
    ensures Number(Print(n)) == Some(n)
  {
    PrintIsCanonical(n);
    PlainNumber(Print(n));
  }

  /** A text that was read as a number prints back as itself exactly when it is canonical and in range. */
  lemma PrintOfNumber(s: CString)
    ensures (Number(s).Some? && Number(s).value >= 0 && Print(Number(s).value) == s) <==>
            Canonical(s) && DigitsValue(s) <= MAX_LLONG
  {
    if Canonical(s) {
      PlainNumber(s);
      CanonicalPrints(s);
      PrintIsCanonical(MAX_LLONG);
    }
    if Number(s).Some? && Number(s).value >= 0 {
      PrintIsCanonical(Number(s).value);
    }
  }

  // ---------------------------------------------------------------------------------------------
  // Which texts are numbers

  predicate SignChar(c: Octet) {
    c == 43 || c == 45
  }

  /** An optional sign, and then at least one digit. */
  predicate Signed(t: seq<Octet>) {
    t != [] && if SignChar(t[0]) then |t| > 1 && AllDigits(t[1..]) else AllDigits(t)
  }

  function SignedValue(t: seq<Octet>): int
    requires Signed(t)
  {
    var v: int := DigitsValue(if SignChar(t[0]) then t[1..] else t);
    if t[0] == 45 then -v else v
  }

  /** The text is k blanks, and then a signed number to its end. */
  predicate DecimalFrom(s: CString, k: nat) {
    k <= |s| && (forall i :: 0 <= i < k ==> IsSpace(s[i])) && Signed(s[k..])
  }

  ghost predicate Decimal(s: CString) {
    exists k: nat :: DecimalFrom(s, k)
  }

  lemma {:induction false} SpaceRun(s: CString, k: nat, e: nat)
    requires k <= e <= |s| && (forall i :: k <= i < e ==> IsSpace(s[i])) && (e < |s| ==> !IsSpace(s[e]))
    ensures AfterSpace(s, k) == e
    decreases e - k
  {
    if k < e {
      SpaceRun(s, k + 1, e);
    }
  }

  lemma {:induction false} SpacesPassed(s: CString, k: nat)
    requires k <= |s|
    ensures forall i :: k <= i < AfterSpace(s, k) ==> IsSpace(s[i])
    decreases |s| - k
  {
    if k < |s| && IsSpace(s[k]) {
      SpacesPassed(s, k + 1);
    }
  }

  lemma {:induction false} DigitRun(s: CString, k: nat)
    requires k <= |s| && AllDigits(s[k..])
    ensures AfterDigits(s, k) == |s|
    decreases |s| - k
  {
    if k < |s| {
      assert IsDigit(s[k..][0]);
      assert s[k + 1..] == s[k..][1..];
      DigitRun(s, k + 1);
    }
  }

  /** A decimal text is read as its value, clamped to 64 bits. */
  lemma NumberOfDecimal(s: CString, k: nat)
    requires DecimalFrom(s, k)
    ensures var v := SignedValue(s[k..]);
            Number(s) == Some(if v > 0x7FFF_FFFF_FFFF_FFFF then 0x7FFF_FFFF_FFFF_FFFF
                              else if v < -0x8000_0000_0000_0000 then -0x8000_0000_0000_0000 else v)
  {
    hide DigitsValue;
    var t := s[k..];
    assert t[0] == s[k];
    assert !IsSpace(s[k]) by {
      if !SignChar(t[0]) {
        assert IsDigit(t[0]);
      }
    }
    SpaceRun(s, 0, k);
    var first := if SignChar(t[0]) then k + 1 else k;
    assert s[first..] == if SignChar(t[0]) then t[1..] else t;
    DigitRun(s, first);
    assert s[first..|s|] == s[first..];
  }

  /** A text passes as a number exactly when it is a decimal number, or empty: the empty text is the only one that should not. */
  lemma NumberIffDecimalOrEmpty(s: CString)
    ensures Number(s).Some? <==> s == [] || Decimal(s)
    ensures Number([]) == Some(0) && !Decimal([])
  {
    if Decimal(s) {
      var k: nat :| DecimalFrom(s, k);
      NumberOfDecimal(s, k);
    }
    if Number(s).Some? && s != [] {
      var k := AfterSpace(s, 0);
      SpacesPassed(s, 0);
      var signed := k < |s| && SignChar(s[k]);
      var first := if signed then k + 1 else k;
      assert AfterDigits(s, first) == |s|;
      assert s[first..|s|] == s[first..];
      assert signed ==> s[k..][1..] == s[first..];
      assert DecimalFrom(s, k);
    }
  }

  const MINUS_ONE: CString := [45, 49]

  lemma MinusOneIsRead()
    ensures Number(MINUS_ONE) == Some(-1)
  {
    assert MINUS_ONE[0..] == MINUS_ONE && MINUS_ONE[1..] == [49] && [49][..0] == [];
    assert DecimalFrom(MINUS_ONE, 0);
    NumberOfDecimal(MINUS_ONE, 0);
  }
}
