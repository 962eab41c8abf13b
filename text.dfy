/**
 * Small string and number helpers shared by the geometry parser: the C library
 * calls (strchr, strstr, atof, strtod, atoi, strcasecmp) and the utility
 * functions the parser relies on, over `seq<char>`.
 */
module Text {
  import opened Wrappers

  predicate IsSpaceOrTab(c: char) { c == ' ' || c == '\t' }

  /** The characters C's isspace accepts in the "C" locale. */
  predicate IsCSpace(c: char) {
    c == ' ' || c == '\t' || c == '\n' || c == '\r' || c as int == 11 || c as int == 12
  }

  predicate IsDigit(c: char) { '0' <= c <= '9' }

  /** Drops leading spaces and tabs, as the line loop of the parser does. */
  function DropLeading(s: string): (r: string)
    ensures |r| <= |s| && r == s[|s| - |r|..]
    ensures r == [] || !IsSpaceOrTab(r[0])
    ensures forall i :: 0 <= i < |s| - |r| ==> IsSpaceOrTab(s[i])
  {
    if s != [] && IsSpaceOrTab(s[0]) then DropLeading(s[1..]) else s
  }

  /** Drops trailing spaces and tabs (the utility `notrail`). */
  function NoTrail(s: string): (r: string)
    ensures |r| <= |s| && r == s[..|r|]
    ensures r == [] || !IsSpaceOrTab(r[|r| - 1])
    ensures forall i :: |r| <= i < |s| ==> IsSpaceOrTab(s[i])
  {
    if s != [] && IsSpaceOrTab(s[|s| - 1]) then NoTrail(s[..|s| - 1]) else s
  }

  /** The first position of `c` in `s`: strchr on strings, and the first-match searches by name. */
  function IndexOf<T(==)>(s: seq<T>, c: T): (r: Option<nat>)
    ensures r.None? <==> c !in s
    ensures r.Some? ==> r.value < |s| && s[r.value] == c && c !in s[..r.value]
  {
    if s == [] then None
    else if s[0] == c then Some(0)
    else match IndexOf(s[1..], c)
      case None => None
      case Some(i) => assert s[1..][..i] == s[1..i + 1]; Some(i + 1)
  }

  /** A first occurrence is the one IndexOf finds: the linear searches of the C code agree with it. */
  lemma IndexOfFirst<T>(s: seq<T>, c: T, i: nat)
    requires i < |s| && s[i] == c && c !in s[..i]
    ensures IndexOf(s, c) == Some(i)
  {
  }

  /** `s` cut just before the first `c`, or all of `s` when `c` does not occur. */
  function CutAt(s: string, c: char): (r: string)
    ensures c !in r
    ensures |r| <= |s| && r == s[..|r|]
    ensures |r| < |s| ==> s[|r|] == c
  {
    match IndexOf(s, c)
    case None => s
    case Some(i) => s[..i]
  }

  predicate StartsWith(s: string, prefix: string) {
    |prefix| <= |s| && s[..|prefix|] == prefix
  }

  /** The number of occurrences of `x`: the strstr loop counting placeholders, and the role counts of a dim structure. */
  function Count<T(==)>(s: seq<T>, x: T): (n: nat)
    ensures n == 0 <==> x !in s
  {
    if s == [] then 0
    else
      assert s == s[..|s| - 1] + [s[|s| - 1]];
      Count(s[..|s| - 1], x) + (if s[|s| - 1] == x then 1 else 0)
  }

  /**
   * Splits at `sep` and drops empty pieces, as the utility `assplode` does
   * with ASSPLODE_NONE.
   */
  function SplitNonEmpty(s: string, sep: char): (r: seq<string>)
    ensures forall i :: 0 <= i < |r| ==> r[i] != [] && sep !in r[i]
  {
    var head := CutAt(s, sep);
    var rest := if |head| < |s| then SplitNonEmpty(s[|head| + 1..], sep) else [];
    if head == [] then rest else [head] + rest
  }

  function LowerAscii(c: char): char {
    if 'A' <= c <= 'Z' then (c as int + 32) as char else c
  }

  /** strcasecmp(a, b) == 0 */
  predicate EqualsIgnoreCase(a: string, b: string) {
    |a| == |b| && forall i :: 0 <= i < |a| ==> LowerAscii(a[i]) == LowerAscii(b[i])
  }

  // ---------------------------------------------------------------------
  // Numbers
  // ---------------------------------------------------------------------

  /** The value of a string of decimal digits. */
  function DigitsValue(s: string): nat
    requires forall k :: 0 <= k < |s| ==> IsDigit(s[k])
  {
    if s == [] then 0
    else
      assert IsDigit(s[|s| - 1]);
      10 * DigitsValue(s[..|s| - 1]) + (s[|s| - 1] as int - '0' as int)
  }

  /**
   * Where a scan of a decimal number stands, as strtod reads one character
   * after another: leading whitespace, an optional sign, digits with at
   * most one '.', and an exponent that counts only once it has a digit.
   */
  datatype Phase = Lead | Signed | IntPart | DotFirst | FracPart | ExpMark | ExpSign | ExpPart | Stop

  /**
   * The scan state: the integer digits `ip`, the fraction digits `fp`
   * (`fd` of them), the exponent `e`, the signs, and `used`, the length of
   * the longest prefix read so far that forms a number.
   */
  datatype Scan = Scan(phase: Phase, neg: bool, ip: nat, fp: nat, fd: nat, eneg: bool, e: nat, used: nat)

  const ScanStart := Scan(Lead, false, 0, 0, 0, false, 0, 0)

  function DigitOf(c: char): nat
    requires IsDigit(c)
  {
    c as int - '0' as int
  }

  /** One character at position i. */
  function Step(st: Scan, c: char, i: nat): (r: Scan)
    ensures st.used <= i ==> st.used <= r.used <= i + 1
  {
    var isSign := c == '+' || c == '-';
    var isExp := c == 'e' || c == 'E';
    match st.phase
    case Lead =>
      if IsCSpace(c) then st
      else if isSign then st.(phase := Signed, neg := c == '-')
      else if IsDigit(c) then st.(phase := IntPart, ip := DigitOf(c), used := i + 1)
      else if c == '.' then st.(phase := DotFirst)
      else st.(phase := Stop)
    case Signed =>
      if IsDigit(c) then st.(phase := IntPart, ip := DigitOf(c), used := i + 1)
      else if c == '.' then st.(phase := DotFirst)
      else st.(phase := Stop)
    case IntPart =>
      if IsDigit(c) then st.(ip := 10 * st.ip + DigitOf(c), used := i + 1)
      else if c == '.' then st.(phase := FracPart, used := i + 1)
      else if isExp then st.(phase := ExpMark)
      else st.(phase := Stop)
    case DotFirst =>
      if IsDigit(c) then st.(phase := FracPart, fp := DigitOf(c), fd := 1, used := i + 1)
      else st.(phase := Stop)
    case FracPart =>
      if IsDigit(c) then st.(fp := 10 * st.fp + DigitOf(c), fd := st.fd + 1, used := i + 1)
      else if isExp then st.(phase := ExpMark)
      else st.(phase := Stop)
    case ExpMark =>
      if isSign then st.(phase := ExpSign, eneg := c == '-')
      else if IsDigit(c) then st.(phase := ExpPart, e := DigitOf(c), used := i + 1)
      else st.(phase := Stop)
    case ExpSign =>
      if IsDigit(c) then st.(phase := ExpPart, e := DigitOf(c), used := i + 1)
      else st.(phase := Stop)
    case ExpPart =>
      if IsDigit(c) then st.(e := 10 * st.e + DigitOf(c), used := i + 1)
      else st.(phase := Stop)
    case Stop => st
  }

  /** Scans from position i until the number ends. */
  function Run(s: string, i: nat, st: Scan): (r: Scan)
    requires i <= |s| && st.used <= i
    ensures r.used <= |s|
    decreases |s| - i
  {
    if i == |s| || st.phase == Stop then st else Run(s, i + 1, Step(st, s[i], i))
  }

  /** m times ten to the power e. */
  function ShiftUp(m: real, e: nat): (r: real)
    ensures m >= 0.0 ==> r >= m
  {
    if e == 0 then m else 10.0 * ShiftUp(m, e - 1)
  }

  /** m divided by ten to the power e. */
  function ShiftDown(m: real, e: nat): (r: real)
    ensures m >= 0.0 ==> 0.0 <= r <= m
  {
    if e == 0 then m else ShiftDown(m, e - 1) / 10.0
  }

  /** The number strtod reads from the decimal prefix of `s`, with the count of characters it consumes. */
  datatype Parsed = Parsed(value: real, used: nat)

  /** The value a finished scan stands for. */
  function ScanValue(st: Scan): real {
    var mant := st.ip as real + ShiftDown(st.fp as real, st.fd);
    var scaled := if st.eneg then ShiftDown(mant, st.e) else ShiftUp(mant, st.e);
    if st.neg then -scaled else scaled
  }

  /**
   * strtod restricted to the decimal form. `used` is 0 when no digit is
   * found, and the exponent is consumed only when it has digits.
   */
  function Strtod(s: string): (r: Parsed)
    ensures r.used <= |s|
    ensures r.used > 0 <==> DigitAhead(s)
    ensures s != [] && AllDigits(s) ==> r == Parsed(DigitsValue(s) as real, |s|)
  {
    ScanConverts(s);
    ScanOfDigits(s);
    var st := Run(s, 0, ScanStart);
    Parsed(ScanValue(st), st.used)
  }

  /** atof: the value strtod reads. */
  function Atof(s: string): real { Strtod(s).value }

  /** atoi: whitespace, an optional sign and decimal digits; the scan's integer part is exactly that. */
  function Atoi(s: string): int {
    var st := Run(s, 0, ScanStart);
    if st.neg then -(st.ip as int) else st.ip as int
  }

  /** C's conversion of a double to an int: truncation toward zero. */
  function Trunc(r: real): (i: int)
    ensures 0.0 <= r ==> 0 <= i && i as real <= r < (i + 1) as real
    ensures r < 0.0 ==> i <= 0 && (i - 1) as real < r <= i as real
  {
    if r >= 0.0 then r.Floor else -((-r).Floor)
  }

  predicate AllDigits(s: string) {
    forall k :: 0 <= k < |s| ==> IsDigit(s[k])
  }

  lemma AtofNegativeHalf()
    ensures Atof("-0.5") == -0.5
  {
    var s := "-0.5";
    var st := Scan(FracPart, true, 0, 5, 1, false, 0, 4);
    assert Run(s, 0, ScanStart) == st;
    assert ShiftDown(5.0, 1) == 0.5;
  }

  lemma AtofPlusTwo()
    ensures Atof("+2") == 2.0
  {
    assert Run("+2", 0, ScanStart) == Scan(IntPart, false, 2, 0, 0, false, 0, 2);
  }

  // ---------------------------------------------------------------------
  // What strtod reads
  // ---------------------------------------------------------------------

  predicate IsSign(c: char) { c == '+' || c == '-' }

  /** The first position from i on that holds no whitespace. */
  function BlanksEnd(s: string, i: nat): (j: nat)
    requires i <= |s|
    ensures i <= j <= |s| && (j < |s| ==> !IsCSpace(s[j]))
    ensures forall k :: i <= k < j ==> IsCSpace(s[k])
    decreases |s| - i
  {
    if i < |s| && IsCSpace(s[i]) then BlanksEnd(s, i + 1) else i
  }

  /** A digit follows the leading whitespace, an optional sign and an optional '.'. */
  predicate DigitAhead(s: string) {
    var j0 := BlanksEnd(s, 0);
    var j1 := if j0 < |s| && IsSign(s[j0]) then j0 + 1 else j0;
    var j2 := if j1 < |s| && s[j1] == '.' then j1 + 1 else j1;
    j2 < |s| && IsDigit(s[j2])
  }

  /** Leading whitespace is skipped without reading anything. */
  lemma {:induction false} RunBlanks(s: string, i: nat)
    requires i <= |s|
    ensures Run(s, i, ScanStart) == Run(s, BlanksEnd(s, i), ScanStart)
    decreases |s| - i
  {
    if i < |s| && IsCSpace(s[i]) {
      RunBlanks(s, i + 1);
    }
  }

  /** The prefix read so far never shrinks. */
  lemma {:induction false} RunGrows(s: string, i: nat, st: Scan)
    requires i <= |s| && st.used <= i
    ensures Run(s, i, st).used >= st.used
    decreases |s| - i
  {
    if i < |s| && st.phase != Stop {
      RunGrows(s, i + 1, Step(st, s[i], i));
    }
  }

  /** The scan reads something exactly when a digit follows the blanks, the sign and the '.'. */
  lemma ScanConverts(s: string)
    ensures Run(s, 0, ScanStart).used > 0 <==> DigitAhead(s)
  {
    RunBlanks(s, 0);
    var j0 := BlanksEnd(s, 0);
    if j0 < |s| {
      var st1 := Step(ScanStart, s[j0], j0);
      assert Run(s, j0, ScanStart) == Run(s, j0 + 1, st1);
      if IsDigit(s[j0]) {
        RunGrows(s, j0 + 1, st1);
      } else if (IsSign(s[j0]) || s[j0] == '.') && j0 + 1 < |s| {
        var j1 := j0 + 1;
        var st2 := Step(st1, s[j1], j1);
        assert Run(s, j1, st1) == Run(s, j1 + 1, st2);
        if IsDigit(s[j1]) {
          RunGrows(s, j1 + 1, st2);
        } else if IsSign(s[j0]) && s[j1] == '.' && j1 + 1 < |s| {
          var j2 := j1 + 1;
          var st3 := Step(st2, s[j2], j2);
          assert Run(s, j2, st2) == Run(s, j2 + 1, st3);
          if IsDigit(s[j2]) {
            RunGrows(s, j2 + 1, st3);
          }
        }
      }
    }
  }

  /** The scan of a digit string after its first i digits. */
  lemma {:induction false} RunDigits(s: string, i: nat)
    requires 0 < i <= |s| && AllDigits(s)
    ensures Run(s, i, Scan(IntPart, false, DigitsValue(s[..i]), 0, 0, false, 0, i))
      == Scan(IntPart, false, DigitsValue(s), 0, 0, false, 0, |s|)
    decreases |s| - i
  {
    if i < |s| {
      assert s[..i + 1][..i] == s[..i];
      RunDigits(s, i + 1);
    } else {
      assert s[..i] == s;
    }
  }

  /** A string of decimal digits is scanned whole, as its decimal value. */
  lemma ScanOfDigits(s: string)
    ensures s != [] && AllDigits(s) ==> Run(s, 0, ScanStart) == Scan(IntPart, false, DigitsValue(s), 0, 0, false, 0, |s|)
  {
    if s != [] && AllDigits(s) {
      assert s[..1][..0] == [];
      RunDigits(s, 1);
    }
  }

  /** atoi reads a string of decimal digits as its decimal value. */
  lemma AtoiDigits(s: string)
    requires s != [] && AllDigits(s)
    ensures Atoi(s) == DigitsValue(s)
  {
    ScanOfDigits(s);
  }

  /** The scan of "-" + t, against the scan of t: the sign is set and one more character is read. */
  function Negated(st: Scan): Scan {
    st.(neg := true, used := st.used + 1)
  }

  /** One character of "-" + t gives the step of t, negated. */
  lemma StepNegated(st: Scan, c: char, i: nat)
    requires st.used <= i && st.phase != Lead
    ensures Step(Negated(st), c, i + 1) == Negated(Step(st, c, i))
    ensures Step(st, c, i).phase != Lead && Step(st, c, i).neg == st.neg
  {
  }

  lemma {:induction false} RunNegated(t: string, i: nat, st: Scan)
    requires i <= |t| && st.used <= i && st.phase != Lead
    ensures Run(['-'] + t, i + 1, Negated(st)) == Negated(Run(t, i, st))
    ensures Run(t, i, st).neg == st.neg
    decreases |t| - i
  {
    if i < |t| && st.phase != Stop {
      var u := ['-'] + t;
      assert u[i + 1] == t[i];
      StepNegated(st, t[i], i);
      assert Run(u, i + 1, Negated(st)) == Run(u, i + 2, Negated(Step(st, t[i], i)));
      RunNegated(t, i + 1, Step(st, t[i], i));
    }
  }

  /** A minus sign before a number negates the value read and is read with it. */
  lemma StrtodMinus(t: string)
    requires t != [] && IsDigit(t[0])
    ensures Strtod(['-'] + t) == Parsed(-Strtod(t).value, Strtod(t).used + 1)
    ensures NegativeZero(['-'] + t) <==> Atof(t) == 0.0
    ensures !NegativeZero(t)
  {
    var u := ['-'] + t;
    var b := Step(ScanStart, t[0], 0);
    assert Run(t, 0, ScanStart) == Run(t, 1, b);
    assert Run(u, 0, ScanStart) == Run(u, 2, Negated(b));
    RunNegated(t, 1, b);
    RunGrows(t, 1, b);
  }

  /**
   * Whether the double strtod returns is a negative zero: something is
   * read, with a minus sign, and its value is zero.
   */
  predicate NegativeZero(s: string) {
    var st := Run(s, 0, ScanStart);
    st.used > 0 && st.neg && ScanValue(st) == 0.0
  }

  // ---------------------------------------------------------------------
  // What strtoul reads
  // ---------------------------------------------------------------------

  /** The largest unsigned long of a 64-bit C library. */
  const UlongMax: nat := 0xFFFF_FFFF_FFFF_FFFF

  /** The value strtoul returns and the length it reads, which is 0 when it finds no digit. */
  datatype Unsigned = Unsigned(value: nat, end: nat)

  /** The first position from i on that holds no digit. */
  function DigitsEnd(s: string, i: nat): (j: nat)
    requires i <= |s|
    ensures i <= j <= |s| && (j < |s| ==> !IsDigit(s[j]))
    ensures forall k :: i <= k < j ==> IsDigit(s[k])
    decreases |s| - i
  {
    if i < |s| && IsDigit(s[i]) then DigitsEnd(s, i + 1) else i
  }

  /** A digit follows the leading whitespace and an optional sign. */
  predicate UnsignedAhead(s: string) {
    var j0 := BlanksEnd(s, 0);
    var j1 := if j0 < |s| && IsSign(s[j0]) then j0 + 1 else j0;
    j1 < |s| && IsDigit(s[j1])
  }

  /**
   * strtoul in base 10: whitespace, an optional sign, then decimal digits.
   * A minus sign negates the magnitude modulo 2^64, and a magnitude above
   * ULONG_MAX gives ULONG_MAX.
   */
  function Strtoul(s: string): (r: Unsigned)
    ensures r.value <= UlongMax && r.end <= |s|
    ensures r.end > 0 <==> UnsignedAhead(s)
    ensures r.end > 0 ==> IsDigit(s[r.end - 1])
  {
    var j0 := BlanksEnd(s, 0);
    var signed := j0 < |s| && IsSign(s[j0]);
    var j1 := if signed then j0 + 1 else j0;
    var j2 := DigitsEnd(s, j1);
    if j2 == j1 then Unsigned(0, 0)
    else
      var m := DigitsValue(s[j1..j2]);
      var v := if m > UlongMax then UlongMax
        else if signed && s[j0] == '-' && m > 0 then UlongMax + 1 - m
        else m;
      Unsigned(v, j2)
  }

  /** A digit string is read whole, as its value when that fits an unsigned long. */
  lemma StrtoulDigits(s: string)
    requires s != [] && AllDigits(s)
    ensures Strtoul(s).end == |s|
    ensures DigitsValue(s) <= UlongMax ==> Strtoul(s).value == DigitsValue(s)
  {
    assert BlanksEnd(s, 0) == 0;
    assert DigitsEnd(s, 0) == |s|;
    assert s[0..|s|] == s;
  }

  /** A '+' before the digits changes only the length read. */
  lemma StrtoulPlus(t: string)
    requires t != [] && AllDigits(t)
    ensures Strtoul(['+'] + t) == Unsigned(Strtoul(t).value, |t| + 1)
  {
    StrtoulDigits(t);
    var u := ['+'] + t;
    assert BlanksEnd(u, 0) == 0;
    assert DigitsEnd(u, 1) == |u|;
    assert u[1..|u|] == t && t[0..|t|] == t;
  }

  /** A '-' before the digits negates their value modulo 2^64. */
  lemma StrtoulMinus(t: string)
    requires t != [] && AllDigits(t)
    ensures Strtoul(['-'] + t).end == |t| + 1
    ensures 0 < DigitsValue(t) <= UlongMax ==> Strtoul(['-'] + t).value == UlongMax + 1 - DigitsValue(t)
  {
    var w := ['-'] + t;
    assert BlanksEnd(w, 0) == 0;
    assert DigitsEnd(w, 1) == |w|;
    assert w[1..|w|] == t;
  }

  /** The conversion of an unsigned long to an int: its low 32 bits, read as two's complement. */
  function ToInt32(v: nat): (i: int)
    ensures -0x8000_0000 <= i < 0x8000_0000
    ensures (v - i) % 0x1_0000_0000 == 0
  {
    var w := v % 0x1_0000_0000;
    if w < 0x8000_0000 then w else w - 0x1_0000_0000
  }
}
