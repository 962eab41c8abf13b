/**
 * The direction-expression evaluator of the geometry format
 * (assplode_algebraic and dir_conv): an expression such as "-0.5x+2y" is
 * split into signed terms, each term must end in an axis letter, and the
 * coefficients are summed per axis.
 */
module Direction {
  import opened Wrappers
  import opened Text

  datatype Vec3 = Vec3(x: real, y: real, z: real) {
    function Plus(o: Vec3): Vec3 { Vec3(x + o.x, y + o.y, z + o.z) }
  }

  const Zero := Vec3(0.0, 0.0, 0.0)

  predicate IsSign(c: char) { c == '+' || c == '-' }
  predicate IsAxis(c: char) { c == 'x' || c == 'y' || c == 'z' }

  /** The characters a direction expression may contain, besides spaces. */
  predicate IsAllowed(c: char) { IsDigit(c) || c == '.' || IsSign(c) || IsAxis(c) }

  predicate AllAllowed(t: string) {
    forall k :: 0 <= k < |t| ==> IsAllowed(t[k])
  }

  /** A '+' is put in front when the expression does not start with a sign. */
  function WithSign(a: string): (r: string)
    ensures r != [] && IsSign(r[0])
  {
    if a != [] && IsSign(a[0]) then a else "+" + a
  }

  /** The expression with its spaces skipped. */
  function RemoveSpaces(s: string): (r: string)
    ensures ' ' !in r
    ensures |r| <= |s|
  {
    if s == [] then []
    else if s[|s| - 1] == ' ' then RemoveSpaces(s[..|s| - 1])
    else RemoveSpaces(s[..|s| - 1]) + [s[|s| - 1]]
  }

  /** Splits before every sign: each sign opens a new term, every other character extends the current one. */
  function SplitAtSigns(s: string): (r: seq<string>)
    ensures |r| == 0 <==> s == []
  {
    if s == [] then []
    else
      var c := s[|s| - 1];
      var p := SplitAtSigns(s[..|s| - 1]);
      if IsSign(c) || p == [] then p + [[c]]
      else ExtendLast(p, c)
  }

  /** The last term with one more character. */
  function ExtendLast(p: seq<string>, c: char): (r: seq<string>)
    requires p != []
    ensures |r| == |p|
  {
    p[..|p| - 1] + [p[|p| - 1] + [c]]
  }

  /** assplode_algebraic: the signed terms, or None when a character outside the alphabet occurs. */
  function Terms(a: string): (r: Option<seq<string>>)
    ensures r.Some? ==> forall i :: 0 <= i < |r.value| ==> r.value[i] != []
  {
    var t := RemoveSpaces(WithSign(a));
    SplitAtSignsNonEmpty(t);
    if AllAllowed(t) then Some(SplitAtSigns(t)) else None
  }

  /** No term is empty: each starts with the character that opened it. */
  lemma {:induction false} SplitAtSignsNonEmpty(s: string)
    ensures forall i :: 0 <= i < |SplitAtSigns(s)| ==> SplitAtSigns(s)[i] != []
  {
    if s != [] {
      var c := s[|s| - 1];
      var p := SplitAtSigns(s[..|s| - 1]);
      SplitAtSignsNonEmpty(s[..|s| - 1]);
      if !(IsSign(c) || p == []) {
        var q := ExtendLast(p, c);
        assert forall i :: 0 <= i < |q| - 1 ==> q[i] == p[i];
      }
    }
  }

  /** The coefficient of a term whose axis letter has been chopped off. */
  function Coefficient(c: string): real {
    if |c| == 1 && c[0] == '+' then 1.0
    else if |c| == 1 && c[0] == '-' then -1.0
    else if |c| == 0 then 1.0
    else Atof(c)
  }

  function AddOnAxis(v: Vec3, axis: char, c: real): Vec3 {
    if axis == 'x' then v.(x := v.x + c)
    else if axis == 'y' then v.(y := v.y + c)
    else v.(z := v.z + c)
  }

  /** Whether the evaluation succeeded, and the three accumulators as they stand when it stops. */
  datatype DirResult = DirResult(ok: bool, v: Vec3)

  const Start := DirResult(true, Zero)

  /** The last character of a term, where its axis letter should be; an empty term, which the splitting never makes, has none. */
  function AxisOf(t: string): char {
    if t == [] then ' ' else t[|t| - 1]
  }

  /** Adds the terms to `start` in order, stopping at the first term that does not end in an axis letter. */
  function SumTermsFrom(start: DirResult, ts: seq<string>): DirResult {
    if ts == [] then start
    else
      var r := SumTermsFrom(start, ts[..|ts| - 1]);
      var t := ts[|ts| - 1];
      var axis := AxisOf(t);
      if !r.ok then r
      else if !IsAxis(axis) then DirResult(false, r.v)
      else DirResult(true, AddOnAxis(r.v, axis, Coefficient(t[..|t| - 1])))
  }

  /** dir_conv: the accumulated vector and whether the expression was valid. */
  function DirConv(a: string): DirResult {
    match Terms(a)
    case None => DirResult(false, Zero)
    case Some(ts) => SumTermsFrom(Start, ts)
  }

  // ---------------------------------------------------------------------
  // The C loops
  // ---------------------------------------------------------------------

  /** assplode_algebraic: the sign put in front when missing, then the splitting loop. */
  method AssplodeAlgebraic(a: string) returns (ok: bool, bits: seq<string>)
    ensures ok <==> Terms(a).Some?
    ensures ok ==> bits == Terms(a).value
  {
    var w := WithSign(a);
    ok, bits := SplitLoop(w);
  }

  /** The loop of assplode_algebraic over the signed expression, one character at a time. */
  method SplitLoop(w: string) returns (ok: bool, bits: seq<string>)
    ensures ok <==> AllAllowed(RemoveSpaces(w))
    ensures ok ==> bits == SplitAtSigns(RemoveSpaces(w))
  {
    bits := [];
    var i := 0;
    while i < |w|
      invariant 0 <= i <= |w|
      invariant bits == SplitAtSigns(RemoveSpaces(w[..i]))
      invariant AllAllowed(RemoveSpaces(w[..i]))
    {
      var ch := w[i];
      if ch == ' ' {
        PrefixStep(w, i);
      } else {
        if !IsAllowed(ch) {
          InvalidSurvives(w, i + 1, i);
          return false, [];
        }
        SplitStep(w, i);
        if IsSign(ch) || bits == [] {
          bits := bits + [[ch]];
        } else {
          bits := bits[..|bits| - 1] + [bits[|bits| - 1] + [ch]];
        }
      }
      i := i + 1;
    }
    assert w[..i] == w;
    return true, bits;
  }

  /** One non-space character of the loop: it opens a new term or extends the last, and keeps the alphabet. */
  lemma SplitStep(w: string, i: nat)
    requires i < |w| && w[i] != ' ' && IsAllowed(w[i]) && AllAllowed(RemoveSpaces(w[..i]))
    ensures AllAllowed(RemoveSpaces(w[..i + 1]))
    ensures SplitAtSigns(RemoveSpaces(w[..i + 1])) ==
      var p := SplitAtSigns(RemoveSpaces(w[..i]));
      if IsSign(w[i]) || p == [] then p + [[w[i]]] else ExtendLast(p, w[i])
  {
    PrefixStep(w, i);
    SplitAtSignsSnoc(RemoveSpaces(w[..i]), w[i]);
    AllowedSnoc(RemoveSpaces(w[..i]), w[i]);
  }

  /** RemoveSpaces of one more character of the prefix. */
  lemma PrefixStep(w: string, i: nat)
    requires i < |w|
    ensures RemoveSpaces(w[..i + 1]) == if w[i] == ' ' then RemoveSpaces(w[..i]) else RemoveSpaces(w[..i]) + [w[i]]
  {
    assert w[..i + 1][..i] == w[..i];
  }

  lemma SplitAtSignsSnoc(t: string, c: char)
    ensures SplitAtSigns(t + [c]) ==
      var p := SplitAtSigns(t);
      if IsSign(c) || p == [] then p + [[c]] else ExtendLast(p, c)
  {
    assert (t + [c])[..|t|] == t;
  }

  lemma AllowedSnoc(t: string, c: char)
    requires AllAllowed(t) && IsAllowed(c)
    ensures AllAllowed(t + [c])
  {
    assert forall k :: 0 <= k < |t| ==> (t + [c])[k] == t[k];
  }

  /** The accumulation loop of dir_conv. */
  method DirConvLoop(a: string) returns (ok: bool, sx: real, sy: real, sz: real)
    ensures DirResult(ok, Vec3(sx, sy, sz)) == DirConv(a)
  {
    var n, bits := AssplodeAlgebraic(a);
    if !n {
      return false, 0.0, 0.0, 0.0;
    }
    ok, sx, sy, sz := SumTerms(bits);
  }

  /** Sums the terms one by one, giving up at the first term without an axis letter. */
  method SumTerms(bits: seq<string>) returns (ok: bool, sx: real, sy: real, sz: real)
    requires forall i :: 0 <= i < |bits| ==> bits[i] != []
    ensures DirResult(ok, Vec3(sx, sy, sz)) == SumTermsFrom(Start, bits)
  {
    sx, sy, sz := 0.0, 0.0, 0.0;
    var i := 0;
    while i < |bits|
      invariant 0 <= i <= |bits|
      invariant SumTermsFrom(Start, bits[..i]) == DirResult(true, Vec3(sx, sy, sz))
    {
      var t := bits[i];
      var axis := t[|t| - 1];
      SumTermsStep(bits, i);
      if !IsAxis(axis) {
        SumTermsStops(bits, i + 1);
        return false, sx, sy, sz;
      }
      var val := Coefficient(t[..|t| - 1]);
      if axis == 'x' {
        sx := sx + val;
      } else if axis == 'y' {
        sy := sy + val;
      } else {
        sz := sz + val;
      }
      i := i + 1;
    }
    assert bits[..i] == bits;
    ok := true;
  }

  // ---------------------------------------------------------------------
  // Lemmas
  // ---------------------------------------------------------------------

  lemma {:induction false} RemoveSpacesKeeps(s: string, k: nat)
    requires k < |s| && s[k] != ' '
    ensures s[k] in RemoveSpaces(s)
  {
    if k < |s| - 1 {
      RemoveSpacesKeeps(s[..|s| - 1], k);
    }
  }

  /** Once a character outside the alphabet has been seen, the whole expression is invalid. */
  lemma InvalidSurvives(w: string, j: nat, k: nat)
    requires k < j <= |w| && w[k] != ' ' && !IsAllowed(w[k])
    ensures !AllAllowed(RemoveSpaces(w))
  {
    RemoveSpacesKeeps(w, k);
  }

  lemma {:induction false} SumTermsStopped(start: DirResult, ts: seq<string>)
    requires !start.ok
    ensures SumTermsFrom(start, ts) == start
  {
    if ts != [] {
      SumTermsStopped(start, ts[..|ts| - 1]);
    }
  }

  lemma {:induction false} SumTermsAppend(start: DirResult, t1: seq<string>, t2: seq<string>)
    ensures SumTermsFrom(start, t1 + t2) == SumTermsFrom(SumTermsFrom(start, t1), t2)
  {
    if t2 != [] {
      assert (t1 + t2)[..|t1 + t2| - 1] == t1 + t2[..|t2| - 1];
      SumTermsAppend(start, t1, t2[..|t2| - 1]);
    } else {
      assert t1 + t2 == t1;
    }
  }

  /** A failing term ends the evaluation, whatever follows. */
  lemma SumTermsStops(ts: seq<string>, n: nat)
    requires 0 < n <= |ts|
    requires SumTermsFrom(Start, ts[..n - 1]).ok
    requires !IsAxis(AxisOf(ts[n - 1]))
    ensures SumTermsFrom(Start, ts) == DirResult(false, SumTermsFrom(Start, ts[..n - 1]).v)
  {
    var stopped := DirResult(false, SumTermsFrom(Start, ts[..n - 1]).v);
    SumTermsStep(ts, n - 1);
    assert SumTermsFrom(Start, ts[..n]) == stopped;
    assert ts == ts[..n] + ts[n..];
    SumTermsAppend(Start, ts[..n], ts[n..]);
    SumTermsStopped(stopped, ts[n..]);
  }

  /** Starting from a valid accumulator only shifts the result. */
  lemma {:induction false} SumTermsShift(start: DirResult, ts: seq<string>)
    requires start.ok
    ensures SumTermsFrom(start, ts).ok == SumTermsFrom(Start, ts).ok
    ensures SumTermsFrom(start, ts).v == start.v.Plus(SumTermsFrom(Start, ts).v)
  {
    if ts != [] {
      SumTermsShift(start, ts[..|ts| - 1]);
    }
  }

  lemma {:induction false} RemoveSpacesAppend(a: string, b: string)
    ensures RemoveSpaces(a + b) == RemoveSpaces(a) + RemoveSpaces(b)
  {
    if b == [] {
      assert a + b == a;
    } else {
      assert (a + b)[..|a + b| - 1] == a + b[..|b| - 1];
      RemoveSpacesAppend(a, b[..|b| - 1]);
    }
  }

  lemma {:induction false} RemoveSpacesFirst(b: string)
    requires b != [] && b[0] != ' '
    ensures RemoveSpaces(b) != [] && RemoveSpaces(b)[0] == b[0]
  {
    assert b == [b[0]] + b[1..];
    RemoveSpacesAppend([b[0]], b[1..]);
    assert RemoveSpaces([b[0]]) == [b[0]];
  }

  lemma {:induction false} SplitAtSignsAppend(a: string, b: string)
    requires b != [] && IsSign(b[0])
    ensures SplitAtSigns(a + b) == SplitAtSigns(a) + SplitAtSigns(b)
  {
    var c := b[|b| - 1];
    var b' := b[..|b| - 1];
    assert b == b' + [c];
    assert a + b == (a + b') + [c];
    if |b| == 1 {
      assert a + b' == a && b' == [];
      SplitAtSignsSnoc(a, c);
      SplitAtSignsSnoc(b', c);
    } else {
      SplitAtSignsAppend(a, b');
      SplitAtSignsSnoc(a + b', c);
      SplitAtSignsSnoc(b', c);
      var P, Q := SplitAtSigns(a), SplitAtSigns(b');
      if IsSign(c) {
        AppendAssoc(P, Q, [[c]]);
      } else {
        ExtendLastAppend(P, Q, c);
      }
    }
  }

  lemma AppendAssoc(P: seq<string>, Q: seq<string>, R: seq<string>)
    ensures (P + Q) + R == P + (Q + R)
  {
  }

  /** Extending the last term commutes with putting terms in front. */
  lemma ExtendLastAppend(P: seq<string>, Q: seq<string>, c: char)
    requires Q != []
    ensures ExtendLast(P + Q, c) == P + ExtendLast(Q, c)
  {
    assert (P + Q)[..|P + Q| - 1] == P + Q[..|Q| - 1];
    assert (P + Q)[|P + Q| - 1] == Q[|Q| - 1];
  }

  lemma AllowedConcat(ra: string, rb: string)
    ensures (forall i :: 0 <= i < |ra + rb| ==> IsAllowed((ra + rb)[i])) <==>
      (forall i :: 0 <= i < |ra| ==> IsAllowed(ra[i])) && (forall i :: 0 <= i < |rb| ==> IsAllowed(rb[i]))
  {
    if forall i :: 0 <= i < |ra + rb| ==> IsAllowed((ra + rb)[i]) {
      forall i | 0 <= i < |rb| ensures IsAllowed(rb[i]) { assert (ra + rb)[|ra| + i] == rb[i]; }
      forall i | 0 <= i < |ra| ensures IsAllowed(ra[i]) { assert (ra + rb)[i] == ra[i]; }
    }
  }

  /** One more term: the recursion of SumTermsFrom seen from the front of the sequence. */
  lemma SumTermsStep(ts: seq<string>, i: nat)
    requires i < |ts|
    ensures var r := SumTermsFrom(Start, ts[..i]);
      var t := ts[i];
      SumTermsFrom(Start, ts[..i + 1]) ==
        if !r.ok then r
        else if !IsAxis(AxisOf(t)) then DirResult(false, r.v)
        else DirResult(true, AddOnAxis(r.v, AxisOf(t), Coefficient(t[..|t| - 1])))
  {
    assert ts[..i + 1][..i] == ts[..i];
  }

  // --- what dir_conv promises ---

  /** An empty expression fails: its only term is the bare '+' that was put in front. */
  lemma DirConvEmptyFails()
    ensures DirConv("") == DirResult(false, Zero)
  {
    assert WithSign("") == "+";
    assert RemoveSpaces("+") == "+";
    assert SplitAtSigns("+") == ["+"];
    assert Terms("") == Some(["+"]);
    assert SumTermsFrom(Start, ["+"]) == DirResult(false, Zero) by {
      assert ["+"][..0] == [];
      assert !IsAxis(AxisOf("+"));
    }
  }

  /** Any non-space character outside digits, '.', '+', '-', x, y and z makes the expression fail with all three components zero. */
  lemma DirConvInvalidCharacter(a: string, k: nat)
    requires k < |a| && a[k] != ' ' && !IsAllowed(a[k])
    ensures DirConv(a) == DirResult(false, Zero)
  {
    var w := WithSign(a);
    if a != [] && IsSign(a[0]) {
      RemoveSpacesKeeps(w, k);
    } else {
      assert w[k + 1] == a[k];
      RemoveSpacesKeeps(w, k + 1);
    }
  }

  /** The expression succeeds exactly when its characters are in the alphabet and every term ends in an axis letter. */
  lemma DirConvOkIff(a: string)
    ensures DirConv(a).ok <==>
      (Terms(a).Some? && forall i :: 0 <= i < |Terms(a).value| ==> IsAxis(AxisOf(Terms(a).value[i])))
  {
    match Terms(a)
    case None =>
    case Some(ts) => SumTermsOkIff(ts);
  }

  lemma {:induction false} SumTermsOkIff(ts: seq<string>)
    ensures SumTermsFrom(Start, ts).ok <==> forall i :: 0 <= i < |ts| ==> IsAxis(AxisOf(ts[i]))
  {
    if ts != [] {
      SumTermsOkIff(ts[..|ts| - 1]);
      assert forall i :: 0 <= i < |ts| - 1 ==> ts[..|ts| - 1][i] == ts[i];
    }
  }

  /** A sign is put in front only when missing: an unsigned expression means the same as with a leading '+'. */
  lemma DirConvImplicitPlus(a: string)
    requires a == [] || !IsSign(a[0])
    ensures DirConv(a) == DirConv("+" + a)
  {
    assert WithSign("+" + a) == "+" + a;
  }

  lemma SumTermsConcat(ta: seq<string>, tb: seq<string>)
    ensures SumTermsFrom(Start, ta + tb).ok <==> SumTermsFrom(Start, ta).ok && SumTermsFrom(Start, tb).ok
    ensures SumTermsFrom(Start, ta).ok && SumTermsFrom(Start, tb).ok ==>
      SumTermsFrom(Start, ta + tb).v == SumTermsFrom(Start, ta).v.Plus(SumTermsFrom(Start, tb).v)
  {
    SumTermsAppend(Start, ta, tb);
    var sa := SumTermsFrom(Start, ta);
    if sa.ok {
      SumTermsShift(sa, tb);
    } else {
      SumTermsStopped(sa, tb);
    }
  }

  /** Splitting a concatenation of two signed expressions splits each part. */
  lemma TermsConcat(a: string, b: string)
    requires a != [] && IsSign(a[0]) && b != [] && IsSign(b[0])
    ensures Terms(a + b).Some? <==> Terms(a).Some? && Terms(b).Some?
    ensures Terms(a).Some? && Terms(b).Some? ==> Terms(a + b).value == Terms(a).value + Terms(b).value
  {
    var ra, rb := RemoveSpaces(a), RemoveSpaces(b);
    assert (a + b)[0] == a[0];
    RemoveSpacesAppend(a, b);
    assert RemoveSpaces(WithSign(a + b)) == ra + rb;
    AllowedConcat(ra, rb);
    if Terms(a).Some? && Terms(b).Some? {
      RemoveSpacesFirst(b);
      SplitAtSignsAppend(ra, rb);
    }
  }

  /**
   * Coefficients are summed per axis: concatenating two valid signed
   * expressions adds their vectors, and the concatenation is valid exactly
   * when both parts are.
   */
  lemma DirConvConcat(a: string, b: string)
    requires a != [] && IsSign(a[0]) && b != [] && IsSign(b[0])
    ensures DirConv(a + b).ok <==> DirConv(a).ok && DirConv(b).ok
    ensures DirConv(a).ok && DirConv(b).ok ==> DirConv(a + b).v == DirConv(a).v.Plus(DirConv(b).v)
  {
    TermsConcat(a, b);
    if Terms(a).Some? && Terms(b).Some? {
      SumTermsConcat(Terms(a).value, Terms(b).value);
    }
  }

  lemma DirConvPlusX()
    ensures DirConv("+x") == DirResult(true, Vec3(1.0, 0.0, 0.0))
  {
    assert "+x"[..1] == "+";
    SingleTerm("+x");
  }

  lemma DirConvRejectsQ()
    ensures !DirConv("qx").ok
  {
    DirConvInvalidCharacter("qx", 0);
  }

  lemma SingleTerm(t: string)
    requires |t| >= 2 && IsSign(t[0]) && IsAxis(t[|t| - 1])
    requires forall i :: 0 <= i < |t| ==> IsAllowed(t[i]) && (i > 0 ==> !IsSign(t[i]))
    ensures DirConv(t) == DirResult(true, AddOnAxis(Zero, t[|t| - 1], Coefficient(t[..|t| - 1])))
  {
    RemoveSpacesNone(t);
    SplitAtSignsSingle(t);
    assert Terms(t) == Some([t]);
    assert [t][..0] == [];
    assert SumTermsFrom(Start, [t][..0]) == Start;
  }

  lemma {:induction false} RemoveSpacesNone(t: string)
    requires ' ' !in t
    ensures RemoveSpaces(t) == t
  {
    if t != [] {
      RemoveSpacesNone(t[..|t| - 1]);
    }
  }

  lemma {:induction false} SplitAtSignsSingle(t: string)
    requires t != [] && forall i :: 0 < i < |t| ==> !IsSign(t[i])
    ensures SplitAtSigns(t) == [t]
  {
    if |t| > 1 {
      SplitAtSignsSingle(t[..|t| - 1]);
      assert t[..|t| - 1] + [t[|t| - 1]] == t;
    } else {
      assert t[..0] == [];
      assert SplitAtSigns(t[..0]) == [];
      assert [t[0]] == t;
    }
  }

  lemma DirConvNegativeHalfX()
    ensures DirConv("-0.5x") == DirResult(true, Vec3(-0.5, 0.0, 0.0))
  {
    SingleTerm("-0.5x");
    assert "-0.5x"[..4] == "-0.5";
    AtofNegativeHalf();
  }

  lemma DirConvPlusTwoY()
    ensures DirConv("+2y") == DirResult(true, Vec3(0.0, 2.0, 0.0))
  {
    SingleTerm("+2y");
    assert "+2y"[..2] == "+2";
    AtofPlusTwo();
  }

  lemma DirConvTwoAxes()
    ensures DirConv("-0.5x+2y") == DirResult(true, Vec3(-0.5, 2.0, 0.0))
  {
    assert "-0.5x+2y" == "-0.5x" + "+2y";
    DirConvNegativeHalfX();
    DirConvPlusTwoY();
    DirConvConcat("-0.5x", "+2y");
  }
}
