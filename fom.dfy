/**
 * The figure-of-merit bookkeeping of libcrystfel: the names of the figures
 * of merit, the per-shell counters a figure-of-merit context keeps, the
 * choice of resolution shell, and the selection of the reflection pairs
 * that enter a comparison of two reflection lists. Reflection lists are
 * maps from Miller indices to the values the selection reads; the
 * resolution of an index, its centricity and its symmetry equivalents come
 * from the unit cell and point group and are parameters here.
 */
module Fom {
  import opened Wrappers
  import opened Text

  // ---------------------------------------------------------------------
  // Figure-of-merit names
  // ---------------------------------------------------------------------

  datatype FomType = R1I | R1F | R2 | RSplit | CC | CCStar | CCAno | CRDAno | RAno | RAnoRSplit | D1Sig | D2Sig

  /** The name a figure of merit is given by. */
  function FomName(t: FomType): string {
    match t
    case R1I => "r1i"
    case R1F => "r1f"
    case R2 => "r2"
    case RSplit => "rsplit"
    case CC => "cc"
    case CCStar => "ccstar"
    case CCAno => "ccano"
    case CRDAno => "crdano"
    case RAno => "rano"
    case RAnoRSplit => "rano/rsplit"
    case D1Sig => "d1sig"
    case D2Sig => "d2sig"
  }

  /**
   * fom_type_from_string: the figure of merit whose name matches s without
   * regard to case; an unknown name is an error (exit status 1).
   */
  function FomTypeFromString(s: string): (r: Result<FomType, string>)
    ensures r.Ok? ==> EqualsIgnoreCase(s, FomName(r.value))
    ensures r.Err? <==> forall t :: !EqualsIgnoreCase(s, FomName(t))
  {
    if EqualsIgnoreCase(s, "r1i") then Ok(R1I)
    else if EqualsIgnoreCase(s, "r1f") then Ok(R1F)
    else if EqualsIgnoreCase(s, "r2") then Ok(R2)
    else if EqualsIgnoreCase(s, "rsplit") then Ok(RSplit)
    else if EqualsIgnoreCase(s, "cc") then Ok(CC)
    else if EqualsIgnoreCase(s, "ccstar") then Ok(CCStar)
    else if EqualsIgnoreCase(s, "ccano") then Ok(CCAno)
    else if EqualsIgnoreCase(s, "crdano") then Ok(CRDAno)
    else if EqualsIgnoreCase(s, "rano") then Ok(RAno)
    else if EqualsIgnoreCase(s, "rano/rsplit") then Ok(RAnoRSplit)
    else if EqualsIgnoreCase(s, "d1sig") then Ok(D1Sig)
    else if EqualsIgnoreCase(s, "d2sig") then Ok(D2Sig)
    else Err("Unknown figure of merit")
  }

  /** Two names that match without regard to case lead to the same figure of merit. */
  lemma FomTypeCaseInsensitive(a: string, b: string)
    requires EqualsIgnoreCase(a, b)
    ensures FomTypeFromString(a) == FomTypeFromString(b)
  {
    forall n: string | |n| == |a|
      ensures EqualsIgnoreCase(a, n) <==> EqualsIgnoreCase(b, n)
    {
      assert forall i :: 0 <= i < |a| ==> LowerAscii(a[i]) == LowerAscii(b[i]);
    }
  }

  /** Every figure of merit is selected by its own name. */
  lemma FomNameRoundTrip(t: FomType)
    ensures FomTypeFromString(FomName(t)) == Ok(t)
  {
    var n := FomName(t);
    match t
    case R1I =>
    case R1F => assert LowerAscii(n[2]) != LowerAscii("r1i"[2]);
    case R2 =>
    case RSplit =>
    case CC => assert LowerAscii(n[0]) != LowerAscii("r2"[0]);
    case CCStar => assert LowerAscii(n[0]) != LowerAscii("rsplit"[0]);
    case CCAno =>
    case CRDAno =>
      assert LowerAscii(n[0]) != LowerAscii("rsplit"[0]);
      assert LowerAscii(n[1]) != LowerAscii("ccstar"[1]);
    case RAno =>
    case RAnoRSplit =>
    case D1Sig => assert LowerAscii(n[0]) != LowerAscii("ccano"[0]);
    case D2Sig =>
      assert LowerAscii(n[0]) != LowerAscii("ccano"[0]);
      assert LowerAscii(n[1]) != LowerAscii("d1sig"[1]);
  }

  /** The figures of merit that collect intensity pairs per shell. */
  predicate Collects(t: FomType) {
    t == CC || t == CCStar || t == CCAno || t == CRDAno
  }

  /** The figures of merit that count the pairs agreeing within their uncertainty. */
  predicate CountsWithin(t: FomType) {
    t == D1Sig || t == D2Sig
  }

  /**
   * The agreement test of add_to_fom for D1SIG and D2SIG:
   * |i1 - i2| < k * sqrt(sig1^2 + sig2^2) with k = 1 or 2, compared here
   * squared, which is the same test because both sides are non-negative.
   */
  predicate Agrees(t: FomType, i1: real, i2: real, sig1: real, sig2: real) {
    var v := sig1 * sig1 + sig2 * sig2;
    (t == D1Sig && (i1 - i2) * (i1 - i2) < v) || (t == D2Sig && (i1 - i2) * (i1 - i2) < 4.0 * v)
  }

  /** Agreement within one sigma implies agreement within two. */
  lemma OneSigmaWithinTwo(i1: real, i2: real, sig1: real, sig2: real)
    requires Agrees(D1Sig, i1, i2, sig1, sig2)
    ensures Agrees(D2Sig, i1, i2, sig1, sig2)
  {
    assert sig1 * sig1 + sig2 * sig2 >= 0.0;
  }

  // ---------------------------------------------------------------------
  // The figure-of-merit context: per-shell counters
  // ---------------------------------------------------------------------

  /**
   * struct fom_context, its counters only: the reflection count per shell,
   * the number of collected pairs per shell (for the correlation figures)
   * and the number of agreeing pairs per shell (for D1SIG and D2SIG). The
   * arrays a figure of merit does not use are not allocated in the C code
   * and have length zero here.
   */
  class FomContext {
    const fom: FomType
    const nshells: nat
    const nmax: int
    var cts: array<int>
    var n: array<int>
    var nWithin: array<int>

    predicate Valid()
      reads this, cts, n, nWithin
    {
      && cts.Length == nshells
      && n.Length == (if Collects(fom) then nshells else 0)
      && nWithin.Length == (if CountsWithin(fom) then nshells else 0)
      && cts != n && cts != nWithin && n != nWithin
      && (forall b :: 0 <= b < nshells ==> cts[b] >= 0)
      && (forall b :: 0 <= b < n.Length ==> 0 <= n[b] <= cts[b] && n[b] <= nmax)
      && (forall b :: 0 <= b < nWithin.Length ==> 0 <= nWithin[b] <= cts[b])
    }

    /** init_fom: every counter the figure of merit uses starts at zero. */
    constructor (fom: FomType, nmax: int, nshells: nat)
      requires Collects(fom) ==> nmax >= 0
      ensures Valid() && fresh(cts) && fresh(n) && fresh(nWithin)
      ensures this.fom == fom && this.nshells == nshells && this.nmax == nmax
      ensures forall b :: 0 <= b < nshells ==> cts[b] == 0
      ensures forall b :: 0 <= b < n.Length ==> n[b] == 0
      ensures forall b :: 0 <= b < nWithin.Length ==> nWithin[b] == 0
    {
      this.fom := fom;
      this.nshells := nshells;
      this.nmax := nmax;
      var c := new int[nshells](_ => 0);
      var cn := new int[if Collects(fom) then nshells else 0](_ => 0);
      var w := new int[if CountsWithin(fom) then nshells else 0](_ => 0);
      cts := c;
      n := cn;
      nWithin := w;
    }

    /**
     * add_to_fom, its counters: the shell's reflection count rises by one;
     * for a correlation figure the shell's pair count rises by one, and
     * false is returned (the assertion fails) when it had already reached
     * nmax; for D1SIG and D2SIG the shell's agreeing count rises by one
     * when the pair agrees. So no shell ever counts more pairs or more
     * agreeing pairs than reflections.
     */
    method AddToFom(i1: real, i2: real, sig1: real, sig2: real, bin: nat) returns (ok: bool)
      requires Valid() && bin < nshells
      modifies cts, n, nWithin
      ensures Valid()
      ensures cts[..] == old(cts[..])[bin := old(cts[bin]) + 1]
      ensures ok <==> !(Collects(fom) && old(n[bin]) >= nmax)
      ensures n[..] == if Collects(fom) && ok then old(n[..])[bin := old(n[bin]) + 1] else old(n[..])
      ensures nWithin[..] == if CountsWithin(fom) && Agrees(fom, i1, i2, sig1, sig2)
        then old(nWithin[..])[bin := old(nWithin[bin]) + 1] else old(nWithin[..])
    {
      cts[bin] := cts[bin] + 1;
      ok := true;
      if Collects(fom) {
        if n[bin] >= nmax {
          return false;
        }
        n[bin] := n[bin] + 1;
      }
      if CountsWithin(fom) && Agrees(fom, i1, i2, sig1, sig2) {
        nWithin[bin] := nWithin[bin] + 1;
      }
    }
  }

  // ---------------------------------------------------------------------
  // Resolution shells
  // ---------------------------------------------------------------------

  /** struct fom_shells: shell j holds resolutions in (rmins[j], rmaxs[j]]. */
  datatype Shells = Shells(rmins: seq<real>, rmaxs: seq<real>)

  predicate Sound(s: Shells) {
    |s.rmins| == |s.rmaxs| >= 1
  }

  predicate InShell(s: Shells, j: nat, d: real)
    requires j < |s.rmins| == |s.rmaxs|
  {
    s.rmins[j] < d <= s.rmaxs[j]
  }

  /** The first shell from j on that holds d. */
  function FirstShell(s: Shells, d: real, j: nat): (r: Option<nat>)
    requires |s.rmins| == |s.rmaxs| && j <= |s.rmins|
    ensures r.None? <==> forall k :: j <= k < |s.rmins| ==> !InShell(s, k, d)
    ensures r.Some? ==> j <= r.value < |s.rmins| && InShell(s, r.value, d)
    ensures r.Some? ==> forall k :: j <= k < r.value ==> !InShell(s, k, d)
    decreases |s.rmins| - j
  {
    if j == |s.rmins| then None
    else if InShell(s, j, d) then Some(j)
    else FirstShell(s, d, j + 1)
  }

  /**
   * get_bin for a reflection at resolution d (twice the resolution of its
   * indices): the first shell holding d; otherwise shell 0 when d is at or
   * below the lowest bound or at or above the highest; None (the assertion
   * fails) when d falls in a gap between shells.
   */
  function GetBin(s: Shells, d: real): (r: Option<nat>)
    requires Sound(s)
    ensures r.Some? ==> r.value < |s.rmins|
    ensures r.None? <==> ((forall k :: 0 <= k < |s.rmins| ==> !InShell(s, k, d))
      && s.rmins[0] < d < s.rmaxs[|s.rmaxs| - 1])
    ensures (exists k :: 0 <= k < |s.rmins| && InShell(s, k, d)) ==>
      r.Some? && InShell(s, r.value, d) && forall k :: 0 <= k < r.value ==> !InShell(s, k, d)
    ensures ((forall k :: 0 <= k < |s.rmins| ==> !InShell(s, k, d))
             && (d <= s.rmins[0] || d >= s.rmaxs[|s.rmaxs| - 1])) ==> r == Some(0)
  {
    match FirstShell(s, d, 0)
    case Some(j) => Some(j)
    case None =>
      if d <= s.rmins[0] || d >= s.rmaxs[|s.rmaxs| - 1] then Some(0) else None
  }

  /** The loop of get_bin; -1 is what it returns when the assertion is compiled out. */
  method GetBinLoop(s: Shells, d: real) returns (bin: int)
    requires Sound(s)
    ensures bin == match GetBin(s, d) case Some(j) => j case None => -1
  {
    bin := -1;
    var j := 0;
    while j < |s.rmins|
      invariant 0 <= j <= |s.rmins|
      invariant FirstShell(s, d, 0) == FirstShell(s, d, j)
    {
      if s.rmins[j] < d && d <= s.rmaxs[j] {
        bin := j;
        break;
      }
      j := j + 1;
    }
    if bin == -1 && d <= s.rmins[0] {
      bin := 0;
    }
    if bin == -1 && d >= s.rmaxs[|s.rmaxs| - 1] {
      bin := 0;
    }
  }

  /** Each shell starts where the one before it ends, as fom_make_resolution_shells builds them. */
  predicate Contiguous(s: Shells)
    requires |s.rmins| == |s.rmaxs|
  {
    forall j :: 0 <= j < |s.rmins| - 1 ==> s.rmaxs[j] == s.rmins[j + 1]
  }

  lemma {:induction false} ShellFrom(s: Shells, d: real, j: nat)
    requires Sound(s) && Contiguous(s) && j < |s.rmins|
    requires s.rmins[j] < d < s.rmaxs[|s.rmaxs| - 1]
    ensures FirstShell(s, d, j).Some?
    decreases |s.rmins| - j
  {
    if !InShell(s, j, d) {
      ShellFrom(s, d, j + 1);
    }
  }

  /** With contiguous shells every resolution gets a shell: the assertion of get_bin cannot fail. */
  lemma ContiguousAlwaysBinned(s: Shells, d: real)
    requires Sound(s) && Contiguous(s)
    ensures GetBin(s, d).Some?
  {
    if s.rmins[0] < d < s.rmaxs[|s.rmaxs| - 1] {
      ShellFrom(s, d, 0);
    }
  }

  // ---------------------------------------------------------------------
  // Reflection-pair selection
  // ---------------------------------------------------------------------

  datatype Hkl = Hkl(h: int, k: int, l: int)

  /** The values of a reflection the selection reads; copy_data keeps all of them. */
  datatype FRefl = FRefl(intensity: real, esd: real, redundancy: int)

  /** A reflection of a list, in iterator order; a list may hold an index more than once. */
  datatype Entry = Entry(hkl: Hkl, refl: FRefl)

  /** The options of fom_select_reflections. */
  datatype FomOptions = FomOptions(
    rminFix: real, rmaxFix: real, sigmaCutoff: real,
    ignoreNegs: bool, zeroNegs: bool, mulCutoff: int)

  /** The indices a list holds. */
  function Indices(list: seq<Entry>): set<Hkl> {
    set e | e in list :: e.hkl
  }

  lemma IndicesCons(list: seq<Entry>)
    requires list != []
    ensures Indices(list) == {list[0].hkl} + Indices(list[1..])
  {
    assert forall e :: e in list <==> e == list[0] || e in list[1..];
  }

  lemma IndicesSnoc(list: seq<Entry>, e: Entry)
    ensures Indices(list + [e]) == Indices(list) + {e.hkl}
  {
    assert forall x :: x in list + [e] <==> x in list || x == e;
  }

  /** find_refl: the first reflection of the list with index h, None (NULL) when there is none. */
  function Find(list: seq<Entry>, h: Hkl): (r: Option<FRefl>)
    ensures r.None? <==> h !in Indices(list)
    ensures r.Some? ==> Entry(h, r.value) in list
  {
    if list == [] then None
    else if list[0].hkl == h then Some(list[0].refl)
    else IndicesCons(list); Find(list[1..], h)
  }

  /** Why a pair shared by both lists is skipped, or that it is taken. */
  datatype Kind = Sigma | Negative | Multiplicity | Resolution | Taken

  /**
   * The tests in their order: either I below sigma_cutoff times its
   * uncertainty; with ignore_negs, either I negative; either redundancy
   * below mul_cutoff; then, when the bound is positive, a resolution below
   * rmin_fix or above rmax_fix.
   */
  function Judge(r1: FRefl, r2: FRefl, d: real, o: FomOptions): Kind {
    if r1.intensity < o.sigmaCutoff * r1.esd || r2.intensity < o.sigmaCutoff * r2.esd then Sigma
    else if o.ignoreNegs && (r1.intensity < 0.0 || r2.intensity < 0.0) then Negative
    else if r1.redundancy < o.mulCutoff || r2.redundancy < o.mulCutoff then Multiplicity
    else if o.rminFix > 0.0 && d < o.rminFix then Resolution
    else if o.rmaxFix > 0.0 && d > o.rmaxFix then Resolution
    else Taken
  }

  /**
   * What nneg counts: a pair skipped for a negative intensity, or, with
   * zero_negs, a pair one of whose intensities is clamped to zero; the
   * clamp happens before the resolution tests, so such a pair counts even
   * when those tests then skip it.
   */
  predicate NegCounts(r1: FRefl, r2: FRefl, k: Kind, o: FomOptions) {
    || k == Negative
    || (o.zeroNegs && (k == Resolution || k == Taken) && (r1.intensity < 0.0 || r2.intensity < 0.0))
  }

  /** The intensity stored in an accepted copy: clamped at zero under zero_negs. */
  function Kept(x: real, o: FomOptions): real {
    if o.zeroNegs && x < 0.0 then 0.0 else x
  }

  /**
   * The tests of the first loop of fom_select_reflections for one pair, in
   * their order, with the clamping of zero_negs between the multiplicity
   * and the resolution tests: the pair's kind, whether it adds to nneg, and
   * the intensities a taken pair is copied with.
   */
  method Examine(r1: FRefl, r2: FRefl, res: real, o: FomOptions) returns (k: Kind, neg: bool, val1: real, val2: real)
    ensures k == Judge(r1, r2, res, o)
    ensures neg <==> NegCounts(r1, r2, k, o)
    ensures k == Taken ==> val1 == Kept(r1.intensity, o) && val2 == Kept(r2.intensity, o)
  {
    val1, val2 := r1.intensity, r2.intensity;
    neg := false;
    if val1 < o.sigmaCutoff * r1.esd || val2 < o.sigmaCutoff * r2.esd {
      return Sigma, neg, val1, val2;
    }
    if o.ignoreNegs && (val1 < 0.0 || val2 < 0.0) {
      return Negative, true, val1, val2;
    }
    if r1.redundancy < o.mulCutoff || r2.redundancy < o.mulCutoff {
      return Multiplicity, neg, val1, val2;
    }
    if o.zeroNegs {
      var d := false;
      if val1 < 0.0 {
        val1 := 0.0;
        d := true;
      }
      if val2 < 0.0 {
        val2 := 0.0;
        d := true;
      }
      if d {
        neg := true;
      }
    }
    if o.rminFix > 0.0 && res < o.rminFix {
      return Resolution, neg, val1, val2;
    }
    if o.rmaxFix > 0.0 && res > o.rmaxFix {
      return Resolution, neg, val1, val2;
    }
    k := Taken;
  }

  /** The accepted lists built so far and the counters of fom_select_reflections. */
  datatype Pass = Pass(
    acc1: seq<Entry>, acc2: seq<Entry>,
    ncom: int, nrej: int, nneg: int, nmul: int, nres: int, nbij: int, ncen: int)

  const Start := Pass([], [], 0, 0, 0, 0, 0, 0, 0)

  function Bump(n: int, b: bool): int {
    if b then n + 1 else n
  }

  /** One reflection of list1 in the first loop: skipped unless list2 holds its index, then judged. */
  function Step(st: Pass, e: Entry, list2: seq<Entry>, res: Hkl -> real, o: FomOptions): Pass {
    match Find(list2, e.hkl)
    case None => st
    case Some(r2) =>
      var k := Judge(e.refl, r2, 2.0 * res(e.hkl), o);
      var st2 := st.(nrej := Bump(st.nrej, k == Sigma), nneg := Bump(st.nneg, NegCounts(e.refl, r2, k, o)),
                     nmul := Bump(st.nmul, k == Multiplicity), nres := Bump(st.nres, k == Resolution));
      if k == Taken then
        st2.(acc1 := st.acc1 + [Entry(e.hkl, e.refl.(intensity := Kept(e.refl.intensity, o)))],
             acc2 := st.acc2 + [Entry(e.hkl, r2.(intensity := Kept(r2.intensity, o)))],
             ncom := st.ncom + 1)
      else st2
  }

  /** The first loop of fom_select_reflections over the reflections of list1. */
  function FirstLoop(list1: seq<Entry>, list2: seq<Entry>, res: Hkl -> real, o: FomOptions): Pass {
    if list1 == [] then Start
    else Step(FirstLoop(list1[..|list1| - 1], list2, res, o), list1[|list1| - 1], list2, res, o)
  }

  /** The number of reflections of list1 whose index list2 also holds. */
  function Shared(list1: seq<Entry>, list2: seq<Entry>): nat {
    if list1 == [] then 0
    else Shared(list1[..|list1| - 1], list2) + (if list1[|list1| - 1].hkl in Indices(list2) then 1 else 0)
  }

  /** What an accepted copy satisfies: every test was passed, and the intensity is not negative when negatives are ignored or zeroed. */
  predicate AcceptedOne(e: Entry, keys: set<Hkl>, res: Hkl -> real, o: FomOptions) {
    && e.hkl in keys
    && e.refl.redundancy >= o.mulCutoff
    && ((o.ignoreNegs || o.zeroNegs) ==> e.refl.intensity >= 0.0)
    && (!o.zeroNegs ==> e.refl.intensity >= o.sigmaCutoff * e.refl.esd)
    && (o.rminFix > 0.0 ==> 2.0 * res(e.hkl) >= o.rminFix)
    && (o.rmaxFix > 0.0 ==> 2.0 * res(e.hkl) <= o.rmaxFix)
  }

  /** Two accepted lists with the same indices in the same order, as long as the count, every copy accepted. */
  predicate PassSound(st: Pass, keys1: set<Hkl>, keys2: set<Hkl>, res: Hkl -> real, o: FomOptions) {
    && |st.acc1| == |st.acc2| == st.ncom
    && (forall j :: 0 <= j < st.ncom ==> st.acc1[j].hkl == st.acc2[j].hkl)
    && (forall e :: e in st.acc1 ==> AcceptedOne(e, keys1, res, o))
    && (forall e :: e in st.acc2 ==> AcceptedOne(e, keys2, res, o))
  }

  lemma PassSoundGrow(st: Pass, keys1: set<Hkl>, more: set<Hkl>, keys2: set<Hkl>, res: Hkl -> real, o: FomOptions)
    requires PassSound(st, keys1, keys2, res, o) && keys1 <= more
    ensures PassSound(st, more, keys2, res, o)
  {
  }

  /**
   * The pairs accounted for: accepted, or rejected by a test. A pair
   * rejected for a negative intensity is counted in nneg, which under
   * ignore_negs counts nothing else, because no negative intensity is then
   * left to clamp.
   */
  function Tallied(st: Pass, o: FomOptions): int {
    st.ncom + st.nrej + st.nmul + st.nres + (if o.ignoreNegs then st.nneg else 0)
  }

  /** A step keeps the lists sound and counts a shared reflection exactly once. */
  lemma StepFacts(st: Pass, e: Entry, keys1: set<Hkl>, list2: seq<Entry>, res: Hkl -> real, o: FomOptions)
    requires e.hkl in keys1 && PassSound(st, keys1, Indices(list2), res, o)
    ensures var r := Step(st, e, list2, res, o);
      && PassSound(r, keys1, Indices(list2), res, o)
      && Tallied(r, o) == Tallied(st, o) + (if e.hkl in Indices(list2) then 1 else 0)
      && r.nbij == st.nbij && r.ncen == st.ncen
  {
    var r := Step(st, e, list2, res, o);
    if Find(list2, e.hkl).Some? {
      var r2 := Find(list2, e.hkl).value;
      var k := Judge(e.refl, r2, 2.0 * res(e.hkl), o);
      if k == Taken {
        assert e.hkl in Indices(list2) by {
          assert Entry(e.hkl, r2) in list2;
        }
        forall x | x in r.acc1
          ensures AcceptedOne(x, keys1, res, o)
        {
          if x !in st.acc1 {
            assert x == Entry(e.hkl, e.refl.(intensity := Kept(e.refl.intensity, o)));
          }
        }
        forall x | x in r.acc2
          ensures AcceptedOne(x, Indices(list2), res, o)
        {
          if x !in st.acc2 {
            assert x == Entry(e.hkl, r2.(intensity := Kept(r2.intensity, o)));
          }
        }
      }
    }
  }

  /**
   * After the first loop the two accepted lists hold the same indices in the
   * same order, their length is the count, every copy passed the tests, and
   * every shared reflection is counted exactly once: accepted, or under the
   * first test it failed.
   */
  lemma {:induction false} FirstLoopFacts(list1: seq<Entry>, list2: seq<Entry>, res: Hkl -> real, o: FomOptions)
    ensures var st := FirstLoop(list1, list2, res, o);
      && PassSound(st, Indices(list1), Indices(list2), res, o)
      && Tallied(st, o) == Shared(list1, list2)
      && st.nbij == 0 && st.ncen == 0
  {
    if list1 != [] {
      var init := list1[..|list1| - 1];
      var last := list1[|list1| - 1];
      FirstLoopFacts(init, list2, res, o);
      assert list1 == init + [last];
      IndicesSnoc(init, last);
      PassSoundGrow(FirstLoop(init, list2, res, o), Indices(init), Indices(list1), Indices(list2), res, o);
      StepFacts(FirstLoop(init, list2, res, o), last, Indices(list1), list2, res, o);
    }
  }

  /** The Friedel mate of an index. */
  function Friedel(h: Hkl): Hkl {
    Hkl(-h.h, -h.k, -h.l)
  }

  /** find_equiv_in_list for the Friedel mate: the list holds some equivalent of it. */
  predicate HasMate(keys: set<Hkl>, h: Hkl, equivs: Hkl -> set<Hkl>) {
    equivs(Friedel(h)) * keys != {}
  }

  /** Both lists hold a Bijvoet partner of h. */
  predicate Bijvoet(keys1: set<Hkl>, keys2: set<Hkl>, h: Hkl, equivs: Hkl -> set<Hkl>) {
    HasMate(keys1, h, equivs) && HasMate(keys2, h, equivs)
  }

  /**
   * One reflection of the first loop's list1 copy in the anomalous loop:
   * centric ones and those lacking a Bijvoet partner in either copy are
   * skipped, the rest copied with their list2 counterpart.
   */
  function AnomStep(st: Pass, e: Entry, keys1: set<Hkl>, acc2: seq<Entry>, centric: Hkl -> bool, equivs: Hkl -> set<Hkl>): Pass
    requires e.hkl in Indices(acc2)
  {
    var r2 := Find(acc2, e.hkl).value;
    if centric(e.hkl) then st.(ncen := st.ncen + 1)
    else if !Bijvoet(keys1, Indices(acc2), e.hkl, equivs) then st.(nbij := st.nbij + 1)
    else st.(acc1 := st.acc1 + [e], acc2 := st.acc2 + [Entry(e.hkl, r2)], ncom := st.ncom + 1)
  }

  /** The anomalous loop over es, from state st. */
  function AnomLoop(st: Pass, es: seq<Entry>, keys1: set<Hkl>, acc2: seq<Entry>, centric: Hkl -> bool, equivs: Hkl -> set<Hkl>): Pass
    requires Indices(es) <= Indices(acc2)
  {
    if es == [] then st
    else
      var init := es[..|es| - 1];
      IndicesSnoc(init, es[|es| - 1]);
      assert es == init + [es[|es| - 1]];
      AnomStep(AnomLoop(st, init, keys1, acc2, centric, equivs), es[|es| - 1], keys1, acc2, centric, equivs)
  }

  /**
   * Started from empty lists and a zero count, the anomalous loop leaves two
   * lists with the same indices in the same order and as long as the count;
   * every pair kept is acentric, has a Bijvoet partner in both copies and
   * comes from the copies; every reflection is counted once, kept, centric
   * or lacking a partner; and the first loop's counters are untouched.
   */
  lemma {:induction false} AnomLoopFacts(st: Pass, es: seq<Entry>, keys1: set<Hkl>, acc2: seq<Entry>, centric: Hkl -> bool, equivs: Hkl -> set<Hkl>)
    requires Indices(es) <= Indices(acc2)
    requires st.acc1 == [] && st.acc2 == [] && st.ncom == 0
    ensures var r := AnomLoop(st, es, keys1, acc2, centric, equivs);
      && |r.acc1| == |r.acc2| == r.ncom
      && (forall j :: 0 <= j < r.ncom ==> r.acc1[j].hkl == r.acc2[j].hkl)
      && (forall e :: e in r.acc1 ==> e in es && !centric(e.hkl) && Bijvoet(keys1, Indices(acc2), e.hkl, equivs))
      && (forall e :: e in r.acc2 ==> e in acc2)
      && r.ncom + (r.ncen - st.ncen) + (r.nbij - st.nbij) == |es|
      && r.nrej == st.nrej && r.nneg == st.nneg && r.nmul == st.nmul && r.nres == st.nres
  {
    if es != [] {
      var init := es[..|es| - 1];
      var last := es[|es| - 1];
      IndicesSnoc(init, last);
      assert es == init + [last];
      AnomLoopFacts(st, init, keys1, acc2, centric, equivs);
    }
  }

  /** The indices of the first loop's list1 copy are all in its list2 copy. */
  lemma FirstIndices(list1: seq<Entry>, list2: seq<Entry>, res: Hkl -> real, o: FomOptions)
    ensures var st := FirstLoop(list1, list2, res, o); Indices(st.acc1) <= Indices(st.acc2)
  {
    FirstLoopFacts(list1, list2, res, o);
    var st := FirstLoop(list1, list2, res, o);
    forall h | h in Indices(st.acc1)
      ensures h in Indices(st.acc2)
    {
      var e :| e in st.acc1 && e.hkl == h;
      var j :| 0 <= j < |st.acc1| && st.acc1[j] == e;
      assert st.acc2[j] in st.acc2;
    }
  }

  /** The anomalous loop as fom_select_reflections runs it: new lists, ncom from zero, the other counters carried on. */
  function Anomalous(first: Pass, centric: Hkl -> bool, equivs: Hkl -> set<Hkl>): Pass
    requires Indices(first.acc1) <= Indices(first.acc2)
  {
    AnomLoop(first.(acc1 := [], acc2 := [], ncom := 0), first.acc1, Indices(first.acc1), first.acc2, centric, equivs)
  }

  /**
   * What fom_select_reflections evidently means to leave in the caller's
   * accepted lists and return: the first loop's pairs, re-filtered by the
   * anomalous loop when anom is set, and their number.
   */
  function Selected(list1: seq<Entry>, list2: seq<Entry>, res: Hkl -> real, o: FomOptions,
                    anom: bool, centric: Hkl -> bool, equivs: Hkl -> set<Hkl>): Pass
  {
    var first := FirstLoop(list1, list2, res, o);
    FirstIndices(list1, list2, res, o);
    if anom then Anomalous(first, centric, equivs) else first
  }

  /**
   * fom_select_reflections as written: the anomalous loop builds its lists
   * in the function's local variables only, so the caller's lists keep the
   * first loop's pairs while the count returned is the anomalous loop's.
   */
  function SelectedAsWritten(list1: seq<Entry>, list2: seq<Entry>, res: Hkl -> real, o: FomOptions,
                             anom: bool, centric: Hkl -> bool, equivs: Hkl -> set<Hkl>): Pass
  {
    var first := FirstLoop(list1, list2, res, o);
    FirstIndices(list1, list2, res, o);
    if anom then Anomalous(first, centric, equivs).(acc1 := first.acc1, acc2 := first.acc2) else first
  }

  /**
   * One centric reflection in both lists (with no option set): as written,
   * the caller's lists hold one pair while zero is returned.
   */
  lemma SelectedAsWrittenMiscounts(res: Hkl -> real, centric: Hkl -> bool, equivs: Hkl -> set<Hkl>)
    requires centric(Hkl(0, 0, 1))
    ensures var e := Entry(Hkl(0, 0, 1), FRefl(1.0, 0.0, 1));
      var r := SelectedAsWritten([e], [e], res, FomOptions(0.0, 0.0, 0.0, false, false, 0), true, centric, equivs);
      |r.acc1| == 1 && r.ncom == 0
  {
    var e := Entry(Hkl(0, 0, 1), FRefl(1.0, 0.0, 1));
    var o := FomOptions(0.0, 0.0, 0.0, false, false, 0);
    assert [e][..0] == [];
    assert e in [e];
    assert Find([e], e.hkl) == Some(e.refl);
    assert Judge(e.refl, e.refl, 2.0 * res(e.hkl), o) == Taken;
    var first := FirstLoop([e], [e], res, o);
    assert FirstLoop([e][..0], [e], res, o) == Start;
    assert first == Step(Start, e, [e], res, o);
    assert Kept(1.0, o) == 1.0;
    assert first.acc1 == [Entry(e.hkl, e.refl.(intensity := 1.0))];
    FirstIndices([e], [e], res, o);
    var z := first.(acc1 := [], acc2 := [], ncom := 0);
    assert first.acc1 == [e] && first.acc2 == [e];
    assert AnomLoop(z, [e][..0], Indices([e]), [e], centric, equivs) == z;
    assert Anomalous(first, centric, equivs) == AnomStep(z, e, Indices([e]), [e], centric, equivs);
  }

  /**
   * In the corrected selection the count returned is the length of each
   * accepted list, both lists hold the same indices in the same order, every
   * copy passed the tests, and with anom every pair kept is acentric and has
   * a Bijvoet partner among the pairs the first loop took.
   */
  lemma SelectedCountsPairs(list1: seq<Entry>, list2: seq<Entry>, res: Hkl -> real, o: FomOptions,
                            anom: bool, centric: Hkl -> bool, equivs: Hkl -> set<Hkl>)
    ensures var r := Selected(list1, list2, res, o, anom, centric, equivs);
      && |r.acc1| == |r.acc2| == r.ncom
      && (forall j :: 0 <= j < r.ncom ==> r.acc1[j].hkl == r.acc2[j].hkl)
      && (forall e :: e in r.acc1 ==> AcceptedOne(e, Indices(list1), res, o))
      && (forall e :: e in r.acc2 ==> AcceptedOne(e, Indices(list2), res, o))
      && (anom ==> forall e :: e in r.acc1 ==> !centric(e.hkl))
  {
    FirstLoopFacts(list1, list2, res, o);
    FirstIndices(list1, list2, res, o);
    if anom {
      var first := FirstLoop(list1, list2, res, o);
      AnomLoopFacts(first.(acc1 := [], acc2 := [], ncom := 0), first.acc1, Indices(first.acc1), first.acc2, centric, equivs);
    }
  }

  /** The first loop of fom_select_reflections. */
  method FirstPass(list1: seq<Entry>, list2: seq<Entry>, res: Hkl -> real, o: FomOptions) returns (st: Pass)
    ensures st == FirstLoop(list1, list2, res, o)
  {
    st := Start;
    for i := 0 to |list1|
      invariant st == FirstLoop(list1[..i], list2, res, o)
    {
      assert list1[..i + 1][..i] == list1[..i];
      var e := list1[i];
      var f := Find(list2, e.hkl);
      if f.Some? {
        var r2 := f.value;
        var k, neg, val1, val2 := Examine(e.refl, r2, 2.0 * res(e.hkl), o);
        if k == Sigma {
          st := st.(nrej := st.nrej + 1);
        } else if k == Multiplicity {
          st := st.(nmul := st.nmul + 1);
        } else if k == Resolution {
          st := st.(nres := st.nres + 1);
        }
        if neg {
          st := st.(nneg := st.nneg + 1);
        }
        if k == Taken {
          st := st.(acc1 := st.acc1 + [Entry(e.hkl, e.refl.(intensity := val1))],
                    acc2 := st.acc2 + [Entry(e.hkl, r2.(intensity := val2))],
                    ncom := st.ncom + 1);
        }
      }
    }
    assert list1[..|list1|] == list1;
  }

  /** The anomalous loop of fom_select_reflections, over the first loop's copies. */
  method AnomPass(first: Pass, centric: Hkl -> bool, equivs: Hkl -> set<Hkl>) returns (st: Pass)
    requires Indices(first.acc1) <= Indices(first.acc2)
    ensures st == Anomalous(first, centric, equivs)
  {
    var list1, list2 := first.acc1, first.acc2;
    var keys1, keys2 := Indices(list1), Indices(list2);
    st := first.(acc1 := [], acc2 := [], ncom := 0);
    for i := 0 to |list1|
      invariant Indices(list1[..i]) <= Indices(list2)
      invariant st == AnomLoop(first.(acc1 := [], acc2 := [], ncom := 0), list1[..i], keys1, list2, centric, equivs)
    {
      assert list1[..i + 1] == list1[..i] + [list1[i]];
      IndicesSnoc(list1[..i], list1[i]);
      var e := list1[i];
      assert e in list1;
      var r2 := Find(list2, e.hkl).value;
      if centric(e.hkl) {
        st := st.(ncen := st.ncen + 1);
        continue;
      }
      if !HasMate(keys1, e.hkl, equivs) || !HasMate(keys2, e.hkl, equivs) {
        st := st.(nbij := st.nbij + 1);
        continue;
      }
      st := st.(acc1 := st.acc1 + [e], acc2 := st.acc2 + [Entry(e.hkl, r2)], ncom := st.ncom + 1);
    }
    assert list1[..|list1|] == list1;
  }

  /**
   * fom_select_reflections with the anomalous loop's lists handed back to
   * the caller: the accepted lists, the number of pairs in them, and the
   * counters of both loops.
   */
  method FomSelectReflections(list1: seq<Entry>, list2: seq<Entry>, res: Hkl -> real, o: FomOptions,
                              anom: bool, centric: Hkl -> bool, equivs: Hkl -> set<Hkl>) returns (st: Pass)
    ensures st == Selected(list1, list2, res, o, anom, centric, equivs)
    ensures st.ncom == |st.acc1| == |st.acc2|
  {
    st := FirstPass(list1, list2, res, o);
    FirstIndices(list1, list2, res, o);
    if anom {
      st := AnomPass(st, centric, equivs);
    }
    SelectedCountsPairs(list1, list2, res, o, anom, centric, equivs);
  }
}
