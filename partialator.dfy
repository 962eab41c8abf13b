/**
 * The reflection-selection rules of partialator: which reflections of a
 * crystal take part in scaling, which serve as guides for partiality
 * refinement, when the refinement stage runs at all, and the choice of the
 * partiality model. A reflection list is an object whose reflections the
 * selection loops update in place, one reflection at a time, in iterator
 * order.
 */
module Partialator {
  import opened Wrappers

  /** Miller indices. */
  datatype Hkl = Hkl(h: int, k: int, l: int)

  /** The per-reflection values the selection reads and the two flags it sets. */
  datatype Reflection = Reflection(
    hkl: Hkl, redundancy: int, partiality: real, intensity: real, sigma: real,
    scalable: bool, refinable: bool)

  /** A reflection list: RefList, traversed with first_refl/next_refl. */
  class RefList {
    var refls: seq<Reflection>

    constructor (rs: seq<Reflection>)
      ensures refls == rs
    {
      refls := rs;
    }

    /**
     * select_scalable_reflections: each reflection's scalable flag is set
     * by ScalableIf, nothing else changes, and the result is the number of
     * reflections left scalable.
     */
    method SelectScalable(reference: Option<set<Hkl>>) returns (nAcc: int)
      modifies this
      ensures refls == MarkScalable(old(refls), reference)
      ensures nAcc == CountScalable(refls)
    {
      ghost var before := refls;
      nAcc := 0;
      for i := 0 to |refls|
        invariant |refls| == |before|
        invariant forall j :: 0 <= j < i ==> refls[j] == Marked(before[j], reference)
        invariant forall j :: i <= j < |refls| ==> refls[j] == before[j]
        invariant nAcc == CountScalable(refls[..i])
      {
        var r := refls[i];
        var sc := true;
        if r.redundancy == 0 {
          sc := false;
        }
        if r.partiality < 0.05 {
          sc := false;
        }
        if reference.Some? && r.hkl !in reference.value {
          sc := false;
        }
        ghost var prev := refls;
        refls := refls[i := r.(scalable := sc)];
        assert refls[..i + 1] == prev[..i] + [refls[i]];
        CountScalableSnoc(prev[..i], refls[i]);
        if sc {
          nAcc := nAcc + 1;
        }
      }
      assert refls[..|refls|] == refls;
    }

    /**
     * The loop over one crystal's reflections in
     * select_reflections_for_refinement: false (abort) at the first
     * reflection the decision aborts on; otherwise every reflection gets its
     * decided refinable flag and nothing else changes.
     */
    method SelectRefinable(full: map<Hkl, int>, haveReference: bool) returns (ok: bool)
      modifies this
      ensures ok <==> NoAbort(old(refls), full, haveReference)
      ensures ok ==> refls == Refined(old(refls), full, haveReference)
    {
      ghost var before := refls;
      for i := 0 to |refls|
        invariant |refls| == |before|
        invariant forall j :: 0 <= j < i ==> refls[j] == Decided(before[j], full, haveReference)
        invariant forall j :: i <= j < |refls| ==> refls[j] == before[j]
        invariant forall j :: 0 <= j < i ==> !Decide(before[j], full, haveReference).Abort?
      {
        var r := refls[i];
        if r.intensity < 3.0 * r.sigma {
          refls := refls[i := r.(refinable := false)];
          continue;
        }
        if !r.scalable {
          refls := refls[i := r.(refinable := false)];
          continue;
        }
        if r.hkl in full {
          if full[r.hkl] >= 2 || haveReference {
            refls := refls[i := r.(refinable := true)];
          }
        } else {
          return false;
        }
      }
      return true;
    }
  }

  /** The test of select_scalable_reflections: seen on the last check, partiality at least 0.05, and in the reference if there is one. */
  predicate ScalableIf(r: Reflection, reference: Option<set<Hkl>>) {
    r.redundancy != 0 && r.partiality >= 0.05 && (reference.None? || r.hkl in reference.value)
  }

  function Marked(r: Reflection, reference: Option<set<Hkl>>): Reflection {
    r.(scalable := ScalableIf(r, reference))
  }

  function MarkScalable(rs: seq<Reflection>, reference: Option<set<Hkl>>): (r: seq<Reflection>)
    ensures |r| == |rs|
  {
    seq(|rs|, i requires 0 <= i < |rs| => Marked(rs[i], reference))
  }

  /** The number of reflections flagged scalable. */
  function CountScalable(rs: seq<Reflection>): nat {
    if rs == [] then 0
    else CountScalable(rs[..|rs| - 1]) + (if rs[|rs| - 1].scalable then 1 else 0)
  }

  lemma CountScalableSnoc(rs: seq<Reflection>, r: Reflection)
    ensures CountScalable(rs + [r]) == CountScalable(rs) + (if r.scalable then 1 else 0)
  {
    assert (rs + [r])[..|rs|] == rs;
  }

  /** The count is at most the list length, and equals it exactly when every reflection is scalable. */
  lemma {:induction false} CountScalableBounds(rs: seq<Reflection>)
    ensures CountScalable(rs) <= |rs|
    ensures CountScalable(rs) == |rs| <==> forall i :: 0 <= i < |rs| ==> rs[i].scalable
    ensures CountScalable(rs) == 0 <==> forall i :: 0 <= i < |rs| ==> !rs[i].scalable
  {
    if rs != [] {
      var init := rs[..|rs| - 1];
      CountScalableBounds(init);
      assert forall i :: 0 <= i < |init| ==> init[i] == rs[i];
    }
  }

  /** Selecting again gives the same flags: the test does not read the flag it sets. */
  lemma MarkScalableIdempotent(rs: seq<Reflection>, reference: Option<set<Hkl>>)
    ensures MarkScalable(MarkScalable(rs, reference), reference) == MarkScalable(rs, reference)
  {
    var once := MarkScalable(rs, reference);
    assert forall i :: 0 <= i < |rs| ==> Marked(once[i], reference) == once[i];
  }

  /** A reference can only take reflections out of the scalable set. */
  lemma ReferenceNarrows(rs: seq<Reflection>, ref: set<Hkl>, i: nat)
    requires i < |rs| && MarkScalable(rs, Some(ref))[i].scalable
    ensures MarkScalable(rs, None)[i].scalable && rs[i].hkl in ref
  {
  }

  /** What select_reflections_for_refinement does with one reflection. */
  datatype Decision = SetRefinable(flag: bool) | Keep | Abort

  /**
   * Too weak (I < 3 sigma) is tested first and clears the flag; then a
   * reflection that is not scalable has it cleared; a scalable one missing
   * from the merged list aborts; one whose merged counterpart has redundancy
   * at least 2, or any when there is a reference, is set refinable; the
   * rest are left as they were.
   */
  function Decide(r: Reflection, full: map<Hkl, int>, haveReference: bool): Decision {
    if r.intensity < 3.0 * r.sigma then SetRefinable(false)
    else if !r.scalable then SetRefinable(false)
    else if r.hkl !in full then Abort
    else if full[r.hkl] >= 2 || haveReference then SetRefinable(true)
    else Keep
  }

  function Decided(r: Reflection, full: map<Hkl, int>, haveReference: bool): Reflection {
    match Decide(r, full, haveReference)
    case SetRefinable(f) => r.(refinable := f)
    case _ => r
  }

  predicate NoAbort(rs: seq<Reflection>, full: map<Hkl, int>, haveReference: bool) {
    forall i :: 0 <= i < |rs| ==> !Decide(rs[i], full, haveReference).Abort?
  }

  function Refined(rs: seq<Reflection>, full: map<Hkl, int>, haveReference: bool): (r: seq<Reflection>)
    ensures |r| == |rs|
  {
    seq(|rs|, i requires 0 <= i < |rs| => Decided(rs[i], full, haveReference))
  }

  /** The abort happens exactly for a strong, scalable reflection that the merged list lacks. */
  lemma AbortIff(r: Reflection, full: map<Hkl, int>, haveReference: bool)
    ensures Decide(r, full, haveReference).Abort? <==> r.intensity >= 3.0 * r.sigma && r.scalable && r.hkl !in full
  {
  }

  /**
   * After scalable selection and then refinement selection, a reflection
   * that became refinable is strong, was seen on the last check, has
   * partiality at least 0.05, is in the reference if there is one, and its
   * merged counterpart has redundancy at least 2 unless there is a reference.
   */
  lemma NewlyRefinable(rs: seq<Reflection>, reference: Option<set<Hkl>>, full: map<Hkl, int>, i: nat)
    requires i < |rs| && !rs[i].refinable
    requires Refined(MarkScalable(rs, reference), full, reference.Some?)[i].refinable
    ensures rs[i].intensity >= 3.0 * rs[i].sigma
    ensures rs[i].redundancy != 0 && rs[i].partiality >= 0.05
    ensures reference.Some? ==> rs[i].hkl in reference.value
    ensures rs[i].hkl in full && (reference.None? ==> full[rs[i].hkl] >= 2)
  {
    var m := MarkScalable(rs, reference)[i];
    assert Decide(m, full, reference.Some?) == SetRefinable(true);
  }

  /** No two crystals share a reflection list. */
  predicate Separate(crystals: seq<RefList>) {
    forall i, j :: 0 <= i < j < |crystals| ==> crystals[i] != crystals[j]
  }

  /**
   * select_reflections_for_refinement over all crystals: false (abort)
   * exactly when some crystal holds a reflection the decision aborts on;
   * otherwise every crystal's list is refined.
   */
  method SelectForRefinement(crystals: seq<RefList>, full: map<Hkl, int>, haveReference: bool) returns (ok: bool)
    requires Separate(crystals)
    modifies set c | c in crystals
    ensures ok <==> forall i :: 0 <= i < |crystals| ==> NoAbort(old(crystals[i].refls), full, haveReference)
    ensures ok ==> forall i :: 0 <= i < |crystals| ==> crystals[i].refls == Refined(old(crystals[i].refls), full, haveReference)
  {
    for i := 0 to |crystals|
      invariant forall j :: 0 <= j < i ==> NoAbort(old(crystals[j].refls), full, haveReference)
      invariant forall j :: 0 <= j < i ==> crystals[j].refls == Refined(old(crystals[j].refls), full, haveReference)
      invariant forall j :: i <= j < |crystals| ==> crystals[j].refls == old(crystals[j].refls)
    {
      ok := crystals[i].SelectRefinable(full, haveReference);
      if !ok {
        return false;
      }
    }
    return true;
  }

  /** The partiality models partialator knows. */
  datatype PartialityModel = Sphere | Unity

  /** The name each model is given by on the command line. */
  function ModelName(m: PartialityModel): string {
    match m
    case Sphere => "sphere"
    case Unity => "unity"
  }

  /**
   * The --model option: "sphere" or "unity", the sphere model when the
   * option is absent, and an error (exit status 1) for any other name.
   */
  function ParseModel(s: Option<string>): (r: Result<PartialityModel, string>)
    ensures s.None? ==> r == Ok(Sphere)
    ensures s.Some? ==> (r.Ok? <==> s.value in {"sphere", "unity"})
  {
    if s.None? then Ok(Sphere)
    else if s.value == "sphere" then Ok(Sphere)
    else if s.value == "unity" then Ok(Unity)
    else Err("Unknown partiality model")
  }

  /** A model's own name selects it, and a name that is accepted is that model's name. */
  lemma ModelNameRoundTrip(m: PartialityModel, s: string)
    ensures ParseModel(Some(ModelName(m))) == Ok(m)
    ensures ParseModel(Some(s)).Ok? ==> ModelName(ParseModel(Some(s)).value) == s
  {
  }

  /**
   * The early-outs of refine_all: no refinement at all for the unity model;
   * otherwise the number of worker threads, never more than the crystals.
   */
  function RefineThreads(pmodel: PartialityModel, nCrystals: int, nthreads: int): (r: Option<int>)
    ensures r.None? <==> pmodel == Unity
    ensures r.Some? ==> r.value <= nthreads && r.value <= nCrystals
    ensures r.Some? ==> r.value == nthreads || r.value == nCrystals
  {
    if pmodel == Unity then None
    else if nCrystals < nthreads then Some(nCrystals)
    else Some(nthreads)
  }
}
