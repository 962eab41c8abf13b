/**
 * What a template returned by data_template_new_from_string satisfies: every
 * check after the line loop held, names are unique, groups and collections
 * only refer to panels and groups that exist, and at least one collection
 * is present.
 */
module TemplateValid {
  import opened Wrappers
  import opened Text
  import opened Geometry
  import opened Template
  import opened TemplateProps

  /** A panel of a returned template: complete, with a rail, a clen_for_centering and a sound dim structure. */
  predicate PanelReady(p: Panel, pathDim: int, dimDim: int) {
    && PanelComplete(p)
    && p.rail.Some? && p.clenForCentering.Some?
    && p.dims.Some? && DimsOk(p.dims.value)
    && Placeholders(p.data) == pathDim
    && (p.mask.Some? ==> Placeholders(p.mask) <= pathDim)
    && Count(p.dims.value, PlaceholderDim) == dimDim
  }

  predicate PanelsReady(ps: seq<Panel>, pathDim: int, dimDim: int) {
    forall i :: 0 <= i < |ps| ==> PanelReady(ps[i], pathDim, dimDim)
  }

  predicate TemplateValid(dt: DataTemplate) {
    && Distinct(PanelNames(dt.panels)) && Distinct(BadNames(dt.bad))
    && Distinct(GroupNames(dt.groups)) && Distinct(CollectionNames(dt.collections))
    && MembersIn(dt.groups, |dt.panels|) && GroupsIn(dt.collections, |dt.groups|)
    && |dt.collections| >= 1
    && PanelsReady(dt.panels, dt.pathDim, dt.dimDim)
    && (forall i :: 0 <= i < |dt.bad| ==> dt.bad[i].frame != Unassigned)
  }

  /** A panel with a mask contributes its placeholder count to the mask counts. */
  lemma {:induction false} MaskCountsHas(ps: seq<Panel>, i: nat)
    requires i < |ps| && ps[i].mask.Some?
    ensures Placeholders(ps[i].mask) in MaskCounts(ps)
  {
    var init := ps[..|ps| - 1];
    if i < |ps| - 1 {
      assert init[i] == ps[i];
      MaskCountsHas(init, i);
    }
  }

  /** Values that agree all equal the first. */
  lemma AgreedValues(xs: seq<nat>, x: nat)
    requires !Agree(xs).differs && x in xs
    ensures x == Agree(xs).first
  {
    AgreeFacts(xs);
  }

  /** Checks that pass leave every panel ready and every bad region with a frame. */
  lemma ChecksPassed(dt: DataTemplate, h: DimHelpers)
    requires !ChecksReject(dt, h)
    ensures PanelsReady(SettleAll(dt.panels, h), Agree(DataCounts(dt.panels)).first, Agree(DimCounts(dt.panels, h)).first)
    ensures forall i :: 0 <= i < |dt.bad| ==> dt.bad[i].frame != Unassigned
  {
    var ps := dt.panels;
    var data := Agree(DataCounts(ps));
    var mask := Agree(MaskCounts(ps));
    var dims := Agree(DimCounts(ps, h));
    forall i | 0 <= i < |ps|
      ensures PanelReady(SettleAll(ps, h)[i], data.first, dims.first)
    {
      SettleAllFacts(ps, h, i);
      var q := SettleAll(ps, h)[i];
      assert PanelComplete(ps[i]);
      assert DimsOk(DimsOf(ps[i], h));
      assert DataCounts(ps)[i] == Placeholders(q.data);
      AgreedValues(DataCounts(ps), DataCounts(ps)[i]);
      assert DimCounts(ps, h)[i] == Count(q.dims.value, PlaceholderDim);
      AgreedValues(DimCounts(ps, h), DimCounts(ps, h)[i]);
      if q.mask.Some? {
        MaskCountsHas(ps, i);
        AgreedValues(MaskCounts(ps), Placeholders(q.mask));
      }
    }
  }

  /** Collections resolved against groups stay valid when more groups are added later. */
  lemma GroupsInGrow(cs: seq<Collection>, n: nat, m: nat)
    requires GroupsIn(cs, n) && n <= m
    ensures GroupsIn(cs, m)
  {
  }

  lemma {:induction false} SynthGroupsGrow(gs: seq<RigidGroup>, ps: seq<Panel>, k: nat)
    requires k <= |ps|
    ensures |SynthGroups(gs, ps, k)| >= |gs|
    decreases |ps| - k
  {
    if k < |ps| {
      FindOrAddGroupFacts(gs, ps[k].name);
      SynthGroupsGrow(JoinGroup(gs, ps[k].name, k), ps, k + 1);
    }
  }

  /** Resolution keeps panels, bad regions and the checks' values, and leaves the groups and collections consistent. */
  lemma ResolveValid(st: ParseState)
    requires ParseInv(st) && Resolve(st).Some?
    ensures var dt := Resolve(st).value;
      && dt.panels == st.dt.panels && dt.bad == st.dt.bad
      && dt.pathDim == st.dt.pathDim && dt.dimDim == st.dt.dimDim
      && Distinct(GroupNames(dt.groups)) && Distinct(CollectionNames(dt.collections))
      && MembersIn(dt.groups, |dt.panels|) && GroupsIn(dt.collections, |dt.groups|)
      && |dt.collections| >= 1
  {
    var ps := st.dt.panels;
    ResolveGroupsInv(st.dt.groups, ps, st.rgDefs);
    var gs := ResolveGroups(st.dt.groups, ps, st.rgDefs).value;
    assert CollectionNames(st.dt.collections) == [];
    ResolveCollectionsInv(st.dt.collections, gs, st.rgcDefs);
    var cs := ResolveCollections(st.dt.collections, gs, st.rgcDefs).value;
    var gs2 := if st.rgDefs == [] then SynthGroups(gs, ps, 0) else gs;
    if st.rgDefs == [] {
      SynthGroupsInv(gs, ps, 0);
      SynthGroupsGrow(gs, ps, 0);
    }
    GroupsInGrow(cs, |gs|, |gs2|);
    if st.rgcDefs == [] {
      DefaultCollectionInv(cs, |gs2|);
    }
  }

  /** Every template data_template_new_from_string returns satisfies TemplateValid. */
  lemma BuildValid(s: string, h: DimHelpers)
    requires Build(s, h).Some?
    ensures TemplateValid(Build(s, h).value)
  {
    var st := ParseAll(StartState, Lines(Normalise(s)), h);
    StartInv();
    ParseAllInv(StartState, Lines(Normalise(s)), h);
    var v := Validate(st, h);
    ValidateFacts(st, h);
    assert !v.reject;
    ChecksPassed(st.dt, h);
    SettleAllNames(st.dt.panels, h);
    assert ParseInv(v);
    ResolveValid(v);
  }
}
